# Recorder dialog: mode choice and audio-source synchronizer

This project models the core of the LineageOS Recorder's `DialogActivity`, the
modal dialog that shows the last audio or video recording (play, delete,
share), the screen-recording settings screen, or only a title.

Two pieces of logic are modelled and proved:

- **Mode resolution** (module `Dialog`, pure). The three "show" flags of the
  opening request select one body by a fixed priority: last video item, then
  last audio item, then settings, else title only. The delete-on-open flag adds
  one delete dialog, after the body is set up. Its kind comes from the sound
  flag, whatever mode was chosen. The MIME tag is `audio/wav` for sound and
  `video/mp4` for screen. Play launches only when an open intent exists.
  Share always launches.
- **Audio-source synchronizer** (module `AudioSourceSync`, a state machine on
  values, and class `Activity.DialogActivity`, which updates the same state in
  place). It keeps three things consistent: the persisted audio-source
  preference, the selection control (index and enabled flag), and the
  record-audio permission. Selecting an index writes it through to the
  preference. The selection issues a request with code 213 exactly when
  permission is missing and the index is not the disabled sentinel. A result
  with code 213 re-queries the permission and, if it is still missing, forces
  both the preference and the control to the disabled sentinel. Results with
  other codes change nothing.

The class's methods are proved against the pure functions. For example,
`OnItemSelected` ensures `SyncState() == AudioSourceSync.OnItemSelected(old(SyncState()), position)`.
The event methods `UserPicks`, `RedeliverSelection`, `OnRequestPermissionsResult` (once the control exists) and `SetPermission` each move the state as one `AudioSourceSync.Step`. So the lemmas about event sequences in `AudioSourceSync` also hold of the activity driven through them. The listener `OnItemSelected` requires the position the control shows, as the framework only ever reports that one.
The main ones:

- `RunKeepsInSync`: after settings setup, the control always shows the source the preference holds.
- `DenialDisables`: after any history, a denied result leaves both at the disabled sentinel.
- `RecordingFreezesSource`: a control disabled by an active recording never moves to a different source.

Files: `wrappers.dfy` (Option), `utils.dfy` (the two constants of `Utils`),
`dialog.dfy`, `audio_source_sync.dfy`, `dialog_activity.dfy`.

The preference is an `Option<int>`, where `None` means unset, so the default
of `getScreenWithAudio` is visible. The permission grant, the recording-state
query, the last-recording URI and whether an open intent exists are inputs
supplied by the environment. Views, intents and dialogs are opaque effects
appended to a log.

## Model

| member | source | states |
|---|---|---|
| `Dialog.ResolveMode` | app/src/main/java/org/lineageos/recorder/DialogActivity.java:84-90 | the chosen mode is requested and no requested mode has higher priority (video > audio > settings > title only); title only iff no show flag is set |
| `Dialog.ResolveModeUnique` | app/src/main/java/org/lineageos/recorder/DialogActivity.java:84-90 | the highest-priority requested mode is unique, so the priority determines the mode |
| `Dialog.MimeType` | app/src/main/java/org/lineageos/recorder/DialogActivity.java:49-50 | the tag is one of the two MIME constants and maps back to its kind (`audio/wav` iff sound) |
| `Dialog.KindOfMime` | app/src/main/java/org/lineageos/recorder/DialogActivity.java:49-50 | the inverse of the tag choice: `audio/wav` is sound, `video/mp4` is screen, anything else is no kind |
| `Dialog.ModeEffects` | app/src/main/java/org/lineageos/recorder/DialogActivity.java:125-137 | each non-title mode sets up exactly one body: the last item of its kind, or the settings screen; title only sets up nothing |
| `Dialog.PlayEffects` | app/src/main/java/org/lineageos/recorder/DialogActivity.java:139-146 | play starts an activity iff an open intent exists; the intent opens the given URI with the kind's MIME tag |
| `Dialog.DeleteEffects` | app/src/main/java/org/lineageos/recorder/DialogActivity.java:148-153 | delete shows exactly one confirmation dialog, for the given kind and URI |
| `Dialog.ShareEffects` | app/src/main/java/org/lineageos/recorder/DialogActivity.java:155-159 | share always starts exactly one share intent for the given URI with the kind's MIME tag |
| `Dialog.OpenEffects` | app/src/main/java/org/lineageos/recorder/DialogActivity.java:80-97 | opening always fades in; the title comes first when one is given and never otherwise; the settings body appears iff settings is the resolved mode; without delete-on-open the fade-in is the last effect |
| `Dialog.DeleteOnOpen` | app/src/main/java/org/lineageos/recorder/DialogActivity.java:94-97 | opening shows exactly one delete dialog when delete-on-open is set and none otherwise; it is the last effect, after the mode's body, and its kind is the sound flag's whatever the mode |
| `AudioSourceSync.ReadPref` | app/src/main/java/org/lineageos/recorder/DialogActivity.java:205-207 | reading the preference gives the stored value, or the default while unset |
| `AudioSourceSync.WritePref` | app/src/main/java/org/lineageos/recorder/DialogActivity.java:201-203 | after a write, the entry is set and reads back as the written source |
| `AudioSourceSync.WritePrefIdempotent` | app/src/main/java/org/lineageos/recorder/DialogActivity.java:201-203 | writing the same source again leaves the same stored state |
| `AudioSourceSync.Setup` | app/src/main/java/org/lineageos/recorder/DialogActivity.java:161-184 | settings setup shows the persisted source (default when unset), disables the control iff a screen recording is active, and starts in sync |
| `AudioSourceSync.OnItemSelected` | app/src/main/java/org/lineageos/recorder/DialogActivity.java:167-172 | the position is written through; one request with code 213 is appended iff permission is missing and the position is not disabled; the control is untouched |
| `AudioSourceSync.OnPermissionResult` | app/src/main/java/org/lineageos/recorder/DialogActivity.java:100-110 | another code changes nothing; code 213 with permission held changes nothing; code 213 without permission forces preference and control to disabled and changes nothing else |
| `AudioSourceSync.PermissionResultsIgnored` | app/src/main/java/org/lineageos/recorder/DialogActivity.java:101-109 | the per-permission results array never affects the outcome |
| `AudioSourceSync.StepKeepsInSync` | app/src/main/java/org/lineageos/recorder/DialogActivity.java:100-184 | every event (pick, re-delivery, result, permission change) keeps the control equal to the stored source |
| `AudioSourceSync.RunKeepsInSync` | app/src/main/java/org/lineageos/recorder/DialogActivity.java:100-184 | after any sequence of events from an in-sync state, the control still equals the stored source |
| `AudioSourceSync.DenialDisables` | app/src/main/java/org/lineageos/recorder/DialogActivity.java:106-109 | after any history, a code-213 result that finds permission missing leaves preference and control at disabled |
| `AudioSourceSync.ForeignResultIgnored` | app/src/main/java/org/lineageos/recorder/DialogActivity.java:103-105 | after any history, a result with another code leaves the state unchanged |
| `AudioSourceSync.PickWhileGranted` | app/src/main/java/org/lineageos/recorder/DialogActivity.java:167-171 | with permission held, picking any item stores exactly that item and issues no request |
| `AudioSourceSync.PickTwice` | app/src/main/java/org/lineageos/recorder/DialogActivity.java:167-171 | picking the same item twice stores the same state as picking it once; only the request log may grow by one more 213 |
| `AudioSourceSync.GrantedNeverRequests` | app/src/main/java/org/lineageos/recorder/DialogActivity.java:169-171 | while permission is never withdrawn, no request is issued and permission stays held |
| `AudioSourceSync.OnlyAudioRequests` | app/src/main/java/org/lineageos/recorder/DialogActivity.java:196-198 | the request log only grows and every request carries code 213 |
| `AudioSourceSync.DisabledControlHolds` | app/src/main/java/org/lineageos/recorder/DialogActivity.java:181-183 | while the control is disabled, it stays disabled and in sync, and the source stays at its value or falls to disabled |
| `AudioSourceSync.RecordingFreezesSource` | app/src/main/java/org/lineageos/recorder/DialogActivity.java:179-183 | a settings screen opened during a recording keeps the persisted source (or disabled after a denial), whatever happens |
| `Activity.DialogActivity.constructor` | app/src/main/java/org/lineageos/recorder/DialogActivity.java:52-56 | a new activity has no control, no effects, no requests and is not finished |
| `Activity.DialogActivity.OnCreate` | app/src/main/java/org/lineageos/recorder/DialogActivity.java:58-98 | effects are the opening plan; for settings the synchronizer state is the settings setup; a last-item mode binds the buttons to its kind; otherwise the control is untouched; delete-on-open arms finish-on-dismiss |
| `Activity.DialogActivity.OnRequestPermissionsResult` | app/src/main/java/org/lineageos/recorder/DialogActivity.java:100-110 | with a control, the state moves as `OnPermissionResult`; without one, a denied 213 result writes disabled and then fails on the missing control |
| `Activity.DialogActivity.SetupAsLastItem` | app/src/main/java/org/lineageos/recorder/DialogActivity.java:125-137 | shows the last-item body for the kind and binds its buttons to that kind |
| `Activity.DialogActivity.OnPlayClicked` | app/src/main/java/org/lineageos/recorder/DialogActivity.java:134 | the play button appends the play plan for the kind of the body shown |
| `Activity.DialogActivity.OnDeleteClicked` | app/src/main/java/org/lineageos/recorder/DialogActivity.java:135 | the delete button appends the delete dialog for the kind of the body shown and arms finish-on-dismiss |
| `Activity.DialogActivity.OnShareClicked` | app/src/main/java/org/lineageos/recorder/DialogActivity.java:136 | the share button appends the share plan for the kind of the body shown |
| `Activity.DialogActivity.PlayLastItem` | app/src/main/java/org/lineageos/recorder/DialogActivity.java:139-146 | appends the play plan |
| `Activity.DialogActivity.DeleteLastItem` | app/src/main/java/org/lineageos/recorder/DialogActivity.java:148-153 | appends the delete dialog and arms finish-on-dismiss |
| `Activity.DialogActivity.OnDeleteDialogDismissed` | app/src/main/java/org/lineageos/recorder/DialogActivity.java:151 | dismissing the delete dialog always finishes the activity |
| `Activity.DialogActivity.ShareLastItem` | app/src/main/java/org/lineageos/recorder/DialogActivity.java:155-159 | appends the share plan |
| `Activity.DialogActivity.SetupAsSettingsScreen` | app/src/main/java/org/lineageos/recorder/DialogActivity.java:161-184 | the synchronizer state becomes the settings setup and the control exists |
| `Activity.DialogActivity.OnItemSelected` | app/src/main/java/org/lineageos/recorder/DialogActivity.java:167-172 | for the position the control shows, the listener moves the state as `AudioSourceSync.OnItemSelected` |
| `Activity.DialogActivity.HasAudioPermission` | app/src/main/java/org/lineageos/recorder/DialogActivity.java:191-194 | the answer is the current permission grant |
| `Activity.DialogActivity.AskAudioPermission` | app/src/main/java/org/lineageos/recorder/DialogActivity.java:196-199 | appends one request with code 213 |
| `Activity.DialogActivity.SetScreenWithAudio` | app/src/main/java/org/lineageos/recorder/DialogActivity.java:201-203 | the preference becomes the written source |
| `Activity.DialogActivity.GetScreenWithAudio` | app/src/main/java/org/lineageos/recorder/DialogActivity.java:205-207 | returns the stored source, or the default while unset |
| `Activity.DialogActivity.UserPicks` | app/src/main/java/org/lineageos/recorder/DialogActivity.java:165-172 | a user pick on the control moves the state as the `Pick` event (ignored while disabled) |
| `Activity.DialogActivity.RedeliverSelection` | app/src/main/java/org/lineageos/recorder/DialogActivity.java:179 | the framework reporting the current item moves the state as the `Redeliver` event |
| `Activity.DialogActivity.SetPermission` | app/src/main/java/org/lineageos/recorder/DialogActivity.java:191-194 | the environment changing the grant moves the state as the `Grant` event |

## Left out

- Layout inflation, window sizing, the title's text, the fade-in animation and back-press handling. These are drawing concerns. The title, the bodies and the fade-in appear only as logged effects.
- The recorder's last-recording helper: descriptions, URI lookup, intent construction and the actual deletion. The URI and whether an open intent exists are parameters. The intents and the confirmation dialog are opaque effect values.
- `Utils`: it is not part of this model. The disabled and default sentinels are constants with assumed values (0 and 1), and no proof depends on the numbers. `isScreenRecording` is a parameter of `OnCreate`.
- Android event timing. Whether and when a programmatic `setSelection` makes the framework call the listener is not fixed. It is the separate `Redeliver` event, which may occur at any point. So the model does not claim that setup during a recording performs no preference write. It only claims the stored source does not change (`RecordingFreezesSource`).
- The spinner's item count. Positions are any integer, and the adapter's range is not modelled.
- Preference durability. `apply()` writes to disk asynchronously; the preference is a plain in-memory value.
- The operating system's permission prompt. It is the environment-set `granted` flag plus the log of request codes.
- The result of the activity started by play (request code 0). The dialog does nothing with it.
- Stale results. Results are matched only by request code, as the code does: a code-213 result that arrives with no request outstanding is handled like any other.
- A destroyed hosting context. The code has no guard: line 108 dereferences the control unconditionally. `OnRequestPermissionsResult` reports that failure as `npe`.
- `Activity.DialogActivity.OnDeleteDialogDismissed`: it requires that a delete dialog was shown, because the dismiss listener exists only on that dialog.
- `AudioSourceSync.Step`: a user pick always runs the listener, even when the item picked is the one already shown. The framework does not report an unchanged selection, so the model over-approximates the listener's runs. The all-histories lemmas stay sound, but the extra request in `PickTwice`'s request-log clause comes from this over-approximation.
- `Activity.DialogActivity.OnItemSelected`: it requires the reported position to be the one the control shows. The framework guarantees this and the code relies on it; the model does not cover a listener called with any other position.
