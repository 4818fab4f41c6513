/**
 * The dialog activity as an object whose fields its callbacks update in
 * place. Each method is proved against the pure functions of `Dialog` and
 * `AudioSourceSync`, so the lemmas proved there hold of the activity.
 */
module Activity {
  import opened Wrappers
  import Utils
  import opened Dialog
  import AudioSourceSync

  class DialogActivity {
    /** The audio-source entry of the shared preference store; None while unset. */
    var pref: Option<int>
    /** Whether record-audio permission is held; set by the environment. */
    var granted: bool
    /** Codes of the permission requests issued, in order. */
    var requests: seq<int>
    /** Whether the settings screen's audio-source control exists. */
    var hasControl: bool
    /** The index the audio-source control shows. */
    var selection: int
    /** Whether the audio-source control accepts input. */
    var enabled: bool
    /** The kind (true for sound) whose play, delete and share buttons are shown, if any. */
    var shownKind: Option<bool>
    /** Opaque effects on views, other activities and the last-recording helper. */
    var effects: seq<Effect>
    /** Whether a delete confirmation dialog is showing whose dismissal finishes the activity. */
    var finishOnDismiss: bool
    /** Whether the activity has finished. */
    var finished: bool

    /** The synchronizer's view of the activity. */
    function SyncState(): AudioSourceSync.State
      reads this
    {
      AudioSourceSync.State(pref, selection, enabled, granted, requests)
    }

    /** A new activity over the current preference store and permission state; no view exists yet. */
    constructor (storedPref: Option<int>, permissionGranted: bool)
      ensures pref == storedPref && granted == permissionGranted
      ensures requests == [] && effects == []
      ensures !hasControl && shownKind == None && enabled && !finishOnDismiss && !finished
    {
      pref := storedPref;
      granted := permissionGranted;
      requests := [];
      hasControl := false;
      shownKind := None;
      selection := Utils.AudioSourceDisabled;
      enabled := true;
      effects := [];
      finishOnDismiss := false;
      finished := false;
    }

    /**
     * onCreate: shows the title when given, sets up the body of the mode the
     * request resolves to, fades in, and opens the delete dialog for the kind
     * the sound flag names when delete-on-open is set. `screenRecording` and
     * `lastUri` are the answers of the recording-state query and of the
     * last-recording lookup.
     */
    method OnCreate(req: DialogRequest, screenRecording: bool, lastUri: Option<Uri>)
      modifies this`effects, this`hasControl, this`shownKind, this`selection, this`enabled, this`finishOnDismiss
      ensures effects == old(effects) + OpenEffects(req, lastUri)
      ensures ResolveMode(req) == LastVideo ==> shownKind == Some(false)
      ensures ResolveMode(req) == LastAudio ==> shownKind == Some(true)
      ensures ResolveMode(req) == Settings || ResolveMode(req) == TitleOnly ==> shownKind == old(shownKind)
      ensures ResolveMode(req) == Settings ==>
        SyncState() == AudioSourceSync.Setup(pref, granted, requests, screenRecording) && hasControl
      ensures ResolveMode(req) != Settings ==>
        hasControl == old(hasControl) && selection == old(selection) && enabled == old(enabled)
      ensures finishOnDismiss == (old(finishOnDismiss) || req.deleteLast)
    {
      if req.title != 0 {
        effects := effects + [SetTitle(req.title)];
      }
      if req.lastScreen {
        SetupAsLastItem(false);
      } else if req.lastSound {
        SetupAsLastItem(true);
      } else if req.settingsScreen {
        SetupAsSettingsScreen(screenRecording);
      }
      effects := effects + [FadeIn];
      if req.deleteLast {
        DeleteLastItem(req.lastSound, lastUri);
      }
    }

    /**
     * onRequestPermissionsResult. When the control does not exist and the
     * preference has been forced to disabled, the unguarded dereference of the
     * control fails: `npe` reports that outcome.
     */
    method OnRequestPermissionsResult(requestCode: int, results: seq<int>) returns (npe: bool)
      modifies this`pref, this`selection
      ensures npe <==> !hasControl && requestCode == AudioSourceSync.RecordAudioRequestCode && !granted
      ensures hasControl ==>
        SyncState() == AudioSourceSync.OnPermissionResult(old(SyncState()), requestCode, results)
      ensures !hasControl ==>
        (selection == old(selection) && pref == (if npe then Some(Utils.AudioSourceDisabled) else old(pref)))
    {
      npe := false;
      if requestCode != AudioSourceSync.RecordAudioRequestCode {
        return;
      }
      var has := HasAudioPermission();
      if !has {
        SetScreenWithAudio(Utils.AudioSourceDisabled);
        if hasControl {
          selection := Utils.AudioSourceDisabled;
        } else {
          npe := true;
        }
      }
    }

    /**
     * setupAsLastItem: the description and the play, delete and share buttons
     * for one kind; the buttons act on that kind.
     */
    method SetupAsLastItem(isSound: bool)
      modifies this`effects, this`shownKind
      ensures effects == old(effects) + ModeEffects(if isSound then LastAudio else LastVideo)
      ensures shownKind == Some(isSound)
    {
      effects := effects + [ShowLastItem(isSound)];
      shownKind := Some(isSound);
    }

    /** The play button of the last-item body: plays the last recording of the body's kind. */
    method OnPlayClicked(uri: Option<Uri>, openable: bool)
      requires shownKind.Some?
      modifies this`effects
      ensures effects == old(effects) + PlayEffects(shownKind.value, uri, openable)
    {
      PlayLastItem(shownKind.value, uri, openable);
    }

    /** The delete button of the last-item body: deletes the last recording of the body's kind. */
    method OnDeleteClicked(uri: Option<Uri>)
      requires shownKind.Some?
      modifies this`effects, this`finishOnDismiss
      ensures effects == old(effects) + DeleteEffects(shownKind.value, uri)
      ensures finishOnDismiss
    {
      DeleteLastItem(shownKind.value, uri);
    }

    /** The share button of the last-item body: shares the last recording of the body's kind. */
    method OnShareClicked(uri: Option<Uri>)
      requires shownKind.Some?
      modifies this`effects
      ensures effects == old(effects) + ShareEffects(shownKind.value, uri)
    {
      ShareLastItem(shownKind.value, uri);
    }

    /** playLastItem; `openable` is whether the helper could build an open intent. */
    method PlayLastItem(isSound: bool, uri: Option<Uri>, openable: bool)
      modifies this`effects
      ensures effects == old(effects) + PlayEffects(isSound, uri, openable)
    {
      var mime := MimeType(isSound);
      if openable {
        effects := effects + [StartForResult(OpenIntent(uri, mime), 0)];
      }
    }

    /** deleteLastItem: shows the helper's confirmation dialog, whose dismissal finishes the activity. */
    method DeleteLastItem(isSound: bool, uri: Option<Uri>)
      modifies this`effects, this`finishOnDismiss
      ensures effects == old(effects) + DeleteEffects(isSound, uri)
      ensures finishOnDismiss
    {
      effects := effects + [ShowDeleteDialog(isSound, uri)];
      finishOnDismiss := true;
    }

    /** The delete dialog is dismissed, confirmed or cancelled: the activity finishes. */
    method OnDeleteDialogDismissed()
      requires finishOnDismiss
      modifies this`finished
      ensures finished
    {
      finished := true;
    }

    /** shareLastItem: starts the helper's share intent for the last recording of the kind. */
    method ShareLastItem(isSound: bool, uri: Option<Uri>)
      modifies this`effects
      ensures effects == old(effects) + ShareEffects(isSound, uri)
    {
      var mime := MimeType(isSound);
      effects := effects + [Start(ShareIntent(uri, mime))];
    }

    /**
     * setupAsSettingsScreen: a new, enabled control is shown at the persisted
     * source, the listener is installed, the control is set to the persisted
     * source again and is disabled when a screen recording is running.
     */
    method SetupAsSettingsScreen(screenRecording: bool)
      modifies this`effects, this`hasControl, this`selection, this`enabled
      ensures effects == old(effects) + ModeEffects(Settings)
      ensures hasControl
      ensures SyncState() == AudioSourceSync.Setup(pref, granted, requests, screenRecording)
    {
      effects := effects + [ShowSettings];
      hasControl := true;
      enabled := true;
      selection := GetScreenWithAudio();
      selection := GetScreenWithAudio();
      if screenRecording {
        enabled := false;
      }
    }

    /**
     * The control's item-selected listener. The framework only ever reports
     * the position the control is showing.
     */
    method OnItemSelected(position: int)
      requires hasControl && position == selection
      modifies this`pref, this`requests
      ensures SyncState() == AudioSourceSync.OnItemSelected(old(SyncState()), position)
    {
      SetScreenWithAudio(position);
      var has := HasAudioPermission();
      if !has && position != Utils.AudioSourceDisabled {
        AskAudioPermission();
      }
    }

    /** hasAudioPermission: queries the permission state afresh. */
    method HasAudioPermission() returns (has: bool)
      ensures has == granted
    {
      has := granted;
    }

    /** askAudioPermission: issues the record-audio request with the dialog's code. */
    method AskAudioPermission()
      modifies this`requests
      ensures requests == old(requests) + [AudioSourceSync.RecordAudioRequestCode]
    {
      requests := requests + [AudioSourceSync.RecordAudioRequestCode];
    }

    /** setScreenWithAudio: stores the audio source. */
    method SetScreenWithAudio(source: int)
      modifies this`pref
      ensures pref == AudioSourceSync.WritePref(old(pref), source)
    {
      pref := Some(source);
    }

    /** getScreenWithAudio: the stored audio source, or the default while unset. */
    method GetScreenWithAudio() returns (source: int)
      ensures source == AudioSourceSync.ReadPref(pref)
    {
      source := pref.GetOr(Utils.AudioSourceDefault);
    }

    /** The user chooses an item on the control; a disabled control ignores it. */
    method UserPicks(position: int)
      requires hasControl
      modifies this`selection, this`pref, this`requests
      ensures SyncState() == AudioSourceSync.Step(old(SyncState()), AudioSourceSync.Pick(position))
    {
      if enabled {
        selection := position;
        OnItemSelected(position);
      }
    }

    /** The framework reports the control's current item to the listener. */
    method RedeliverSelection()
      requires hasControl
      modifies this`pref, this`requests
      ensures SyncState() == AudioSourceSync.Step(old(SyncState()), AudioSourceSync.Redeliver)
    {
      OnItemSelected(selection);
    }

    /** The environment grants or withdraws record-audio permission. */
    method SetPermission(permissionGranted: bool)
      modifies this`granted
      ensures SyncState() == AudioSourceSync.Step(old(SyncState()), AudioSourceSync.Grant(permissionGranted))
    {
      granted := permissionGranted;
    }
  }
}
