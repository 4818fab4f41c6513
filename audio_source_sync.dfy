/**
 * The audio-source synchronizer of the dialog's settings screen, as a state
 * machine over values. It keeps three things consistent: the persisted
 * audio-source preference, the index shown by the selection control (and
 * whether the control is enabled), and the operating system's
 * record-audio permission, which the environment grants or withdraws.
 * Every permission request the dialog issues is logged by its request code.
 */
module AudioSourceSync {
  import opened Wrappers
  import Utils

  /** The request code of the dialog's record-audio permission request. */
  const RecordAudioRequestCode: int := 213

  /**
   * pref: the stored audio-source preference, None while unset;
   * selection, enabled: the selection control;
   * granted: whether record-audio permission is held;
   * requests: the codes of the permission requests issued so far.
   */
  datatype State = State(
    pref: Option<int>,
    selection: int,
    enabled: bool,
    granted: bool,
    requests: seq<int>)

  /** Reading the audio-source preference: the stored value, or the default while unset. */
  function ReadPref(pref: Option<int>): (v: int)
    ensures pref.Some? ==> v == pref.value
    ensures pref.None? ==> v == Utils.AudioSourceDefault
  {
    pref.GetOr(Utils.AudioSourceDefault)
  }

  /** Writing the audio-source preference: afterwards the entry is set and reads back as `source`. */
  function WritePref(pref: Option<int>, source: int): (p: Option<int>)
    ensures p.Some? && ReadPref(p) == source
  {
    Some(source)
  }

  /** Writing the value that was just written leaves the same stored state. */
  lemma WritePrefIdempotent(pref: Option<int>, source: int)
    ensures WritePref(WritePref(pref, source), source) == WritePref(pref, source)
  {
  }

  /** The control shows exactly the source the preference holds. */
  predicate InSync(s: State) {
    s.selection == ReadPref(s.pref)
  }

  /**
   * Entering the settings screen: the control shows the persisted source (or
   * the default) and is disabled exactly when a screen recording is running.
   */
  function Setup(pref: Option<int>, granted: bool, requests: seq<int>, screenRecording: bool): (s: State)
    ensures s.pref == pref && s.granted == granted && s.requests == requests
    ensures s.selection == ReadPref(pref)
    ensures s.enabled <==> !screenRecording
    ensures InSync(s)
  {
    State(pref, ReadPref(pref), !screenRecording, granted, requests)
  }

  /**
   * The control's item-selected listener for `position`: the position is
   * written through to the preference, and a record-audio request is issued
   * exactly when permission is missing and the position is not the disabled
   * sentinel. The control itself is left as it is.
   */
  function OnItemSelected(s: State, position: int): (t: State)
    ensures ReadPref(t.pref) == position && t.pref.Some?
    ensures t.selection == s.selection && t.enabled == s.enabled && t.granted == s.granted
    ensures |t.requests| == |s.requests| + (if !s.granted && position != Utils.AudioSourceDisabled then 1 else 0)
    ensures t.requests[..|s.requests|] == s.requests
    ensures forall i :: |s.requests| <= i < |t.requests| ==> t.requests[i] == RecordAudioRequestCode
  {
    var requests :=
      if !s.granted && position != Utils.AudioSourceDisabled then s.requests + [RecordAudioRequestCode]
      else s.requests;
    s.(pref := WritePref(s.pref, position), requests := requests)
  }

  /**
   * A permission result: results for other request codes are ignored. For the
   * record-audio code the permission is queried again, and the per-permission
   * `results` play no part; when it is still missing, the preference and the
   * control are both forced to the disabled sentinel, otherwise nothing changes.
   */
  function OnPermissionResult(s: State, requestCode: int, results: seq<int>): (t: State)
    ensures requestCode != RecordAudioRequestCode ==> t == s
    ensures requestCode == RecordAudioRequestCode && s.granted ==> t == s
    ensures requestCode == RecordAudioRequestCode && !s.granted ==>
      t.pref == Some(Utils.AudioSourceDisabled) && t.selection == Utils.AudioSourceDisabled &&
      t.enabled == s.enabled && t.granted == s.granted && t.requests == s.requests
  {
    if requestCode != RecordAudioRequestCode then s
    else if !s.granted then
      s.(pref := WritePref(s.pref, Utils.AudioSourceDisabled), selection := Utils.AudioSourceDisabled)
    else s
  }

  /** The `results` array of a permission result never influences the outcome. */
  lemma PermissionResultsIgnored(s: State, requestCode: int, results1: seq<int>, results2: seq<int>)
    ensures OnPermissionResult(s, requestCode, results1) == OnPermissionResult(s, requestCode, results2)
  {
  }

  /**
   * What can happen to the settings screen once it is up:
   * Pick: the user chooses an item on the control;
   * Redeliver: the framework reports the control's current item to the listener
   *   (as it may after the selection is set programmatically);
   * Result: a permission result arrives;
   * Grant: the environment grants or withdraws record-audio permission.
   */
  datatype Event =
    | Pick(position: int)
    | Redeliver
    | Result(requestCode: int, results: seq<int>)
    | Grant(granted: bool)

  /** One event. A disabled control ignores the user's picks. */
  function Step(s: State, e: Event): State {
    match e
    case Pick(p) => if s.enabled then OnItemSelected(s.(selection := p), p) else s
    case Redeliver => OnItemSelected(s, s.selection)
    case Result(code, results) => OnPermissionResult(s, code, results)
    case Grant(g) => s.(granted := g)
  }

  /** A sequence of events, first to last. */
  function Run(s: State, es: seq<Event>): State
    decreases |es|
  {
    if es == [] then s else Run(Step(s, es[0]), es[1..])
  }

  lemma {:induction false} RunSnoc(s: State, es: seq<Event>, e: Event)
    ensures Run(s, es + [e]) == Step(Run(s, es), e)
    decreases |es|
  {
    if es == [] {
      assert es + [e] == [e];
      assert Run(s, [e]) == Run(Step(s, e), []);
    } else {
      assert (es + [e])[1..] == es[1..] + [e];
      RunSnoc(Step(s, es[0]), es[1..], e);
    }
  }

  /** Every single event keeps the control and the preference in agreement. */
  lemma StepKeepsInSync(s: State, e: Event)
    requires InSync(s)
    ensures InSync(Step(s, e))
  {
  }

  /**
   * After the settings screen is set up, the control and the persisted
   * preference agree after any sequence of events: a choice is written
   * through, and a denial overrides both.
   */
  lemma {:induction false} RunKeepsInSync(s: State, es: seq<Event>)
    requires InSync(s)
    ensures InSync(Run(s, es))
    decreases |es|
  {
    if es != [] {
      StepKeepsInSync(s, es[0]);
      RunKeepsInSync(Step(s, es[0]), es[1..]);
    }
  }

  /**
   * Whatever was chosen before, a record-audio result that finds permission
   * missing leaves both the preference and the control at the disabled sentinel.
   */
  lemma DenialDisables(s: State, es: seq<Event>, results: seq<int>)
    requires !Run(s, es).granted
    ensures var t := Run(s, es + [Result(RecordAudioRequestCode, results)]);
      t.pref == Some(Utils.AudioSourceDisabled) && t.selection == Utils.AudioSourceDisabled
  {
    RunSnoc(s, es, Result(RecordAudioRequestCode, results));
  }

  /** A result for any other request code changes nothing, after any history. */
  lemma ForeignResultIgnored(s: State, es: seq<Event>, code: int, results: seq<int>)
    requires code != RecordAudioRequestCode
    ensures Run(s, es + [Result(code, results)]) == Run(s, es)
  {
    RunSnoc(s, es, Result(code, results));
  }

  /** With permission held, picking any item stores exactly that item and issues no request. */
  lemma PickWhileGranted(s: State, p: int)
    requires s.granted && s.enabled
    ensures var t := Step(s, Pick(p));
      t.pref == Some(p) && t.selection == p && t.requests == s.requests
  {
  }

  /**
   * Picking the same item twice stores the same state as picking it once; only
   * the request log differs, by one more request when permission is missing
   * and the item is not the disabled sentinel.
   */
  lemma PickTwice(s: State, p: int)
    ensures var once := Step(s, Pick(p));
      var twice := Step(once, Pick(p));
      twice.pref == once.pref && twice.selection == once.selection &&
      twice.enabled == once.enabled && twice.granted == once.granted &&
      twice.requests == once.requests +
        (if s.enabled && !s.granted && p != Utils.AudioSourceDisabled then [RecordAudioRequestCode] else [])
  {
  }

  /** Withdrawing record-audio permission. */
  predicate Revokes(e: Event) {
    e.Grant? && !e.granted
  }

  /**
   * While permission is never withdrawn, no permission request is ever issued
   * and nothing is forced to the disabled sentinel by a result.
   */
  lemma {:induction false} GrantedNeverRequests(s: State, es: seq<Event>)
    requires s.granted
    requires forall i :: 0 <= i < |es| ==> !Revokes(es[i])
    ensures Run(s, es).granted && Run(s, es).requests == s.requests
    decreases |es|
  {
    if es != [] {
      GrantedNeverRequests(Step(s, es[0]), es[1..]);
    }
  }

  /**
   * Only record-audio requests are issued, and the log only grows: every
   * request after any history carries the dialog's request code.
   */
  lemma {:induction false} OnlyAudioRequests(s: State, es: seq<Event>)
    requires forall i :: 0 <= i < |s.requests| ==> s.requests[i] == RecordAudioRequestCode
    ensures s.requests <= Run(s, es).requests
    ensures forall i :: 0 <= i < |Run(s, es).requests| ==> Run(s, es).requests[i] == RecordAudioRequestCode
    decreases |es|
  {
    if es != [] {
      OnlyAudioRequests(Step(s, es[0]), es[1..]);
    }
  }

  /**
   * While the control is disabled, the audio source it shows and the
   * preference holds can only stay at `source` or fall to the disabled
   * sentinel: no event switches it to a different source.
   */
  lemma {:induction false} DisabledControlHolds(s: State, es: seq<Event>, source: int)
    requires !s.enabled && InSync(s)
    requires ReadPref(s.pref) == source || ReadPref(s.pref) == Utils.AudioSourceDisabled
    ensures var t := Run(s, es);
      !t.enabled && InSync(t) &&
      (ReadPref(t.pref) == source || ReadPref(t.pref) == Utils.AudioSourceDisabled)
    decreases |es|
  {
    if es != [] {
      DisabledControlHolds(Step(s, es[0]), es[1..], source);
    }
  }

  /**
   * A settings screen opened during a screen recording keeps the recording's
   * audio source: afterwards the control is still disabled and the source is
   * the persisted one or, after a denial, the disabled sentinel.
   */
  lemma RecordingFreezesSource(pref: Option<int>, granted: bool, requests: seq<int>, es: seq<Event>)
    ensures var t := Run(Setup(pref, granted, requests, true), es);
      !t.enabled && t.selection == ReadPref(t.pref) &&
      (ReadPref(t.pref) == ReadPref(pref) || ReadPref(t.pref) == Utils.AudioSourceDisabled)
  {
    DisabledControlHolds(Setup(pref, granted, requests, true), es, ReadPref(pref));
  }
}
