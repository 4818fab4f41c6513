/**
 * The pure decisions of the recorder's dialog: which presentation mode an
 * opening request selects, which MIME tag a recording kind carries, and the
 * sequence of opaque effects (views shown, intents started, dialogs opened)
 * that opening the dialog and pressing its buttons produce.
 */
module Dialog {
  import opened Wrappers

  /** The MIME tag of sound recordings. */
  const TypeAudio: string := "audio/wav"

  /** The MIME tag of screen recordings. */
  const TypeVideo: string := "video/mp4"

  /** A content URI handed out by the last-recording helper; opaque here. */
  type Uri = string

  /** The intent extras that configure one dialog (title 0 means "no title"). */
  datatype DialogRequest = DialogRequest(
    title: int,
    lastScreen: bool,
    lastSound: bool,
    settingsScreen: bool,
    deleteLast: bool)

  /** The body the dialog shows: the last video, the last audio item, the settings screen, or nothing but the title. */
  datatype Mode = LastVideo | LastAudio | Settings | TitleOnly

  /** Intents built by the last-recording helper, which is not part of this model. */
  datatype Intent =
    | OpenIntent(uri: Option<Uri>, mime: string)
    | ShareIntent(uri: Option<Uri>, mime: string)

  /** Effects the dialog has on the world outside the audio-source state. */
  datatype Effect =
    | SetTitle(text: int)
    | ShowLastItem(isSound: bool)          // description and play/delete/share buttons for one kind
    | ShowSettings                          // the audio-source settings screen
    | FadeIn                                // the appearance animation
    | ShowDeleteDialog(isSound: bool, uri: Option<Uri>)
    | StartForResult(intent: Intent, requestCode: int)
    | Start(intent: Intent)

  /** Priority of a mode: lower wins. Title-only is the fallback and ranks last. */
  function Rank(m: Mode): nat {
    match m
    case LastVideo => 0
    case LastAudio => 1
    case Settings => 2
    case TitleOnly => 3
  }

  /** Whether `req` asks for mode `m`; the title-only fallback is always available. */
  predicate Requested(req: DialogRequest, m: Mode) {
    match m
    case LastVideo => req.lastScreen
    case LastAudio => req.lastSound
    case Settings => req.settingsScreen
    case TitleOnly => true
  }

  /**
   * The mode chosen in onCreate: the requested mode of highest priority
   * (last video, then last audio, then settings), title-only when none is set.
   */
  function ResolveMode(req: DialogRequest): (m: Mode)
    ensures Requested(req, m)
    ensures forall m' :: Requested(req, m') ==> Rank(m) <= Rank(m')
    ensures m == TitleOnly <==> !req.lastScreen && !req.lastSound && !req.settingsScreen
  {
    if req.lastScreen then LastVideo
    else if req.lastSound then LastAudio
    else if req.settingsScreen then Settings
    else TitleOnly
  }

  /** Two distinct modes never share a rank, so the highest-priority requested mode is unique. */
  lemma ResolveModeUnique(req: DialogRequest, m: Mode)
    requires Requested(req, m)
    requires forall m' :: Requested(req, m') ==> Rank(m) <= Rank(m')
    ensures m == ResolveMode(req)
  {
    var r := ResolveMode(req);
    assert Rank(m) <= Rank(r) && Rank(r) <= Rank(m);
  }

  /** The MIME tag used to open or share the last recording of a kind. */
  function MimeType(isSound: bool): (t: string)
    ensures t == TypeAudio || t == TypeVideo
    ensures KindOfMime(t) == Some(isSound)
  {
    if isSound then TypeAudio else TypeVideo
  }

  /** The recording kind a MIME tag denotes (true for sound), if it is one of the two tags. */
  function KindOfMime(t: string): (k: Option<bool>)
    ensures k == Some(true) <==> t == TypeAudio
    ensures k == Some(false) <==> t == TypeVideo
  {
    if t == TypeAudio then Some(true)
    else if t == TypeVideo then Some(false)
    else None
  }

  /** The view set up for a mode; title-only adds nothing. */
  function ModeEffects(m: Mode): (es: seq<Effect>)
    ensures |es| == if m == TitleOnly then 0 else 1
    ensures m == LastVideo ==> es == [ShowLastItem(false)]
    ensures m == LastAudio ==> es == [ShowLastItem(true)]
    ensures m == Settings ==> es == [ShowSettings]
  {
    match m
    case LastVideo => [ShowLastItem(false)]
    case LastAudio => [ShowLastItem(true)]
    case Settings => [ShowSettings]
    case TitleOnly => []
  }

  /**
   * Pressing delete: the helper's confirmation dialog for the last recording of
   * the kind; closing that dialog, by any route, finishes the activity.
   */
  function DeleteEffects(isSound: bool, uri: Option<Uri>): (es: seq<Effect>)
    ensures CountDeletes(es) == 1
    ensures |es| == 1 && es[0].ShowDeleteDialog? && es[0].isSound == isSound && es[0].uri == uri
  {
    [ShowDeleteDialog(isSound, uri)]
  }

  /**
   * Pressing play: an open intent for the last recording, tagged with the
   * kind's MIME type, is started only when the helper could build one.
   */
  function PlayEffects(isSound: bool, uri: Option<Uri>, openable: bool): (es: seq<Effect>)
    ensures es != [] <==> openable
    ensures |es| <= 1
    ensures forall e :: e in es ==>
      e.StartForResult? && e.intent.OpenIntent? && e.intent.uri == uri &&
      KindOfMime(e.intent.mime) == Some(isSound)
  {
    if openable then [StartForResult(OpenIntent(uri, MimeType(isSound)), 0)] else []
  }

  /** Pressing share: always one share intent for the last recording, tagged with the kind's MIME type. */
  function ShareEffects(isSound: bool, uri: Option<Uri>): (es: seq<Effect>)
    ensures |es| == 1 && es[0].Start? && es[0].intent.ShareIntent?
    ensures es[0].intent.uri == uri && KindOfMime(es[0].intent.mime) == Some(isSound)
  {
    [Start(ShareIntent(uri, MimeType(isSound)))]
  }

  /**
   * Everything onCreate does outside the audio-source state, in order: the
   * title when one is given, the body of the resolved mode, the fade-in, and
   * the delete-on-open dialog when it is requested.
   */
  function OpenEffects(req: DialogRequest, lastUri: Option<Uri>): (es: seq<Effect>)
    ensures |es| >= 1 && FadeIn in es
    ensures req.title != 0 ==> es[0] == SetTitle(req.title)
    ensures req.title == 0 ==> forall e :: e in es ==> !e.SetTitle?
    ensures ShowSettings in es <==> ResolveMode(req) == Settings
    ensures !req.deleteLast ==> es[|es| - 1] == FadeIn
  {
    (if req.title != 0 then [SetTitle(req.title)] else [])
    + ModeEffects(ResolveMode(req))
    + [FadeIn]
    + (if req.deleteLast then DeleteEffects(req.lastSound, lastUri) else [])
  }

  /** The number of delete dialogs among `es`. */
  function CountDeletes(es: seq<Effect>): nat {
    if es == [] then 0
    else (if es[0].ShowDeleteDialog? then 1 else 0) + CountDeletes(es[1..])
  }

  lemma {:induction false} CountDeletesAppend(a: seq<Effect>, b: seq<Effect>)
    ensures CountDeletes(a + b) == CountDeletes(a) + CountDeletes(b)
  {
    if a == [] {
      assert a + b == b;
    } else {
      assert (a + b)[1..] == a[1..] + b;
      CountDeletesAppend(a[1..], b);
    }
  }

  /**
   * Delete-on-open: opening the dialog shows exactly one delete dialog when the
   * flag is set and none otherwise; it is the last effect, after the body of
   * the mode has been set up, and its kind is the one the sound flag names,
   * whichever mode was chosen.
   */
  lemma DeleteOnOpen(req: DialogRequest, lastUri: Option<Uri>)
    ensures var es := OpenEffects(req, lastUri);
      CountDeletes(es) == (if req.deleteLast then 1 else 0) &&
      (req.deleteLast ==> es[|es| - 1] == ShowDeleteDialog(req.lastSound, lastUri)) &&
      (ResolveMode(req) != TitleOnly ==> es[|es| - (if req.deleteLast then 3 else 2)] == ModeEffects(ResolveMode(req))[0])
  {
    var t := if req.title != 0 then [SetTitle(req.title)] else [];
    var m := ModeEffects(ResolveMode(req));
    var d := if req.deleteLast then DeleteEffects(req.lastSound, lastUri) else [];
    CountDeletesAppend(t, m);
    CountDeletesAppend(t + m, [FadeIn]);
    CountDeletesAppend(t + m + [FadeIn], d);
    assert CountDeletes(t) == 0;
    assert CountDeletes(m) == 0;
    assert CountDeletes([FadeIn]) == 0;
  }
}
