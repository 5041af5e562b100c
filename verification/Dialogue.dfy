/**
 What the bridge makes of the events of a call, handled one after the other: the effect of
 each event, the fold over a whole call, and what that fold comes to in terms of the events
 themselves, without reference to the handler.
 */
module Dialogue {
  import opened Basics
  import opened Realtime
  import opened Text

  datatype Speaker = Caller | Assistant

  datatype Turn = Turn(speaker: Speaker, text: string)

  /**
   The part of the bridge that only the event handler writes. `audio` is everything handed to
   the pacing buffer, `cancels` the cancel commands attempted, `faults` the entries made in
   the error log, `heard` the times the silence guard was pushed back.
   */
  datatype View = View(
    speaking: bool,
    responseActive: bool,
    turns: seq<Turn>,
    audio: seq<byte>,
    bargeIns: nat,
    cancels: nat,
    faults: nat,
    heard: nat)

  const QUIET := View(false, false, [], [], 0, 0, 0, 0)

  /** A transcript becomes a turn unless it is blank. */
  function AddTurn(turns: seq<Turn>, speaker: Speaker, text: string): seq<Turn> {
    if Trim(text) == "" then turns else turns + [Turn(speaker, Trim(text))]
  }

  function Handle(v: View, ev: ServerEvent): View {
    match ev
    case ResponseCreated => v.(responseActive := true)
    case AudioDelta(None) => v.(faults := v.faults + 1)
    case AudioDelta(Some(a)) => v.(speaking := true, audio := v.audio + a)
    case AudioDone => v.(speaking := false)
    case ResponseDone => v.(speaking := false, responseActive := false)
    case SpeechStarted =>
      v.(bargeIns := v.bargeIns + 1, speaking := false,
         cancels := v.cancels + (if v.responseActive then 1 else 0), responseActive := false,
         heard := v.heard + 1)
    case SpeechStopped => v.(heard := v.heard + 1)
    case InTranscript(text) => v.(turns := AddTurn(v.turns, Caller, text), heard := v.heard + 1)
    case OutTranscript(text) => v.(turns := AddTurn(v.turns, Assistant, text))
    case Fault(code) => if code == Some(CancelNotActive) then v else v.(faults := v.faults + 1)
    case SessionUpdated(_) => v
    case Other => v
  }

  function Fold(evs: seq<ServerEvent>): View {
    if evs == [] then QUIET else Handle(Fold(evs[..|evs| - 1]), evs[|evs| - 1])
  }

  lemma FoldSnoc(evs: seq<ServerEvent>, ev: ServerEvent)
    ensures Fold(evs + [ev]) == Handle(Fold(evs), ev)
  {
    assert (evs + [ev])[..|evs|] == evs;
  }

  // ---------- The flags ----------

  predicate IsCreated(ev: ServerEvent) {
    ev.ResponseCreated?
  }

  predicate CarriesAudio(ev: ServerEvent) {
    ev.AudioDelta? && ev.audio.Some?
  }

  predicate EndsResponse(ev: ServerEvent) {
    ev.ResponseDone? || ev.SpeechStarted?
  }

  predicate EndsSpeaking(ev: ServerEvent) {
    ev.AudioDone? || ev.ResponseDone? || ev.SpeechStarted?
  }

  /** Some event of kind `starts` has had no event of kind `ends` after it. */
  ghost predicate Since(evs: seq<ServerEvent>, starts: ServerEvent -> bool, ends: ServerEvent -> bool) {
    exists k :: 0 <= k < |evs| && starts(evs[k]) && forall j :: k < j < |evs| ==> !ends(evs[j])
  }

  lemma SinceSnoc(evs: seq<ServerEvent>, ev: ServerEvent, starts: ServerEvent -> bool, ends: ServerEvent -> bool)
    ensures Since(evs + [ev], starts, ends) <==> starts(ev) || (Since(evs, starts, ends) && !ends(ev))
  {
    var longer := evs + [ev];
    assert longer[|evs|] == ev;
    if Since(evs, starts, ends) && !ends(ev) {
      var k :| 0 <= k < |evs| && starts(evs[k]) && forall j :: k < j < |evs| ==> !ends(evs[j]);
      assert longer[k] == evs[k];
    }
    if Since(longer, starts, ends) {
      var k :| 0 <= k < |longer| && starts(longer[k]) && forall j :: k < j < |longer| ==> !ends(longer[j]);
      assert forall j :: 0 <= j < |evs| ==> evs[j] == longer[j];
    }
  }

  /** Of the created, done and speech-started events in `evs`, the latest is a created. */
  ghost predicate LatestIsCreated(evs: seq<ServerEvent>) {
    Since(evs, IsCreated, EndsResponse)
  }

  /** Nothing has ended the utterance since the last decodable delta. */
  ghost predicate MidUtterance(evs: seq<ServerEvent>) {
    Since(evs, CarriesAudio, EndsSpeaking)
  }

  /** For every event sequence both flags say which of their events came last. */
  lemma {:induction false} FlagsAreLatest(evs: seq<ServerEvent>)
    ensures Fold(evs).responseActive <==> LatestIsCreated(evs)
    ensures Fold(evs).speaking <==> MidUtterance(evs)
  {
    if evs != [] {
      var init, last := evs[..|evs| - 1], evs[|evs| - 1];
      assert evs == init + [last];
      FlagsAreLatest(init);
      SinceSnoc(init, last, IsCreated, EndsResponse);
      SinceSnoc(init, last, CarriesAudio, EndsSpeaking);
    }
  }

  // ---------- Cancels ----------

  /** Handling event `i` sends a cancel. */
  predicate CancelsAt(evs: seq<ServerEvent>, i: nat)
    requires i < |evs|
  {
    Fold(evs[..i + 1]).cancels > Fold(evs[..i]).cancels
  }

  /**
   A cancel is sent exactly at a speech-started that is the first event since some created to
   end that response.
   */
  lemma CancelsExactlyFirstBargeIn(evs: seq<ServerEvent>, i: nat)
    requires i < |evs|
    ensures CancelsAt(evs, i) <==> evs[i].SpeechStarted? && LatestIsCreated(evs[..i])
  {
    assert evs[..i + 1] == evs[..i] + [evs[i]];
    FoldSnoc(evs[..i], evs[i]);
    FlagsAreLatest(evs[..i]);
  }

  /** Between two cancels a new response was created, so no response is cancelled twice. */
  lemma CancelsAreSeparated(evs: seq<ServerEvent>, i: nat, j: nat) returns (k: nat)
    requires i < j < |evs| && CancelsAt(evs, i) && CancelsAt(evs, j)
    ensures i < k < j && IsCreated(evs[k])
  {
    CancelsExactlyFirstBargeIn(evs, i);
    CancelsExactlyFirstBargeIn(evs, j);
    var before := evs[..j];
    k :| 0 <= k < |before| && IsCreated(before[k])
      && forall m :: k < m < |before| ==> !EndsResponse(before[m]);
    assert before[i] == evs[i];
  }

  /** How many of the events are the first since some created to end that response, by a barge-in. */
  ghost function FirstBargeIns(evs: seq<ServerEvent>): nat {
    if evs == [] then 0
    else
      var init, last := evs[..|evs| - 1], evs[|evs| - 1];
      FirstBargeIns(init) + if last.SpeechStarted? && LatestIsCreated(init) then 1 else 0
  }

  /** The cancels attempted are exactly as many. */
  lemma {:induction false} CancelsAreFirstBargeIns(evs: seq<ServerEvent>)
    ensures Fold(evs).cancels == FirstBargeIns(evs)
  {
    if evs != [] {
      CancelsAreFirstBargeIns(evs[..|evs| - 1]);
      FlagsAreLatest(evs[..|evs| - 1]);
    }
  }

  /** For each barge-in, in order, whether the model was in the middle of an utterance when it came. */
  ghost function OverSpeech(evs: seq<ServerEvent>): seq<bool> {
    if evs == [] then []
    else
      var init, last := evs[..|evs| - 1], evs[|evs| - 1];
      OverSpeech(init) + if last.SpeechStarted? then [MidUtterance(init)] else []
  }

  // ---------- Counts and contents ----------

  predicate LogsFault(ev: ServerEvent) {
    (ev.AudioDelta? && ev.audio.None?) || (ev.Fault? && ev.code != Some(CancelNotActive))
  }

  predicate HearsCaller(ev: ServerEvent) {
    ev.SpeechStarted? || ev.SpeechStopped? || ev.InTranscript?
  }

  /** The counters count their events; a cancel takes a created response of its own. */
  lemma {:induction false} EventsAreCounted(evs: seq<ServerEvent>)
    ensures Fold(evs).bargeIns == Count(evs, SpeechStarted)
    ensures Fold(evs).faults == CountIf(evs, LogsFault)
    ensures Fold(evs).heard == CountIf(evs, HearsCaller)
    ensures Fold(evs).cancels + (if Fold(evs).responseActive then 1 else 0) <= Count(evs, ResponseCreated)
  {
    if evs != [] {
      EventsAreCounted(evs[..|evs| - 1]);
    }
  }

  function AudioIn(ev: ServerEvent): seq<byte> {
    if CarriesAudio(ev) then ev.audio.value else []
  }

  function SaidIn(ev: ServerEvent): seq<Turn> {
    match ev
    case InTranscript(text) => if Trim(text) == "" then [] else [Turn(Caller, Trim(text))]
    case OutTranscript(text) => if Trim(text) == "" then [] else [Turn(Assistant, Trim(text))]
    case _ => []
  }

  /** Event by event, the audio each one brings. */
  function AudioPieces(evs: seq<ServerEvent>): seq<seq<byte>> {
    seq(|evs|, i requires 0 <= i < |evs| => AudioIn(evs[i]))
  }

  /** Event by event, the turn each one adds. */
  function TurnPieces(evs: seq<ServerEvent>): seq<seq<Turn>> {
    seq(|evs|, i requires 0 <= i < |evs| => SaidIn(evs[i]))
  }

  lemma PiecesSnoc(evs: seq<ServerEvent>, ev: ServerEvent)
    ensures AudioPieces(evs + [ev]) == AudioPieces(evs) + [AudioIn(ev)]
    ensures TurnPieces(evs + [ev]) == TurnPieces(evs) + [SaidIn(ev)]
  {
  }

  /** The stream is every decodable delta, the transcript every non-blank turn, in order. */
  lemma {:induction false} StreamAndTurns(evs: seq<ServerEvent>)
    ensures Fold(evs).audio == Flatten(AudioPieces(evs))
    ensures Fold(evs).turns == Flatten(TurnPieces(evs))
  {
    if evs != [] {
      var init, last := evs[..|evs| - 1], evs[|evs| - 1];
      StreamAndTurns(init);
      HandleAppends(Fold(init), last);
      PiecesSnoc(init, last);
      FlattenSnoc(AudioPieces(init), AudioIn(last));
      FlattenSnoc(TurnPieces(init), SaidIn(last));
      assert evs == init + [last];
    }
  }

  lemma HandleAppends(v: View, ev: ServerEvent)
    ensures Handle(v, ev).audio == v.audio + AudioIn(ev)
    ensures Handle(v, ev).turns == v.turns + SaidIn(ev)
  {
  }
}
