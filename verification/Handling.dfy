/**
 The event handler works in small steps with the pacing pump running in between, yet what it
 leaves behind is what handling the events one after the other would leave: at every moment,
 letting the handler finish what it has begun gives the fold over the events received so far.
 */
module Handling {
  import opened Basics
  import opened Pacing
  import opened Realtime
  import opened Dialogue
  import opened BridgeModel
  import AudioPath
  import Shutdown

  function ViewOf(s: State): View {
    View(s.aud.speaking, s.talk.responseActive, s.talk.turns, s.aud.w.tape.written,
         s.talk.bargeIns, s.talk.cancels, s.talk.faults, s.talk.heard)
  }

  /** What a handler at `e` still has to do, undisturbed. */
  function Rest(e: EventsPc, v: View): View {
    match e
    case EHandle(ev) => Handle(v, ev)
    case EWrite(a) => v.(audio := v.audio + a)
    case EInactive => v.(responseActive := false)
    case ELoad(_) => Handle(v, SpeechStarted)
    case EBarge(_, _) => Handle(v, SpeechStarted)
    case ESelf(_) => BargeCounted(v)
    case EQuiet(_, _) => BargeCounted(v)
    case EReset(_, _) => BargeCounted(v)
    case ECas => BargeCounted(v)
    case ECancelSend => v.(cancels := v.cancels + 1, heard := v.heard + 1)
    case ETouch => v.(heard := v.heard + 1)
    case _ => v
  }

  /** The rest of a barge-in once it has been counted. */
  function BargeCounted(v: View): View {
    v.(speaking := false, responseActive := false, heard := v.heard + 1,
       cancels := v.cancels + if v.responseActive then 1 else 0)
  }

  /** Past the point where a flag is cleared it stays so: only the handler writes it. */
  predicate Cleared(s: State) {
    && ((s.e.EReset? || s.e.ECas? || s.e.ECancelSend?) ==> !s.aud.speaking)
    && (s.e.ECancelSend? ==> !s.talk.responseActive)
  }

  ghost predicate HandledInv(s: State) {
    Cleared(s) && Rest(s.e, ViewOf(s)) == Fold(s.talk.handled)
  }

  lemma BeginKeepsRest(s: State, ev: ServerEvent)
    ensures Rest(BeginHandling(s, ev).e, ViewOf(BeginHandling(s, ev))) == Handle(ViewOf(s), ev)
  {
    match ev
    case InTranscript(text) => CallerTurnKeepsRest(s, text);
    case OutTranscript(text) => AssistantTurnKeepsRest(s, text);
    case AudioDelta(audio) => DeltaKeepsRest(s, audio);
    case Fault(code) => FaultKeepsRest(s, code);
    case _ =>
  }

  lemma CallerTurnKeepsRest(s: State, text: string)
    ensures var t := BeginHandling(s, InTranscript(text)); Rest(t.e, ViewOf(t)) == Handle(ViewOf(s), InTranscript(text))
  {
  }

  lemma AssistantTurnKeepsRest(s: State, text: string)
    ensures var t := BeginHandling(s, OutTranscript(text)); Rest(t.e, ViewOf(t)) == Handle(ViewOf(s), OutTranscript(text))
  {
  }

  lemma DeltaKeepsRest(s: State, audio: Option<seq<byte>>)
    ensures var t := BeginHandling(s, AudioDelta(audio)); Rest(t.e, ViewOf(t)) == Handle(ViewOf(s), AudioDelta(audio))
  {
  }

  lemma FaultKeepsRest(s: State, code: Option<ErrorCode>)
    ensures var t := BeginHandling(s, Fault(code)); Rest(t.e, ViewOf(t)) == Handle(ViewOf(s), Fault(code))
  {
  }

  /** Every step of a handler leaves the same rest to do. */
  lemma HandlerKeepsRest(cfg: Config, s: State, choice: Choice)
    requires HandlerStep(cfg, s, choice).Some? && Cleared(s)
    ensures var t := HandlerStep(cfg, s, choice).value;
            Cleared(t) && Rest(t.e, ViewOf(t)) == Rest(s.e, ViewOf(s)) && t.talk.handled == s.talk.handled
  {
    if s.e.EHandle? {
      BeginKeepsRest(s, s.e.ev);
      BeginFrame(s, s.e.ev);
    } else if Counting(s.e) {
      CountingKeepsRest(cfg, s, choice);
    } else {
      FlushingKeepsRest(cfg, s, choice);
    }
  }

  lemma BeginFrame(s: State, ev: ServerEvent)
    ensures var t := BeginHandling(s, ev);
            t.talk.handled == s.talk.handled && !t.e.EReset? && !t.e.ECas? && !t.e.ECancelSend?
  {
  }

  predicate Counting(e: EventsPc) {
    e.ELoad? || e.EBarge? || e.ESelf? || e.EQuiet?
  }

  lemma CountingKeepsRest(cfg: Config, s: State, choice: Choice)
    requires HandlerStep(cfg, s, choice).Some? && Counting(s.e)
    ensures var t := HandlerStep(cfg, s, choice).value;
            Cleared(t) && Rest(t.e, ViewOf(t)) == Rest(s.e, ViewOf(s)) && t.talk.handled == s.talk.handled
  {
  }

  lemma FlushingKeepsRest(cfg: Config, s: State, choice: Choice)
    requires HandlerStep(cfg, s, choice).Some? && Cleared(s) && !s.e.EHandle? && !Counting(s.e)
    ensures var t := HandlerStep(cfg, s, choice).value;
            Cleared(t) && Rest(t.e, ViewOf(t)) == Rest(s.e, ViewOf(s)) && t.talk.handled == s.talk.handled
  {
  }

  /** Between events only taking the next one matters, and that is all still to do. */
  lemma SelectKeepsView(cfg: Config, s: State, choice: Choice)
    requires EventsStep(cfg, s, choice).Some? && BetweenEvents(s.e)
    ensures var t := EventsStep(cfg, s, choice).value;
            && ViewOf(t) == ViewOf(s)
            && (if choice.Receives? then t.e == EHandle(choice.ev) else BetweenEvents(t.e))
            && t.talk.handled == s.talk.handled + if choice.Receives? then [choice.ev] else []
  {
  }

  lemma ReceivingKeepsHandled(s: State, t: State, ev: ServerEvent)
    requires HandledInv(s) && BetweenEvents(s.e)
    requires ViewOf(t) == ViewOf(s) && t.e == EHandle(ev) && t.talk.handled == s.talk.handled + [ev]
    ensures HandledInv(t)
  {
    FoldSnoc(s.talk.handled, ev);
  }

  lemma IdlingKeepsHandled(s: State, t: State)
    requires HandledInv(s) && BetweenEvents(s.e)
    requires ViewOf(t) == ViewOf(s) && BetweenEvents(t.e) && t.talk.handled == s.talk.handled
    ensures HandledInv(t)
  {
  }

  lemma SelectKeepsHandled(cfg: Config, s: State, choice: Choice)
    requires EventsStep(cfg, s, choice).Some? && BetweenEvents(s.e) && HandledInv(s)
    ensures HandledInv(EventsStep(cfg, s, choice).value)
  {
    var t := EventsStep(cfg, s, choice).value;
    SelectKeepsView(cfg, s, choice);
    if choice.Receives? {
      ReceivingKeepsHandled(s, t, choice.ev);
    } else {
      IdlingKeepsHandled(s, t);
    }
  }

  lemma EventsKeepHandled(cfg: Config, s: State, choice: Choice)
    requires EventsStep(cfg, s, choice).Some? && HandledInv(s)
    ensures HandledInv(EventsStep(cfg, s, choice).value)
  {
    if BetweenEvents(s.e) {
      SelectKeepsHandled(cfg, s, choice);
    } else {
      HandlerKeepsRest(cfg, s, choice);
    }
  }

  lemma PumpsLeaveView(cfg: Config, s: State, choice: Choice)
    ensures CallerStep(cfg, s, choice).Some? ==>
              var t := CallerStep(cfg, s, choice).value;
              ViewOf(t) == ViewOf(s) && t.e == s.e && t.talk == s.talk
    ensures PacerStep(cfg, s, choice).Some? ==>
              var t := PacerStep(cfg, s, choice).value;
              ViewOf(t) == ViewOf(s) && t.e == s.e && t.talk == s.talk
  {
  }

  lemma {:induction false} HandledHolds(cfg: Config, actions: seq<Action>, s: State)
    requires Reaches(cfg, actions, s)
    ensures HandledInv(s)
  {
    if actions != [] {
      var init, a := actions[..|actions| - 1], actions[|actions| - 1];
      var before := Exec(cfg, Init(cfg), init).value;
      HandledHolds(cfg, init, before);
      match a
      case OfCaller(choice) => PumpsLeaveView(cfg, before, choice);
      case OfPacer(choice) => PumpsLeaveView(cfg, before, choice);
      case OfEvents(choice) => EventsKeepHandled(cfg, before, choice);
      case _ =>
    }
  }

  predicate BetweenEvents(e: EventsPc) {
    e.ESelect? || e.ESend? || e.ECancel? || e.EWgDone? || e.EEnd?
  }

  /** The events the bridge has taken off the channel in the course of a run. */
  function Received(actions: seq<Action>): seq<ServerEvent> {
    if actions == [] then []
    else
      var last := actions[|actions| - 1];
      Received(actions[..|actions| - 1]) + if last.OfEvents? && last.choice.Receives? then [last.choice.ev] else []
  }

  lemma HandlerTakesNoEvent(cfg: Config, s: State, choice: Choice)
    requires HandlerStep(cfg, s, choice).Some?
    ensures HandlerStep(cfg, s, choice).value.talk.handled == s.talk.handled && !choice.Receives?
  {
    if s.e.EHandle? {
      BeginFrame(s, s.e.ev);
    }
  }

  lemma StepTakesEvents(cfg: Config, s: State, a: Action)
    requires Step(cfg, s, a).Some?
    ensures Step(cfg, s, a).value.talk.handled
         == s.talk.handled + if a.OfEvents? && a.choice.Receives? then [a.choice.ev] else []
  {
    match a
    case OfCaller(choice) => PumpsLeaveView(cfg, s, choice);
    case OfPacer(choice) => PumpsLeaveView(cfg, s, choice);
    case OfEvents(choice) =>
      if BetweenEvents(s.e) {
        SelectKeepsView(cfg, s, choice);
      } else {
        HandlerTakesNoEvent(cfg, s, choice);
      }
    case _ =>
  }

  /** None is dropped and none is handled out of turn. */
  lemma {:induction false} ReceivedAreHandled(cfg: Config, actions: seq<Action>, s: State)
    requires Reaches(cfg, actions, s)
    ensures s.talk.handled == Received(actions)
  {
    if actions != [] {
      var init := actions[..|actions| - 1];
      var before := Exec(cfg, Init(cfg), init).value;
      ReceivedAreHandled(cfg, init, before);
      StepTakesEvents(cfg, before, actions[|actions| - 1]);
      assert before.talk.handled + [] == before.talk.handled;
    }
  }

  /** Between two events the bridge is exactly where handling the events one by one leaves it. */
  lemma HandlerIsSequential(cfg: Config, actions: seq<Action>, s: State)
    requires Reaches(cfg, actions, s) && BetweenEvents(s.e)
    ensures s.talk.handled == Received(actions)
    ensures ViewOf(s) == Fold(s.talk.handled)
  {
    ReceivedAreHandled(cfg, actions, s);
    HandledHolds(cfg, actions, s);
  }

  /** So the flags, the stream and the counts are what the events themselves say. */
  lemma StateFromEvents(cfg: Config, actions: seq<Action>, s: State)
    requires Reaches(cfg, actions, s) && BetweenEvents(s.e)
    ensures s.talk.responseActive <==> LatestIsCreated(s.talk.handled)
    ensures s.aud.speaking <==> MidUtterance(s.talk.handled)
    ensures s.aud.w.tape.written == Flatten(AudioPieces(s.talk.handled))
    ensures s.talk.turns == Flatten(TurnPieces(s.talk.handled))
    ensures s.talk.bargeIns == Count(s.talk.handled, SpeechStarted)
    ensures s.talk.cancels == FirstBargeIns(s.talk.handled) <= Count(s.talk.handled, ResponseCreated)
  {
    HandlerIsSequential(cfg, actions, s);
    FlagsAreLatest(s.talk.handled);
    StreamAndTurns(s.talk.handled);
    EventsAreCounted(s.talk.handled);
    CancelsAreFirstBargeIns(s.talk.handled);
  }

  /** What is left to do only adds to the stream and to the cancels. */
  lemma RestOnlyAdds(e: EventsPc, v: View)
    ensures v.audio <= Rest(e, v).audio && v.cancels <= Rest(e, v).cancels
    ensures BetweenEvents(e) ==> Rest(e, v) == v
  {
  }

  /** At any moment the stream is what the events received so far brought, but for what is about to be written. */
  lemma StreamIsOfEvents(cfg: Config, actions: seq<Action>, s: State)
    requires Reaches(cfg, actions, s)
    ensures s.aud.w.tape.written <= Flatten(AudioPieces(s.talk.handled))
    ensures BetweenEvents(s.e) ==> s.aud.w.tape.written == Flatten(AudioPieces(s.talk.handled))
  {
    HandledHolds(cfg, actions, s);
    RestOnlyAdds(s.e, ViewOf(s));
    StreamAndTurns(s.talk.handled);
  }

  // ---------- A handler left alone ----------

  /** What handling an event does to the buffer. */
  function OpsFor(ev: ServerEvent): seq<Op> {
    match ev
    case AudioDelta(Some(a)) => [Write(a)]
    case SpeechStarted => [Flush]
    case _ => []
  }

  /** The part of that still to come. */
  function OpsLeft(e: EventsPc): seq<Op> {
    match e
    case EHandle(ev) => OpsFor(ev)
    case EWrite(a) => [Write(a)]
    case ELoad(_) => [Flush]
    case EBarge(_, _) => [Flush]
    case ESelf(_) => [Flush]
    case EQuiet(_, _) => [Flush]
    case EReset(_, _) => [Flush]
    case _ => []
  }

  lemma HandlerTakesOps(cfg: Config, s: State, choice: Choice)
    requires HandlerStep(cfg, s, choice).Some?
    ensures OpsLeft(s.e) == AudioPath.OpOf(s, OfEvents(choice)) + OpsLeft(HandlerStep(cfg, s, choice).value.e)
  {
  }

  lemma HandlerKeepsOpsLeft(cfg: Config, s: State, choice: Choice)
    requires HandlerStep(cfg, s, choice).Some?
    ensures var t := HandlerStep(cfg, s, choice).value;
            Run(cfg.capacity, cfg.frameSize, t.aud.w, OpsLeft(t.e))
              == Run(cfg.capacity, cfg.frameSize, s.aud.w, OpsLeft(s.e))
  {
    var t := HandlerStep(cfg, s, choice).value;
    var now := AudioPath.OpOf(s, OfEvents(choice));
    HandlerTakesOps(cfg, s, choice);
    Shutdown.HandlerFrame(cfg, s, choice);
    AudioPath.EventsRunOps(cfg, s, choice);
    RunAppend(cfg.capacity, cfg.frameSize, s.aud.w, now, OpsLeft(t.e));
  }

  predicate Busy(e: EventsPc) {
    !BetweenEvents(e)
  }

  /** The event handler's part: the one command it sends is the cancel, and a cancel tried is sent or fails. */
  lemma EventsCommand(cfg: Config, s: State, choice: Choice)
    requires EventsStep(cfg, s, choice).Some?
    ensures var t := EventsStep(cfg, s, choice).value;
            && t.m == s.m && t.c == s.c
            && t.commands == s.commands + (if choice == Succeeds then [Cancel] else [])
            && t.talk.cancels == s.talk.cancels + if choice == Succeeds || choice == Fails then 1 else 0
  {
    if s.e.EHandle? {
      BeginCommand(s, s.e.ev);
    }
  }

  lemma BeginCommand(s: State, ev: ServerEvent)
    ensures var t := BeginHandling(s, ev);
            t.m == s.m && t.c == s.c && t.commands == s.commands && t.talk.cancels == s.talk.cancels
  {
  }

  /** One step of a handler left alone. */
  lemma AloneStep(cfg: Config, s: State) returns (next: State, choice: Choice)
    requires s.m.MWait? && Busy(s.e) && Cleared(s)
    ensures Step(cfg, s, OfEvents(choice)) == Some(next)
    ensures next.m == s.m && Cleared(next) && (Busy(next.e) || next.e == ESelect)
    ensures next.p == s.p && next.aud.attempts == s.aud.attempts && next.talk.handled == s.talk.handled
    ensures s.talk.cancels <= next.talk.cancels
    ensures next.commands == s.commands + Repeat(Cancel, next.talk.cancels - s.talk.cancels)
    ensures Shutdown.EventsRank(next.e) < Shutdown.EventsRank(s.e)
    ensures Rest(next.e, ViewOf(next)) == Rest(s.e, ViewOf(s))
    ensures Run(cfg.capacity, cfg.frameSize, next.aud.w, OpsLeft(next.e))
         == Run(cfg.capacity, cfg.frameSize, s.aud.w, OpsLeft(s.e))
  {
    choice := if s.e == ECancelSend then Succeeds else Go;
    next := HandlerStep(cfg, s, choice).value;
    HandlerKeepsRest(cfg, s, choice);
    HandlerKeepsOpsLeft(cfg, s, choice);
    Shutdown.HandlerFrame(cfg, s, choice);
    Shutdown.HandlerRunsDown(cfg, s, choice);
    AudioPath.EventsKeepFrames(cfg, s, choice);
    EventsCommand(cfg, s, choice);
    assert Repeat(Cancel, 1) == [Cancel] && Repeat(Cancel, 0) == [];
  }

  lemma RepeatRepeat<T>(x: T, m: nat, n: nat)
    ensures Repeat(x, m) + Repeat(x, n) == Repeat(x, m + n)
  {
  }

  /**
   Run without interruption, a handler comes to the sequential meaning of its event: the view of
   `Handle`, the buffer operation of `OpsFor`, and a cancel handed to the model service for each that
   `Handle` counts, its write succeeding. This is the contract `Bridge.OnEvent` meets.
   */
  lemma HandlerAlone(cfg: Config, s: State) returns (t: State, steps: seq<Action>)
    requires s.m.MWait? && Busy(s.e) && Cleared(s)
    ensures Exec(cfg, s, steps) == Some(t) && forall i :: 0 <= i < |steps| ==> steps[i].OfEvents?
    ensures t.e == ESelect && ViewOf(t) == Rest(s.e, ViewOf(s))
    ensures t.aud.w == Run(cfg.capacity, cfg.frameSize, s.aud.w, OpsLeft(s.e))
    ensures t.m == s.m && t.p == s.p && t.aud.attempts == s.aud.attempts && t.talk.handled == s.talk.handled
    ensures s.talk.cancels <= t.talk.cancels
    ensures t.commands == s.commands + Repeat(Cancel, t.talk.cancels - s.talk.cancels)
  {
    t, steps := s, [];
    assert s.commands + Repeat(Cancel, 0) == s.commands;
    while Busy(t.e)
      invariant t.p == s.p && t.aud.attempts == s.aud.attempts && t.talk.handled == s.talk.handled
      invariant Exec(cfg, s, steps) == Some(t) && forall i :: 0 <= i < |steps| ==> steps[i].OfEvents?
      invariant t.m == s.m && Cleared(t) && (Busy(t.e) || t.e == ESelect)
      invariant s.talk.cancels <= t.talk.cancels
      invariant t.commands == s.commands + Repeat(Cancel, t.talk.cancels - s.talk.cancels)
      invariant Rest(t.e, ViewOf(t)) == Rest(s.e, ViewOf(s))
      invariant Run(cfg.capacity, cfg.frameSize, t.aud.w, OpsLeft(t.e))
             == Run(cfg.capacity, cfg.frameSize, s.aud.w, OpsLeft(s.e))
      decreases Shutdown.EventsRank(t.e)
    {
      var next, choice := AloneStep(cfg, t);
      ExecSnoc(cfg, s, steps, OfEvents(choice));
      RepeatRepeat(Cancel, t.talk.cancels - s.talk.cancels, next.talk.cancels - t.talk.cancels);
      Associative(s.commands, Repeat(Cancel, t.talk.cancels - s.talk.cancels), Repeat(Cancel, next.talk.cancels - t.talk.cancels));
      t, steps := next, steps + [OfEvents(choice)];
    }
  }

  // ---------- A late delta ----------

  /** The bridge takes an event and handles it, undisturbed. */
  lemma HandleEvent(cfg: Config, actions: seq<Action>, s: State, ev: ServerEvent)
    returns (actions': seq<Action>, t: State)
    requires Reaches(cfg, actions, s) && s.m.MWait? && s.e == ESelect
    ensures Reaches(cfg, actions', t) && t.m == s.m && t.p == s.p && t.e == ESelect
    ensures t.aud.w == Run(cfg.capacity, cfg.frameSize, s.aud.w, OpsFor(ev))
    ensures t.aud.attempts == s.aud.attempts && t.talk.handled == s.talk.handled + [ev]
  {
    var received;
    actions', received := Shutdown.Then(cfg, actions, s, OfEvents(Receives(ev)));
    var steps;
    t, steps := HandlerAlone(cfg, received);
    ExecAppend(cfg, Init(cfg), actions', steps);
    actions' := actions' + steps;
  }

  /** A delta of the interrupted response, queued after the barge-in. */
  lemma LateDeltaIsQueued(cfg: Config, b: byte) returns (actions: seq<Action>, s: State)
    requires cfg.capacity > 0
    ensures Reaches(cfg, actions, s) && s.m == MWait && s.p == PSelect && s.aud.attempts == []
    ensures s.talk.handled == [ResponseCreated, SpeechStarted, AudioDelta(Some([b]))]
    ensures s.aud.w.q.pending == [b]
  {
    actions, s := [], Init(cfg);
    actions, s := Shutdown.Then(cfg, actions, s, OfMain(Succeeds));
    actions, s := HandleEvent(cfg, actions, s, ResponseCreated);
    actions, s := HandleEvent(cfg, actions, s, SpeechStarted);
    assert s.aud.w.q.pending == [];
    actions, s := HandleEvent(cfg, actions, s, AudioDelta(Some([b])));
  }

  /** The pump takes a frame and writes it, undisturbed. */
  lemma PlayFrame(cfg: Config, actions: seq<Action>, s: State) returns (actions': seq<Action>, t: State)
    requires Reaches(cfg, actions, s) && s.m.MWait? && s.p.PSelect?
    ensures Reaches(cfg, actions', t) && t.p.PSelect? && t.m == s.m && t.talk == s.talk
    ensures t.aud.w == Apply(cfg.capacity, cfg.frameSize, s.aud.w, Tick)
    ensures t.aud.attempts
         == s.aud.attempts + [Frame(Taken(s.aud.w.q, cfg.frameSize), cfg.frameSize, cfg.silence)]
  {
    var ticked;
    actions', ticked := Shutdown.Then(cfg, actions, s, OfPacer(TickFires));
    var framed, steps := AudioPath.TickAlone(cfg, ticked);
    ExecAppend(cfg, Init(cfg), actions', steps);
    actions', t := Shutdown.Then(cfg, actions' + steps, framed, OfPacer(Succeeds));
  }

  /**
   A barge-in does not keep the rest of the interrupted response off the line: a delta that
   arrives after it is queued and played like any other.
   */
  lemma LateDeltaIsHeard(cfg: Config, b: byte) returns (actions: seq<Action>, s: State)
    requires cfg.capacity > 0 && cfg.frameSize > 0
    ensures Reaches(cfg, actions, s)
    ensures s.talk.handled == [ResponseCreated, SpeechStarted, AudioDelta(Some([b]))]
    ensures s.aud.attempts == [Frame([b], cfg.frameSize, cfg.silence)]
  {
    actions, s := LateDeltaIsQueued(cfg, b);
    assert Taken(s.aud.w.q, cfg.frameSize) == [b];
    actions, s := PlayFrame(cfg, actions, s);
  }
}
