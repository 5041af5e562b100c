/**
 A running bridge: the caller pump, the pacing pump and the event handler as three goroutines
 with a program counter each, the main goroutine that starts and joins them, and the outside
 world that may cancel the call. Every buffer call (one mutex section), every atomic load,
 store, add and compare-and-swap, every channel operation and every look at the context is
 one step, and steps of different goroutines interleave freely.

 Fields under "history" record what has happened; no step reads them.
 */
module BridgeModel {
  import opened Basics
  import opened Pacing
  import opened Realtime
  import opened Dialogue

  datatype Config = Config(
    frameSize: nat,
    capacity: nat,
    silence: byte,
    format: Format,
    idleGuard: bool,   // SilenceTimeout is set
    maxCall: bool)     // MaxCall is set

  datatype Reason =
    | GreetingFailed | ModelConnectionLost | CallerHungUp | MediaWriteFailed
    | CallerSilent | ModelSessionClosed | CallEnded

  datatype ReadError = NoError | Eof | ReadBroken

  datatype CallerPc =
    | CTop                                            // before looking at the context
    | CRead                                           // in Reader.Read
    | CAppend(chunk: seq<byte>, err: ReadError)       // in AppendAudio
    | CAppendFailed                                   // before looking at the context
    | CSend(why: Reason)
    | CCancel
    | CWgDone
    | CEnd

  datatype PacerPc =
    | PSelect
    | PTake
    | PCount(n: nat)
    | PLoad
    | PStarve
    | PWrite
    | PWriteFailed                                    // before looking at the context
    | PSend(why: Reason)
    | PCancel
    | PWgDone
    | PEnd

  datatype EventsPc =
    | ESelect
    | EHandle(ev: ServerEvent)                        // before the handler's first action
    | EWrite(audio: seq<byte>)
    | EInactive
    | ELoad(pending: nat)
    | EBarge(pending: nat, self: bool)
    | ESelf(pending: nat)
    | EQuiet(pending: nat, self: bool)
    | EReset(pending: nat, self: bool)
    | ECas
    | ECancelSend
    | ETouch
    | ESend(why: Reason)
    | ECancel
    | EWgDone
    | EEnd

  datatype Result = Result(turns: seq<Turn>, why: Reason)

  datatype Report = Report(framesSent: nat, starved: nat, dropped: nat, bargeIns: nat, selfBargeIns: nat)

  datatype MainPc =
    | MGreet
    | MWait
    | MDrain
    | MReport(why: Reason)
    | MReturned(result: Result, report: Report)
    | MFailed(result: Result)

  datatype Goroutine = CallerPump | PacingPump | EventHandler

  /** One send on the reason channel, and how things stood when it was made. */
  datatype Sent = Sent(from: Goroutine, why: Reason, live: bool, external: bool)

  /** One completed barge-in: bytes pending when measured, bytes flushed, takes in between. */
  datatype Barge = Barge(pending: nat, self: bool, flushed: nat, ticks: int)

  const REASONS_CAPACITY := 3

  /** The context, the reason channel and the wait group. */
  datatype Control = Control(
    cancelled: bool,
    reasons: seq<Reason>,
    wg: int,
    // history: an outside cancel, and the sends made
    external: bool,
    sends: seq<Sent>)

  /** The pacing buffer, the flag the two audio goroutines share, and the pacing pump's data. */
  datatype Audio = Audio(
    w: World,
    speaking: bool,
    framesSent: nat,
    starved: nat,
    frame: seq<byte>,
    // history: frames handed to the writer and accepted by it; short takes made while the flag
    // was set, the flag at the last take, and how often the flag changed value
    attempts: seq<seq<byte>>,
    writesOk: nat,
    starvedAtTake: nat,
    atTake: bool,
    flips: nat)

  /** What only the event handler writes. */
  datatype Talk = Talk(
    responseActive: bool,
    turns: seq<Turn>,
    bargeIns: nat,
    selfBargeIns: nat,
    // history: events taken off the channel, completed barge-ins, takes when the buffer was
    // last measured, cancels attempted, error log entries, silence guard resets
    handled: seq<ServerEvent>,
    barges: seq<Barge>,
    mark: nat,
    cancels: nat,
    faults: nat,
    heard: nat)

  datatype State = State(
    ctl: Control,
    aud: Audio,
    talk: Talk,
    commands: seq<Command>,
    c: CallerPc,
    p: PacerPc,
    e: EventsPc,
    m: MainPc)

  function Init(cfg: Config): State {
    State(
      Control(false, [], 0, false, []),
      Audio(START, false, 0, 0, [], [], 0, 0, false, 0),
      Talk(false, [], 0, 0, [], [], 0, 0, 0, 0),
      [SessionUpdate(cfg.format)],
      CTop, PSelect, ESelect, MGreet)
  }

  /** What the environment decides: results of I/O and which case of a select is ready. */
  datatype Choice =
    | Go
    | Succeeds
    | Fails
    | ReadReturns(chunk: seq<byte>, err: ReadError)
    | SeesDone
    | TickFires
    | IdleFires(expired: bool)
    | Receives(ev: ServerEvent)
    | ChannelCloses

  datatype Action =
    | OfCaller(choice: Choice)
    | OfPacer(choice: Choice)
    | OfEvents(choice: Choice)
    | OfMain(choice: Choice)
    | ParentCancels
    | MaxCallFires

  // ---------- Building blocks ----------

  /** Non-blocking send: a full channel loses the reason. */
  function Send(k: Control, from: Goroutine, why: Reason): Control {
    k.(reasons := if |k.reasons| < REASONS_CAPACITY then k.reasons + [why] else k.reasons,
       sends := k.sends + [Sent(from, why, !k.cancelled, k.external)])
  }

  function CancelCall(k: Control): Control {
    k.(cancelled := true)
  }

  function LeaveGroup(k: Control): Control {
    k.(wg := k.wg - 1)
  }

  function StoreSpeaking(u: Audio, to: bool): Audio {
    u.(speaking := to, flips := u.flips + if u.speaking != to then 1 else 0)
  }

  function OnBuffer(cfg: Config, u: Audio, op: Op): Audio {
    u.(w := Apply(cfg.capacity, cfg.frameSize, u.w, op))
  }

  /** One take: the frame is filled, with the ideal starvation count kept beside it. */
  function TakeFrame(cfg: Config, u: Audio): Audio {
    var audio := Taken(u.w.q, cfg.frameSize);
    OnBuffer(cfg, u, Tick).(
      frame := Frame(audio, cfg.frameSize, cfg.silence),
      atTake := u.speaking,
      starvedAtTake := u.starvedAtTake + if |audio| < cfg.frameSize && u.speaking then 1 else 0)
  }

  /** Where the caller pump goes once the bytes of a read are forwarded. */
  function AfterRead(err: ReadError): CallerPc {
    if err == NoError then CTop else CSend(CallerHungUp)
  }

  // ---------- The goroutines ----------

  function CallerStep(cfg: Config, s: State, choice: Choice): Option<State> {
    match (s.c, choice)
    case (CTop, Go) => Some(s.(c := if s.ctl.cancelled then CCancel else CRead))
    case (CRead, ReadReturns(chunk, err)) =>
      if |chunk| > 4 * cfg.frameSize then None
      else if |chunk| > 0 then Some(s.(c := CAppend(chunk, err)))
      else Some(s.(c := AfterRead(err)))
    case (CAppend(chunk, err), Succeeds) =>
      Some(s.(commands := s.commands + [Append(chunk)], c := AfterRead(err)))
    case (CAppend(chunk, err), Fails) => Some(s.(c := CAppendFailed))
    case (CAppendFailed, Go) => Some(s.(c := if s.ctl.cancelled then CCancel else CSend(ModelConnectionLost)))
    case (CSend(why), Go) => Some(s.(ctl := Send(s.ctl, CallerPump, why), c := CCancel))
    case (CCancel, Go) => Some(s.(ctl := CancelCall(s.ctl), c := CWgDone))
    case (CWgDone, Go) => Some(s.(ctl := LeaveGroup(s.ctl), c := CEnd))
    case _ => None
  }

  function PacerStep(cfg: Config, s: State, choice: Choice): Option<State> {
    match (s.p, choice)
    case (PSelect, SeesDone) => if s.ctl.cancelled then Some(s.(p := PCancel)) else None
    case (PSelect, TickFires) => Some(s.(p := PTake))
    case (PTake, Go) =>
      Some(s.(aud := TakeFrame(cfg, s.aud), p := PCount(|Taken(s.aud.w.q, cfg.frameSize)|)))
    case (PCount(n), Go) =>
      Some(s.(aud := s.aud.(framesSent := s.aud.framesSent + 1), p := if n < cfg.frameSize then PLoad else PWrite))
    case (PLoad, Go) => Some(s.(p := if s.aud.speaking then PStarve else PWrite))
    case (PStarve, Go) => Some(s.(aud := s.aud.(starved := s.aud.starved + 1), p := PWrite))
    case (PWrite, Succeeds) =>
      Some(s.(aud := s.aud.(attempts := s.aud.attempts + [s.aud.frame], writesOk := s.aud.writesOk + 1), p := PSelect))
    case (PWrite, Fails) =>
      Some(s.(aud := s.aud.(attempts := s.aud.attempts + [s.aud.frame]), p := PWriteFailed))
    case (PWriteFailed, Go) => Some(s.(p := if s.ctl.cancelled then PCancel else PSend(MediaWriteFailed)))
    case (PSend(why), Go) => Some(s.(ctl := Send(s.ctl, PacingPump, why), p := PCancel))
    case (PCancel, Go) => Some(s.(ctl := CancelCall(s.ctl), p := PWgDone))
    case (PWgDone, Go) => Some(s.(ctl := LeaveGroup(s.ctl), p := PEnd))
    case _ => None
  }

  /** The first action of the handler for `ev`. */
  function BeginHandling(s: State, ev: ServerEvent): State {
    match ev
    case ResponseCreated => s.(talk := s.talk.(responseActive := true), e := ESelect)
    case AudioDelta(None) => s.(talk := s.talk.(faults := s.talk.faults + 1), e := ESelect)
    case AudioDelta(Some(a)) => s.(aud := StoreSpeaking(s.aud, true), e := EWrite(a))
    case AudioDone => s.(aud := StoreSpeaking(s.aud, false), e := ESelect)
    case ResponseDone => s.(aud := StoreSpeaking(s.aud, false), e := EInactive)
    case SpeechStarted =>
      s.(talk := s.talk.(mark := |s.aud.w.takes|), e := ELoad(|s.aud.w.q.pending|))
    case SpeechStopped => s.(e := ETouch)
    case InTranscript(text) =>
      s.(talk := s.talk.(turns := AddTurn(s.talk.turns, Speaker.Caller, text)), e := ETouch)
    case OutTranscript(text) =>
      s.(talk := s.talk.(turns := AddTurn(s.talk.turns, Assistant, text)), e := ESelect)
    case Fault(code) =>
      s.(talk := s.talk.(faults := s.talk.faults + if code == Some(CancelNotActive) then 0 else 1), e := ESelect)
    case SessionUpdated(_) => s.(e := ESelect)
    case Other => s.(e := ESelect)
  }

  /** The steps of a handler that is under way. */
  function HandlerStep(cfg: Config, s: State, choice: Choice): Option<State> {
    match (s.e, choice)
    case (EHandle(ev), Go) => Some(BeginHandling(s, ev))
    case (EWrite(a), Go) => Some(s.(aud := OnBuffer(cfg, s.aud, Write(a)), e := ESelect))
    case (EInactive, Go) => Some(s.(talk := s.talk.(responseActive := false), e := ESelect))
    case (ELoad(pending), Go) => Some(s.(e := EBarge(pending, s.aud.speaking || pending > 0)))
    case (EBarge(pending, self), Go) =>
      Some(s.(talk := s.talk.(bargeIns := s.talk.bargeIns + 1),
              e := if self then ESelf(pending) else EQuiet(pending, false)))
    case (ESelf(pending), Go) =>
      Some(s.(talk := s.talk.(selfBargeIns := s.talk.selfBargeIns + 1), e := EQuiet(pending, true)))
    case (EQuiet(pending, self), Go) =>
      Some(s.(aud := StoreSpeaking(s.aud, false), e := EReset(pending, self)))
    case (EReset(pending, self), Go) =>
      var done := Barge(pending, self, |s.aud.w.q.pending|, |s.aud.w.takes| - s.talk.mark);
      Some(s.(aud := OnBuffer(cfg, s.aud, Flush), talk := s.talk.(barges := s.talk.barges + [done]), e := ECas))
    case (ECas, Go) =>
      Some(s.(talk := s.talk.(responseActive := false), e := if s.talk.responseActive then ECancelSend else ETouch))
    case (ECancelSend, Succeeds) =>
      Some(s.(commands := s.commands + [Cancel], talk := s.talk.(cancels := s.talk.cancels + 1), e := ETouch))
    case (ECancelSend, Fails) => Some(s.(talk := s.talk.(cancels := s.talk.cancels + 1), e := ETouch))
    case (ETouch, Go) => Some(s.(talk := s.talk.(heard := s.talk.heard + 1), e := ESelect))
    case _ => None
  }

  function EventsStep(cfg: Config, s: State, choice: Choice): Option<State> {
    match (s.e, choice)
    case (ESelect, SeesDone) => if s.ctl.cancelled then Some(s.(e := ECancel)) else None
    case (ESelect, IdleFires(expired)) =>
      Some(s.(e := if cfg.idleGuard && expired then ESend(CallerSilent) else ESelect))
    case (ESelect, ChannelCloses) => Some(s.(e := ESend(ModelSessionClosed)))
    case (ESelect, Receives(ev)) =>
      Some(s.(talk := s.talk.(handled := s.talk.handled + [ev]), e := EHandle(ev)))
    case (ESend(why), Go) => Some(s.(ctl := Send(s.ctl, EventHandler, why), e := ECancel))
    case (ECancel, Go) => Some(s.(ctl := CancelCall(s.ctl), e := EWgDone))
    case (EWgDone, Go) => Some(s.(ctl := LeaveGroup(s.ctl), e := EEnd))
    case _ => HandlerStep(cfg, s, choice)
  }

  function MainStep(cfg: Config, s: State, choice: Choice): Option<State> {
    match (s.m, choice)
    case (MGreet, Succeeds) =>
      Some(s.(commands := s.commands + [ResponseCreate], ctl := s.ctl.(wg := 3), m := MWait))
    case (MGreet, Fails) => Some(s.(m := MFailed(Result(s.talk.turns, GreetingFailed))))
    case (MWait, Go) => if s.ctl.wg == 0 then Some(s.(m := MDrain)) else None
    case (MDrain, Go) =>
      if s.ctl.reasons == [] then Some(s.(m := MReport(CallEnded)))
      else Some(s.(ctl := s.ctl.(reasons := s.ctl.reasons[1..]), m := MReport(s.ctl.reasons[0])))
    case (MReport(why), Go) =>
      Some(s.(m := MReturned(
        Result(s.talk.turns, why),
        Report(s.aud.framesSent, s.aud.starved, s.aud.w.q.dropped, s.talk.bargeIns, s.talk.selfBargeIns))))
    case _ => None
  }

  function CancelFromOutside(s: State): State {
    s.(ctl := s.ctl.(cancelled := true, external := true))
  }

  /** One step of the whole; `None` when the action is not possible. */
  function Step(cfg: Config, s: State, a: Action): Option<State> {
    match a
    case OfCaller(choice) => if s.m.MWait? then CallerStep(cfg, s, choice) else None
    case OfPacer(choice) => if s.m.MWait? then PacerStep(cfg, s, choice) else None
    case OfEvents(choice) => if s.m.MWait? then EventsStep(cfg, s, choice) else None
    case OfMain(choice) => MainStep(cfg, s, choice)
    case ParentCancels => Some(CancelFromOutside(s))
    case MaxCallFires => if cfg.maxCall then Some(CancelFromOutside(s)) else None
  }

  /** A whole run: the state after the actions, if each was possible in its turn. */
  function Exec(cfg: Config, s: State, actions: seq<Action>): Option<State> {
    if actions == [] then Some(s)
    else
      match Exec(cfg, s, actions[..|actions| - 1])
      case None => None
      case Some(before) => Step(cfg, before, actions[|actions| - 1])
  }

  /** `s` is where the run `actions` of a fresh bridge has got to. */
  predicate Reaches(cfg: Config, actions: seq<Action>, s: State) {
    Exec(cfg, Init(cfg), actions) == Some(s)
  }

  lemma ExecSnoc(cfg: Config, s: State, actions: seq<Action>, a: Action)
    ensures Exec(cfg, s, actions + [a])
         == match Exec(cfg, s, actions) { case None => None case Some(t) => Step(cfg, t, a) }
  {
    assert (actions + [a])[..|actions|] == actions;
  }

  lemma {:induction false} ExecAppend(cfg: Config, s: State, actions: seq<Action>, more: seq<Action>)
    requires Exec(cfg, s, actions).Some?
    ensures Exec(cfg, s, actions + more) == Exec(cfg, Exec(cfg, s, actions).value, more)
  {
    if more == [] {
      assert actions + more == actions;
    } else {
      assert (actions + more)[..|actions + more| - 1] == actions + more[..|more| - 1];
      ExecAppend(cfg, s, actions, more[..|more| - 1]);
    }
  }
}
