/**
 How a call ends, over every interleaving: no reason is lost, the join means the call was
 cancelled, and the reported reason is a genuine cause exactly when nothing outside the
 bridge had cancelled the call first.
 */
module Shutdown {
  import opened Basics
  import opened Realtime
  import opened BridgeModel

  function SendsFrom(sends: seq<Sent>, g: Goroutine): nat {
    if sends == [] then 0
    else SendsFrom(sends[..|sends| - 1], g) + if sends[|sends| - 1].from == g then 1 else 0
  }

  function Whys(sends: seq<Sent>): seq<Reason> {
    seq(|sends|, i requires 0 <= i < |sends| => sends[i].why)
  }

  /** The reason the main goroutine will find first, or its default. */
  function FirstWhy(sends: seq<Sent>): Reason {
    if sends == [] then CallEnded else sends[0].why
  }

  predicate ReasonOf(g: Goroutine, why: Reason) {
    match g
    case CallerPump => why == ModelConnectionLost || why == CallerHungUp
    case PacingPump => why == MediaWriteFailed
    case EventHandler => why == CallerSilent || why == ModelSessionClosed
  }

  predicate OriginsFit(sends: seq<Sent>) {
    forall i :: 0 <= i < |sends| ==> ReasonOf(sends[i].from, sends[i].why)
  }

  predicate CallerLeaving(s: State) {
    s.c.CCancel? || s.c.CWgDone? || s.c.CEnd?
  }

  predicate PacerLeaving(s: State) {
    s.p.PCancel? || s.p.PWgDone? || s.p.PEnd?
  }

  predicate EventsLeaving(s: State) {
    s.e.ECancel? || s.e.EWgDone? || s.e.EEnd?
  }

  function Running(s: State): int {
    (if s.c.CEnd? then 0 else 1) + (if s.p.PEnd? then 0 else 1) + (if s.e.EEnd? then 0 else 1)
  }

  predicate NotStarted(s: State) {
    s.m.MGreet? || s.m.MFailed?
  }

  /** The wait group counts the goroutines still running; the main goroutine goes on when none is. */
  ghost predicate JoinInv(s: State) {
    && (NotStarted(s) ==> s.c == CTop && s.p == PSelect && s.e == ESelect && s.ctl.sends == [])
    && (s.m.MWait? ==> s.ctl.wg == Running(s))
    && (!NotStarted(s) && !s.m.MWait? ==> s.c == CEnd && s.p == PEnd && s.e == EEnd)
  }

  /** Who has sent what. */
  ghost predicate SendInv(s: State) {
    && SendsFrom(s.ctl.sends, CallerPump) <= (if CallerLeaving(s) then 1 else 0)
    && SendsFrom(s.ctl.sends, PacingPump) <= (if PacerLeaving(s) then 1 else 0)
    && SendsFrom(s.ctl.sends, EventHandler) <= (if EventsLeaving(s) then 1 else 0)
    && (s.c.CSend? ==> ReasonOf(CallerPump, s.c.why))
    && (s.p.PSend? ==> ReasonOf(PacingPump, s.p.why))
    && (s.e.ESend? ==> ReasonOf(EventHandler, s.e.why))
    && OriginsFit(s.ctl.sends)
    && (NotStarted(s) || s.m.MWait? || s.m.MDrain? ==> s.ctl.reasons == Whys(s.ctl.sends))
    && (s.m.MReport? ==> s.m.why == FirstWhy(s.ctl.sends))
    && (s.m.MReturned? ==> s.m.result.why == FirstWhy(s.ctl.sends))
    && (s.m.MFailed? ==> s.m.result.why == GreetingFailed)
  }

  /** Nothing inside the bridge cancels the call without a reason on its way. */
  ghost predicate CauseInv(s: State) {
    && (s.ctl.external ==> s.ctl.cancelled)
    && (s.ctl.cancelled ==> s.ctl.external || s.ctl.sends != [])
    && (s.c.CCancel? ==> s.ctl.cancelled || s.ctl.sends != [])
    && (s.p.PCancel? ==> s.ctl.cancelled || s.ctl.sends != [])
    && (s.e.ECancel? ==> s.ctl.cancelled || s.ctl.sends != [])
    && (s.c.CWgDone? || s.c.CEnd? ==> s.ctl.cancelled)
    && (s.p.PWgDone? || s.p.PEnd? ==> s.ctl.cancelled)
    && (s.e.EWgDone? || s.e.EEnd? ==> s.ctl.cancelled)
    && (s.ctl.sends != [] ==> (s.ctl.sends[0].live <==> !s.ctl.sends[0].external))
    && (s.ctl.sends != [] && s.ctl.sends[0].external ==> s.ctl.external)
  }

  ghost predicate Inv(s: State) {
    JoinInv(s) && SendInv(s) && CauseInv(s)
  }

  lemma {:induction false} SendsSplit(sends: seq<Sent>)
    ensures |sends|
         == SendsFrom(sends, CallerPump) + SendsFrom(sends, PacingPump) + SendsFrom(sends, EventHandler)
  {
    if sends != [] {
      SendsSplit(sends[..|sends| - 1]);
      match sends[|sends| - 1].from case CallerPump => case PacingPump => case EventHandler =>
    }
  }

  lemma SendsFromSnoc(sends: seq<Sent>, x: Sent, g: Goroutine)
    ensures SendsFrom(sends + [x], g) == SendsFrom(sends, g) + if x.from == g then 1 else 0
  {
    assert (sends + [x])[..|sends|] == sends;
  }

  /** A send by a goroutine that has not sent yet always finds room in the channel. */
  lemma SendFindsRoom(k: Control, from: Goroutine, why: Reason)
    requires k.reasons == Whys(k.sends) && SendsFrom(k.sends, from) == 0
    requires SendsFrom(k.sends, CallerPump) <= 1
    requires SendsFrom(k.sends, PacingPump) <= 1
    requires SendsFrom(k.sends, EventHandler) <= 1
    ensures Send(k, from, why).reasons == Whys(Send(k, from, why).sends)
  {
    SendsSplit(k.sends);
    match from case CallerPump => case PacingPump => case EventHandler =>
    assert Whys(Send(k, from, why).sends) == Whys(k.sends) + [why];
  }

  lemma BookSend(k: Control, from: Goroutine, why: Reason)
    requires ReasonOf(from, why) && OriginsFit(k.sends)
    ensures OriginsFit(Send(k, from, why).sends)
    ensures SendsFrom(Send(k, from, why).sends, CallerPump)
         == SendsFrom(k.sends, CallerPump) + if from == CallerPump then 1 else 0
    ensures SendsFrom(Send(k, from, why).sends, PacingPump)
         == SendsFrom(k.sends, PacingPump) + if from == PacingPump then 1 else 0
    ensures SendsFrom(Send(k, from, why).sends, EventHandler)
         == SendsFrom(k.sends, EventHandler) + if from == EventHandler then 1 else 0
  {
    var x := Sent(from, why, !k.cancelled, k.external);
    SendsFromSnoc(k.sends, x, CallerPump);
    SendsFromSnoc(k.sends, x, PacingPump);
    SendsFromSnoc(k.sends, x, EventHandler);
  }

  lemma SendingKeepsSendInv(s: State, t: State, from: Goroutine, why: Reason)
    requires SendInv(s) && s.m.MWait? && ReasonOf(from, why)
    requires from == CallerPump ==> s.c.CSend? && t == s.(ctl := Send(s.ctl, from, why), c := CCancel)
    requires from == PacingPump ==> s.p.PSend? && t == s.(ctl := Send(s.ctl, from, why), p := PCancel)
    requires from == EventHandler ==> s.e.ESend? && t == s.(ctl := Send(s.ctl, from, why), e := ECancel)
    ensures SendInv(t)
  {
    BookSend(s.ctl, from, why);
    SendFindsRoom(s.ctl, from, why);
  }

  /** A handler under way touches nothing that matters for shutdown. */
  lemma HandlerFrame(cfg: Config, s: State, choice: Choice)
    requires HandlerStep(cfg, s, choice).Some?
    ensures var t := HandlerStep(cfg, s, choice).value;
            && t.ctl == s.ctl && t.c == s.c && t.p == s.p && t.m == s.m
            && !EventsLeaving(s) && !EventsLeaving(t) && !t.e.ESend? && !s.e.ESelect?
  {
  }

  lemma HandlerRunsDown(cfg: Config, s: State, choice: Choice)
    requires HandlerStep(cfg, s, choice).Some?
    ensures EventsRank(HandlerStep(cfg, s, choice).value.e) < EventsRank(s.e)
  {
  }

  lemma CallerKeepsSendInv(cfg: Config, s: State, choice: Choice)
    requires SendInv(s) && s.m.MWait? && CallerStep(cfg, s, choice).Some?
    ensures SendInv(CallerStep(cfg, s, choice).value)
  {
    if s.c.CSend? {
      SendingKeepsSendInv(s, CallerStep(cfg, s, choice).value, CallerPump, s.c.why);
    }
  }

  lemma PacerSendsOnlyItsReason(cfg: Config, s: State, choice: Choice)
    requires s.m.MWait? && PacerStep(cfg, s, choice).Some? && !s.p.PSend?
    ensures var t := PacerStep(cfg, s, choice).value;
            && t.ctl.sends == s.ctl.sends && t.ctl.reasons == s.ctl.reasons
            && t.c == s.c && t.e == s.e && t.m == s.m
            && (PacerLeaving(s) ==> PacerLeaving(t))
            && (t.p.PSend? ==> ReasonOf(PacingPump, t.p.why))
  {
  }

  lemma PacerKeepsSendInv(cfg: Config, s: State, choice: Choice)
    requires SendInv(s) && s.m.MWait? && PacerStep(cfg, s, choice).Some?
    ensures SendInv(PacerStep(cfg, s, choice).value)
  {
    if s.p.PSend? {
      SendingKeepsSendInv(s, PacerStep(cfg, s, choice).value, PacingPump, s.p.why);
    } else {
      PacerSendsOnlyItsReason(cfg, s, choice);
    }
  }

  lemma EventsKeepsSendInv(cfg: Config, s: State, choice: Choice)
    requires SendInv(s) && s.m.MWait? && EventsStep(cfg, s, choice).Some?
    ensures SendInv(EventsStep(cfg, s, choice).value)
  {
    if s.e.ESend? {
      SendingKeepsSendInv(s, EventsStep(cfg, s, choice).value, EventHandler, s.e.why);
    } else if HandlerStep(cfg, s, choice).Some? {
      HandlerFrame(cfg, s, choice);
    }
  }

  lemma MainKeepsInv(cfg: Config, s: State, choice: Choice)
    requires Inv(s) && MainStep(cfg, s, choice).Some?
    ensures Inv(MainStep(cfg, s, choice).value)
  {
  }

  lemma GoroutineKeepsJoinInv(cfg: Config, s: State, a: Action)
    requires JoinInv(s) && Step(cfg, s, a).Some? && !a.OfMain?
    ensures JoinInv(Step(cfg, s, a).value)
  {
    if a.OfEvents? && HandlerStep(cfg, s, a.choice).Some? {
      HandlerFrame(cfg, s, a.choice);
    }
  }

  lemma GoroutineKeepsCauseInv(cfg: Config, s: State, a: Action)
    requires CauseInv(s) && Step(cfg, s, a).Some? && !a.OfMain?
    ensures CauseInv(Step(cfg, s, a).value)
  {
    if a.OfEvents? && HandlerStep(cfg, s, a.choice).Some? {
      HandlerFrame(cfg, s, a.choice);
    }
  }

  lemma StepKeepsInv(cfg: Config, s: State, a: Action)
    requires Inv(s) && Step(cfg, s, a).Some?
    ensures Inv(Step(cfg, s, a).value)
  {
    if a.OfMain? {
      MainKeepsInv(cfg, s, a.choice);
    } else {
      GoroutineKeepsJoinInv(cfg, s, a);
      GoroutineKeepsCauseInv(cfg, s, a);
      match a
      case OfCaller(choice) => CallerKeepsSendInv(cfg, s, choice);
      case OfPacer(choice) => PacerKeepsSendInv(cfg, s, choice);
      case OfEvents(choice) => EventsKeepsSendInv(cfg, s, choice);
      case _ =>
    }
  }

  lemma {:induction false} RunKeepsInv(cfg: Config, actions: seq<Action>, s: State)
    requires Reaches(cfg, actions, s)
    ensures Inv(s)
  {
    if actions != [] {
      var init := actions[..|actions| - 1];
      var before := Exec(cfg, Init(cfg), init).value;
      RunKeepsInv(cfg, init, before);
      StepKeepsInv(cfg, before, actions[|actions| - 1]);
    }
  }

  /** A goroutine that has left the wait group left the call cancelled; a return means all three have. */
  lemma JoinMeansCancelled(cfg: Config, actions: seq<Action>, s: State)
    requires Reaches(cfg, actions, s)
    ensures s.m.MWait? && s.ctl.wg < 3 ==> s.ctl.cancelled
    ensures s.m.MReturned? ==> s.ctl.cancelled && s.c == CEnd && s.p == PEnd && s.e == EEnd
    ensures s.m.MWait? ==> 0 <= s.ctl.wg <= 3
  {
    RunKeepsInv(cfg, actions, s);
  }

  /** At every moment a cancelled call was cancelled from outside or has a reason on record. */
  lemma CancelledForACause(cfg: Config, actions: seq<Action>, s: State)
    requires Reaches(cfg, actions, s) && s.ctl.cancelled
    ensures s.ctl.external || s.ctl.sends != []
  {
    RunKeepsInv(cfg, actions, s);
  }

  /** A reason that blames a write to the caller or the connection to the model. */
  predicate Blames(why: Reason) {
    why == MediaWriteFailed || why == ModelConnectionLost
  }

  /** At `s` the goroutine has already decided on that reason and is about to send it. */
  predicate AboutToSend(s: State, from: Goroutine, why: Reason) {
    match from
    case CallerPump => s.c == CSend(why)
    case PacingPump => s.p == PSend(why)
    case EventHandler => s.e == ESend(why)
  }

  /**
   Since `s` no goroutine has come to blame anything: each send of such a reason made since, and
   each one about to be made, was about to be made at `s`.
   */
  ghost predicate NoNewBlame(s: State, t: State) {
    && t.ctl.cancelled
    && (forall from, why :: Blames(why) && AboutToSend(t, from, why) ==> AboutToSend(s, from, why))
    && s.ctl.sends <= t.ctl.sends
    && (forall i :: |s.ctl.sends| <= i < |t.ctl.sends| && Blames(t.ctl.sends[i].why)
          ==> AboutToSend(s, t.ctl.sends[i].from, t.ctl.sends[i].why))
  }

  lemma CallerBlamesNoMore(cfg: Config, s: State, choice: Choice)
    requires s.ctl.cancelled && CallerStep(cfg, s, choice).Some?
    ensures NoNewBlame(s, CallerStep(cfg, s, choice).value)
  {
  }

  lemma PacerBlamesNoMore(cfg: Config, s: State, choice: Choice)
    requires s.ctl.cancelled && PacerStep(cfg, s, choice).Some?
    ensures NoNewBlame(s, PacerStep(cfg, s, choice).value)
  {
  }

  lemma EventsBlameNoMore(cfg: Config, s: State, choice: Choice)
    requires s.ctl.cancelled && EventsStep(cfg, s, choice).Some?
    ensures NoNewBlame(s, EventsStep(cfg, s, choice).value)
  {
    if HandlerStep(cfg, s, choice).Some? {
      HandlerFrame(cfg, s, choice);
    }
  }

  lemma StepBlamesNoMore(cfg: Config, s: State, a: Action)
    requires s.ctl.cancelled && Step(cfg, s, a).Some?
    ensures NoNewBlame(s, Step(cfg, s, a).value)
  {
    match a
    case OfCaller(choice) => CallerBlamesNoMore(cfg, s, choice);
    case OfPacer(choice) => PacerBlamesNoMore(cfg, s, choice);
    case OfEvents(choice) => EventsBlameNoMore(cfg, s, choice);
    case _ =>
  }

  lemma NoNewBlameTrans(s: State, t: State, u: State)
    requires NoNewBlame(s, t) && NoNewBlame(t, u)
    ensures NoNewBlame(s, u)
  {
  }

  /**
   A failure that only follows from the cancel is not blamed: whatever has been sent before, a
   failed write or a lost connection reported after the call was cancelled was on its way already.
   */
  lemma {:induction false} NoBlameAfterCancel(cfg: Config, s: State, more: seq<Action>, t: State)
    requires s.ctl.cancelled && Exec(cfg, s, more) == Some(t)
    ensures NoNewBlame(s, t)
  {
    if more != [] {
      var init := more[..|more| - 1];
      var before := Exec(cfg, s, init).value;
      NoBlameAfterCancel(cfg, s, init, before);
      StepBlamesNoMore(cfg, before, more[|more| - 1]);
      NoNewBlameTrans(s, before, t);
    }
  }

  /** Neither sent nor about to be: the reason that only the silence guard gives. */
  ghost predicate NoSilence(s: State) {
    && (forall i :: 0 <= i < |s.ctl.sends| ==> s.ctl.sends[i].why != CallerSilent)
    && (s.e.ESend? ==> s.e.why != CallerSilent)
  }

  lemma StepKeepsNoSilence(cfg: Config, s: State, a: Action)
    requires NoSilence(s) && SendInv(s) && !cfg.idleGuard && Step(cfg, s, a).Some?
    ensures NoSilence(Step(cfg, s, a).value)
  {
    if a.OfEvents? && HandlerStep(cfg, s, a.choice).Some? {
      HandlerFrame(cfg, s, a.choice);
    }
  }

  /** A call ends for the caller's silence only if that guard is set. */
  lemma {:induction false} SilenceNeedsTheGuard(cfg: Config, actions: seq<Action>, s: State)
    requires Reaches(cfg, actions, s) && !cfg.idleGuard
    ensures NoSilence(s)
  {
    if actions != [] {
      var init := actions[..|actions| - 1];
      var before := Exec(cfg, Init(cfg), init).value;
      SilenceNeedsTheGuard(cfg, init, before);
      RunKeepsInv(cfg, init, before);
      StepKeepsNoSilence(cfg, before, actions[|actions| - 1]);
    }
  }

  // ---------- A cancelled call finishes ----------

  function CallerRank(c: CallerPc): nat {
    match c
    case CRead => 6
    case CAppend(_, _) => 5
    case CAppendFailed => 4
    case CTop => 3
    case CSend(_) => 3
    case CCancel => 2
    case CWgDone => 1
    case CEnd => 0
  }

  function PacerRank(p: PacerPc): nat {
    match p
    case PTake => 9
    case PCount(_) => 8
    case PLoad => 7
    case PStarve => 6
    case PWrite => 5
    case PWriteFailed => 4
    case PSelect => 3
    case PSend(_) => 3
    case PCancel => 2
    case PWgDone => 1
    case PEnd => 0
  }

  function EventsRank(e: EventsPc): nat {
    match e
    case EHandle(_) => 13
    case ELoad(_) => 12
    case EBarge(_, _) => 11
    case ESelf(_) => 10
    case EQuiet(_, _) => 9
    case EReset(_, _) => 8
    case ECas => 7
    case ECancelSend => 6
    case ETouch => 5
    case EWrite(_) => 5
    case EInactive => 5
    case ESelect => 4
    case ESend(_) => 3
    case ECancel => 2
    case EWgDone => 1
    case EEnd => 0
  }

  function MainRank(m: MainPc): nat {
    match m
    case MGreet => 4
    case MWait => 3
    case MDrain => 2
    case MReport(_) => 1
    case MReturned(_, _) => 0
    case MFailed(_) => 0
  }

  /** Steps left at most, once the call is cancelled. */
  function Rank(s: State): nat {
    CallerRank(s.c) + PacerRank(s.p) + EventsRank(s.e) + MainRank(s.m)
  }

  const MOST_STEPS := 32

  /** A select that takes another ready case although the context is done. */
  predicate LooksAway(a: Action) {
    || a == OfPacer(TickFires)
    || (a.OfEvents? && (a.choice.IdleFires? || a.choice.Receives?))
  }

  predicate Outside(a: Action) {
    a.ParentCancels? || a.MaxCallFires?
  }

  predicate Over(s: State) {
    s.m.MReturned? || s.m.MFailed?
  }

  lemma PumpsRunDown(cfg: Config, s: State, choice: Choice)
    requires s.ctl.cancelled
    ensures CallerStep(cfg, s, choice).Some? ==>
              var t := CallerStep(cfg, s, choice).value;
              t.ctl.cancelled && CallerRank(t.c) < CallerRank(s.c) && t.p == s.p && t.e == s.e && t.m == s.m
    ensures PacerStep(cfg, s, choice).Some? && !choice.TickFires? ==>
              var t := PacerStep(cfg, s, choice).value;
              t.ctl.cancelled && PacerRank(t.p) < PacerRank(s.p) && t.c == s.c && t.e == s.e && t.m == s.m
  {
  }

  /** Once the call is cancelled every step but those two kinds brings the end nearer. */
  lemma StepsRunDown(cfg: Config, s: State, a: Action)
    requires s.ctl.cancelled && Step(cfg, s, a).Some?
    ensures Step(cfg, s, a).value.ctl.cancelled
    ensures Outside(a) ==> Rank(Step(cfg, s, a).value) == Rank(s)
    ensures !Outside(a) && !LooksAway(a) ==> Rank(Step(cfg, s, a).value) < Rank(s)
  {
    match a
    case OfCaller(choice) => PumpsRunDown(cfg, s, choice);
    case OfPacer(choice) => PumpsRunDown(cfg, s, choice);
    case OfEvents(choice) =>
      if HandlerStep(cfg, s, choice).Some? {
        HandlerFrame(cfg, s, choice);
        HandlerRunsDown(cfg, s, choice);
      }
    case _ =>
  }

  /** And there is always such a step, until the bridge has returned. */
  lemma NeverStuck(cfg: Config, s: State) returns (a: Action)
    requires JoinInv(s) && s.ctl.cancelled && !Over(s)
    ensures Step(cfg, s, a).Some? && !Outside(a) && !LooksAway(a)
  {
    if s.m.MGreet? {
      return OfMain(Fails);
    } else if !s.m.MWait? || Running(s) == 0 {
      return OfMain(Go);
    } else if !s.c.CEnd? {
      return OfCaller(match s.c case CRead => ReadReturns([], Eof) case CAppend(_, _) => Fails case _ => Go);
    } else if !s.p.PEnd? {
      return OfPacer(match s.p case PSelect => SeesDone case PWrite => Fails case _ => Go);
    } else {
      return OfEvents(match s.e case ESelect => SeesDone case ECancelSend => Fails case _ => Go);
    }
  }

  /**
   The model leaves the environment free: while the bridge runs, a read may return whatever fits its
   buffer with or without an error, every write may succeed or fail, the clock may tick, any event
   may arrive, the channel may close, and the call may be cancelled from outside at any moment.
   */
  lemma EnvironmentIsFree(cfg: Config, s: State, chunk: seq<byte>, err: ReadError, ev: ServerEvent, expired: bool)
    requires s.m.MWait?
    ensures s.c.CRead? && |chunk| <= 4 * cfg.frameSize ==> Step(cfg, s, OfCaller(ReadReturns(chunk, err))).Some?
    ensures s.c.CAppend? ==> Step(cfg, s, OfCaller(Succeeds)).Some? && Step(cfg, s, OfCaller(Fails)).Some?
    ensures s.p.PSelect? ==> Step(cfg, s, OfPacer(TickFires)).Some?
    ensures s.p.PWrite? ==> Step(cfg, s, OfPacer(Succeeds)).Some? && Step(cfg, s, OfPacer(Fails)).Some?
    ensures s.e.ESelect? ==>
              && Step(cfg, s, OfEvents(Receives(ev))).Some? && Step(cfg, s, OfEvents(ChannelCloses)).Some?
              && Step(cfg, s, OfEvents(IdleFires(expired))).Some?
    ensures s.e.ECancelSend? ==> Step(cfg, s, OfEvents(Succeeds)).Some? && Step(cfg, s, OfEvents(Fails)).Some?
    ensures Step(cfg, s, ParentCancels).Some? && (cfg.maxCall ==> Step(cfg, s, MaxCallFires).Some?)
  {
  }

  lemma SendsOnlyGrow(cfg: Config, s: State, a: Action)
    requires Step(cfg, s, a).Some?
    ensures s.ctl.sends <= Step(cfg, s, a).value.ctl.sends
  {
    if a.OfEvents? && HandlerStep(cfg, s, a.choice).Some? {
      HandlerFrame(cfg, s, a.choice);
    }
  }

  /**
   Termination under stated fairness. After a cancel, a run in which selects notice it makes at
   most `MOST_STEPS` steps of its own, however the goroutines interleave and whatever the I/O
   returns.
   */
  lemma {:induction false} CancelledRunIsShort(cfg: Config, s: State, more: seq<Action>)
    requires s.ctl.cancelled && Exec(cfg, s, more).Some?
    requires forall i :: 0 <= i < |more| ==> !Outside(more[i]) && !LooksAway(more[i])
    ensures Exec(cfg, s, more).value.ctl.cancelled
    ensures |more| + Rank(Exec(cfg, s, more).value) <= Rank(s) <= MOST_STEPS
  {
    if more != [] {
      CancelledRunIsShort(cfg, s, more[..|more| - 1]);
      StepsRunDown(cfg, Exec(cfg, s, more[..|more| - 1]).value, more[|more| - 1]);
    }
  }

  lemma Then(cfg: Config, actions: seq<Action>, s: State, a: Action) returns (actions': seq<Action>, s': State)
    requires Reaches(cfg, actions, s) && Step(cfg, s, a).Some?
    ensures actions' == actions + [a] && Reaches(cfg, actions', s') && s' == Step(cfg, s, a).value
  {
    actions', s' := actions + [a], Step(cfg, s, a).value;
    ExecSnoc(cfg, Init(cfg), actions, a);
  }

  /** From anywhere a cancelled call can get to, it can still finish; it never deadlocks. */
  lemma {:induction false} CancelledCallCanFinish(cfg: Config, actions: seq<Action>, s: State)
    returns (whole: seq<Action>, end: State)
    requires Reaches(cfg, actions, s) && s.ctl.cancelled
    ensures actions <= whole && Reaches(cfg, whole, end) && Over(end)
    ensures s.ctl.sends <= end.ctl.sends
    decreases Rank(s)
  {
    if Over(s) {
      return actions, s;
    }
    RunKeepsInv(cfg, actions, s);
    var a := NeverStuck(cfg, s);
    StepsRunDown(cfg, s, a);
    SendsOnlyGrow(cfg, s, a);
    var longer, t := Then(cfg, actions, s, a);
    whole, end := CancelledCallCanFinish(cfg, longer, t);
  }

  // ---------- The condition on the reported reason is needed ----------

  /**
   Once the call-length limit has cancelled the call, a read that then ends makes the bridge
   report that the caller hung up.
   */
  lemma HungUpReportedAfterMaxCall(cfg: Config) returns (actions: seq<Action>, s: State)
    requires cfg.maxCall
    ensures Reaches(cfg, actions, s) && s.m.MReturned?
    ensures s.m.result.why == CallerHungUp
    ensures s.ctl.sends != [] && s.ctl.sends[0] == Sent(CallerPump, CallerHungUp, false, true)
  {
    actions, s := [], Init(cfg);
    actions, s := Then(cfg, actions, s, OfMain(Succeeds));
    actions, s := Then(cfg, actions, s, OfCaller(Go));
    actions, s := Then(cfg, actions, s, MaxCallFires);
    actions, s := Then(cfg, actions, s, OfCaller(ReadReturns([], Eof)));
    actions, s := Then(cfg, actions, s, OfCaller(Go));
    assert s.ctl.sends == [Sent(CallerPump, CallerHungUp, false, true)];
    actions, s := CancelledCallCanFinish(cfg, actions, s);
    RunKeepsInv(cfg, actions, s);
  }
}
