/**
 Why a call ended. Each reason is traced to what happened in the run: it is on its way or sent
 exactly when its cause has occurred, none is lost, and the one reported is the first sent.
 */
module Causes {
  import opened Basics
  import opened Realtime
  import opened BridgeModel
  import opened Shutdown

  // ---------- What happened ----------

  /** What the goroutine did last. */
  function LastOf(actions: seq<Action>, g: Goroutine): Option<Choice> {
    if actions == [] then None
    else
      match (actions[|actions| - 1], g)
      case (OfCaller(choice), CallerPump) => Some(choice)
      case (OfPacer(choice), PacingPump) => Some(choice)
      case (OfEvents(choice), EventHandler) => Some(choice)
      case _ => LastOf(actions[..|actions| - 1], g)
  }

  /** The last the caller pump did was a read that ended in an error, whatever bytes came with it. */
  predicate ReadEnded(last: Option<Choice>) {
    last.Some? && last.value.ReadReturns? && last.value.err != NoError
  }

  /**
   With action `a`, after `before` and with the call live or not, the cause of `why` occurs: a read
   ends and what it returned is forwarded; the look at the context after a failed append or a
   failed frame finds the call live; the silence limit is found exceeded; the event channel closes.
   */
  predicate Occurs(cfg: Config, before: seq<Action>, live: bool, a: Action, why: Reason) {
    match why
    case CallerHungUp =>
      || (a.OfCaller? && ReadEnded(Some(a.choice)) && a.choice.chunk == [])
      || (a == OfCaller(Succeeds) && ReadEnded(LastOf(before, CallerPump)))
    case ModelConnectionLost => a == OfCaller(Go) && LastOf(before, CallerPump) == Some(Fails) && live
    case MediaWriteFailed => a == OfPacer(Go) && LastOf(before, PacingPump) == Some(Fails) && live
    case CallerSilent => a == OfEvents(IdleFires(true)) && cfg.idleGuard
    case ModelSessionClosed => a == OfEvents(ChannelCloses)
    case _ => false
  }

  /** The cause of `why` has occurred in the run. */
  predicate Caused(cfg: Config, actions: seq<Action>, why: Reason)
    requires Exec(cfg, Init(cfg), actions).Some?
  {
    actions != []
    && var init := actions[..|actions| - 1];
       || Caused(cfg, init, why)
       || Occurs(cfg, init, !Exec(cfg, Init(cfg), init).value.ctl.cancelled, actions[|actions| - 1], why)
  }

  /** The caller's side, or the call-length limit, has cancelled the call. */
  predicate CancelledOutside(actions: seq<Action>) {
    ParentCancels in actions || MaxCallFires in actions
  }

  // ---------- What the bridge makes of it ----------

  predicate OnItsWay(s: State, why: Reason) {
    s.c == CSend(why) || s.p == PSend(why) || s.e == ESend(why)
  }

  predicate WasSent(sends: seq<Sent>, why: Reason) {
    exists i :: 0 <= i < |sends| && sends[i].why == why
  }

  predicate Given(s: State, why: Reason) {
    OnItsWay(s, why) || WasSent(s.ctl.sends, why)
  }

  lemma WasSentSnoc(sends: seq<Sent>, x: Sent, why: Reason)
    ensures WasSent(sends + [x], why) <==> WasSent(sends, why) || x.why == why
  {
    var longer := sends + [x];
    assert longer[|sends|] == x;
    if WasSent(sends, why) {
      var i :| 0 <= i < |sends| && sends[i].why == why;
      assert longer[i].why == why;
    }
  }

  /** Where the pumps are says what they did last. */
  ghost predicate PumpsRemember(s: State, actions: seq<Action>) {
    && (s.c.CAppend? ==> LastOf(actions, CallerPump) == Some(ReadReturns(s.c.chunk, s.c.err)))
    && (s.c.CAppendFailed? <==> LastOf(actions, CallerPump) == Some(Fails))
    && (s.p.PWriteFailed? <==> LastOf(actions, PacingPump) == Some(Fails))
  }

  lemma LastOfSnoc(actions: seq<Action>, a: Action)
    ensures LastOf(actions + [a], CallerPump) == if a.OfCaller? then Some(a.choice) else LastOf(actions, CallerPump)
    ensures LastOf(actions + [a], PacingPump) == if a.OfPacer? then Some(a.choice) else LastOf(actions, PacingPump)
  {
    assert (actions + [a])[..|actions|] == actions;
  }

  lemma CallerRemembers(cfg: Config, s: State, choice: Choice)
    requires CallerStep(cfg, s, choice).Some?
    ensures var t := CallerStep(cfg, s, choice).value;
            && t.p == s.p
            && (t.c.CAppend? ==> choice == ReadReturns(t.c.chunk, t.c.err))
            && (t.c.CAppendFailed? <==> choice == Fails)
  {
  }

  lemma PacerRemembers(cfg: Config, s: State, choice: Choice)
    requires PacerStep(cfg, s, choice).Some?
    ensures var t := PacerStep(cfg, s, choice).value; t.c == s.c && (t.p.PWriteFailed? <==> choice == Fails)
  {
  }

  lemma EventsLeavePumps(cfg: Config, s: State, choice: Choice)
    requires EventsStep(cfg, s, choice).Some?
    ensures var t := EventsStep(cfg, s, choice).value; t.c == s.c && t.p == s.p
  {
    if HandlerStep(cfg, s, choice).Some? {
      HandlerFrame(cfg, s, choice);
    }
  }

  lemma StepRemembers(cfg: Config, s: State, actions: seq<Action>, a: Action)
    requires PumpsRemember(s, actions) && Step(cfg, s, a).Some?
    ensures PumpsRemember(Step(cfg, s, a).value, actions + [a])
  {
    LastOfSnoc(actions, a);
    match a
    case OfCaller(choice) => CallerRemembers(cfg, s, choice);
    case OfPacer(choice) => PacerRemembers(cfg, s, choice);
    case OfEvents(choice) => EventsLeavePumps(cfg, s, choice);
    case _ =>
  }

  // ---------- Reasons are given exactly for their causes ----------

  lemma CallerGives(cfg: Config, s: State, actions: seq<Action>, choice: Choice, why: Reason)
    requires PumpsRemember(s, actions) && CallerStep(cfg, s, choice).Some?
    ensures Given(CallerStep(cfg, s, choice).value, why)
       <==> Given(s, why) || Occurs(cfg, actions, !s.ctl.cancelled, OfCaller(choice), why)
  {
    if s.c.CSend? {
      WasSentSnoc(s.ctl.sends, Sent(CallerPump, s.c.why, !s.ctl.cancelled, s.ctl.external), why);
    } else {
      assert CallerStep(cfg, s, choice).value.ctl.sends == s.ctl.sends;
    }
  }

  lemma PacerGives(cfg: Config, s: State, actions: seq<Action>, choice: Choice, why: Reason)
    requires PumpsRemember(s, actions) && PacerStep(cfg, s, choice).Some?
    ensures Given(PacerStep(cfg, s, choice).value, why)
       <==> Given(s, why) || Occurs(cfg, actions, !s.ctl.cancelled, OfPacer(choice), why)
  {
    if s.p.PSend? {
      WasSentSnoc(s.ctl.sends, Sent(PacingPump, s.p.why, !s.ctl.cancelled, s.ctl.external), why);
    } else {
      assert PacerStep(cfg, s, choice).value.ctl.sends == s.ctl.sends;
    }
  }

  lemma EventsGive(cfg: Config, s: State, actions: seq<Action>, choice: Choice, why: Reason)
    requires EventsStep(cfg, s, choice).Some?
    ensures Given(EventsStep(cfg, s, choice).value, why)
       <==> Given(s, why) || Occurs(cfg, actions, !s.ctl.cancelled, OfEvents(choice), why)
  {
    if s.e.ESend? {
      WasSentSnoc(s.ctl.sends, Sent(EventHandler, s.e.why, !s.ctl.cancelled, s.ctl.external), why);
    } else if HandlerStep(cfg, s, choice).Some? {
      HandlerFrame(cfg, s, choice);
    }
  }

  lemma OthersGiveNothing(cfg: Config, s: State, a: Action)
    requires Step(cfg, s, a).Some? && !a.OfCaller? && !a.OfPacer? && !a.OfEvents?
    ensures var t := Step(cfg, s, a).value; t.c == s.c && t.p == s.p && t.e == s.e && t.ctl.sends == s.ctl.sends
  {
  }

  lemma StepGives(cfg: Config, s: State, actions: seq<Action>, a: Action, why: Reason)
    requires PumpsRemember(s, actions) && Step(cfg, s, a).Some?
    ensures Given(Step(cfg, s, a).value, why)
       <==> Given(s, why) || Occurs(cfg, actions, !s.ctl.cancelled, a, why)
  {
    match a
    case OfCaller(choice) => CallerGives(cfg, s, actions, choice, why);
    case OfPacer(choice) => PacerGives(cfg, s, actions, choice, why);
    case OfEvents(choice) => EventsGive(cfg, s, actions, choice, why);
    case _ => OthersGiveNothing(cfg, s, a);
  }

  lemma {:induction false} PumpsHaveRemembered(cfg: Config, actions: seq<Action>, s: State)
    requires Reaches(cfg, actions, s)
    ensures PumpsRemember(s, actions)
  {
    if actions != [] {
      var init, a := actions[..|actions| - 1], actions[|actions| - 1];
      var before := Exec(cfg, Init(cfg), init).value;
      PumpsHaveRemembered(cfg, init, before);
      StepRemembers(cfg, before, init, a);
      assert actions == init + [a];
    }
  }

  lemma NothingGivenAtFirst(cfg: Config, why: Reason)
    ensures !Given(Init(cfg), why)
  {
  }

  /** A reason is on its way or sent if and only if its cause has occurred. */
  lemma {:induction false} ReasonsHaveCauses(cfg: Config, actions: seq<Action>, s: State, why: Reason)
    requires Reaches(cfg, actions, s)
    ensures Given(s, why) <==> Caused(cfg, actions, why)
  {
    if actions == [] {
      NothingGivenAtFirst(cfg, why);
    } else {
      var init := actions[..|actions| - 1];
      var before := Exec(cfg, Init(cfg), init).value;
      ReasonsHaveCauses(cfg, init, before, why);
      PumpsHaveRemembered(cfg, init, before);
      StepGives(cfg, before, init, actions[|actions| - 1], why);
    }
  }

  predicate Outsider(a: Action) {
    a == ParentCancels || a == MaxCallFires
  }

  lemma StepCancels(cfg: Config, s: State, a: Action)
    requires Step(cfg, s, a).Some?
    ensures var t := Step(cfg, s, a).value;
            && (t.ctl.external <==> s.ctl.external || Outsider(a))
            && (s.ctl.cancelled || Outsider(a) ==> t.ctl.cancelled)
            && (a == MaxCallFires ==> cfg.maxCall)
  {
    match a
    case OfEvents(choice) =>
      if HandlerStep(cfg, s, choice).Some? {
        HandlerFrame(cfg, s, choice);
      }
    case _ =>
  }

  lemma CancelledOutsideSnoc(actions: seq<Action>, a: Action)
    ensures CancelledOutside(actions + [a]) <==> CancelledOutside(actions) || Outsider(a)
    ensures MaxCallFires in actions + [a] <==> MaxCallFires in actions || a == MaxCallFires
  {
  }

  /** Outside cancels are what the history says, the call-length limit fires only if set, and either ends the call. */
  lemma {:induction false} OutsideCancels(cfg: Config, actions: seq<Action>, s: State)
    requires Reaches(cfg, actions, s)
    ensures s.ctl.external <==> CancelledOutside(actions)
    ensures CancelledOutside(actions) ==> s.ctl.cancelled
    ensures MaxCallFires in actions ==> cfg.maxCall
  {
    if actions != [] {
      var init, a := actions[..|actions| - 1], actions[|actions| - 1];
      var before := Exec(cfg, Init(cfg), init).value;
      OutsideCancels(cfg, init, before);
      StepCancels(cfg, before, a);
      assert actions == init + [a];
      CancelledOutsideSnoc(init, a);
    }
  }

  // ---------- Results ----------

  /**
   No reason is ever lost: whatever gives cause for one has it on its way or sent, at most one is
   sent by each goroutine, and while goroutines run the channel holds all that were sent, in order.
   */
  lemma NoReasonIsLost(cfg: Config, actions: seq<Action>, s: State)
    requires Reaches(cfg, actions, s)
    ensures forall why :: Given(s, why) <==> Caused(cfg, actions, why)
    ensures |s.ctl.sends| <= 3
    ensures forall g :: SendsFrom(s.ctl.sends, g) <= 1
    ensures s.m.MWait? || s.m.MDrain? ==> s.ctl.reasons == Whys(s.ctl.sends)
    ensures forall i :: 0 <= i < |s.ctl.sends| ==> ReasonOf(s.ctl.sends[i].from, s.ctl.sends[i].why)
  {
    forall why ensures Given(s, why) <==> Caused(cfg, actions, why) {
      ReasonsHaveCauses(cfg, actions, s, why);
    }
    RunKeepsInv(cfg, actions, s);
    SendsSplit(s.ctl.sends);
    forall g ensures SendsFrom(s.ctl.sends, g) <= 1 {
      match g case CallerPump => case PacingPump => case EventHandler =>
    }
  }

  /**
   The reported reason is the first one sent, its cause occurred, and it was sent while the call
   was live if and only if nothing outside had cancelled the call by then. "Call ended" is reported
   exactly when there was no cause for any other reason, which takes an outside cancel.
   */
  lemma ReportedReason(cfg: Config, actions: seq<Action>, s: State)
    requires Reaches(cfg, actions, s) && s.m.MReturned?
    ensures s.m.result.why != CallEnded ==> Caused(cfg, actions, s.m.result.why)
    ensures s.m.result.why == CallEnded <==> forall why :: !Caused(cfg, actions, why)
    ensures s.m.result.why == CallEnded ==> CancelledOutside(actions)
    ensures s.ctl.sends != [] ==>
              && s.m.result.why == s.ctl.sends[0].why
              && ReasonOf(s.ctl.sends[0].from, s.m.result.why)
              && (s.ctl.sends[0].live <==> !s.ctl.sends[0].external)
    ensures !CancelledOutside(actions) ==> s.ctl.sends != [] && s.ctl.sends[0].live
  {
    RunKeepsInv(cfg, actions, s);
    OutsideCancels(cfg, actions, s);
    NoReasonIsLost(cfg, actions, s);
    if s.ctl.sends != [] {
      var first := s.ctl.sends[0];
      assert Given(s, first.why) && Caused(cfg, actions, first.why);
      assert ReasonOf(first.from, first.why) && first.why != CallEnded;
      assert s.m.result.why == first.why;
      assert exists why :: Caused(cfg, actions, why);
    } else {
      forall why ensures !Caused(cfg, actions, why) {
        assert !Given(s, why);
      }
    }
  }
}
