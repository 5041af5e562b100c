/**
 What the quality counters are worth. The pumps and the event handler touch them without a
 common lock, so each counter is compared with what it is meant to count, over every
 interleaving.
 */
module Diagnostics {
  import opened Basics
  import opened Pacing
  import opened Realtime
  import opened Dialogue
  import opened BridgeModel
  import AudioPath
  import Handling
  import Shutdown

  // ---------- Starved frames ----------

  /** Between a short take and the load that decides whether it counts as starved. */
  predicate Undecided(cfg: Config, p: PacerPc) {
    p.PLoad? || (p.PCount? && p.n < cfg.frameSize)
  }

  /** The frames counted as starved, less the short takes made while speaking, of the takes decided so far. */
  function CountError(cfg: Config, u: Audio, p: PacerPc): int {
    u.starved + (if p.PStarve? then 1 else 0)
      - (u.starvedAtTake - if Undecided(cfg, p) && u.atTake then 1 else 0)
  }

  /** This action is the load after a short take, and it finds the flag risen since the take. */
  predicate RoseInBetween(s: State, a: Action) {
    a == OfPacer(Go) && s.p.PLoad? && s.aud.speaking && !s.aud.atTake
  }

  /** The same, with the flag fallen since the take. */
  predicate FellInBetween(s: State, a: Action) {
    a == OfPacer(Go) && s.p.PLoad? && !s.aud.speaking && s.aud.atTake
  }

  /** Short takes of a run between whose take and load the flag rose, so that it was down at the one and up at the other. */
  function Risen(cfg: Config, actions: seq<Action>): nat
    requires Exec(cfg, Init(cfg), actions).Some?
  {
    if actions == [] then 0
    else
      var init := actions[..|actions| - 1];
      Risen(cfg, init) + if RoseInBetween(Exec(cfg, Init(cfg), init).value, actions[|actions| - 1]) then 1 else 0
  }

  /** Short takes between whose take and load it fell. */
  function Fallen(cfg: Config, actions: seq<Action>): nat
    requires Exec(cfg, Init(cfg), actions).Some?
  {
    if actions == [] then 0
    else
      var init := actions[..|actions| - 1];
      Fallen(cfg, init) + if FellInBetween(Exec(cfg, Init(cfg), init).value, actions[|actions| - 1]) then 1 else 0
  }

  /**
   Each frame counted too many has a rise of the flag of its own and each one missed a fall; the
   flag starts down, so rises are half its changes, rounded up, and falls half, rounded down.
   */
  ghost predicate StarvationInv(cfg: Config, u: Audio, p: PacerPc, risen: nat, fallen: nat) {
    var up := if Undecided(cfg, p) && u.speaking && !u.atTake then 1 else 0;
    var down := if Undecided(cfg, p) && !u.speaking && u.atTake then 1 else 0;
    var now := if u.speaking then 1 else 0;
    && CountError(cfg, u, p) == risen - fallen
    && 2 * (risen + up) <= u.flips + now
    && 2 * (fallen + down) <= u.flips - now
    && (p.PStarve? ==> 2 * fallen <= u.flips - 1)
  }

  lemma PacerKeepsStarvation(cfg: Config, s: State, choice: Choice, risen: nat, fallen: nat)
    requires StarvationInv(cfg, s.aud, s.p, risen, fallen) && PacerStep(cfg, s, choice).Some?
    ensures var t := PacerStep(cfg, s, choice).value;
            StarvationInv(cfg, t.aud, t.p,
                          risen + (if RoseInBetween(s, OfPacer(choice)) then 1 else 0),
                          fallen + if FellInBetween(s, OfPacer(choice)) then 1 else 0)
  {
  }

  lemma EventsKeepStarvation(cfg: Config, s: State, choice: Choice, risen: nat, fallen: nat)
    requires StarvationInv(cfg, s.aud, s.p, risen, fallen) && EventsStep(cfg, s, choice).Some?
    ensures var t := EventsStep(cfg, s, choice).value; StarvationInv(cfg, t.aud, t.p, risen, fallen)
  {
    EventsTouchFlagOnly(cfg, s, choice);
  }

  /** Of all the starvation bookkeeping the event handler touches only the flag. */
  lemma EventsTouchFlagOnly(cfg: Config, s: State, choice: Choice)
    requires EventsStep(cfg, s, choice).Some?
    ensures var u, u' := s.aud, EventsStep(cfg, s, choice).value.aud;
            && EventsStep(cfg, s, choice).value.p == s.p
            && u'.starved == u.starved && u'.starvedAtTake == u.starvedAtTake && u'.atTake == u.atTake
            && u'.flips == u.flips + if u'.speaking != u.speaking then 1 else 0
  {
    AudioPath.EventsAudio(cfg, s, choice);
  }

  lemma StepKeepsStarvation(cfg: Config, s: State, a: Action, risen: nat, fallen: nat)
    requires StarvationInv(cfg, s.aud, s.p, risen, fallen) && Step(cfg, s, a).Some?
    ensures var t := Step(cfg, s, a).value;
            StarvationInv(cfg, t.aud, t.p,
                          risen + (if RoseInBetween(s, a) then 1 else 0),
                          fallen + if FellInBetween(s, a) then 1 else 0)
  {
    match a
    case OfPacer(choice) => PacerKeepsStarvation(cfg, s, choice, risen, fallen);
    case OfEvents(choice) => EventsKeepStarvation(cfg, s, choice, risen, fallen);
    case _ =>
  }

  lemma {:induction false} StarvationHolds(cfg: Config, actions: seq<Action>, s: State)
    requires Reaches(cfg, actions, s)
    ensures StarvationInv(cfg, s.aud, s.p, Risen(cfg, actions), Fallen(cfg, actions))
  {
    if actions != [] {
      var init, a := actions[..|actions| - 1], actions[|actions| - 1];
      var before := Exec(cfg, Init(cfg), init).value;
      StarvationHolds(cfg, init, before);
      StepKeepsStarvation(cfg, before, a, Risen(cfg, init), Fallen(cfg, init));
    }
  }

  /**
   What the starved-frame counter is off by, and exactly when it is right: it counts one too many
   for every short take between which and its load the flag rose, one too few for every one where
   it fell, and is right if and only if there were as many of the one as of the other. The first
   clause holds with a take undecided or a count about to be made, the others once no frame is in
   flight.
   */
  lemma StarvedFramesExactly(cfg: Config, actions: seq<Action>, s: State)
    requires Reaches(cfg, actions, s)
    ensures s.aud.starved + (if s.p.PStarve? then 1 else 0)
         == s.aud.starvedAtTake - (if Undecided(cfg, s.p) && s.aud.atTake then 1 else 0)
              + Risen(cfg, actions) - Fallen(cfg, actions)
    ensures !AudioPath.InFlight(s.p) ==>
              (s.aud.starved == s.aud.starvedAtTake) == (Risen(cfg, actions) == Fallen(cfg, actions))
  {
    StarvationHolds(cfg, actions, s);
  }

  /**
   In every interleaving and at every moment the error, either way, is at most half the number of
   times the flag changed, rounded up; for frames missed, once none is in flight, rounded down.
   */
  lemma StarvedFramesErrorBound(cfg: Config, actions: seq<Action>, s: State)
    requires Reaches(cfg, actions, s)
    ensures 2 * (s.aud.starved - s.aud.starvedAtTake) <= s.aud.flips + 1
    ensures 2 * (s.aud.starvedAtTake - s.aud.starved) <= s.aud.flips + 1
    ensures !AudioPath.InFlight(s.p) ==> 2 * (s.aud.starvedAtTake - s.aud.starved) <= s.aud.flips
  {
    StarvationHolds(cfg, actions, s);
  }

  /** A short take made while the model was speaking, not yet decided. */
  lemma ShortTakeWhileSpeaking(cfg: Config) returns (actions: seq<Action>, s: State)
    requires cfg.frameSize > 0
    ensures Reaches(cfg, actions, s) && s.m == MWait && s.p == PCount(0) && s.e == ESelect
    ensures s.aud.speaking && s.aud.starvedAtTake == 1 && s.aud.starved == 0 && s.aud.flips == 1
  {
    actions, s := [], Init(cfg);
    actions, s := Shutdown.Then(cfg, actions, s, OfMain(Succeeds));
    actions, s := Shutdown.Then(cfg, actions, s, OfEvents(Receives(AudioDelta(Some([])))));
    actions, s := Shutdown.Then(cfg, actions, s, OfEvents(Go));
    assert s.aud == Audio(START, true, 0, 0, [], [], 0, 0, false, 1);
    actions, s := Shutdown.Then(cfg, actions, s, OfPacer(TickFires));
    actions, s := Shutdown.Then(cfg, actions, s, OfPacer(Go));
    actions, s := Shutdown.Then(cfg, actions, s, OfEvents(Go));
  }

  /** The bound is attained: a short take just before the model's audio ends goes uncounted. */
  lemma StarvedFrameMissed(cfg: Config) returns (actions: seq<Action>, s: State)
    requires cfg.frameSize > 0
    ensures Reaches(cfg, actions, s) && !AudioPath.InFlight(s.p)
    ensures s.aud.starvedAtTake == 1 && s.aud.starved == 0 && s.aud.flips == 2
  {
    actions, s := ShortTakeWhileSpeaking(cfg);
    actions, s := Shutdown.Then(cfg, actions, s, OfEvents(Receives(AudioDone)));
    actions, s := Shutdown.Then(cfg, actions, s, OfEvents(Go));
    actions, s := Shutdown.Then(cfg, actions, s, OfPacer(Go));
    actions, s := Shutdown.Then(cfg, actions, s, OfPacer(Go));
    actions, s := Shutdown.Then(cfg, actions, s, OfPacer(Succeeds));
  }

  /** A short take made before the model's first word, which arrives while the take is undecided. */
  lemma ShortTakeBeforeSpeaking(cfg: Config) returns (actions: seq<Action>, s: State)
    requires cfg.frameSize > 0
    ensures Reaches(cfg, actions, s) && s.m == MWait && s.p == PCount(0)
    ensures s.aud.speaking && s.aud.starvedAtTake == 0 && s.aud.starved == 0 && s.aud.flips == 1
  {
    actions, s := [], Init(cfg);
    actions, s := Shutdown.Then(cfg, actions, s, OfMain(Succeeds));
    actions, s := Shutdown.Then(cfg, actions, s, OfEvents(Receives(AudioDelta(Some([])))));
    assert s.aud == Audio(START, false, 0, 0, [], [], 0, 0, false, 0);
    actions, s := Shutdown.Then(cfg, actions, s, OfPacer(TickFires));
    actions, s := Shutdown.Then(cfg, actions, s, OfPacer(Go));
    actions, s := Shutdown.Then(cfg, actions, s, OfEvents(Go));
  }

  /** In the other direction too: silence before the model's first word counts as starved. */
  lemma StarvedFrameTooMany(cfg: Config) returns (actions: seq<Action>, s: State)
    requires cfg.frameSize > 0
    ensures Reaches(cfg, actions, s) && !AudioPath.InFlight(s.p)
    ensures s.aud.starvedAtTake == 0 && s.aud.starved == 1 && s.aud.flips == 1
  {
    actions, s := ShortTakeBeforeSpeaking(cfg);
    actions, s := Shutdown.Then(cfg, actions, s, OfPacer(Go));
    actions, s := Shutdown.Then(cfg, actions, s, OfPacer(Go));
    actions, s := Shutdown.Then(cfg, actions, s, OfPacer(Go));
    actions, s := Shutdown.Then(cfg, actions, s, OfPacer(Succeeds));
  }

  // ---------- Barge-ins ----------

  function CountSelf(barges: seq<Barge>): (n: nat)
    ensures n <= |barges|
  {
    if barges == [] then 0
    else CountSelf(barges[..|barges| - 1]) + if barges[|barges| - 1].self then 1 else 0
  }

  /** What is left of `pending` bytes after `ticks` takes and no writes. */
  function Left(fs: nat, pending: nat, ticks: int): int {
    Max(pending - fs * ticks, 0)
  }

  lemma LeftAfterTake(fs: nat, pending: nat, ticks: nat)
    ensures Left(fs, pending, ticks + 1) == Left(fs, pending, ticks) - Min(fs, Left(fs, pending, ticks))
  {
    assert fs * (ticks + 1) == fs * ticks + fs;
  }

  predicate Measured(e: EventsPc) {
    e.ELoad? || e.EBarge? || e.ESelf? || e.EQuiet? || e.EReset?
  }

  /** The measurement a handler carries is exact up to the takes made since. */
  ghost predicate MeasureInv(cfg: Config, w: World, mark: nat, e: EventsPc) {
    Measured(e) ==>
      && mark <= |w.takes|
      && |w.q.pending| == Left(cfg.frameSize, e.pending, |w.takes| - mark)
      && ((e.EBarge? || e.EQuiet? || e.EReset?) && !e.self ==> e.pending == 0)
  }

  ghost predicate BargesInv(cfg: Config, k: Talk, e: EventsPc) {
    && (forall i :: 0 <= i < |k.barges| ==> Sound(cfg, k.barges[i]))
    && k.bargeIns == |k.barges| + (if e.ESelf? || e.EQuiet? || e.EReset? then 1 else 0)
    && k.selfBargeIns == CountSelf(k.barges) + (if (e.EQuiet? || e.EReset?) && e.self then 1 else 0)
  }

  /** What a reset flushed is what had been measured, less what was played meanwhile. */
  predicate Sound(cfg: Config, b: Barge) {
    && b.ticks >= 0
    && b.flushed == Left(cfg.frameSize, b.pending, b.ticks)
    && (!b.self ==> b.pending == 0)
  }

  lemma PacerKeepsMeasure(cfg: Config, s: State, choice: Choice)
    requires MeasureInv(cfg, s.aud.w, s.talk.mark, s.e) && PacerStep(cfg, s, choice).Some?
    ensures var t := PacerStep(cfg, s, choice).value;
            MeasureInv(cfg, t.aud.w, t.talk.mark, t.e) && t.talk == s.talk && t.e == s.e
  {
    if Measured(s.e) {
      LeftAfterTake(cfg.frameSize, s.e.pending, |s.aud.w.takes| - s.talk.mark);
      assert |s.aud.w.takes| - s.talk.mark + 1 == |s.aud.w.takes| + 1 - s.talk.mark;
    }
  }

  lemma EventsKeepMeasure(cfg: Config, s: State, choice: Choice)
    requires MeasureInv(cfg, s.aud.w, s.talk.mark, s.e) && EventsStep(cfg, s, choice).Some?
    ensures var t := EventsStep(cfg, s, choice).value; MeasureInv(cfg, t.aud.w, t.talk.mark, t.e)
  {
    if Measured(s.e) {
      MeasuringKeepsMeasure(cfg, s, choice);
    } else {
      OthersStartMeasure(cfg, s, choice);
    }
  }

  /** A measurement begins with the buffer's length as it is. */
  lemma OthersStartMeasure(cfg: Config, s: State, choice: Choice)
    requires EventsStep(cfg, s, choice).Some? && !Measured(s.e)
    ensures var t := EventsStep(cfg, s, choice).value;
            Measured(t.e) ==> t.e.ELoad? && t.talk.mark == |t.aud.w.takes| && t.e.pending == |t.aud.w.q.pending|
  {
  }

  /** Until the reset the handler carries it along and leaves the buffer alone. */
  lemma MeasuringKeepsMeasure(cfg: Config, s: State, choice: Choice)
    requires EventsStep(cfg, s, choice).Some? && Measured(s.e)
    requires (s.e.EBarge? || s.e.EQuiet? || s.e.EReset?) && !s.e.self ==> s.e.pending == 0
    ensures var t := EventsStep(cfg, s, choice).value;
            Measured(t.e) ==>
              && t.aud.w == s.aud.w && t.talk.mark == s.talk.mark && t.e.pending == s.e.pending
              && ((t.e.EBarge? || t.e.EQuiet? || t.e.EReset?) && !t.e.self ==> t.e.pending == 0)
  {
  }

  lemma CountSelfSnoc(barges: seq<Barge>, b: Barge)
    ensures CountSelf(barges + [b]) == CountSelf(barges) + if b.self then 1 else 0
  {
    assert (barges + [b])[..|barges|] == barges;
  }

  lemma EventsKeepBarges(cfg: Config, s: State, choice: Choice)
    requires MeasureInv(cfg, s.aud.w, s.talk.mark, s.e) && BargesInv(cfg, s.talk, s.e)
    requires EventsStep(cfg, s, choice).Some?
    ensures var t := EventsStep(cfg, s, choice).value; BargesInv(cfg, t.talk, t.e)
  {
    if Measured(s.e) {
      MeasuringKeepsBarges(cfg, s, choice);
    } else {
      OthersKeepBarges(cfg, s, choice);
    }
  }

  lemma OthersKeepBarges(cfg: Config, s: State, choice: Choice)
    requires EventsStep(cfg, s, choice).Some? && !Measured(s.e)
    ensures var t := EventsStep(cfg, s, choice).value;
            && t.talk.barges == s.talk.barges && t.talk.bargeIns == s.talk.bargeIns
            && t.talk.selfBargeIns == s.talk.selfBargeIns && (Measured(t.e) ==> t.e.ELoad?)
  {
  }

  lemma MeasuringKeepsBarges(cfg: Config, s: State, choice: Choice)
    requires MeasureInv(cfg, s.aud.w, s.talk.mark, s.e) && BargesInv(cfg, s.talk, s.e)
    requires EventsStep(cfg, s, choice).Some? && Measured(s.e)
    ensures var t := EventsStep(cfg, s, choice).value; BargesInv(cfg, t.talk, t.e)
  {
    if s.e.EReset? {
      var b := Barge(s.e.pending, s.e.self, |s.aud.w.q.pending|, |s.aud.w.takes| - s.talk.mark);
      BargeCompletes(cfg, s, choice, b);
      CountSelfSnoc(s.talk.barges, b);
    } else {
      CountingKeepsBarges(cfg, s, choice);
    }
  }

  lemma BargeCompletes(cfg: Config, s: State, choice: Choice, b: Barge)
    requires s.e.EReset? && EventsStep(cfg, s, choice).Some?
    requires b == Barge(s.e.pending, s.e.self, |s.aud.w.q.pending|, |s.aud.w.takes| - s.talk.mark)
    ensures var t := EventsStep(cfg, s, choice).value;
            t.talk == s.talk.(barges := s.talk.barges + [b]) && t.e == ECas
  {
  }

  lemma CountingKeepsBarges(cfg: Config, s: State, choice: Choice)
    requires BargesInv(cfg, s.talk, s.e)
    requires EventsStep(cfg, s, choice).Some? && Measured(s.e) && !s.e.EReset?
    ensures var t := EventsStep(cfg, s, choice).value; BargesInv(cfg, t.talk, t.e)
  {
  }

  lemma {:induction false} BargeInsHold(cfg: Config, actions: seq<Action>, s: State)
    requires Reaches(cfg, actions, s)
    ensures MeasureInv(cfg, s.aud.w, s.talk.mark, s.e) && BargesInv(cfg, s.talk, s.e)
  {
    if actions != [] {
      var init, a := actions[..|actions| - 1], actions[|actions| - 1];
      var before := Exec(cfg, Init(cfg), init).value;
      BargeInsHold(cfg, init, before);
      match a
      case OfPacer(choice) => PacerKeepsMeasure(cfg, before, choice);
      case OfEvents(choice) =>
        EventsKeepMeasure(cfg, before, choice);
        EventsKeepBarges(cfg, before, choice);
      case _ =>
    }
  }

  // ---------- Which barge-ins are self-inflicted ----------

  /** A barge-in is being handled and has not flushed yet. */
  predicate BargingIn(e: EventsPc) {
    e == EHandle(SpeechStarted) || Measured(e)
  }

  /** The verdict on the barge-in being handled, so far, given whether an utterance was under way when it came. */
  predicate VerdictFits(e: EventsPc, speaking: bool, over: bool) {
    match e
    case EHandle(_) => speaking == over
    case ELoad(_) => speaking == over
    case EBarge(pending, self) => self == (over || pending > 0)
    case ESelf(pending) => over || pending > 0
    case EQuiet(pending, self) => self == (over || pending > 0)
    case EReset(pending, self) => self == (over || pending > 0)
    case _ => true
  }

  ghost predicate VerdictInv(k: Talk, e: EventsPc, speaking: bool) {
    var over := OverSpeech(k.handled);
    && |over| == |k.barges| + (if BargingIn(e) then 1 else 0)
    && (forall i :: 0 <= i < |k.barges| ==> (k.barges[i].self <==> over[i] || k.barges[i].pending > 0))
    && (BargingIn(e) ==> VerdictFits(e, speaking, over[|k.barges|]))
  }

  lemma OverSpeechSnoc(evs: seq<ServerEvent>, ev: ServerEvent)
    ensures OverSpeech(evs + [ev]) == OverSpeech(evs) + if ev.SpeechStarted? then [MidUtterance(evs)] else []
  {
    assert (evs + [ev])[..|evs|] == evs;
  }

  lemma SelectKeepsVerdict(cfg: Config, s: State, choice: Choice)
    requires EventsStep(cfg, s, choice).Some? && Handling.BetweenEvents(s.e)
    requires VerdictInv(s.talk, s.e, s.aud.speaking) && (s.aud.speaking <==> MidUtterance(s.talk.handled))
    ensures var t := EventsStep(cfg, s, choice).value; VerdictInv(t.talk, t.e, t.aud.speaking)
  {
    SelectFrame(cfg, s, choice);
    if choice.Receives? {
      OverSpeechSnoc(s.talk.handled, choice.ev);
    }
  }

  lemma SelectFrame(cfg: Config, s: State, choice: Choice)
    requires EventsStep(cfg, s, choice).Some? && Handling.BetweenEvents(s.e)
    ensures var t := EventsStep(cfg, s, choice).value;
            && t.aud == s.aud && t.talk.barges == s.talk.barges
            && (if choice.Receives? then t.e == EHandle(choice.ev) else Handling.BetweenEvents(t.e))
            && t.talk.handled == s.talk.handled + if choice.Receives? then [choice.ev] else []
  {
  }

  lemma BeginKeepsVerdict(s: State, ev: ServerEvent)
    requires s.e == EHandle(ev) && VerdictInv(s.talk, s.e, s.aud.speaking)
    ensures var t := BeginHandling(s, ev); VerdictInv(t.talk, t.e, t.aud.speaking)
  {
    Handling.BeginFrame(s, ev);
  }

  lemma HandlerKeepsVerdict(cfg: Config, s: State, choice: Choice)
    requires HandlerStep(cfg, s, choice).Some? && VerdictInv(s.talk, s.e, s.aud.speaking)
    ensures var t := HandlerStep(cfg, s, choice).value; VerdictInv(t.talk, t.e, t.aud.speaking)
  {
    if s.e.EHandle? {
      BeginKeepsVerdict(s, s.e.ev);
    } else if Measured(s.e) {
      MeasuringKeepsVerdict(cfg, s, choice);
    } else {
      Handling.HandlerTakesNoEvent(cfg, s, choice);
    }
  }

  lemma MeasuringKeepsVerdict(cfg: Config, s: State, choice: Choice)
    requires HandlerStep(cfg, s, choice).Some? && Measured(s.e) && VerdictInv(s.talk, s.e, s.aud.speaking)
    ensures var t := HandlerStep(cfg, s, choice).value; VerdictInv(t.talk, t.e, t.aud.speaking)
  {
  }

  lemma OthersKeepVerdict(cfg: Config, s: State, a: Action)
    requires Step(cfg, s, a).Some? && !a.OfEvents?
    ensures var t := Step(cfg, s, a).value;
            t.talk == s.talk && t.e == s.e && t.aud.speaking == s.aud.speaking
  {
  }

  lemma {:induction false} VerdictsHold(cfg: Config, actions: seq<Action>, s: State)
    requires Reaches(cfg, actions, s)
    ensures VerdictInv(s.talk, s.e, s.aud.speaking)
  {
    if actions != [] {
      var init, a := actions[..|actions| - 1], actions[|actions| - 1];
      var before := Exec(cfg, Init(cfg), init).value;
      VerdictsHold(cfg, init, before);
      if !a.OfEvents? {
        OthersKeepVerdict(cfg, before, a);
      } else if Handling.BetweenEvents(before.e) {
        Handling.StateFromEvents(cfg, init, before);
        SelectKeepsVerdict(cfg, before, a.choice);
      } else {
        HandlerKeepsVerdict(cfg, before, a.choice);
      }
    }
  }

  /**
   Every barge-in measured soundly while the pump kept draining: the reset flushes no more than
   was measured, the difference is at most what the takes in between could carry, it is exactly
   that unless the buffer ran dry, and a barge-in not counted as self-inflicted flushes nothing.
   */
  lemma BargeInMeasurement(cfg: Config, actions: seq<Action>, s: State, i: nat)
    requires Reaches(cfg, actions, s) && i < |s.talk.barges|
    ensures var b := s.talk.barges[i];
            && b.ticks >= 0
            && 0 <= b.pending - b.flushed <= cfg.frameSize * b.ticks
            && (b.flushed > 0 ==> b.pending - b.flushed == cfg.frameSize * b.ticks)
            && (!b.self ==> b.pending == b.flushed == 0)
  {
    BargeInsHold(cfg, actions, s);
    assert Sound(cfg, s.talk.barges[i]);
    var b := s.talk.barges[i];
    assert cfg.frameSize * b.ticks >= 0;
  }

  /**
   A barge-in is counted as self-inflicted if and only if an utterance was under way when the event
   came or audio was pending when measured.
   */
  lemma SelfInflicted(cfg: Config, actions: seq<Action>, s: State, i: nat)
    requires Reaches(cfg, actions, s) && i < |s.talk.barges|
    ensures i < |OverSpeech(Handling.Received(actions))|
    ensures s.talk.barges[i].self <==> OverSpeech(Handling.Received(actions))[i] || s.talk.barges[i].pending > 0
  {
    VerdictsHold(cfg, actions, s);
    Handling.ReceivedAreHandled(cfg, actions, s);
  }

  /** The two counters: all barge-ins completed, those among them that found the assistant audible. */
  lemma BargeInCounters(cfg: Config, actions: seq<Action>, s: State)
    requires Reaches(cfg, actions, s)
    ensures s.talk.selfBargeIns <= s.talk.bargeIns
    ensures !Measured(s.e) ==>
              s.talk.bargeIns == |s.talk.barges| && s.talk.selfBargeIns == CountSelf(s.talk.barges)
  {
    BargeInsHold(cfg, actions, s);
  }

  /** At the end of the call the report holds exactly the counters these results speak of. */
  lemma ReportIsFinal(cfg: Config, actions: seq<Action>, s: State)
    requires Reaches(cfg, actions, s) && s.m.MReturned?
    ensures s.m.report == Report(s.aud.framesSent, s.aud.starved, s.aud.w.q.dropped,
                                 s.talk.bargeIns, s.talk.selfBargeIns)
    ensures s.m.result.turns == s.talk.turns
    ensures s.m.report.dropped == Count(s.aud.w.tape.settled, Dropped)
    ensures s.m.report.bargeIns == |s.talk.barges| && s.m.report.selfBargeIns == CountSelf(s.talk.barges)
  {
    ReportHolds(cfg, actions, s);
    AudioPath.BridgeAgrees(cfg, actions, s);
    Shutdown.RunKeepsInv(cfg, actions, s);
    BargeInsHold(cfg, actions, s);
  }

  lemma {:induction false} ReportHolds(cfg: Config, actions: seq<Action>, s: State)
    requires Reaches(cfg, actions, s) && s.m.MReturned?
    ensures s.m.report == Report(s.aud.framesSent, s.aud.starved, s.aud.w.q.dropped,
                                 s.talk.bargeIns, s.talk.selfBargeIns)
    ensures s.m.result.turns == s.talk.turns
  {
    if actions != [] {
      var init, a := actions[..|actions| - 1], actions[|actions| - 1];
      var before := Exec(cfg, Init(cfg), init).value;
      if before.m.MReturned? {
        ReportHolds(cfg, init, before);
      }
    }
  }
}
