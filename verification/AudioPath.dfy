/**
 The audio of a running bridge, over every interleaving of its goroutines: the buffer goes
 through a trace of writes, ticks and resets, so every queueing result holds of it; the frames
 handed to the writer are exactly the takes, in order, filled up with silence; and after a
 barge-in the line is quiet, but for a frame already in flight, exactly until new audio meets a tick.
 */
module AudioPath {
  import opened Basics
  import opened Pacing
  import opened Queueing
  import opened Realtime
  import opened BridgeModel
  import Shutdown

  // ---------- The bridge runs a trace ----------

  /** What a step does to the buffer. */
  function OpOf(s: State, a: Action): seq<Op> {
    if a == OfPacer(Go) && s.p.PTake? then [Tick]
    else if a == OfEvents(Go) && s.e.EWrite? then [Write(s.e.audio)]
    else if a == OfEvents(Go) && s.e.EReset? then [Flush]
    else []
  }

  function TraceOf(cfg: Config, s: State, actions: seq<Action>): seq<Op>
    requires Exec(cfg, s, actions).Some?
  {
    if actions == [] then []
    else
      var init := actions[..|actions| - 1];
      TraceOf(cfg, s, init) + OpOf(Exec(cfg, s, init).value, actions[|actions| - 1])
  }

  /** Nothing but the flag was stored, if that. */
  predicate OnlyFlag(u: Audio, u': Audio) {
    u' == u || u' == StoreSpeaking(u, true) || u' == StoreSpeaking(u, false)
  }

  lemma BeginAudio(s: State, ev: ServerEvent)
    ensures OnlyFlag(s.aud, BeginHandling(s, ev).aud) && BeginHandling(s, ev).p == s.p
  {
  }

  /** What the event handler does to the audio: write, reset, or at most store the flag. */
  lemma EventsAudio(cfg: Config, s: State, choice: Choice)
    requires EventsStep(cfg, s, choice).Some?
    ensures var t := EventsStep(cfg, s, choice).value;
            && t.p == s.p
            && (s.e.EWrite? ==> choice == Go && t.aud == OnBuffer(cfg, s.aud, Write(s.e.audio)))
            && (s.e.EReset? ==> choice == Go && t.aud == OnBuffer(cfg, s.aud, Flush))
            && (!s.e.EWrite? && !s.e.EReset? ==> OnlyFlag(s.aud, t.aud))
  {
    if s.e.EHandle? {
      BeginAudio(s, s.e.ev);
    }
  }

  lemma EventsRunOps(cfg: Config, s: State, choice: Choice)
    requires EventsStep(cfg, s, choice).Some?
    ensures EventsStep(cfg, s, choice).value.aud.w
         == Run(cfg.capacity, cfg.frameSize, s.aud.w, OpOf(s, OfEvents(choice)))
  {
    EventsAudio(cfg, s, choice);
    if OpOf(s, OfEvents(choice)) != [] {
      RunOne(cfg.capacity, cfg.frameSize, s.aud.w, OpOf(s, OfEvents(choice))[0]);
    }
  }

  lemma StepRunsOps(cfg: Config, s: State, a: Action)
    requires Step(cfg, s, a).Some?
    ensures Step(cfg, s, a).value.aud.w == Run(cfg.capacity, cfg.frameSize, s.aud.w, OpOf(s, a))
  {
    if a.OfEvents? {
      EventsRunOps(cfg, s, a.choice);
    }
  }

  /** The buffer and its ledger are where the trace takes them. */
  lemma {:induction false} BridgeRunsTrace(cfg: Config, s: State, actions: seq<Action>)
    requires Exec(cfg, s, actions).Some?
    ensures Exec(cfg, s, actions).value.aud.w
         == Run(cfg.capacity, cfg.frameSize, s.aud.w, TraceOf(cfg, s, actions))
  {
    if actions != [] {
      var init := actions[..|actions| - 1];
      var before := Exec(cfg, s, init).value;
      BridgeRunsTrace(cfg, s, init);
      StepRunsOps(cfg, before, actions[|actions| - 1]);
      RunAppend(cfg.capacity, cfg.frameSize, s.aud.w, TraceOf(cfg, s, init), OpOf(before, actions[|actions| - 1]));
    }
  }

  lemma BridgeAgrees(cfg: Config, actions: seq<Action>, s: State)
    requires Reaches(cfg, actions, s)
    ensures Agrees(cfg.capacity, s.aud.w)
  {
    BridgeRunsTrace(cfg, Init(cfg), actions);
    RunAgrees(cfg.capacity, cfg.frameSize, START, TraceOf(cfg, Init(cfg), actions));
  }

  /**
   The byte ledger. At every moment of every run the pending bytes are the tail of the stream
   without a verdict, the bytes that left as audio are those marked played, in stream order,
   the counter is the number marked dropped, and the four classes add up to the stream.
   */
  lemma ByteLedger(cfg: Config, actions: seq<Action>, s: State)
    requires Reaches(cfg, actions, s)
    ensures var w := s.aud.w;
            && |w.tape.settled| <= |w.tape.written|
            && w.q.pending == w.tape.written[|w.tape.settled|..]
            && |w.q.pending| <= cfg.capacity
            && Flatten(w.takes) == Select(w.tape.written, w.tape.settled, Played)
            && w.q.dropped == Count(w.tape.settled, Dropped)
            && |w.tape.written|
               == |Flatten(w.takes)| + w.q.dropped + Count(w.tape.settled, Flushed) + |w.q.pending|
  {
    BridgeAgrees(cfg, actions, s);
    Conservation(cfg.capacity, s.aud.w);
  }

  /**
   From any moment on, the dropped-bytes counter stays as it is exactly when every reset-free
   window of what follows fits, with what is pending at that moment as a first write. If nothing
   is pending, as at the start of the call and after every barge-in, that write is not needed.
   */
  lemma BridgeDropCriterion(cfg: Config, actions: seq<Action>, s: State, more: seq<Action>, t: State)
    requires Reaches(cfg, actions, s) && Exec(cfg, s, more) == Some(t)
    ensures t.aud.w.q.dropped == s.aud.w.q.dropped
       <==> WindowsFit(cfg.capacity, cfg.frameSize, [Write(s.aud.w.q.pending)] + TraceOf(cfg, s, more))
    ensures s.aud.w.q.pending == [] ==>
              (t.aud.w.q.dropped == s.aud.w.q.dropped) == WindowsFit(cfg.capacity, cfg.frameSize, TraceOf(cfg, s, more))
  {
    BridgeAgrees(cfg, actions, s);
    BridgeRunsTrace(cfg, s, more);
    DropCriterionAnywhere(cfg.capacity, cfg.frameSize, s.aud.w, TraceOf(cfg, s, more));
    if s.aud.w.q.pending == [] {
      DropCriterion(cfg.capacity, cfg.frameSize, s.aud.w, TraceOf(cfg, s, more));
    }
  }

  /** Whatever the goroutines do next, every byte in the stream so far has its verdict after `frames` more takes. */
  lemma BridgeLatency(cfg: Config, actions: seq<Action>, s: State, more: seq<Action>, t: State, frames: nat)
    requires Reaches(cfg, actions, s) && Exec(cfg, s, more) == Some(t)
    requires cfg.capacity <= cfg.frameSize * frames
    requires |t.aud.w.takes| >= |s.aud.w.takes| + frames
    ensures |s.aud.w.tape.written| <= |t.aud.w.tape.settled|
  {
    BridgeAgrees(cfg, actions, s);
    BridgeRunsTrace(cfg, s, more);
    TakesCountTicks(cfg.capacity, cfg.frameSize, s.aud.w, TraceOf(cfg, s, more));
    BoundedLatency(cfg.capacity, frames, cfg.frameSize, s.aud.w, TraceOf(cfg, s, more));
  }

  /**
   From any moment at which nothing is pending, be it the start, a barge-in or a pause, the audio
   and the padding on the line follow the closed form until something is dropped or reset.
   */
  lemma BridgePacing(cfg: Config, actions: seq<Action>, s: State, more: seq<Action>, t: State)
    requires Reaches(cfg, actions, s) && s.aud.w.q.pending == [] && Exec(cfg, s, more) == Some(t)
    requires ResetFree(TraceOf(cfg, s, more)) && t.aud.w.q.dropped == s.aud.w.q.dropped
    ensures |s.aud.w.takes| <= |t.aud.w.takes|
    ensures PacedBy(cfg.frameSize, t.aud.w.takes[|s.aud.w.takes|..], TraceOf(cfg, s, more))
  {
    BridgeRunsTrace(cfg, s, more);
    VerdictsAreFinal(cfg.capacity, cfg.frameSize, s.aud.w, TraceOf(cfg, s, more));
    PacingClosedForm(cfg.capacity, cfg.frameSize, s.aud.w, TraceOf(cfg, s, more));
  }

  /**
   A reply no longer than the buffer, begun while nothing was pending and complete at `r`, has been
   played whole and in order once `frames` more frames are taken, if no barge-in comes between.
   */
  lemma BridgePlaysFittingReply(cfg: Config, actions: seq<Action>, s: State, reply: seq<Action>, r: State,
                                rest: seq<Action>, t: State, frames: nat)
    requires Reaches(cfg, actions, s) && s.aud.w.q.pending == []
    requires Exec(cfg, s, reply) == Some(r) && Exec(cfg, r, rest) == Some(t)
    requires ResetFree(TraceOf(cfg, s, reply)) && ResetFree(TraceOf(cfg, r, rest))
    requires |r.aud.w.tape.written| - |s.aud.w.tape.written| <= cfg.capacity <= cfg.frameSize * frames
    requires t.aud.w.tape.written == r.aud.w.tape.written && |t.aud.w.takes| >= |r.aud.w.takes| + frames
    ensures |s.aud.w.tape.written| <= |r.aud.w.tape.written|
    ensures Flatten(t.aud.w.takes) == Flatten(s.aud.w.takes) + r.aud.w.tape.written[|s.aud.w.tape.written|..]
    ensures t.aud.w.q.pending == [] && t.aud.w.q.dropped == s.aud.w.q.dropped
  {
    var cap, fs := cfg.capacity, cfg.frameSize;
    var ops, drain := TraceOf(cfg, s, reply), TraceOf(cfg, r, rest);
    BridgeRunsTrace(cfg, s, reply);
    BridgeRunsTrace(cfg, r, rest);
    StreamGrowsByAudio(cap, fs, s.aud.w, ops);
    StreamGrowsByAudio(cap, fs, r.aud.w, drain);
    AudioInLength(ops);
    AudioInLength(drain);
    TakesCountTicks(cap, fs, r.aud.w, drain);
    RunAppend(cap, fs, s.aud.w, ops, drain);
    FittingReplyIsPlayedWhole(cap, frames, fs, s.aud.w, ops, drain);
  }

  /** Two runs whose traces differ only in how the audio was chunked end with the same buffer and the same takes. */
  lemma BridgeIgnoresChunking(cfg: Config, actions: seq<Action>, s: State, actions': seq<Action>, s': State)
    requires Reaches(cfg, actions, s) && Reaches(cfg, actions', s')
    requires TimelineOf(TraceOf(cfg, Init(cfg), actions)) == TimelineOf(TraceOf(cfg, Init(cfg), actions'))
    ensures s.aud.w == s'.aud.w
  {
    BridgeRunsTrace(cfg, Init(cfg), actions);
    BridgeRunsTrace(cfg, Init(cfg), actions');
    ChunkingIndependence(cfg.capacity, cfg.frameSize, START,
                         TraceOf(cfg, Init(cfg), actions), TraceOf(cfg, Init(cfg), actions'));
  }

  // ---------- Frames on the wire ----------

  /** A frame has been taken and not yet handed to the writer. */
  predicate InFlight(p: PacerPc) {
    p.PCount? || p.PLoad? || p.PStarve? || p.PWrite?
  }

  predicate Pumping(p: PacerPc) {
    p.PSelect? || p.PTake? || InFlight(p)
  }

  ghost predicate FrameInv(cfg: Config, u: Audio, p: PacerPc) {
    && (forall i :: 0 <= i < |u.w.takes| ==> |u.w.takes[i]| <= cfg.frameSize)
    && |u.w.takes| == |u.attempts| + (if InFlight(p) then 1 else 0)
    && u.framesSent == |u.w.takes| - (if p.PCount? then 1 else 0)
    && (forall i :: 0 <= i < |u.attempts| ==> u.attempts[i] == Frame(u.w.takes[i], cfg.frameSize, cfg.silence))
    && (InFlight(p) ==> u.frame == Frame(u.w.takes[|u.attempts|], cfg.frameSize, cfg.silence))
    && (p.PCount? ==> p.n == |u.w.takes[|u.attempts|]|)
    && |u.attempts| - 1 <= u.writesOk <= |u.attempts|
    && (Pumping(p) ==> u.writesOk == |u.attempts|)
  }

  /** Between the take and the write, and outside a tick, the pump only counts. */
  lemma PacerCounts(cfg: Config, s: State, choice: Choice)
    requires PacerStep(cfg, s, choice).Some? && !s.p.PTake? && !s.p.PWrite?
    ensures var u, t := s.aud, PacerStep(cfg, s, choice).value;
            && t.aud.w == u.w && t.aud.attempts == u.attempts && t.aud.frame == u.frame
            && t.aud.writesOk == u.writesOk
            && t.aud.framesSent == u.framesSent + (if s.p.PCount? then 1 else 0)
            && InFlight(t.p) == InFlight(s.p) && !t.p.PCount? && (Pumping(t.p) ==> Pumping(s.p))
  {
  }

  lemma PacerKeepsFrames(cfg: Config, s: State, choice: Choice)
    requires FrameInv(cfg, s.aud, s.p) && PacerStep(cfg, s, choice).Some?
    ensures var t := PacerStep(cfg, s, choice).value; FrameInv(cfg, t.aud, t.p)
  {
    if !s.p.PTake? && !s.p.PWrite? {
      PacerCounts(cfg, s, choice);
    }
  }

  lemma EventsKeepFrames(cfg: Config, s: State, choice: Choice)
    requires EventsStep(cfg, s, choice).Some?
    ensures var u, u' := s.aud, EventsStep(cfg, s, choice).value.aud;
            && u'.w.takes == u.w.takes && u'.attempts == u.attempts && u'.frame == u.frame
            && u'.framesSent == u.framesSent && u'.writesOk == u.writesOk
            && EventsStep(cfg, s, choice).value.p == s.p
  {
    EventsAudio(cfg, s, choice);
  }

  lemma {:induction false} FramesHold(cfg: Config, actions: seq<Action>, s: State)
    requires Reaches(cfg, actions, s)
    ensures FrameInv(cfg, s.aud, s.p)
  {
    if actions != [] {
      var init, a := actions[..|actions| - 1], actions[|actions| - 1];
      var before := Exec(cfg, Init(cfg), init).value;
      FramesHold(cfg, init, before);
      match a
      case OfPacer(choice) => PacerKeepsFrames(cfg, before, choice);
      case OfEvents(choice) => EventsKeepFrames(cfg, before, choice);
      case _ =>
    }
  }

  /** Frame by frame, what is handed to the writer is what was taken, then silence. */
  lemma WireIsTakesAndSilence(cfg: Config, actions: seq<Action>, s: State, i: nat)
    requires Reaches(cfg, actions, s) && i < |s.aud.attempts|
    ensures i < |s.aud.w.takes| && |s.aud.w.takes[i]| <= cfg.frameSize
    ensures s.aud.attempts[i]
         == s.aud.w.takes[i] + Repeat(cfg.silence, cfg.frameSize - |s.aud.w.takes[i]|)
  {
    FramesHold(cfg, actions, s);
  }

  lemma StepCountsWrites(cfg: Config, s: State, a: Action)
    requires Step(cfg, s, a).Some?
    ensures var u, u' := s.aud, Step(cfg, s, a).value.aud;
            && |u'.attempts| == |u.attempts| + (if a == OfPacer(Succeeds) || a == OfPacer(Fails) then 1 else 0)
            && u'.writesOk == u.writesOk + if a == OfPacer(Succeeds) then 1 else 0
  {
    if a.OfEvents? {
      EventsKeepFrames(cfg, s, a.choice);
    }
  }

  /** Frames handed to the writer and accepted by it, by the writes of the run. */
  lemma {:induction false} WritesCounted(cfg: Config, actions: seq<Action>, s: State)
    requires Reaches(cfg, actions, s)
    ensures |s.aud.attempts| == Count(actions, OfPacer(Succeeds)) + Count(actions, OfPacer(Fails))
    ensures s.aud.writesOk == Count(actions, OfPacer(Succeeds))
  {
    if actions != [] {
      var init := actions[..|actions| - 1];
      var before := Exec(cfg, Init(cfg), init).value;
      WritesCounted(cfg, init, before);
      StepCountsWrites(cfg, before, actions[|actions| - 1]);
    }
  }

  /**
   The counters at the end of the call: every frame counted as sent was taken once and handed
   to the writer once, at most the last one was refused, and bytes sent are audio and padding.
   */
  lemma FinalCounters(cfg: Config, actions: seq<Action>, s: State)
    requires Reaches(cfg, actions, s) && s.m.MReturned?
    ensures s.aud.framesSent == |s.aud.attempts| == |s.aud.w.takes|
    ensures s.aud.framesSent == Count(actions, OfPacer(Succeeds)) + Count(actions, OfPacer(Fails))
    ensures Count(actions, OfPacer(Fails)) <= 1
    ensures s.aud.framesSent - 1 <= s.aud.writesOk <= s.aud.framesSent
    ensures cfg.frameSize * s.aud.framesSent == |Flatten(s.aud.w.takes)| + Padding(cfg.frameSize, s.aud.w.takes)
  {
    FramesHold(cfg, actions, s);
    WritesCounted(cfg, actions, s);
    Shutdown.RunKeepsInv(cfg, actions, s);
    PaddingTotal(cfg.frameSize, s.aud.w.takes);
  }

  /**
   Run without interruption, one tick fills and counts one frame and comes to the write with it.
   This is the contract `Bridge.Pace` meets.
   */
  lemma TickAlone(cfg: Config, s: State) returns (t: State, steps: seq<Action>)
    requires s.m.MWait? && s.p.PTake?
    ensures Exec(cfg, s, steps) == Some(t) && forall i :: 0 <= i < |steps| ==> steps[i] == OfPacer(Go)
    ensures t.p == PWrite && t.e == s.e && t.m == s.m
    ensures t.aud.attempts == s.aud.attempts && t.talk == s.talk
    ensures t.aud.w == Apply(cfg.capacity, cfg.frameSize, s.aud.w, Tick)
    ensures t.aud.frame == Frame(Taken(s.aud.w.q, cfg.frameSize), cfg.frameSize, cfg.silence)
    ensures t.aud.framesSent == s.aud.framesSent + 1
    ensures t.aud.starved == s.aud.starved
              + if |s.aud.w.q.pending| < cfg.frameSize && s.aud.speaking then 1 else 0
  {
    t, steps := s, [];
    while !t.p.PWrite?
      invariant Exec(cfg, s, steps) == Some(t) && t.e == s.e && t.m == s.m && t.aud.speaking == s.aud.speaking
      invariant forall i :: 0 <= i < |steps| ==> steps[i] == OfPacer(Go)
      invariant t.aud.attempts == s.aud.attempts && t.talk == s.talk
      invariant t.p.PTake? || t.p.PCount? || t.p.PLoad? || t.p.PStarve? || t.p.PWrite?
      invariant t.p.PTake? ==> t == s
      invariant !t.p.PTake? ==>
                  && t.aud.w == Apply(cfg.capacity, cfg.frameSize, s.aud.w, Tick)
                  && t.aud.frame == Frame(Taken(s.aud.w.q, cfg.frameSize), cfg.frameSize, cfg.silence)
                  && t.aud.framesSent == s.aud.framesSent + (if t.p.PCount? then 0 else 1)
      invariant t.p.PCount? ==> t.p.n == Min(cfg.frameSize, |s.aud.w.q.pending|)
      invariant t.p.PLoad? || t.p.PStarve? ==> |s.aud.w.q.pending| < cfg.frameSize
      invariant t.p.PStarve? ==> s.aud.speaking
      invariant t.aud.starved == s.aud.starved
                  + if t.p.PWrite? && |s.aud.w.q.pending| < cfg.frameSize && s.aud.speaking then 1 else 0
      decreases Shutdown.PacerRank(t.p)
    {
      ExecSnoc(cfg, s, steps, OfPacer(Go));
      steps, t := steps + [OfPacer(Go)], PacerStep(cfg, t, Go).value;
    }
  }

  // ---------- Quiet after a barge-in ----------

  /** What a stretch of a run takes is what its trace takes. */
  lemma TakesOfStretch(cfg: Config, s: State, more: seq<Action>, t: State)
    requires Exec(cfg, s, more) == Some(t)
    ensures t.aud.w.takes
         == s.aud.w.takes + TakesIn(cfg.capacity, cfg.frameSize, s.aud.w, TraceOf(cfg, s, more))
  {
    BridgeRunsTrace(cfg, s, more);
    VerdictsAreFinal(cfg.capacity, cfg.frameSize, s.aud.w, TraceOf(cfg, s, more));
  }

  /** Between `s` and `t` no audio of the model was taken from the buffer. */
  ghost predicate QuietBetween(s: State, t: State) {
    forall i :: |s.aud.w.takes| <= i < |t.aud.w.takes| ==> t.aud.w.takes[i] == []
  }

  lemma QuietStretch(cfg: Config, s: State, more: seq<Action>, t: State)
    requires Exec(cfg, s, more) == Some(t)
    ensures QuietBetween(s, t) <==> Quiet(cfg.capacity, cfg.frameSize, s.aud.w, TraceOf(cfg, s, more))
  {
    var taken := TakesIn(cfg.capacity, cfg.frameSize, s.aud.w, TraceOf(cfg, s, more));
    TakesOfStretch(cfg, s, more, t);
    assert forall i :: 0 <= i < |taken| ==> taken[i] == t.aud.w.takes[|s.aud.w.takes| + i];
  }

  /** Every frame written from `r` on is silence, save the one in flight at `r` if there was one. */
  ghost predicate SilentSince(cfg: Config, r: State, t: State) {
    forall i :: |r.aud.attempts| + (if InFlight(r.p) then 1 else 0) <= i < |t.aud.attempts|
      ==> t.aud.attempts[i] == Repeat(cfg.silence, cfg.frameSize)
  }

  lemma QuietIsSilent(cfg: Config, actions: seq<Action>, r: State, more: seq<Action>, t: State)
    requires Reaches(cfg, actions, r) && Exec(cfg, r, more) == Some(t) && QuietBetween(r, t)
    ensures SilentSince(cfg, r, t)
  {
    FramesHold(cfg, actions, r);
    ExecAppend(cfg, Init(cfg), actions, more);
    FramesHold(cfg, actions + more, t);
    forall i | |r.aud.w.takes| <= i < |t.aud.attempts|
      ensures t.aud.attempts[i] == Repeat(cfg.silence, cfg.frameSize)
    {
      assert t.aud.attempts[i] == Frame([], cfg.frameSize, cfg.silence);
    }
  }

  /**
   `r` is any state with nothing pending, as after a barge-in. From there on the line carries
   nothing of the model exactly until audio written since then meets a tick before it meets a
   reset; and as long as it does not, every frame written is silence, save the one in flight.
   */
  lemma QuietExactlyUntilHeard(cfg: Config, actions: seq<Action>, r: State, more: seq<Action>, t: State)
    requires Reaches(cfg, actions, r) && r.aud.w.q.pending == [] && Exec(cfg, r, more) == Some(t)
    ensures QuietBetween(r, t)
       <==> cfg.capacity == 0 || cfg.frameSize == 0 || !Audible(TraceOf(cfg, r, more))
    ensures QuietBetween(r, t) ==> SilentSince(cfg, r, t)
  {
    QuietStretch(cfg, r, more, t);
    QuietExactly(cfg.capacity, cfg.frameSize, r.aud.w, TraceOf(cfg, r, more));
    if QuietBetween(r, t) {
      QuietIsSilent(cfg, actions, r, more, t);
    }
  }

  lemma ResetEmpties(cfg: Config, actions: seq<Action>, s: State, r: State)
    requires Reaches(cfg, actions, s) && s.e.EReset? && Step(cfg, s, OfEvents(Go)) == Some(r)
    ensures r.aud.w.q.pending == [] && Reaches(cfg, actions + [OfEvents(Go)], r)
  {
    StepRunsOps(cfg, s, OfEvents(Go));
    RunOne(cfg.capacity, cfg.frameSize, s.aud.w, Flush);
    ExecSnoc(cfg, Init(cfg), actions, OfEvents(Go));
  }

  /** While nothing new is written an empty buffer stays empty and the line silent. */
  lemma QuietWhileUnwritten(cfg: Config, actions: seq<Action>, r: State, more: seq<Action>, t: State)
    requires Reaches(cfg, actions, r) && r.aud.w.q.pending == [] && Exec(cfg, r, more) == Some(t)
    requires |t.aud.w.tape.written| == |r.aud.w.tape.written|
    ensures SilentSince(cfg, r, t) && t.aud.w.q.pending == []
  {
    BridgeRunsTrace(cfg, r, more);
    EmptyStaysSilent(cfg.capacity, cfg.frameSize, r.aud.w, TraceOf(cfg, r, more));
    QuietStretch(cfg, r, more, t);
    QuietIsSilent(cfg, actions, r, more, t);
  }

  /**
   `r` is the state just after a reset. While nothing new is written the condition holds: every
   frame handed to the writer is pure silence, save the one that was already in flight.
   */
  lemma QuietAfterReset(cfg: Config, actions: seq<Action>, s: State, r: State, more: seq<Action>, t: State)
    requires Reaches(cfg, actions, s) && s.e.EReset? && Step(cfg, s, OfEvents(Go)) == Some(r)
    requires Exec(cfg, r, more) == Some(t)
    requires |t.aud.w.tape.written| == |r.aud.w.tape.written|
    ensures forall i :: |r.aud.attempts| + (if InFlight(r.p) then 1 else 0) <= i < |t.aud.attempts|
              ==> t.aud.attempts[i] == Repeat(cfg.silence, cfg.frameSize)
    ensures t.aud.w.q.pending == []
  {
    ResetEmpties(cfg, actions, s, r);
    QuietWhileUnwritten(cfg, actions + [OfEvents(Go)], r, more, t);
  }
}
