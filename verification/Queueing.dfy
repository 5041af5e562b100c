/**
 Queueing results about whole traces of writes, ticks and resets: exactly when audio is
 dropped, how much is played and padded, how long a byte can wait, and that the way the
 model chops its audio into deltas makes no difference.
 */
module Queueing {
  import opened Basics
  import opened Pacing

  function WrittenIn(ops: seq<Op>): nat {
    if ops == [] then 0
    else WrittenIn(ops[..|ops| - 1]) + if ops[|ops| - 1].Write? then |ops[|ops| - 1].bytes| else 0
  }

  function Ticks(ops: seq<Op>): nat {
    if ops == [] then 0 else Ticks(ops[..|ops| - 1]) + if ops[|ops| - 1].Tick? then 1 else 0
  }

  function AudioOf(op: Op): seq<byte> {
    if op.Write? then op.bytes else []
  }

  /** The bytes handed to the buffer, in order. */
  function AudioIn(ops: seq<Op>): seq<byte> {
    if ops == [] then []
    else AudioIn(ops[..|ops| - 1]) + AudioOf(ops[|ops| - 1])
  }

  predicate ResetFree(ops: seq<Op>) {
    forall i :: 0 <= i < |ops| ==> !ops[i].Flush?
  }

  /** Bytes in, less the bytes the clock could have taken out. */
  function Net(fs: nat, ops: seq<Op>): int {
    WrittenIn(ops) - fs * Ticks(ops)
  }

  lemma NetSnoc(fs: nat, ops: seq<Op>, op: Op)
    ensures Net(fs, ops + [op])
         == Net(fs, ops) + (if op.Write? then |op.bytes| else 0) - (if op.Tick? then fs else 0)
  {
    assert (ops + [op])[..|ops|] == ops;
    assert fs * (Ticks(ops) + 1) == fs * Ticks(ops) + fs;
  }

  // ---------- When audio is dropped ----------

  /** Buffer length if the buffer were unbounded. */
  function Backlog(fs: nat, ops: seq<Op>): nat {
    if ops == [] then 0
    else
      var before := Backlog(fs, ops[..|ops| - 1]);
      match ops[|ops| - 1]
      case Write(p) => before + |p|
      case Tick => Max(before - fs, 0)
      case Flush => 0
  }

  ghost predicate BacklogFits(cap: nat, fs: nat, ops: seq<Op>) {
    forall j :: 0 <= j <= |ops| ==> Backlog(fs, ops[..j]) <= cap
  }

  lemma BacklogFitsSnoc(cap: nat, fs: nat, ops: seq<Op>)
    requires ops != []
    ensures BacklogFits(cap, fs, ops) <==> BacklogFits(cap, fs, ops[..|ops| - 1]) && Backlog(fs, ops) <= cap
  {
    var init := ops[..|ops| - 1];
    assert ops[..|ops|] == ops;
    assert forall j :: 0 <= j <= |init| ==> ops[..j] == init[..j];
    if BacklogFits(cap, fs, ops) {
      forall j | 0 <= j <= |init| ensures Backlog(fs, init[..j]) <= cap {
        assert Backlog(fs, ops[..j]) <= cap;
      }
    }
  }

  lemma {:induction false} PendingFits(cap: nat, fs: nat, w: World, ops: seq<Op>)
    requires |w.q.pending| <= cap
    ensures |Run(cap, fs, w, ops).q.pending| <= cap
  {
    if ops != [] {
      PendingFits(cap, fs, w, ops[..|ops| - 1]);
    }
  }

  /** From an empty buffer, nothing more is dropped exactly when the unbounded backlog never passes the cap. */
  lemma {:induction false} DropFreeIsBacklogBounded(cap: nat, fs: nat, w: World, ops: seq<Op>)
    requires w.q.pending == []
    ensures var q := Run(cap, fs, w, ops).q;
            && (q.dropped == w.q.dropped ==> |q.pending| == Backlog(fs, ops))
            && (q.dropped == w.q.dropped <==> BacklogFits(cap, fs, ops))
  {
    if ops == [] {
      assert forall j :: 0 <= j <= |ops| ==> ops[..j] == [];
    } else {
      var init := ops[..|ops| - 1];
      DropFreeIsBacklogBounded(cap, fs, w, init);
      DroppedAtLeast(cap, fs, w, init);
      PendingFits(cap, fs, w, init);
      BacklogFitsSnoc(cap, fs, ops);
    }
  }

  /** No reset-free window ending now has a larger net inflow than the backlog. */
  lemma {:induction false} BacklogCoversWindows(fs: nat, ops: seq<Op>, i: nat)
    requires i <= |ops| && ResetFree(ops[i..])
    ensures Net(fs, ops[i..]) <= Backlog(fs, ops)
  {
    if i < |ops| {
      var init := ops[..|ops| - 1];
      assert ops[i..] == init[i..] + [ops[|ops| - 1]];
      assert ops[i..][|ops| - 1 - i] == ops[|ops| - 1];
      assert forall k :: 0 <= k < |init[i..]| ==> init[i..][k] == ops[i..][k];
      BacklogCoversWindows(fs, init, i);
      NetSnoc(fs, init[i..], ops[|ops| - 1]);
    }
  }

  /** Some reset-free window ending now has exactly that: the one back to the last empty buffer. */
  lemma {:induction false} BacklogIsAWindow(fs: nat, ops: seq<Op>) returns (i: nat)
    ensures i <= |ops| && ResetFree(ops[i..]) && Net(fs, ops[i..]) == Backlog(fs, ops)
  {
    if ops == [] {
      return 0;
    }
    var init, last := ops[..|ops| - 1], ops[|ops| - 1];
    if last.Flush? || (last.Tick? && Backlog(fs, init) <= fs) {
      return |ops|;
    }
    i := BacklogIsAWindow(fs, init);
    assert ops[i..] == init[i..] + [last];
    NetSnoc(fs, init[i..], last);
  }

  /** No reset-free window of the trace brings in more than the cap plus what its ticks carry off. */
  ghost predicate WindowsFit(cap: nat, fs: nat, ops: seq<Op>) {
    forall i, j {:trigger ops[i..j]} :: 0 <= i <= j <= |ops| && ResetFree(ops[i..j])
      ==> WrittenIn(ops[i..j]) <= cap + fs * Ticks(ops[i..j])
  }

  /** The exact drop criterion, for every trace that begins at an empty buffer. */
  lemma DropCriterion(cap: nat, fs: nat, w: World, ops: seq<Op>)
    requires w.q.pending == []
    ensures Run(cap, fs, w, ops).q.dropped == w.q.dropped <==> WindowsFit(cap, fs, ops)
  {
    DropFreeIsBacklogBounded(cap, fs, w, ops);
    if Run(cap, fs, w, ops).q.dropped == w.q.dropped {
      forall i, j {:trigger ops[i..j]} | 0 <= i <= j <= |ops| && ResetFree(ops[i..j])
        ensures WrittenIn(ops[i..j]) <= cap + fs * Ticks(ops[i..j])
      {
        assert ops[..j][i..] == ops[i..j];
        assert Backlog(fs, ops[..j]) <= cap;
        BacklogCoversWindows(fs, ops[..j], i);
      }
    } else {
      var j :| 0 <= j <= |ops| && Backlog(fs, ops[..j]) > cap;
      var i := BacklogIsAWindow(fs, ops[..j]);
      assert ops[..j][i..] == ops[i..j];
    }
  }

  /** How a buffer goes on depends only on what is pending in it. */
  lemma {:induction false} OnlyPendingMatters(cap: nat, fs: nat, v: World, w: World, ops: seq<Op>)
    requires v.q == w.q
    ensures Run(cap, fs, v, ops).q == Run(cap, fs, w, ops).q
  {
    if ops != [] {
      OnlyPendingMatters(cap, fs, v, w, ops[..|ops| - 1]);
    }
  }

  /** And for every trace at all: what is pending to begin with counts as one write at the front. */
  lemma DropCriterionAnywhere(cap: nat, fs: nat, w: World, ops: seq<Op>)
    requires |w.q.pending| <= cap
    ensures Run(cap, fs, w, ops).q.dropped == w.q.dropped
       <==> WindowsFit(cap, fs, [Write(w.q.pending)] + ops)
  {
    var first := Write(w.q.pending);
    var empty := w.(q := w.q.(pending := []));
    DropCriterion(cap, fs, empty, [first] + ops);
    RunAppend(cap, fs, empty, [first], ops);
    RunOne(cap, fs, empty, first);
    assert [] + w.q.pending == w.q.pending;
    OnlyPendingMatters(cap, fs, Apply(cap, fs, empty, first), w, ops);
  }

  // ---------- How much is played, how much is padding ----------

  /** Bytes that arrived before the k-th tick; nothing has arrived before tick 0. */
  function ArrivedBefore(ops: seq<Op>, k: nat): nat
    requires k <= Ticks(ops)
  {
    if k == 0 then 0
    else
      var init := ops[..|ops| - 1];
      if k <= Ticks(init) then ArrivedBefore(init, k) else WrittenIn(init)
  }

  /** Silence bytes sent to fill up short frames. */
  function Padding(fs: nat, takes: seq<seq<byte>>): int {
    if takes == [] then 0
    else Padding(fs, takes[..|takes| - 1]) + fs - |takes[|takes| - 1]|
  }

  lemma {:induction false} PaddingTotal(fs: nat, takes: seq<seq<byte>>)
    ensures Padding(fs, takes) + |Flatten(takes)| == fs * |takes|
  {
    if takes != [] {
      PaddingTotal(fs, takes[..|takes| - 1]);
      assert fs * (|takes| - 1) + fs == fs * |takes|;
    }
  }

  lemma {:induction false} TakesCountTicks(cap: nat, fs: nat, w: World, ops: seq<Op>)
    ensures |Run(cap, fs, w, ops).takes| == |w.takes| + Ticks(ops)
  {
    if ops != [] {
      TakesCountTicks(cap, fs, w, ops[..|ops| - 1]);
    }
  }

  lemma DropsOnlyGrow(cap: nat, fs: nat, w: World, ops: seq<Op>)
    requires ops != []
    ensures Run(cap, fs, w, ops[..|ops| - 1]).q.dropped <= Run(cap, fs, w, ops).q.dropped
  {
  }

  /** All audio that has been played or is about to be, in order. */
  function Heard(w: World): seq<byte> {
    Flatten(w.takes) + w.q.pending
  }

  lemma PassThroughStep(cap: nat, fs: nat, v: World, op: Op)
    requires !op.Flush? && Apply(cap, fs, v, op).q.dropped == v.q.dropped
    ensures Heard(Apply(cap, fs, v, op)) == Heard(v) + AudioOf(op)
  {
    var played := Flatten(v.takes);
    match op
    case Write(p) =>
      assert played + (v.q.pending + p) == played + v.q.pending + p;
    case Tick =>
      var audio := Taken(v.q, fs);
      FlattenSnoc(v.takes, audio);
      assert played + (audio + AfterTake(v.q, fs).pending) == played + audio + AfterTake(v.q, fs).pending;
  }

  /** Without drops and resets every byte written is either played, in order, or still pending. */
  lemma {:induction false} PassThrough(cap: nat, fs: nat, w: World, ops: seq<Op>)
    requires ResetFree(ops) && Run(cap, fs, w, ops).q.dropped == w.q.dropped
    ensures Heard(Run(cap, fs, w, ops)) == Heard(w) + AudioIn(ops)
  {
    if ops == [] {
      assert Heard(w) + [] == Heard(w);
    } else {
      var init, last := ops[..|ops| - 1], ops[|ops| - 1];
      DropsOnlyGrow(cap, fs, w, ops);
      DroppedAtLeast(cap, fs, w, init);
      PassThrough(cap, fs, w, init);
      var v := Run(cap, fs, w, init);
      assert v.q.dropped == w.q.dropped;
      PassThroughStep(cap, fs, v, last);
      Associative(Heard(w), AudioIn(init), AudioOf(last));
      assert AudioIn(ops) == AudioIn(init) + AudioOf(last);
    }
  }

  lemma {:induction false} DroppedAtLeast(cap: nat, fs: nat, w: World, ops: seq<Op>)
    ensures w.q.dropped <= Run(cap, fs, w, ops).q.dropped
  {
    if ops != [] {
      DroppedAtLeast(cap, fs, w, ops[..|ops| - 1]);
      DropsOnlyGrow(cap, fs, w, ops);
    }
  }

  lemma {:induction false} AudioInLength(ops: seq<Op>)
    ensures |AudioIn(ops)| == WrittenIn(ops)
  {
    if ops != [] {
      AudioInLength(ops[..|ops| - 1]);
    }
  }

  /** Everything that had arrived before tick `k`, and a full frame at each tick after it. */
  function Envelope(fs: nat, ops: seq<Op>, k: nat): int
    requires k <= Ticks(ops)
  {
    ArrivedBefore(ops, k) + (Ticks(ops) - k) * fs
  }

  /** How far the arrivals before tick `k` fall short of `k` full frames. */
  function Shortfall(fs: nat, ops: seq<Op>, k: nat): int
    requires k <= Ticks(ops)
  {
    k * fs - ArrivedBefore(ops, k)
  }

  lemma EnvelopeStep(fs: nat, init: seq<Op>, op: Op, k: nat)
    requires k <= Ticks(init)
    ensures k <= Ticks(init + [op])
    ensures Envelope(fs, init + [op], k) == Envelope(fs, init, k) + if op.Tick? then fs else 0
  {
    assert (init + [op])[..|init|] == init;
    assert (Ticks(init) + 1 - k) * fs == (Ticks(init) - k) * fs + fs;
  }

  /** The real audio of the takes made in the course of `ops`. */
  function TakesIn(cap: nat, fs: nat, w: World, ops: seq<Op>): seq<seq<byte>> {
    VerdictsAreFinal(cap, fs, w, ops);
    Run(cap, fs, w, ops).takes[|w.takes|..]
  }

  function PlayedIn(cap: nat, fs: nat, w: World, ops: seq<Op>): nat {
    |Flatten(TakesIn(cap, fs, w, ops))|
  }

  lemma TakesInSnoc(cap: nat, fs: nat, w: World, init: seq<Op>, op: Op)
    ensures TakesIn(cap, fs, w, init + [op])
         == TakesIn(cap, fs, w, init) + if op.Tick? then [Taken(Run(cap, fs, w, init).q, fs)] else []
  {
    VerdictsAreFinal(cap, fs, w, init);
    RunSnoc(cap, fs, w, init, op);
  }

  /** In a stretch from empty without drops and resets, what has been written is played or pending. */
  lemma PlayedAndPending(cap: nat, fs: nat, w: World, ops: seq<Op>)
    requires w.q.pending == [] && ResetFree(ops) && Run(cap, fs, w, ops).q.dropped == w.q.dropped
    ensures PlayedIn(cap, fs, w, ops) + |Run(cap, fs, w, ops).q.pending| == WrittenIn(ops)
  {
    var v := Run(cap, fs, w, ops);
    PassThrough(cap, fs, w, ops);
    AudioInLength(ops);
    VerdictsAreFinal(cap, fs, w, ops);
    assert v.takes == w.takes + TakesIn(cap, fs, w, ops);
    FlattenAppend(w.takes, TakesIn(cap, fs, w, ops));
    assert |Heard(v)| == |Heard(w)| + |AudioIn(ops)|;
  }

  /** A tick plays a frame, or all there is. */
  lemma PlayedStep(cap: nat, fs: nat, w: World, init: seq<Op>, op: Op)
    requires w.q.pending == [] && ResetFree(init) && Run(cap, fs, w, init).q.dropped == w.q.dropped
    ensures PlayedIn(cap, fs, w, init + [op])
         == if op.Tick? then Min(PlayedIn(cap, fs, w, init) + fs, WrittenIn(init)) else PlayedIn(cap, fs, w, init)
  {
    PlayedAndPending(cap, fs, w, init);
    TakesInSnoc(cap, fs, w, init, op);
    if op.Tick? {
      FlattenSnoc(TakesIn(cap, fs, w, init), Taken(Run(cap, fs, w, init).q, fs));
    } else {
      assert TakesIn(cap, fs, w, init) + [] == TakesIn(cap, fs, w, init);
    }
  }

  lemma {:induction false} PlayedIsMinimum(cap: nat, fs: nat, w: World, ops: seq<Op>) returns (at: nat)
    requires w.q.pending == [] && ResetFree(ops) && Run(cap, fs, w, ops).q.dropped == w.q.dropped
    ensures forall k :: 0 <= k <= Ticks(ops) ==> PlayedIn(cap, fs, w, ops) <= Envelope(fs, ops, k)
    ensures at <= Ticks(ops) && PlayedIn(cap, fs, w, ops) == Envelope(fs, ops, at)
  {
    if ops == [] {
      return 0;
    }
    var init, last := ops[..|ops| - 1], ops[|ops| - 1];
    DroppedAtLeast(cap, fs, w, init);
    DropsOnlyGrow(cap, fs, w, ops);
    at := PlayedIsMinimum(cap, fs, w, init);
    at := PlayedIsMinimumStep(cap, fs, w, init, last, at);
    assert ops == init + [last];
  }

  lemma PlayedIsMinimumStep(cap: nat, fs: nat, w: World, init: seq<Op>, op: Op, at: nat) returns (at': nat)
    requires w.q.pending == [] && ResetFree(init) && Run(cap, fs, w, init).q.dropped == w.q.dropped
    requires forall k :: 0 <= k <= Ticks(init) ==> PlayedIn(cap, fs, w, init) <= Envelope(fs, init, k)
    requires at <= Ticks(init) && PlayedIn(cap, fs, w, init) == Envelope(fs, init, at)
    ensures var ops := init + [op];
            && (forall k :: 0 <= k <= Ticks(ops) ==> PlayedIn(cap, fs, w, ops) <= Envelope(fs, ops, k))
            && at' <= Ticks(ops) && PlayedIn(cap, fs, w, ops) == Envelope(fs, ops, at')
  {
    var ops := init + [op];
    assert ops[..|init|] == init;
    PlayedStep(cap, fs, w, init, op);
    forall k | 0 <= k <= Ticks(init)
      ensures Envelope(fs, ops, k) == Envelope(fs, init, k) + if op.Tick? then fs else 0
    {
      EnvelopeStep(fs, init, op, k);
    }
    at' := at;
    if op.Tick? {
      assert Envelope(fs, ops, Ticks(ops)) == WrittenIn(init);
      if PlayedIn(cap, fs, w, init) + fs > WrittenIn(init) {
        at' := Ticks(ops);
      }
    }
  }

  /**
   The audio of `takes` is the least of the envelopes of `ops` and the silence padded in beside
   it the largest shortfall, over all k from 0 to the number of ticks.
   */
  ghost predicate PacedBy(fs: nat, takes: seq<seq<byte>>, ops: seq<Op>) {
    && (forall k :: 0 <= k <= Ticks(ops) ==> |Flatten(takes)| <= Envelope(fs, ops, k))
    && (exists k :: 0 <= k <= Ticks(ops) && |Flatten(takes)| == Envelope(fs, ops, k))
    && (forall k :: 0 <= k <= Ticks(ops) ==> Padding(fs, takes) >= Shortfall(fs, ops, k))
    && (exists k :: 0 <= k <= Ticks(ops) && Padding(fs, takes) == Shortfall(fs, ops, k))
  }

  /** The closed form, in every stretch from an empty buffer without drops and resets. */
  lemma PacingClosedForm(cap: nat, fs: nat, w: World, ops: seq<Op>)
    requires w.q.pending == [] && ResetFree(ops) && Run(cap, fs, w, ops).q.dropped == w.q.dropped
    ensures PacedBy(fs, TakesIn(cap, fs, w, ops), ops)
  {
    var at := PlayedIsMinimum(cap, fs, w, ops);
    var takes := TakesIn(cap, fs, w, ops);
    PaddingIsTheRest(cap, fs, w, ops);
    forall k | 0 <= k <= Ticks(ops)
      ensures |Flatten(takes)| <= Envelope(fs, ops, k) && Padding(fs, takes) >= Shortfall(fs, ops, k)
    {
      assert PlayedIn(cap, fs, w, ops) <= Envelope(fs, ops, k);
      EnvelopeAndShortfall(fs, ops, k);
    }
    EnvelopeAndShortfall(fs, ops, at);
    assert Padding(fs, takes) == Shortfall(fs, ops, at);
  }

  lemma PaddingIsTheRest(cap: nat, fs: nat, w: World, ops: seq<Op>)
    ensures Padding(fs, TakesIn(cap, fs, w, ops)) + PlayedIn(cap, fs, w, ops) == fs * Ticks(ops)
  {
    TakesCountTicks(cap, fs, w, ops);
    PaddingTotal(fs, TakesIn(cap, fs, w, ops));
  }

  lemma EnvelopeAndShortfall(fs: nat, ops: seq<Op>, k: nat)
    requires k <= Ticks(ops)
    ensures Envelope(fs, ops, k) + Shortfall(fs, ops, k) == fs * Ticks(ops)
  {
    assert (Ticks(ops) - k) * fs + k * fs == fs * Ticks(ops);
  }

  // ---------- How long a byte waits ----------

  /** However the trace goes on, each tick moves the front of the stream on by a whole frame. */
  lemma {:induction false} FrontAdvances(cap: nat, fs: nat, w: World, ops: seq<Op>)
    requires Agrees(cap, w)
    ensures |Run(cap, fs, w, ops).tape.settled| >= Min(|w.tape.written|, |w.tape.settled| + fs * Ticks(ops))
  {
    if ops != [] {
      var init := ops[..|ops| - 1];
      FrontAdvances(cap, fs, w, init);
      RunAgrees(cap, fs, w, init);
      VerdictsAreFinal(cap, fs, w, init);
      assert fs * (Ticks(init) + 1) == fs * Ticks(init) + fs;
    }
  }

  /** With neither drops nor resets, no tick moves the front by more than a frame. */
  lemma {:induction false} FrontNoFaster(cap: nat, fs: nat, w: World, ops: seq<Op>)
    requires ResetFree(ops) && Run(cap, fs, w, ops).q.dropped == w.q.dropped
    ensures |Run(cap, fs, w, ops).tape.settled| <= |w.tape.settled| + fs * Ticks(ops)
  {
    if ops != [] {
      var init := ops[..|ops| - 1];
      DroppedAtLeast(cap, fs, w, init);
      DropsOnlyGrow(cap, fs, w, ops);
      FrontNoFaster(cap, fs, w, init);
      assert fs * (Ticks(init) + 1) == fs * Ticks(init) + fs;
    }
  }

  lemma MulMonotone(fs: nat, m: nat, n: nat)
    requires m <= n
    ensures fs * m <= fs * n
  {
  }

  lemma DivBound(d: nat, fs: nat, n: nat)
    requires fs > 0
    ensures n > d / fs <==> fs * n > d
  {
    assert d == fs * (d / fs) + d % fs;
    if n > d / fs {
      assert fs * n >= fs * (d / fs + 1) == fs * (d / fs) + fs;
    } else {
      assert fs * n <= fs * (d / fs);
    }
  }

  /**
   Bounded latency, and the bound is exact. The pending byte with `d` bytes ahead of it has
   its verdict once `d / fs + 1` more ticks have passed, whatever else happens; and if nothing
   is dropped or flushed meanwhile it has it no sooner.
   */
  lemma LatencyOfByte(cap: nat, fs: nat, w: World, d: nat, ops: seq<Op>)
    requires Agrees(cap, w) && fs > 0 && d < |w.q.pending|
    ensures Ticks(ops) > d / fs ==> |w.tape.settled| + d < |Run(cap, fs, w, ops).tape.settled|
    ensures ResetFree(ops) && Run(cap, fs, w, ops).q.dropped == w.q.dropped ==>
              (Ticks(ops) > d / fs <==> |w.tape.settled| + d < |Run(cap, fs, w, ops).tape.settled|)
  {
    DivBound(d, fs, Ticks(ops));
    FrontAdvances(cap, fs, w, ops);
    if ResetFree(ops) && Run(cap, fs, w, ops).q.dropped == w.q.dropped {
      FrontNoFaster(cap, fs, w, ops);
    }
  }

  /** A buffer of at most `frames` frames hands every byte its verdict within `frames` ticks. */
  lemma BoundedLatency(cap: nat, frames: nat, fs: nat, w: World, ops: seq<Op>)
    requires Agrees(cap, w) && cap <= fs * frames && Ticks(ops) >= frames
    ensures |w.tape.written| <= |Run(cap, fs, w, ops).tape.settled|
  {
    FrontAdvances(cap, fs, w, ops);
    MulMonotone(fs, frames, Ticks(ops));
  }

  /** Writes that all fit at once can never overflow, however they are spaced. */
  lemma {:induction false} FittingReplyNeverDrops(cap: nat, fs: nat, w: World, ops: seq<Op>)
    requires |w.q.pending| + WrittenIn(ops) <= cap
    ensures Run(cap, fs, w, ops).q.dropped == w.q.dropped
    ensures |Run(cap, fs, w, ops).q.pending| <= |w.q.pending| + WrittenIn(ops)
  {
    if ops != [] {
      FittingReplyNeverDrops(cap, fs, w, ops[..|ops| - 1]);
    }
  }

  lemma {:induction false} AudioInAppend(a: seq<Op>, b: seq<Op>)
    ensures AudioIn(a + b) == AudioIn(a) + AudioIn(b)
  {
    if b == [] {
      assert a + b == a;
    } else {
      assert (a + b)[..|a + b| - 1] == a + b[..|b| - 1];
      AudioInAppend(a, b[..|b| - 1]);
    }
  }

  /** While nothing is written every tick carries off a frame, until nothing is left. */
  lemma {:induction false} TicksDrain(cap: nat, fs: nat, w: World, ops: seq<Op>)
    requires WrittenIn(ops) == 0
    ensures |Run(cap, fs, w, ops).q.pending| <= Max(|w.q.pending| - fs * Ticks(ops), 0)
  {
    if ops != [] {
      TicksDrain(cap, fs, w, ops[..|ops| - 1]);
      assert fs * (Ticks(ops[..|ops| - 1]) + 1) == fs * Ticks(ops[..|ops| - 1]) + fs;
    }
  }

  /** A reply that fits loses nothing, and is gone once the clock has run for the whole buffer. */
  lemma FittingReplyDrains(cap: nat, frames: nat, fs: nat, w: World, ops: seq<Op>, rest: seq<Op>)
    requires w.q.pending == [] && WrittenIn(ops) <= cap <= fs * frames
    requires WrittenIn(rest) == 0 && Ticks(rest) >= frames
    ensures var w' := Run(cap, fs, w, ops + rest); w'.q.pending == [] && w'.q.dropped == w.q.dropped
  {
    var v := Run(cap, fs, w, ops);
    RunAppend(cap, fs, w, ops, rest);
    FittingReplyNeverDrops(cap, fs, w, ops);
    FittingReplyNeverDrops(cap, fs, v, rest);
    TicksDrain(cap, fs, v, rest);
    MulMonotone(fs, frames, Ticks(rest));
  }

  /**
   A reply `ops` that fits the buffer, arriving at an empty buffer in any burst pattern, is
   played whole and in order by the time the clock has run it out, if no reset interrupts it.
   */
  lemma FittingReplyIsPlayedWhole(cap: nat, frames: nat, fs: nat, w: World, ops: seq<Op>, rest: seq<Op>)
    requires w.q.pending == [] && WrittenIn(ops) <= cap <= fs * frames
    requires ResetFree(ops) && ResetFree(rest) && WrittenIn(rest) == 0 && Ticks(rest) >= frames
    ensures var w' := Run(cap, fs, w, ops + rest);
            && Flatten(w'.takes) == Flatten(w.takes) + AudioIn(ops)
            && w'.q.pending == []
            && w'.q.dropped == w.q.dropped
  {
    FittingReplyDrains(cap, frames, fs, w, ops, rest);
    PassThrough(cap, fs, w, ops + rest);
    AudioInAppend(ops, rest);
    AudioInLength(rest);
    assert AudioIn(ops) + [] == AudioIn(ops);
    assert Heard(w) == Flatten(w.takes);
  }

  // ---------- When the line is quiet ----------

  predicate WritesAudio(op: Op) {
    op.Write? && op.bytes != []
  }

  /** Audio has been written since the last reset. */
  ghost predicate Waiting(ops: seq<Op>) {
    exists i :: 0 <= i < |ops| && WritesAudio(ops[i]) && forall m :: i < m < |ops| ==> !ops[m].Flush?
  }

  /** Some audio is written and a tick comes before the next reset. */
  ghost predicate Audible(ops: seq<Op>) {
    exists j :: 0 <= j < |ops| && ops[j].Tick? && Waiting(ops[..j])
  }

  lemma WaitingSnoc(ops: seq<Op>, op: Op)
    ensures Waiting(ops + [op]) <==> WritesAudio(op) || (Waiting(ops) && !op.Flush?)
  {
    var longer := ops + [op];
    assert longer[|ops|] == op;
    if Waiting(ops) && !op.Flush? {
      var i :| 0 <= i < |ops| && WritesAudio(ops[i]) && forall m :: i < m < |ops| ==> !ops[m].Flush?;
      assert longer[i] == ops[i];
    }
    if Waiting(longer) {
      var i :| 0 <= i < |longer| && WritesAudio(longer[i]) && forall m :: i < m < |longer| ==> !longer[m].Flush?;
      assert forall m :: 0 <= m < |ops| ==> ops[m] == longer[m];
    }
  }

  lemma AudibleSnoc(ops: seq<Op>, op: Op)
    ensures Audible(ops + [op]) <==> Audible(ops) || (op.Tick? && Waiting(ops))
  {
    var longer := ops + [op];
    assert longer[..|ops|] == ops && longer[|ops|] == op;
    assert forall j :: 0 <= j < |ops| ==> longer[..j] == ops[..j] && longer[j] == ops[j];
    if Audible(ops) {
      var j :| 0 <= j < |ops| && ops[j].Tick? && Waiting(ops[..j]);
      assert longer[j].Tick? && Waiting(longer[..j]);
    }
  }

  /** Nothing real has been taken in the course of `ops`. */
  ghost predicate Quiet(cap: nat, fs: nat, w: World, ops: seq<Op>) {
    forall i :: 0 <= i < |TakesIn(cap, fs, w, ops)| ==> TakesIn(cap, fs, w, ops)[i] == []
  }

  lemma QuietSnoc(cap: nat, fs: nat, w: World, init: seq<Op>, op: Op)
    ensures Quiet(cap, fs, w, init + [op])
       <==> Quiet(cap, fs, w, init) && (op.Tick? ==> Taken(Run(cap, fs, w, init).q, fs) == [])
  {
    var before, after := TakesIn(cap, fs, w, init), TakesIn(cap, fs, w, init + [op]);
    TakesInSnoc(cap, fs, w, init, op);
    assert forall i :: 0 <= i < |before| ==> after[i] == before[i];
    if op.Tick? {
      assert after[|before|] == Taken(Run(cap, fs, w, init).q, fs);
    }
  }

  /**
   From an empty buffer the line stays quiet exactly as long as no audio meets a tick: written,
   and still there, not reset, when the tick comes. A buffer or a frame of no bytes is always quiet.
   */
  lemma {:induction false} QuietExactly(cap: nat, fs: nat, w: World, ops: seq<Op>)
    requires w.q.pending == []
    ensures Quiet(cap, fs, w, ops) <==> cap == 0 || fs == 0 || !Audible(ops)
    ensures Quiet(cap, fs, w, ops) ==> (Run(cap, fs, w, ops).q.pending != [] <==> cap > 0 && Waiting(ops))
  {
    if ops != [] {
      var init, last := ops[..|ops| - 1], ops[|ops| - 1];
      assert ops == init + [last];
      QuietExactly(cap, fs, w, init);
      QuietSnoc(cap, fs, w, init, last);
      WaitingSnoc(init, last);
      AudibleSnoc(init, last);
    }
  }

  /** So until something is written nothing but silence comes out. */
  lemma EmptyStaysSilent(cap: nat, fs: nat, w: World, ops: seq<Op>)
    requires w.q.pending == []
    requires |Run(cap, fs, w, ops).tape.written| == |w.tape.written|
    ensures !Waiting(ops) && Quiet(cap, fs, w, ops) && Run(cap, fs, w, ops).q.pending == []
  {
    StreamGrowsByAudio(cap, fs, w, ops);
    NothingWritten(ops);
    QuietExactly(cap, fs, w, ops);
  }

  lemma {:induction false} NothingWritten(ops: seq<Op>)
    requires AudioIn(ops) == []
    ensures forall i :: 0 <= i < |ops| ==> !WritesAudio(ops[i])
  {
    if ops != [] {
      NothingWritten(ops[..|ops| - 1]);
      assert AudioOf(ops[|ops| - 1]) == [];
    }
  }

  lemma {:induction false} StreamGrowsByAudio(cap: nat, fs: nat, w: World, ops: seq<Op>)
    ensures Run(cap, fs, w, ops).tape.written == w.tape.written + AudioIn(ops)
  {
    if ops == [] {
      assert w.tape.written + [] == w.tape.written;
    } else {
      var init, last := ops[..|ops| - 1], ops[|ops| - 1];
      StreamGrowsByAudio(cap, fs, w, init);
      Associative(w.tape.written, AudioIn(init), AudioOf(last));
    }
  }

  // ---------- Chunking independence ----------

  lemma BufferWriteWrite(cap: nat, q: Pacer, p: seq<byte>, r: seq<byte>)
    ensures AfterWrite(cap, AfterWrite(cap, q, p), r) == AfterWrite(cap, q, p + r)
  {
    var all := q.pending + p;
    assert q.pending + (p + r) == all + r;
    var over := Max(|all| - cap, 0);
    assert all[over..] + r == (all + r)[over..];
  }

  lemma SettleSettle(t: Tape, m: nat, n: nat)
    ensures Settle(Settle(t, Dropped, m), Dropped, n) == Settle(t, Dropped, m + n)
  {
    assert t.settled + Repeat(Dropped, m) + Repeat(Dropped, n) == t.settled + Repeat(Dropped, m + n);
  }

  /** Two writes in a row are one write. */
  lemma WriteWrite(cap: nat, fs: nat, w: World, p: seq<byte>, r: seq<byte>)
    requires Agrees(cap, w)
    ensures Apply(cap, fs, Apply(cap, fs, w, Write(p)), Write(r)) == Apply(cap, fs, w, Write(p + r))
  {
    var w1 := Apply(cap, fs, w, Write(p));
    BufferWriteWrite(cap, w.q, p, r);
    Associative(w.tape.written, p, r);
    var m := Max(|w.q.pending| + |p| - cap, 0);
    var n := Max(|w1.q.pending| + |r| - cap, 0);
    SettleSettle(w.tape.(written := w.tape.written + (p + r)), m, n);
    assert m + n == Max(|w.q.pending| + |p + r| - cap, 0);
  }

  lemma WriteNothing(cap: nat, fs: nat, w: World)
    requires Agrees(cap, w)
    ensures Apply(cap, fs, w, Write([])) == w
  {
    assert w.q.pending + [] == w.q.pending;
    assert w.tape.written + [] == w.tape.written;
    assert w.tape.settled + Repeat(Dropped, 0) == w.tape.settled;
  }

  /**
   A trace with the chunking forgotten: for each tick or reset the audio written since the one
   before it, and the audio written since the last of them.
   */
  datatype Timeline = Timeline(closed: seq<(seq<byte>, Op)>, open: seq<byte>)

  function TimelineOf(ops: seq<Op>): Timeline {
    if ops == [] then Timeline([], [])
    else
      var t := TimelineOf(ops[..|ops| - 1]);
      match ops[|ops| - 1]
      case Write(p) => t.(open := t.open + p)
      case boundary => Timeline(t.closed + [(t.open, boundary)], [])
  }

  function RunClosed(cap: nat, fs: nat, w: World, closed: seq<(seq<byte>, Op)>): World {
    if closed == [] then w
    else
      var (audio, boundary) := closed[|closed| - 1];
      Apply(cap, fs, Apply(cap, fs, RunClosed(cap, fs, w, closed[..|closed| - 1]), Write(audio)), boundary)
  }

  function RunTimeline(cap: nat, fs: nat, w: World, t: Timeline): World {
    Apply(cap, fs, RunClosed(cap, fs, w, t.closed), Write(t.open))
  }

  lemma {:induction false} RunClosedAgrees(cap: nat, fs: nat, w: World, closed: seq<(seq<byte>, Op)>)
    requires Agrees(cap, w)
    ensures Agrees(cap, RunClosed(cap, fs, w, closed))
  {
    if closed != [] {
      var (audio, boundary) := closed[|closed| - 1];
      var v := RunClosed(cap, fs, w, closed[..|closed| - 1]);
      RunClosedAgrees(cap, fs, w, closed[..|closed| - 1]);
      ApplyAgrees(cap, fs, v, Write(audio));
      ApplyAgrees(cap, fs, Apply(cap, fs, v, Write(audio)), boundary);
    }
  }

  lemma {:induction false} RunIsRunTimeline(cap: nat, fs: nat, w: World, ops: seq<Op>)
    requires Agrees(cap, w)
    ensures Run(cap, fs, w, ops) == RunTimeline(cap, fs, w, TimelineOf(ops))
  {
    if ops == [] {
      WriteNothing(cap, fs, w);
    } else {
      var init, last := ops[..|ops| - 1], ops[|ops| - 1];
      var t := TimelineOf(init);
      RunIsRunTimeline(cap, fs, w, init);
      RunClosedAgrees(cap, fs, w, t.closed);
      var v := RunClosed(cap, fs, w, t.closed);
      match last
      case Write(p) => WriteWrite(cap, fs, v, t.open, p);
      case boundary =>
        var t' := TimelineOf(ops);
        assert t'.closed[..|t'.closed| - 1] == t.closed;
        RunClosedAgrees(cap, fs, w, t'.closed);
        WriteNothing(cap, fs, RunClosed(cap, fs, w, t'.closed));
    }
  }

  /** However the model splits its audio between the same ticks and resets, the outcome is the same. */
  lemma ChunkingIndependence(cap: nat, fs: nat, w: World, ops: seq<Op>, ops': seq<Op>)
    requires Agrees(cap, w) && TimelineOf(ops) == TimelineOf(ops')
    ensures Run(cap, fs, w, ops) == Run(cap, fs, w, ops')
  {
    RunIsRunTimeline(cap, fs, w, ops);
    RunIsRunTimeline(cap, fs, w, ops');
  }
}
