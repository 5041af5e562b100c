/**
 The output pacing buffer as a value, the operations on it, and the ledger that says what
 became of every byte the model ever sent.

 `Pacer` carries exactly the two fields the program keeps. `Tape` is the reference: the
 whole stream that was written, and one verdict for each byte that has left the buffer, in
 stream order. A byte with no verdict yet is pending, so every byte has exactly one fate and
 the pending bytes are one contiguous tail of the stream.
 */
module Pacing {
  import opened Basics

  // ---------- The buffer ----------

  datatype Pacer = Pacer(pending: seq<byte>, dropped: nat)

  /** Append `p`; past the cap, discard the oldest bytes and count them. */
  function AfterWrite(cap: nat, q: Pacer, p: seq<byte>): Pacer {
    var all := q.pending + p;
    var over := |all| - cap;
    if over > 0 then Pacer(all[over..], q.dropped + over) else Pacer(all, q.dropped)
  }

  /** Appending first and discarding afterwards is the same. */
  lemma WriteInTwoSteps(cap: nat, q: Pacer, p: seq<byte>)
    ensures AfterWrite(cap, q.(pending := q.pending + p), []) == AfterWrite(cap, q, p)
  {
    assert q.pending + p + [] == q.pending + p;
  }

  /** The real audio a take of `n` bytes gets. */
  function Taken(q: Pacer, n: nat): (r: seq<byte>)
    ensures |r| == Min(n, |q.pending|)
  {
    q.pending[..Min(n, |q.pending|)]
  }

  function AfterTake(q: Pacer, n: nat): Pacer {
    q.(pending := q.pending[Min(n, |q.pending|)..])
  }

  function AfterReset(q: Pacer): Pacer {
    q.(pending := [])
  }

  /** What goes on the wire: the real audio, then silence up to the frame size. */
  function Frame(audio: seq<byte>, n: nat, silence: byte): (r: seq<byte>)
    requires |audio| <= n
    ensures |r| == n
  {
    audio + Repeat(silence, n - |audio|)
  }

  // ---------- The ledger ----------

  datatype Fate = Played | Dropped | Flushed

  datatype Tape = Tape(written: seq<byte>, settled: seq<Fate>)

  function Settle(t: Tape, f: Fate, n: nat): Tape {
    t.(settled := t.settled + Repeat(f, n))
  }

  /** The bytes with verdict `f`, in stream order. */
  function Select(written: seq<byte>, settled: seq<Fate>, f: Fate): seq<byte>
    requires |settled| <= |written|
  {
    if settled == [] then []
    else
      var i := |settled| - 1;
      Select(written, settled[..i], f) + if settled[i] == f then [written[i]] else []
  }

  // ---------- Traces ----------

  datatype Op = Write(bytes: seq<byte>) | Tick | Flush

  /** The buffer, its ledger, and the real audio of each take so far. */
  datatype World = World(q: Pacer, tape: Tape, takes: seq<seq<byte>>)

  const START := World(Pacer([], 0), Tape([], []), [])

  function Apply(cap: nat, fs: nat, w: World, op: Op): World {
    match op
    case Write(p) =>
      var over := Max(|w.q.pending| + |p| - cap, 0);
      World(AfterWrite(cap, w.q, p), Settle(w.tape.(written := w.tape.written + p), Dropped, over), w.takes)
    case Tick =>
      var audio := Taken(w.q, fs);
      World(AfterTake(w.q, fs), Settle(w.tape, Played, |audio|), w.takes + [audio])
    case Flush =>
      World(AfterReset(w.q), Settle(w.tape, Flushed, |w.q.pending|), w.takes)
  }

  function Run(cap: nat, fs: nat, w: World, ops: seq<Op>): World {
    if ops == [] then w
    else Apply(cap, fs, Run(cap, fs, w, ops[..|ops| - 1]), ops[|ops| - 1])
  }

  lemma RunSnoc(cap: nat, fs: nat, w: World, ops: seq<Op>, op: Op)
    ensures Run(cap, fs, w, ops + [op]) == Apply(cap, fs, Run(cap, fs, w, ops), op)
  {
    assert (ops + [op])[..|ops|] == ops;
  }

  lemma RunOne(cap: nat, fs: nat, w: World, op: Op)
    ensures Run(cap, fs, w, [op]) == Apply(cap, fs, w, op)
  {
    assert [op][..0] == [];
  }

  lemma {:induction false} RunAppend(cap: nat, fs: nat, w: World, a: seq<Op>, b: seq<Op>)
    ensures Run(cap, fs, w, a + b) == Run(cap, fs, Run(cap, fs, w, a), b)
  {
    if b == [] {
      assert a + b == a;
    } else {
      assert (a + b)[..|a + b| - 1] == a + b[..|b| - 1];
      RunAppend(cap, fs, w, a, b[..|b| - 1]);
    }
  }

  // ---------- The ledger balances ----------

  /** Buffer and ledger tell the same story. */
  ghost predicate Agrees(cap: nat, w: World) {
    && |w.tape.settled| <= |w.tape.written|
    && w.q.pending == w.tape.written[|w.tape.settled|..]
    && w.q.dropped == Count(w.tape.settled, Dropped)
    && Flatten(w.takes) == Select(w.tape.written, w.tape.settled, Played)
    && |w.q.pending| <= cap
  }

  lemma {:induction false} SelectExtend(written: seq<byte>, more: seq<byte>, settled: seq<Fate>, f: Fate)
    requires |settled| <= |written|
    ensures Select(written + more, settled, f) == Select(written, settled, f)
  {
    if settled != [] {
      SelectExtend(written, more, settled[..|settled| - 1], f);
    }
  }

  lemma {:induction false} SelectSettle(written: seq<byte>, settled: seq<Fate>, g: Fate, n: nat, f: Fate)
    requires |settled| + n <= |written|
    ensures Select(written, settled + Repeat(g, n), f)
         == Select(written, settled, f) + if f == g then written[|settled|..|settled| + n] else []
  {
    if n == 0 {
      assert settled + Repeat(g, n) == settled;
    } else {
      var longer := settled + Repeat(g, n);
      assert longer[..|longer| - 1] == settled + Repeat(g, n - 1);
      SelectSettle(written, settled, g, n - 1, f);
      assert written[|settled|..|settled| + n]
          == written[|settled|..|settled| + n - 1] + [written[|settled| + n - 1]];
    }
  }

  lemma {:induction false} SelectLength(written: seq<byte>, settled: seq<Fate>, f: Fate)
    requires |settled| <= |written|
    ensures |Select(written, settled, f)| == Count(settled, f)
  {
    if settled != [] {
      SelectLength(written, settled[..|settled| - 1], f);
    }
  }

  /** Settling the next `n` pending bytes with verdict `g`, and what that does to the books. */
  lemma SettleCounts(t: Tape, g: Fate, n: nat)
    requires |t.settled| + n <= |t.written|
    ensures var t' := Settle(t, g, n);
            && Count(t'.settled, Dropped) == Count(t.settled, Dropped) + (if g == Dropped then n else 0)
            && Select(t'.written, t'.settled, Played) == Select(t.written, t.settled, Played)
                 + if g == Played then t.written[|t.settled|..|t.settled| + n] else []
  {
    CountAppend(t.settled, Repeat(g, n), Dropped);
    CountRepeat(g, n, Dropped);
    SelectSettle(t.written, t.settled, g, n, Played);
  }

  lemma WriteAgrees(cap: nat, fs: nat, w: World, p: seq<byte>)
    requires Agrees(cap, w)
    ensures Agrees(cap, Apply(cap, fs, w, Write(p)))
  {
    var over := Max(|w.q.pending| + |p| - cap, 0);
    var grown := w.tape.(written := w.tape.written + p);
    assert w.q.pending + p == grown.written[|grown.settled|..];
    SelectExtend(w.tape.written, p, w.tape.settled, Played);
    SettleCounts(grown, Dropped, over);
  }

  lemma TickAgrees(cap: nat, fs: nat, w: World)
    requires Agrees(cap, w)
    ensures Agrees(cap, Apply(cap, fs, w, Tick))
  {
    var audio := Taken(w.q, fs);
    SettleCounts(w.tape, Played, |audio|);
    FlattenSnoc(w.takes, audio);
  }

  lemma FlushAgrees(cap: nat, fs: nat, w: World)
    requires Agrees(cap, w)
    ensures Agrees(cap, Apply(cap, fs, w, Flush))
  {
    SettleCounts(w.tape, Flushed, |w.q.pending|);
  }

  lemma ApplyAgrees(cap: nat, fs: nat, w: World, op: Op)
    requires Agrees(cap, w)
    ensures Agrees(cap, Apply(cap, fs, w, op))
  {
    match op
    case Write(p) => WriteAgrees(cap, fs, w, p);
    case Tick => TickAgrees(cap, fs, w);
    case Flush => FlushAgrees(cap, fs, w);
  }

  lemma {:induction false} RunAgrees(cap: nat, fs: nat, w: World, ops: seq<Op>)
    requires Agrees(cap, w)
    ensures Agrees(cap, Run(cap, fs, w, ops))
  {
    if ops != [] {
      RunAgrees(cap, fs, w, ops[..|ops| - 1]);
      ApplyAgrees(cap, fs, Run(cap, fs, w, ops[..|ops| - 1]), ops[|ops| - 1]);
    }
  }

  lemma {:induction false} CountsPartition(settled: seq<Fate>)
    ensures Count(settled, Played) + Count(settled, Dropped) + Count(settled, Flushed) == |settled|
  {
    if settled != [] {
      CountsPartition(settled[..|settled| - 1]);
      match settled[|settled| - 1] case Played => case Dropped => case Flushed =>
    }
  }

  /** Conservation: nothing the model sent is lost from the books or counted twice. */
  lemma Conservation(cap: nat, w: World)
    requires Agrees(cap, w)
    ensures |w.tape.written|
         == |Flatten(w.takes)| + w.q.dropped + Count(w.tape.settled, Flushed) + |w.q.pending|
    ensures |Flatten(w.takes)| == Count(w.tape.settled, Played)
  {
    CountsPartition(w.tape.settled);
    SelectLength(w.tape.written, w.tape.settled, Played);
  }

  /** Verdicts are final and the stream only grows. */
  lemma {:induction false} VerdictsAreFinal(cap: nat, fs: nat, w: World, ops: seq<Op>)
    ensures w.tape.written <= Run(cap, fs, w, ops).tape.written
    ensures w.tape.settled <= Run(cap, fs, w, ops).tape.settled
    ensures w.takes <= Run(cap, fs, w, ops).takes
  {
    if ops != [] {
      VerdictsAreFinal(cap, fs, w, ops[..|ops| - 1]);
    }
  }
}
