/**
 The packet-loss figure: 16-bit RTP sequence numbers wrap, so the number of packets expected is
 taken from the two ends of the call as in Appendix A.3 of RFC 3550. What the figure says is
 related to the packets that actually arrived, by their unwrapped sequence numbers.
 */
module RtpStats {
  import opened Basics

  const WRAP := 0x1_0000

  type uint16 = x: nat | x < WRAP

  datatype ReadStats = ReadStats(first: uint16, last: uint16, packets: nat)

  datatype Loss = Loss(received: int, expected: int, lostPct: real, warn: bool)

  function Wrapped(n: nat): uint16 {
    n % WRAP
  }

  /** Nothing is reported when no packet was ever read. */
  method LogRtpStats(stats: Option<ReadStats>) returns (r: Option<Loss>)
    ensures stats.None? <==> r.None?
    ensures stats.Some? ==>
              var st, l := stats.value, r.value;
              && 1 <= l.expected <= WRAP
              && Wrapped(st.first + l.expected - 1) == st.last
              && l.received == st.packets
              && l.lostPct * l.expected as real == (100 * (l.expected - l.received)) as real
              && (l.warn <==> 100 * (l.expected - l.received) >= l.expected)
  {
    if stats == None {
      return None;
    }
    var st := stats.value;
    var span: int := st.last - st.first;
    if span < 0 {
      span := span + WRAP;
    }
    var expected := span + 1;
    var received: int := st.packets;
    var lostPct := 0.0;
    if expected > 0 {
      lostPct := (expected - received) as real / expected as real * 100.0;
      AtLeastOnePercent(expected - received, expected);
    }
    r := Some(Loss(received, expected, lostPct, lostPct >= 1.0));
  }

  lemma AtLeastOnePercent(lost: int, expected: nat)
    requires expected > 0
    ensures lost as real / expected as real * 100.0 >= 1.0 <==> 100 * lost >= expected
    ensures lost as real / expected as real * 100.0 * expected as real == (100 * lost) as real
  {
    var ratio := lost as real / expected as real;
    assert ratio * expected as real == lost as real;
    assert (ratio * 100.0 - 1.0) * expected as real == (100 * lost - expected) as real;
  }

  /** What the report must say of a call whose first and last packets are numbered `lo` and `hi`. */
  ghost predicate Reports(lo: nat, hi: nat, expected: int) {
    1 <= expected <= WRAP && Wrapped(Wrapped(lo) + expected - 1) == Wrapped(hi)
  }

  /** Over any span the expected count is the true one, reduced into 1..65536; so it is unique. */
  lemma ExpectedIsReducedSpan(lo: nat, hi: nat, expected: int)
    requires lo <= hi
    ensures Reports(lo, hi, expected) <==> expected == (hi - lo) % WRAP + 1
  {
    var span := (hi - lo) % WRAP;
    assert hi - lo == WRAP * ((hi - lo) / WRAP) + span;
    assert lo == WRAP * (lo / WRAP) + lo % WRAP;
    assert hi == (lo % WRAP + span) + WRAP * (lo / WRAP + (hi - lo) / WRAP);
    ModShift(lo % WRAP + span, lo / WRAP + (hi - lo) / WRAP);
    if Reports(lo, hi, expected) {
      SameRemainder(lo % WRAP, expected - 1, span);
    }
  }

  lemma ModShift(n: nat, k: nat)
    ensures (n + WRAP * k) % WRAP == n % WRAP
  {
  }

  lemma SameRemainder(base: uint16, m: nat, n: nat)
    requires m < WRAP && n < WRAP && (base + m) % WRAP == (base + n) % WRAP
    ensures m == n
  {
  }

  // ---------- Against the packets that arrived ----------

  function Range(lo: nat, hi: nat): (r: set<nat>)
    requires lo <= hi
    ensures |r| == hi - lo + 1
    ensures forall n :: n in r <==> lo <= n <= hi
  {
    if lo == hi then {lo} else Range(lo, hi - 1) + {hi}
  }

  function Numbers(arrivals: seq<nat>): set<nat> {
    set n | n in arrivals
  }

  /** Packets of the span that never arrived. */
  function Missing(lo: nat, hi: nat, arrivals: seq<nat>): set<nat>
    requires lo <= hi
  {
    Range(lo, hi) - Numbers(arrivals)
  }

  /** Arrivals beyond the first of each packet. */
  function Duplicates(arrivals: seq<nat>): int {
    |arrivals| - |Numbers(arrivals)|
  }

  lemma {:induction false} DuplicatesNonNegative(arrivals: seq<nat>)
    ensures Duplicates(arrivals) >= 0
  {
    if arrivals != [] {
      var init, last := arrivals[..|arrivals| - 1], arrivals[|arrivals| - 1];
      DuplicatesNonNegative(init);
      assert arrivals == init + [last];
      assert Numbers(arrivals) == Numbers(init) + {last};
    }
  }

  lemma SpanSplits(lo: nat, hi: nat, arrivals: seq<nat>)
    requires lo <= hi && forall n :: n in arrivals ==> lo <= n <= hi
    ensures |Missing(lo, hi, arrivals)| + |Numbers(arrivals)| == hi - lo + 1
  {
    assert Range(lo, hi) == Missing(lo, hi, arrivals) + Numbers(arrivals);
  }

  /**
   The packets reported lost are those missing from the span, less the duplicates received in
   their place, if and only if the span is shorter than one wrap of the sequence number.
   */
  lemma LossIsExactWithinOneWrap(lo: nat, hi: nat, arrivals: seq<nat>, expected: int)
    requires lo <= hi && Reports(lo, hi, expected)
    requires forall n :: n in arrivals ==> lo <= n <= hi
    ensures expected - |arrivals| == |Missing(lo, hi, arrivals)| - Duplicates(arrivals) <==> hi - lo < WRAP
  {
    ExpectedIsReducedSpan(lo, hi, expected);
    SpanSplits(lo, hi, arrivals);
  }

  /** Without duplicates it is a plain count, never negative and never everything. */
  lemma LossOfDistinctPackets(lo: nat, hi: nat, arrivals: seq<nat>, expected: int)
    requires lo <= hi && hi - lo < WRAP && Reports(lo, hi, expected)
    requires forall n :: n in arrivals ==> lo <= n <= hi
    requires lo in arrivals && |Numbers(arrivals)| == |arrivals|
    ensures expected - |arrivals| == |Missing(lo, hi, arrivals)|
    ensures 0 <= expected - |arrivals| <= expected - 1
  {
    LossIsExactWithinOneWrap(lo, hi, arrivals, expected);
    assert lo in Numbers(arrivals);
  }

  /** In general duplicates can hide losses: the figure is at most the number missing. */
  lemma DuplicatesHideLosses(lo: nat, hi: nat, arrivals: seq<nat>, expected: int)
    requires lo <= hi && hi - lo < WRAP && Reports(lo, hi, expected)
    requires forall n :: n in arrivals ==> lo <= n <= hi
    ensures expected - |arrivals| <= |Missing(lo, hi, arrivals)|
    ensures expected - |arrivals| == |Missing(lo, hi, arrivals)| <==> Duplicates(arrivals) == 0
  {
    LossIsExactWithinOneWrap(lo, hi, arrivals, expected);
    DuplicatesNonNegative(arrivals);
  }
}
