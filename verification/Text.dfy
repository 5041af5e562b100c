/** White space and trimming, as the program's string library does it. */
module Text {
  import opened Basics

  /** White space as Unicode defines it. */
  predicate IsSpace(c: char) {
    || '\U{0009}' <= c <= '\U{000D}'
    || c == ' '
    || c == '\U{0085}'
    || c == '\U{00A0}'
    || c == '\U{1680}'
    || '\U{2000}' <= c <= '\U{200A}'
    || c == '\U{2028}'
    || c == '\U{2029}'
    || c == '\U{202F}'
    || c == '\U{205F}'
    || c == '\U{3000}'
  }

  function TrimLeft(s: string): (r: string)
    ensures |r| <= |s|
  {
    if s != [] && IsSpace(s[0]) then TrimLeft(s[1..]) else s
  }

  function TrimRight(s: string): (r: string)
    ensures |r| <= |s|
  {
    if s != [] && IsSpace(s[|s| - 1]) then TrimRight(s[..|s| - 1]) else s
  }

  function Trim(s: string): (r: string)
    ensures |r| <= |s|
  {
    TrimRight(TrimLeft(s))
  }

  /** Neither end is white space. */
  predicate Trimmed(s: string) {
    s == [] || (!IsSpace(s[0]) && !IsSpace(s[|s| - 1]))
  }

  predicate AllSpace(s: string) {
    forall i :: 0 <= i < |s| ==> IsSpace(s[i])
  }

  /** `t` is what is left of `s` when the white space at both ends, and nothing else, is taken off. */
  predicate StripsTo(s: string, t: string) {
    exists lo, hi :: 0 <= lo <= hi <= |s| && StripsBetween(s, t, lo, hi)
  }

  predicate StripsBetween(s: string, t: string, lo: nat, hi: nat)
    requires lo <= hi <= |s|
  {
    Trimmed(t) && s[lo..hi] == t && AllSpace(s[..lo]) && AllSpace(s[hi..])
  }

  lemma {:induction false} TrimLeftMeaning(s: string)
    ensures TrimLeft(s) == s[|s| - |TrimLeft(s)|..]
    ensures TrimLeft(s) == [] || !IsSpace(TrimLeft(s)[0])
    ensures AllSpace(s[..|s| - |TrimLeft(s)|])
  {
    if s != [] && IsSpace(s[0]) {
      TrimLeftMeaning(s[1..]);
      var n := |s| - |TrimLeft(s)|;
      assert forall i :: 0 < i < n ==> s[..n][i] == s[1..][..n - 1][i - 1];
    }
  }

  lemma {:induction false} TrimRightMeaning(s: string)
    ensures TrimRight(s) == s[..|TrimRight(s)|]
    ensures TrimRight(s) == [] || !IsSpace(TrimRight(s)[|TrimRight(s)| - 1])
    ensures AllSpace(s[|TrimRight(s)|..])
  {
    if s != [] && IsSpace(s[|s| - 1]) {
      var init := s[..|s| - 1];
      TrimRightMeaning(init);
      var n := |TrimRight(s)|;
      assert init[..n] == s[..n];
      assert forall i :: 0 <= i < |init| - n ==> s[n..][i] == init[n..][i];
    }
  }

  lemma {:induction false} TrimLeftSkips(a: string, b: string)
    requires AllSpace(a)
    ensures TrimLeft(a + b) == TrimLeft(b)
  {
    if a == [] {
      assert a + b == b;
    } else {
      assert (a + b)[0] == a[0] && (a + b)[1..] == a[1..] + b;
      TrimLeftSkips(a[1..], b);
    }
  }

  lemma {:induction false} TrimRightSkips(a: string, b: string)
    requires AllSpace(b)
    ensures TrimRight(a + b) == TrimRight(a)
  {
    if b == [] {
      assert a + b == a;
    } else {
      assert (a + b)[|a + b| - 1] == b[|b| - 1] && (a + b)[..|a + b| - 1] == a + b[..|b| - 1];
      TrimRightSkips(a, b[..|b| - 1]);
    }
  }

  /** Trimming takes off exactly the white space at both ends. */
  lemma TrimMeaning(s: string, t: string)
    ensures t == Trim(s) <==> StripsTo(s, t)
  {
    TrimStrips(s);
    if StripsTo(s, t) {
      var lo, hi :| 0 <= lo <= hi <= |s| && StripsBetween(s, t, lo, hi);
      CutTwice(s, lo, hi);
      TrimAround(s[..lo], t, s[hi..]);
    }
  }

  lemma CutTwice(s: string, lo: nat, hi: nat)
    requires lo <= hi <= |s|
    ensures s == s[..lo] + (s[lo..hi] + s[hi..])
  {
    assert s == s[..lo] + s[lo..];
    var rest := s[lo..];
    assert rest == rest[..hi - lo] + rest[hi - lo..];
    assert rest[..hi - lo] == s[lo..hi] && rest[hi - lo..] == s[hi..];
  }

  lemma TrimAround(before: string, t: string, after: string)
    requires AllSpace(before) && Trimmed(t) && AllSpace(after)
    ensures Trim(before + (t + after)) == t
  {
    TrimLeftSkips(before, t + after);
    if t == [] {
      assert t + after == after + [];
      TrimLeftSkips(after, []);
    } else {
      assert (t + after)[0] == t[0];
      TrimRightSkips(t, after);
    }
  }

  lemma TrimStrips(s: string)
    ensures StripsTo(s, Trim(s))
  {
    var l := TrimLeft(s);
    TrimLeftMeaning(s);
    TrimRightMeaning(l);
    TrimFixes(s);
    var lo := |s| - |l|;
    var hi := lo + |Trim(s)|;
    assert s[lo..hi] == l[..|Trim(s)|];
    assert s[hi..] == l[|Trim(s)|..];
    assert StripsBetween(s, Trim(s), lo, hi);
  }

  /** Trimming leaves a slice with no white space at either end, and leaves a trimmed string alone. */
  lemma TrimFixes(s: string)
    ensures Trim(s) == s <==> Trimmed(s)
    ensures Trimmed(Trim(s))
    ensures forall c :: c in Trim(s) ==> c in s
  {
    var l := TrimLeft(s);
    TrimLeftMeaning(s);
    TrimRightMeaning(l);
    if l != [] && TrimRight(l) != [] {
      assert TrimRight(l)[0] == l[0];
    }
    if Trim(s) == s {
      assert |l| == |s|;
    }
  }

  /** The first character that is not white space survives. */
  lemma TrimKeepsFirst(s: string)
    requires TrimLeft(s) != ""
    ensures Trim(s) != "" && Trim(s)[0] == TrimLeft(s)[0]
  {
    var l := TrimLeft(s);
    TrimLeftMeaning(s);
    TrimRightMeaning(l);
    assert l[0..] == l;
  }

  lemma TrimBefore(t: string, tail: string)
    requires AllSpace(tail)
    ensures Trim(t + tail) == Trim(t)
  {
    TrimStrips(t);
    var lo, hi :| 0 <= lo <= hi <= |t| && StripsBetween(t, Trim(t), lo, hi);
    var a, c, b := t[..lo], Trim(t), t[hi..];
    CutTwice(t, lo, hi);
    Associative(a, c + b, tail);
    Associative(c, b, tail);
    TrimAround(a, c, b + tail);
  }

  lemma TrimAfterTrimRight(s: string)
    ensures Trim(TrimRight(s)) == Trim(s)
  {
    TrimRightMeaning(s);
    TrimBefore(TrimRight(s), s[|TrimRight(s)|..]);
    assert s == TrimRight(s) + s[|TrimRight(s)|..];
  }
}
