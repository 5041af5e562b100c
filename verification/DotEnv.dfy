/**
 The .env file: one line, one whole file, and the loader that applies it to the environment.
 Two printers, one leaving the value bare and one quoting it, say which lines read back as what
 was meant, exactly.
 */
module DotEnv {
  import opened Basics
  import opened Text

  // ---------- Searching ----------

  /** Position of the first `c`, or the length when there is none. */
  function IndexOf(s: string, c: char): (i: nat)
    ensures i <= |s|
  {
    if s == [] || s[0] == c then 0 else 1 + IndexOf(s[1..], c)
  }

  lemma {:induction false} IndexOfIsFirst(s: string, c: char)
    ensures c !in s[..IndexOf(s, c)]
    ensures IndexOf(s, c) < |s| ==> s[IndexOf(s, c)] == c
  {
    if s != [] && s[0] != c {
      IndexOfIsFirst(s[1..], c);
      assert s[..IndexOf(s, c)] == [s[0]] + s[1..][..IndexOf(s[1..], c)];
    }
  }

  /** A comment set apart by a space starts here. */
  predicate StartsComment(s: string) {
    |s| >= 2 && s[0] == ' ' && s[1] == '#'
  }

  /** Position of the first " #", or the length when there is none. */
  function IndexOfComment(s: string): (i: nat)
    ensures i <= |s|
  {
    if s == [] || StartsComment(s) then 0 else 1 + IndexOfComment(s[1..])
  }

  lemma {:induction false} IndexOfCommentIsFirst(s: string, k: nat)
    requires k <= |s|
    ensures k < IndexOfComment(s) ==> !StartsComment(s[k..])
    ensures k == IndexOfComment(s) < |s| ==> StartsComment(s[k..])
  {
    if s != [] && !StartsComment(s) && k > 0 {
      IndexOfCommentIsFirst(s[1..], k - 1);
      assert s[1..][k - 1..] == s[k..];
    } else {
      assert s[0..] == s;
    }
  }

  // ---------- One line ----------

  datatype Parsed = Skip | Assign(key: string, value: string) | NoEquals | EmptyKey

  const EXPORT := "export "

  function DropPrefix(prefix: string, line: string): string {
    if prefix <= line then line[|prefix|..] else line
  }

  predicate Quoted(v: string) {
    |v| >= 2 && ((v[0] == '"' && v[|v| - 1] == '"') || (v[0] == '\'' && v[|v| - 1] == '\''))
  }

  /** One layer of matching quotes comes off; otherwise a comment set apart by a space does. */
  function ParseValue(v: string): (r: string)
    ensures |r| <= |v|
  {
    if Quoted(v) then v[1..|v| - 1]
    else
      var i := IndexOfComment(v);
      if i < |v| then Trim(v[..i]) else v
  }

  function ParseLine(raw: string): Parsed {
    ParseTrimmed(Trim(raw))
  }

  function ParseTrimmed(line: string): Parsed {
    if line == "" || line[0] == '#' then Skip
    else ParseAssignment(DropPrefix(EXPORT, line))
  }

  function ParseAssignment(line: string): Parsed {
    var i := IndexOf(line, '=');
    if i == |line| then NoEquals
    else
      var key := Trim(line[..i]);
      if key == "" then EmptyKey else Assign(key, ParseValue(Trim(line[i + 1..])))
  }

  // ---------- Which lines read back ----------

  /** A key a line can carry. */
  predicate ValidKey(k: string) {
    k != "" && Trimmed(k) && '=' !in k && k[0] != '#' && !(EXPORT <= k)
  }

  /** A value that can stand without quotes. */
  predicate Bare(v: string) {
    Trimmed(v) && !Quoted(v) && IndexOfComment(v) == |v|
  }

  function PrintBare(k: string, v: string): string {
    k + "=" + v
  }

  function Quote(v: string, q: char): string {
    [q] + v + [q]
  }

  function PrintQuoted(k: string, v: string, q: char): string {
    k + "=" + Quote(v, q)
  }

  lemma {:induction false} TrimRightAppend(a: string, v: string)
    requires a != [] && !IsSpace(a[|a| - 1])
    ensures TrimRight(a + v) == a + TrimRight(v)
  {
    if v == [] || !IsSpace(v[|v| - 1]) {
      assert a + [] == a;
      assert (a + v)[|a + v| - 1] == if v == [] then a[|a| - 1] else v[|v| - 1];
    } else {
      assert (a + v)[..|a + v| - 1] == a + v[..|v| - 1];
      TrimRightAppend(a, v[..|v| - 1]);
    }
  }

  lemma {:induction false} IndexOfInPrefix(a: string, c: char, rest: string)
    requires c !in a
    ensures IndexOf(a + [c] + rest, c) == |a|
  {
    var s := a + [c] + rest;
    if a != [] {
      assert s[1..] == a[1..] + [c] + rest;
      IndexOfInPrefix(a[1..], c, rest);
      assert s[0] == a[0];
    }
  }

  /** A prefix without '=' is in the line only if it is in the key. */
  lemma PrefixOfKey(prefix: string, k: string, rest: string)
    requires '=' !in prefix
    ensures prefix <= k + "=" + rest <==> prefix <= k
  {
    var line := k + "=" + rest;
    assert line[|k|] == '=' && line[..|k|] == k;
    if prefix <= line {
      assert forall j :: 0 <= j < |prefix| ==> prefix[j] == line[j];
      assert |prefix| <= |k|;
      assert prefix == line[..|prefix|];
      assert line[..|prefix|] == k[..|prefix|];
    }
  }

  lemma TrimPrinted(k: string, v: string)
    requires k != "" && !IsSpace(k[0])
    ensures Trim(k + "=" + v) == k + "=" + TrimRight(v)
  {
    assert (k + "=" + v)[0] == k[0];
    TrimRightAppend(k + "=", v);
  }

  lemma AssignmentPrinted(k: string, r: string)
    requires k != "" && Trimmed(k) && '=' !in k
    ensures ParseAssignment(k + "=" + r) == Assign(k, ParseValue(Trim(r)))
  {
    var line := k + "=" + r;
    IndexOfInPrefix(k, '=', r);
    assert line[..|k|] == k && line[|k| + 1..] == r;
    TrimFixes(k);
  }

  /** The line of a valid key parses to that key and the parsed value. */
  lemma ParsePrinted(k: string, v: string)
    requires ValidKey(k)
    ensures ParseLine(k + "=" + v) == Assign(k, ParseValue(Trim(TrimRight(v))))
  {
    TrimPrinted(k, v);
    ParseTrimmedPrinted(k, TrimRight(v));
  }

  lemma ParseTrimmedPrinted(k: string, r: string)
    requires ValidKey(k)
    ensures ParseTrimmed(k + "=" + r) == Assign(k, ParseValue(Trim(r)))
  {
    assert (k + "=" + r)[0] == k[0];
    PrefixOfKey(EXPORT, k, r);
    AssignmentPrinted(k, r);
  }

  /** Whatever a line parses to, its key is non-empty, trimmed and free of '='. */
  lemma ParsedKeyShape(raw: string)
    requires ParseLine(raw).Assign?
    ensures var k := ParseLine(raw).key; k != "" && Trimmed(k) && '=' !in k
  {
    var line := DropPrefix(EXPORT, Trim(raw));
    var i := IndexOf(line, '=');
    IndexOfIsFirst(line, '=');
    TrimFixes(line[..i]);
  }

  lemma TrimOfTrimRight(v: string)
    ensures Trimmed(v) ==> Trim(TrimRight(v)) == v
    ensures !Trimmed(v) ==> |Trim(TrimRight(v))| < |v|
  {
    TrimFixes(v);
    TrimRightMeaning(v);
    TrimFixes(TrimRight(v));
    TrimFixedByLength(TrimRight(v));
    if |TrimRight(v)| == |v| {
      assert TrimRight(v) == v;
    }
  }

  lemma TrimFixedByLength(s: string)
    ensures |Trim(s)| == |s| ==> Trim(s) == s
  {
    TrimLeftMeaning(s);
    TrimRightMeaning(TrimLeft(s));
  }

  /** Parsing leaves a value alone exactly when it has neither quotes nor a comment. */
  lemma ParseValueFixes(v: string)
    ensures ParseValue(v) == v <==> !Quoted(v) && IndexOfComment(v) == |v|
  {
  }

  /** A bare value reads back exactly when it is one. */
  lemma BareRoundTrip(k: string, v: string)
    requires ValidKey(k)
    ensures ParseLine(PrintBare(k, v)) == Assign(k, v) <==> Bare(v)
  {
    ParsePrinted(k, v);
    TrimOfTrimRight(v);
    ParseValueFixes(v);
  }

  predicate IsQuote(q: char) {
    q == '"' || q == '\''
  }

  lemma QuotedValue(v: string, q: char)
    requires IsQuote(q)
    ensures Trimmed(Quote(v, q)) && ParseValue(Quote(v, q)) == v
  {
    var s := Quote(v, q);
    assert s[0] == q && s[|s| - 1] == q;
    assert s[1..|s| - 1] == v;
  }

  lemma QuotedReadsBack(k: string, v: string, q: char)
    requires ValidKey(k) && IsQuote(q)
    ensures ParseLine(PrintQuoted(k, v, q)) == Assign(k, v)
  {
    ParsePrinted(k, Quote(v, q));
    QuotedValue(v, q);
    TrimOfTrimRight(Quote(v, q));
  }

  /** Keys that break the line are not read back, however the value is written. */
  lemma BadKeyDoesNotReadBack(k: string, rest: string, v: string)
    requires !ValidKey(k) && rest != "" && !IsSpace(rest[|rest| - 1])
    ensures ParseLine(k + "=" + rest) != Assign(k, v)
  {
    var line := k + "=" + rest;
    if ParseLine(line) == Assign(k, v) {
      ParsedKeyShape(line);
      assert line[0] == k[0] && !IsSpace(line[0]);
      assert line[|line| - 1] == rest[|rest| - 1];
      assert Trim(line) == line;
      if EXPORT <= k {
        assert EXPORT <= line;
        ExportedKey(k, rest);
      }
      assert false;
    }
  }

  /** A key that starts with the export word loses it. */
  lemma ExportedKey(k: string, rest: string)
    requires EXPORT <= k && '=' !in k
    ensures !ParseAssignment(DropPrefix(EXPORT, k + "=" + rest)).Assign?
         || |ParseAssignment(DropPrefix(EXPORT, k + "=" + rest)).key| < |k|
  {
    var line := k + "=" + rest;
    assert line[..|EXPORT|] == k[..|EXPORT|];
    var dropped := k[|EXPORT|..];
    assert DropPrefix(EXPORT, line) == dropped + "=" + rest;
    IndexOfInPrefix(dropped, '=', rest);
    assert (dropped + "=" + rest)[..|dropped|] == dropped;
    TrimFixes(dropped);
  }

  /** Quoting, with either quote, is undone for every value whatever, exactly when the key is valid. */
  lemma QuotedRoundTrip(k: string, v: string, q: char)
    requires IsQuote(q)
    ensures ParseLine(PrintQuoted(k, v, q)) == Assign(k, v) <==> ValidKey(k)
  {
    if ValidKey(k) {
      QuotedReadsBack(k, v, q);
    } else {
      assert Quote(v, q)[|Quote(v, q)| - 1] == q;
      BadKeyDoesNotReadBack(k, Quote(v, q), v);
    }
  }

  /** Bare where that is safe, quoted where it is not. */
  function Print(k: string, v: string): string {
    if Bare(v) then PrintBare(k, v) else PrintQuoted(k, v, '"')
  }

  lemma RoundTrip(k: string, v: string)
    requires ValidKey(k)
    ensures ParseLine(Print(k, v)) == Assign(k, v)
  {
    BareRoundTrip(k, v);
    QuotedRoundTrip(k, v, '"');
  }

  // ---------- What every line means ----------

  /** Nothing but white space, or a comment after nothing but white space. */
  predicate Ignored(raw: string) {
    exists i :: 0 <= i <= |raw| && AllSpace(raw[..i]) && (i == |raw| || raw[i] == '#')
  }

  /** The word "export " stands at `l`, after nothing but white space. */
  predicate ExportAt(head: string, l: nat) {
    l + 7 <= |head| && AllSpace(head[..l]) && head[l..l + 7] == "export "
  }

  /** The text before the first '=' gives the key `k`: stripped, without the export word if there is one. */
  predicate GivesKey(head: string, k: string) {
    if exists l :: 0 <= l <= |head| && ExportAt(head, l)
    then exists l :: 0 <= l <= |head| && ExportAt(head, l) && StripsTo(head[l + 7..], k)
    else StripsTo(head, k)
  }

  predicate Wrapped(t: string, q: char) {
    |t| >= 2 && t[0] == q && t[|t| - 1] == q
  }

  predicate CommentAt(t: string, i: nat) {
    i + 1 < |t| && t[i] == ' ' && t[i + 1] == '#'
  }

  predicate FirstCommentAt(t: string, i: nat) {
    CommentAt(t, i) && forall j :: 0 <= j < i ==> !CommentAt(t, j)
  }

  /** The stripped text after the '=' gives the value `v`: unwrapped, or else cut at the first comment. */
  predicate GivesValue(t: string, v: string) {
    if Wrapped(t, '"') then t == "\"" + v + "\""
    else if Wrapped(t, '\'') then t == "'" + v + "'"
    else if exists i :: 0 <= i < |t| && FirstCommentAt(t, i)
    then exists i :: 0 <= i < |t| && FirstCommentAt(t, i) && StripsTo(t[..i], v)
    else v == t
  }

  /** What precedes the first '=' of a line, if that is not ignored. */
  function KeyPart(head: string): string {
    Trim(DropPrefix(EXPORT, TrimLeft(head)))
  }

  lemma SpacesEnd(raw: string, i: nat, n: nat)
    requires i <= |raw| && AllSpace(raw[..i]) && n < |raw| && !IsSpace(raw[n])
    ensures i <= n
  {
    forall m | 0 <= m < i ensures IsSpace(raw[m]) {
      assert raw[..i][m] == raw[m];
    }
  }

  lemma IgnoredMeaning(raw: string)
    ensures Ignored(raw) <==> Trim(raw) == "" || Trim(raw)[0] == '#'
  {
    var n := |raw| - |TrimLeft(raw)|;
    TrimLeftMeaning(raw);
    forall m | 0 <= m < n ensures IsSpace(raw[m]) {
      assert raw[..n][m] == raw[m];
    }
    if TrimLeft(raw) != "" {
      TrimKeepsFirst(raw);
      assert raw[n] == TrimLeft(raw)[0];
      if Ignored(raw) {
        var i :| 0 <= i <= |raw| && AllSpace(raw[..i]) && (i == |raw| || raw[i] == '#');
        SpacesEnd(raw, i, n);
      }
    }
  }

  lemma NoCharLost(s: string, c: char)
    requires !IsSpace(c)
    ensures c in Trim(s) <==> c in s
  {
    TrimStrips(s);
    var lo, hi :| 0 <= lo <= hi <= |s| && StripsBetween(s, Trim(s), lo, hi);
    var before, after := s[..lo], s[hi..];
    CutTwice(s, lo, hi);
    NotAmongSpaces(before, c);
    NotAmongSpaces(after, c);
    assert c in s <==> c in before || c in Trim(s) + after;
  }

  lemma NotAmongSpaces(s: string, c: char)
    requires AllSpace(s) && !IsSpace(c)
    ensures c !in s
  {
  }

  lemma IndexOfMeaning(s: string, c: char)
    ensures IndexOf(s, c) == |s| <==> c !in s
  {
    IndexOfIsFirst(s, c);
    assert s[..|s|] == s;
  }

  lemma DropPrefixKeeps(prefix: string, s: string, c: char)
    requires c !in prefix
    ensures c in DropPrefix(prefix, s) <==> c in s
  {
    if prefix <= s {
      assert s == prefix + s[|prefix|..];
    }
  }

  /** Exactly the blank lines and the comments are skipped. */
  lemma SkippedLine(raw: string)
    ensures ParseLine(raw) == Skip <==> Ignored(raw)
  {
    IgnoredMeaning(raw);
  }

  /** Of the other lines exactly those without '=' are malformed for that. */
  lemma LineWithoutEquals(raw: string)
    ensures ParseLine(raw) == NoEquals <==> !Ignored(raw) && '=' !in raw
  {
    IgnoredMeaning(raw);
    NoCharLost(raw, '=');
    DropPrefixKeeps(EXPORT, Trim(raw), '=');
    IndexOfMeaning(DropPrefix(EXPORT, Trim(raw)), '=');
  }

  lemma {:induction false} TrimLeftAppend(a: string, b: string)
    requires b != [] && !IsSpace(b[0])
    ensures TrimLeft(a + b) == TrimLeft(a) + b
  {
    if a == [] || !IsSpace(a[0]) {
      assert a == [] ==> a + b == b;
    } else {
      assert (a + b)[1..] == a[1..] + b;
      TrimLeftAppend(a[1..], b);
    }
  }

  lemma TrimSplit(head: string, rest: string)
    ensures Trim(head + "=" + rest) == TrimLeft(head) + "=" + TrimRight(rest)
  {
    assert head + "=" + rest == head + ("=" + rest);
    TrimLeftAppend(head, "=" + rest);
    assert TrimLeft(head) + ("=" + rest) == (TrimLeft(head) + "=") + rest;
    TrimRightAppend(TrimLeft(head) + "=", rest);
  }

  lemma AssignmentSplit(l: string, r: string)
    requires '=' !in l
    ensures var key := Trim(DropPrefix(EXPORT, l));
            ParseAssignment(DropPrefix(EXPORT, l + "=" + r))
              == if key == "" then EmptyKey else Assign(key, ParseValue(Trim(r)))
  {
    var d := DropPrefix(EXPORT, l);
    PrefixOfKey(EXPORT, l, r);
    DropPrefixKeeps(EXPORT, l, '=');
    var line := d + "=" + r;
    assert DropPrefix(EXPORT, l + "=" + r) == line;
    IndexOfInPrefix(d, '=', r);
    assert line[..|d|] == d && line[|d| + 1..] == r;
  }

  /** A line cut at its first '='. */
  lemma ParseSplit(head: string, rest: string)
    requires '=' !in head && !Ignored(head + "=" + rest)
    ensures ParseLine(head + "=" + rest)
         == if KeyPart(head) == "" then EmptyKey else Assign(KeyPart(head), ParseValue(Trim(rest)))
  {
    IgnoredMeaning(head + "=" + rest);
    TrimSplit(head, rest);
    TrimLeftMeaning(head);
    AssignmentSplit(TrimLeft(head), TrimRight(rest));
    TrimAfterTrimRight(rest);
  }

  lemma ExportFound(head: string, l: nat)
    requires l <= |head| && ExportAt(head, l)
    ensures TrimLeft(head) == head[l..] && EXPORT <= head[l..]
  {
    var rest := head[l..];
    assert rest[..7] == head[l..l + 7];
    assert !IsSpace(rest[..7][0]);
    assert head == head[..l] + rest;
    TrimLeftSkips(head[..l], rest);
  }

  lemma ExportIsThere(head: string)
    requires EXPORT <= TrimLeft(head)
    ensures ExportAt(head, |head| - |TrimLeft(head)|)
  {
    var l := |head| - |TrimLeft(head)|;
    TrimLeftMeaning(head);
    assert head[l..][..7] == head[l..l + 7];
  }

  lemma KeyMeaning(head: string, k: string)
    ensures GivesKey(head, k) <==> k == KeyPart(head)
  {
    if EXPORT <= TrimLeft(head) {
      ExportedKeyMeaning(head, k);
    } else {
      PlainKeyMeaning(head, k);
    }
  }

  lemma ExportedKeyMeaning(head: string, k: string)
    requires EXPORT <= TrimLeft(head)
    ensures GivesKey(head, k) <==> k == KeyPart(head)
  {
    var rest := TrimLeft(head)[7..];
    ExportIsThere(head);
    forall l | 0 <= l <= |head| && ExportAt(head, l) ensures head[l + 7..] == rest {
      ExportFound(head, l);
    }
    TrimMeaning(rest, k);
  }

  lemma PlainKeyMeaning(head: string, k: string)
    requires !(EXPORT <= TrimLeft(head))
    ensures GivesKey(head, k) <==> k == KeyPart(head)
  {
    forall l | 0 <= l <= |head| ensures !ExportAt(head, l) {
      if ExportAt(head, l) {
        ExportFound(head, l);
      }
    }
    TrimMeaning(head, k);
    TrimLeftMeaning(head);
    assert TrimLeft(TrimLeft(head)) == TrimLeft(head);
  }

  lemma CommentMeaning(t: string, i: nat)
    requires i < |t|
    ensures FirstCommentAt(t, i) <==> i == IndexOfComment(t)
  {
    var n := IndexOfComment(t);
    forall j | 0 <= j < |t| ensures (j < n ==> !CommentAt(t, j)) && (j == n ==> CommentAt(t, j)) {
      IndexOfCommentIsFirst(t, j);
    }
    assert n < |t| ==> CommentAt(t, n);
  }

  lemma ValueMeaning(t: string, v: string)
    ensures GivesValue(t, v) <==> v == ParseValue(t)
  {
    if Wrapped(t, '"') || Wrapped(t, '\'') {
      assert t == [t[0]] + t[1..|t| - 1] + [t[0]];
    } else {
      var n := IndexOfComment(t);
      forall i | 0 <= i < |t| ensures FirstCommentAt(t, i) <==> i == n {
        CommentMeaning(t, i);
      }
      if n < |t| {
        assert FirstCommentAt(t, n);
        TrimMeaning(t[..n], v);
      }
    }
  }

  /** Every remaining line: malformed when no key is left, and otherwise which key and which value it sets. */
  lemma LineWithEquals(head: string, rest: string, k: string, v: string)
    requires '=' !in head && !Ignored(head + "=" + rest)
    ensures ParseLine(head + "=" + rest) == EmptyKey <==> GivesKey(head, "")
    ensures ParseLine(head + "=" + rest) == Assign(k, v)
       <==> k != "" && GivesKey(head, k) && exists t :: StripsTo(rest, t) && GivesValue(t, v)
  {
    ParseSplit(head, rest);
    KeyMeaning(head, "");
    KeyMeaning(head, k);
    TrimStrips(rest);
    ValueMeaning(Trim(rest), v);
    forall t | StripsTo(rest, t) ensures t == Trim(rest) {
      TrimMeaning(rest, t);
    }
  }

  // ---------- Trailing comments ----------

  /** `v`, some white space, and a comment. */
  function Commented(v: string, gap: string, note: string): string {
    v + gap + " #" + note
  }

  lemma TrimCommented(v: string, gap: string, note: string)
    requires v != "" && Trimmed(v) && AllSpace(gap)
    ensures Trim(Commented(v, gap, note)) == Commented(v, gap, TrimRight(note))
  {
    assert Commented(v, gap, note)[0] == v[0];
    TrimRightAppend(v + gap + " #", note);
  }

  lemma CommentStarts(v: string, gap: string, note: string)
    requires v != "" && Trimmed(v) && IndexOfComment(v) == |v| && AllSpace(gap)
    ensures IndexOfComment(Commented(v, gap, note)) == |v + gap|
    ensures Commented(v, gap, note)[..|v + gap|] == v + gap
  {
    var t, n := Commented(v, gap, note), |v + gap|;
    assert t[n] == ' ' && t[n + 1] == '#';
    forall j | 0 <= j < n ensures !CommentAt(t, j) {
      if j < |v| {
        IndexOfCommentIsFirst(v, j);
        assert t[j] == v[j] && (j + 1 < |v| ==> t[j + 1] == v[j + 1]);
      } else {
        assert j + 1 < n ==> t[j + 1] == gap[j + 1 - |v|];
      }
    }
    CommentMeaning(t, n);
  }

  /** Without a value before it a comment is taken for one. */
  lemma CommentAlone(gap: string, note: string)
    requires AllSpace(gap)
    ensures ParseValue(Trim(Commented("", gap, note))) != ""
  {
    var hash := "#" + note;
    assert Commented("", gap, note) == (gap + " ") + hash;
    TrimLeftSkips(gap + " ", hash);
    TrimRightAppend("#", note);
    var t := "#" + TrimRight(note);
    var i := IndexOfComment(t);
    if i < |t| {
      assert t[..i][0] == '#';
      TrimKeepsFirst(t[..i]);
    }
  }

  lemma CommentedLast(v: string, gap: string, note: string)
    ensures var t := Commented(v, gap, note);
            |t| == |v| + |gap| + 2 + |note| && (|t| == |v| + 2 ==> t[|t| - 1] == '#')
  {
  }

  /** Unwrapping does not leave the value: the closing quote would have to be the '#'. */
  lemma WrappedComment(v: string, gap: string, note: string)
    requires Quoted(Commented(v, gap, note))
    ensures ParseValue(Commented(v, gap, note)) != v
  {
    CommentedLast(v, gap, note);
  }

  lemma CommentedValue(v: string, gap: string, note: string)
    requires v != "" && Trimmed(v) && IndexOfComment(v) == |v| && AllSpace(gap)
    ensures ParseValue(Commented(v, gap, note)) == v <==> !Quoted(Commented(v, gap, note))
  {
    if Quoted(Commented(v, gap, note)) {
      WrappedComment(v, gap, note);
    } else {
      CommentStarts(v, gap, note);
      TrimAround("", v, gap);
      assert "" + (v + gap) == v + gap;
    }
  }

  /**
   A trailing comment set apart by a space is taken off exactly when there is a value before it and
   value and comment together do not happen to be wrapped in quotes.
   */
  lemma CommentedRoundTrip(k: string, v: string, gap: string, note: string)
    requires ValidKey(k) && Bare(v) && AllSpace(gap)
    ensures var t := Commented(v, gap, TrimRight(note));
            (ParseLine(k + "=" + Commented(v, gap, note)) == Assign(k, v))
              == (v != "" && !Wrapped(t, '"') && !Wrapped(t, '\''))
  {
    ParsePrinted(k, Commented(v, gap, note));
    TrimAfterTrimRight(Commented(v, gap, note));
    if v == "" {
      CommentAlone(gap, note);
    } else {
      TrimCommented(v, gap, note);
      CommentedValue(v, gap, TrimRight(note));
    }
  }

  // ---------- A whole file ----------

  function DropReturn(line: string): string {
    if line != "" && line[|line| - 1] == '\r' then line[..|line| - 1] else line
  }

  /** Lines as the scanner yields them. */
  function Lines(content: string): seq<string>
    decreases |content|
  {
    if content == "" then []
    else
      var i := IndexOf(content, '\n');
      if i == |content| then [DropReturn(content)]
      else [DropReturn(content[..i])] + Lines(content[i + 1..])
  }

  predicate Plain(s: string) {
    '\n' !in s && '\0' !in s
  }

  predicate Printable(pair: (string, string)) {
    ValidKey(pair.0) && Plain(pair.0) && Plain(pair.1)
  }

  /** How lines are separated, and whether the last one is closed. */
  datatype Layout = Layout(carriageReturns: bool, closed: bool) {
    function Eol(): string {
      if carriageReturns then "\r\n" else "\n"
    }
  }

  function PrintFile(pairs: seq<(string, string)>, layout: Layout): string {
    if pairs == [] then ""
    else
      var line := Print(pairs[0].0, pairs[0].1);
      if |pairs| == 1 && !layout.closed then line
      else line + layout.Eol() + PrintFile(pairs[1..], layout)
  }

  lemma PrintedLineIsPlain(k: string, v: string)
    requires Printable((k, v))
    ensures '\n' !in Print(k, v) && DropReturn(Print(k, v)) == Print(k, v)
  {
    var line := Print(k, v);
    assert line[|line| - 1] != '\r' by {
      if Bare(v) {
        assert line[|line| - 1] == if v == "" then '=' else v[|v| - 1];
      } else {
        assert line[|line| - 1] == '"';
      }
    }
  }

  lemma FirstLine(first: string, rest: string, layout: Layout)
    requires '\n' !in first && DropReturn(first) == first
    ensures Lines(first + layout.Eol() + rest) == [first] + Lines(rest)
  {
    var line := if layout.carriageReturns then first + "\r" else first;
    var content := first + layout.Eol() + rest;
    assert content == line + "\n" + rest;
    IndexOfInPrefix(line, '\n', rest);
    assert content[..|line|] == line && content[|line| + 1..] == rest;
    assert layout.carriageReturns ==> line[..|line| - 1] == first;
  }

  lemma LastLine(last: string)
    requires last != "" && '\n' !in last && DropReturn(last) == last
    ensures Lines(last) == [last]
  {
    IndexOfMeaning(last, '\n');
  }

  function PrintedLines(pairs: seq<(string, string)>): seq<string> {
    if pairs == [] then [] else [Print(pairs[0].0, pairs[0].1)] + PrintedLines(pairs[1..])
  }

  lemma {:induction false} PrintedLinesAt(pairs: seq<(string, string)>, i: nat)
    ensures |PrintedLines(pairs)| == |pairs|
    ensures i < |pairs| ==> PrintedLines(pairs)[i] == Print(pairs[i].0, pairs[i].1)
  {
    if pairs != [] {
      PrintedLinesAt(pairs[1..], if i == 0 then 0 else i - 1);
    }
  }

  lemma {:induction false} LinesOfPrinted(pairs: seq<(string, string)>, layout: Layout)
    requires forall i :: 0 <= i < |pairs| ==> Printable(pairs[i])
    ensures Lines(PrintFile(pairs, layout)) == PrintedLines(pairs)
  {
    if pairs != [] {
      var line := Print(pairs[0].0, pairs[0].1);
      assert Printable(pairs[0]);
      PrintedLineIsPlain(pairs[0].0, pairs[0].1);
      if |pairs| == 1 && !layout.closed {
        LastLine(line);
      } else {
        FirstLine(line, PrintFile(pairs[1..], layout), layout);
        LinesOfPrinted(pairs[1..], layout);
      }
    }
  }

  // ---------- The loader ----------

  /** What the operating system accepts as a variable. */
  predicate Settable(key: string, value: string) {
    key != "" && '=' !in key && '\0' !in key && '\0' !in value
  }

  class Environment {
    var vars: map<string, string>

    method Setenv(key: string, value: string) returns (ok: bool)
      modifies this
      ensures ok <==> Settable(key, value)
      ensures vars == if ok then old(vars)[key := value] else old(vars)
    {
      ok := key != "" && '=' !in key && '\0' !in key && '\0' !in value;
      if ok {
        vars := vars[key := value];
      }
    }
  }

  datatype File = Absent | Unreadable | File(lines: seq<string>, readError: bool)

  datatype Outcome =
    | Loaded(applied: nat)
    | OpenFailed
    | BadLine(applied: nat, line: nat, why: Parsed)
    | SetFailed(applied: nat)
    | ScanFailed(applied: nat)

  /** A line the loader gets past. */
  predicate Good(p: Parsed) {
    p.Skip? || (p.Assign? && Settable(p.key, p.value))
  }

  function ParseLines(lines: seq<string>): seq<Parsed> {
    if lines == [] then [] else ParseLines(lines[..|lines| - 1]) + [ParseLine(lines[|lines| - 1])]
  }

  lemma {:induction false} ParseLinesAt(lines: seq<string>, i: nat)
    requires i < |lines|
    ensures |ParseLines(lines)| == |lines| && ParseLines(lines)[i] == ParseLine(lines[i])
  {
    if i < |lines| - 1 {
      ParseLinesAt(lines[..|lines| - 1], i);
    } else if i > 0 {
      ParseLinesAt(lines[..|lines| - 1], 0);
    }
  }

  /** The first line the loader does not get past, or the number of lines. */
  function FirstBad(ps: seq<Parsed>): (n: nat)
    ensures n <= |ps|
    ensures forall i :: 0 <= i < n ==> Good(ps[i])
    ensures n < |ps| ==> !Good(ps[n])
  {
    if ps == [] || !Good(ps[0]) then 0 else 1 + FirstBad(ps[1..])
  }

  /** The assignments of some lines, in order. */
  function Assignments(ps: seq<Parsed>): seq<(string, string)> {
    if ps == [] then []
    else
      var p := ps[|ps| - 1];
      Assignments(ps[..|ps| - 1]) + if p.Assign? then [(p.key, p.value)] else []
  }

  /** The environment with some assignments made, in order. */
  function Assigned(env: map<string, string>, pairs: seq<(string, string)>): map<string, string> {
    if pairs == [] then env
    else Assigned(env, pairs[..|pairs| - 1])[pairs[|pairs| - 1].0 := pairs[|pairs| - 1].1]
  }

  lemma AssignmentsSnoc(ps: seq<Parsed>, p: Parsed)
    ensures p.Assign? ==> Assignments(ps + [p]) == Assignments(ps) + [(p.key, p.value)]
    ensures !p.Assign? ==> Assignments(ps + [p]) == Assignments(ps)
  {
    assert (ps + [p])[..|ps|] == ps;
    assert Assignments(ps) + [] == Assignments(ps);
  }

  lemma AssignedSnoc(env: map<string, string>, pairs: seq<(string, string)>, pair: (string, string))
    ensures Assigned(env, pairs + [pair]) == Assigned(env, pairs)[pair.0 := pair.1]
  {
    assert (pairs + [pair])[..|pairs|] == pairs;
  }

  /** How the load ends, given where it stops. */
  ghost predicate Ends(ps: seq<Parsed>, readError: bool, n: nat, r: Outcome)
    requires n <= |ps|
  {
    && !r.OpenFailed?
    && (r.BadLine? <==> n < |ps| && !ps[n].Assign?)
    && (r.BadLine? ==> r.line == n + 1 && r.why == ps[n])
    && (r.SetFailed? <==> n < |ps| && ps[n].Assign?)
    && (r.ScanFailed? <==> n == |ps| && readError)
  }

  lemma {:induction false} ParseLinesLength(lines: seq<string>)
    ensures |ParseLines(lines)| == |lines|
  {
    if lines != [] {
      ParseLinesAt(lines, 0);
    }
  }

  /** Parse one line of the file. */
  method ParseAt(lines: seq<string>, i: nat) returns (p: Parsed)
    requires i < |lines|
    ensures |ParseLines(lines)| == |lines| && p == ParseLines(lines)[i]
  {
    p := ParseLine(lines[i]);
    ParseLinesAt(lines, i);
  }

  /** One parsed line: set the variable if it is an assignment. */
  method ApplyLine(p: Parsed, env: Environment) returns (ok: bool)
    modifies env
    ensures ok <==> Good(p)
    ensures env.vars == if ok && p.Assign? then old(env.vars)[p.key := p.value] else old(env.vars)
  {
    match p {
      case Skip => ok := true;
      case Assign(key, value) => ok := env.Setenv(key, value);
      case _ => ok := false;
    }
  }

  lemma GoodStep(env: map<string, string>, ps: seq<Parsed>, n: nat)
    requires n < |ps| && Good(ps[n])
    ensures var before, after := Assignments(ps[..n]), Assignments(ps[..n + 1]);
            && |after| == |before| + (if ps[n].Assign? then 1 else 0)
            && Assigned(env, after)
               == if ps[n].Assign? then Assigned(env, before)[ps[n].key := ps[n].value] else Assigned(env, before)
  {
    assert ps[..n + 1] == ps[..n] + [ps[n]];
    AssignmentsSnoc(ps[..n], ps[n]);
    if ps[n].Assign? {
      AssignedSnoc(env, Assignments(ps[..n]), (ps[n].key, ps[n].value));
    }
  }

  /**
   What loading a file comes to. Exactly the assignments before the first bad line are made, in
   order and over whatever was set before, and a malformed line is reported by its 1-based number.
   */
  ghost predicate Loads(file: File, before: map<string, string>, after: map<string, string>, r: Outcome) {
    && (file.Absent? ==> r == Loaded(0) && after == before)
    && (file.Unreadable? ==> r == OpenFailed && after == before)
    && (file.File? ==>
          var ps := ParseLines(file.lines);
          var pairs := Assignments(ps[..FirstBad(ps)]);
          && Ends(ps, file.readError, FirstBad(ps), r)
          && r.applied == |pairs|
          && after == Assigned(before, pairs))
  }

  method LoadDotEnv(file: File, env: Environment) returns (r: Outcome)
    modifies env
    ensures Loads(file, old(env.vars), env.vars, r)
  {
    if file.Absent? {
      return Loaded(0);
    } else if file.Unreadable? {
      return OpenFailed;
    }
    ghost var ps := ParseLines(file.lines);
    ParseLinesLength(file.lines);
    var applied := 0;
    for line := 0 to |file.lines|
      invariant line <= FirstBad(ps)
      invariant env.vars == Assigned(old(env.vars), Assignments(ps[..line]))
      invariant applied == |Assignments(ps[..line])|
    {
      var parsed := ParseAt(file.lines, line);
      var ok := ApplyLine(parsed, env);
      if !ok {
        assert line == FirstBad(ps) && parsed == ps[line];
        return if parsed.Assign? then SetFailed(applied) else BadLine(applied, line + 1, parsed);
      }
      GoodStep(old(env.vars), ps, line);
      applied := applied + if parsed.Assign? then 1 else 0;
    }
    assert ps[..|ps|] == ps && FirstBad(ps) == |ps|;
    r := if file.readError then ScanFailed(applied) else Loaded(applied);
  }

  predicate Sets(pairs: seq<(string, string)>, key: string) {
    exists i :: 0 <= i < |pairs| && pairs[i].0 == key
  }

  /** The last of the assignments to `key` is the i-th. */
  predicate LastSetAt(pairs: seq<(string, string)>, key: string, i: nat) {
    i < |pairs| && pairs[i].0 == key && forall j :: i < j < |pairs| ==> pairs[j].0 != key
  }

  lemma {:induction false} LastSetDecides(env: map<string, string>, pairs: seq<(string, string)>, key: string, i: nat)
    requires LastSetAt(pairs, key, i)
    ensures key in Assigned(env, pairs) && Assigned(env, pairs)[key] == pairs[i].1
  {
    var n := |pairs| - 1;
    if i < n {
      assert pairs[n].0 != key;
      LastSetDecides(env, pairs[..n], key, i);
    }
  }

  lemma {:induction false} UnsetStays(env: map<string, string>, pairs: seq<(string, string)>, key: string)
    requires !Sets(pairs, key)
    ensures key in Assigned(env, pairs) <==> key in env
    ensures key in env ==> Assigned(env, pairs)[key] == env[key]
  {
    if pairs != [] {
      var n := |pairs| - 1;
      assert pairs[n].0 != key;
      assert forall i :: 0 <= i < n ==> pairs[..n][i] == pairs[i];
      UnsetStays(env, pairs[..n], key);
    }
  }

  lemma {:induction false} LastSetExists(pairs: seq<(string, string)>, key: string) returns (i: nat)
    requires Sets(pairs, key)
    ensures LastSetAt(pairs, key, i)
  {
    var n := |pairs| - 1;
    if pairs[n].0 == key {
      return n;
    }
    var k :| 0 <= k < |pairs| && pairs[k].0 == key;
    assert pairs[..n][k].0 == key;
    i := LastSetExists(pairs[..n], key);
  }

  /** The last assignment to a key wins, over earlier ones and over the environment. */
  lemma LastAssignmentWins(env: map<string, string>, pairs: seq<(string, string)>, key: string)
    ensures key in Assigned(env, pairs) <==> key in env || Sets(pairs, key)
    ensures forall i: nat :: LastSetAt(pairs, key, i) ==> Assigned(env, pairs)[key] == pairs[i].1
    ensures key in env && !Sets(pairs, key) ==> Assigned(env, pairs)[key] == env[key]
  {
    if Sets(pairs, key) {
      var last := LastSetExists(pairs, key);
      LastSetDecides(env, pairs, key, last);
    } else {
      UnsetStays(env, pairs, key);
    }
    forall i: nat | LastSetAt(pairs, key, i)
      ensures key in Assigned(env, pairs) && Assigned(env, pairs)[key] == pairs[i].1
    {
      LastSetDecides(env, pairs, key, i);
    }
  }

  lemma {:induction false} AssignmentsOfPairs(ps: seq<Parsed>, pairs: seq<(string, string)>)
    requires |ps| == |pairs|
    requires forall i :: 0 <= i < |pairs| ==> ps[i] == Assign(pairs[i].0, pairs[i].1)
    ensures Assignments(ps) == pairs
  {
    if pairs != [] {
      var n := |pairs| - 1;
      AssignmentsOfPairs(ps[..n], pairs[..n]);
      assert pairs == pairs[..n] + [pairs[n]];
    }
  }

  lemma PrintedParses(pairs: seq<(string, string)>, layout: Layout)
    requires forall i :: 0 <= i < |pairs| ==> Printable(pairs[i])
    ensures var ps := ParseLines(Lines(PrintFile(pairs, layout)));
            Assignments(ps) == pairs && FirstBad(ps) == |ps|
  {
    var lines := Lines(PrintFile(pairs, layout));
    var ps := ParseLines(lines);
    LinesOfPrinted(pairs, layout);
    PrintedLinesAt(pairs, 0);
    ParseLinesLength(lines);
    forall i | 0 <= i < |pairs|
      ensures ps[i] == Assign(pairs[i].0, pairs[i].1) && Good(ps[i])
    {
      ParseLinesAt(lines, i);
      PrintedLinesAt(pairs, i);
      PrintedLineIsGood(pairs[i]);
    }
    AssignmentsOfPairs(ps, pairs);
  }

  /**
   Printing settings to a file, with either line ending and the last line closed or not, and loading it
   succeeds, makes as many assignments as there are
   settings, and leaves every variable with its last setting, or as it was if it has none.
   */
  lemma FileRoundTrip(pairs: seq<(string, string)>, layout: Layout, before: map<string, string>,
                      after: map<string, string>, r: Outcome, key: string)
    requires forall i :: 0 <= i < |pairs| ==> Printable(pairs[i])
    requires Loads(File(Lines(PrintFile(pairs, layout)), false), before, after, r)
    ensures r == Loaded(|pairs|) && after == Assigned(before, pairs)
    ensures key in after <==> key in before || Sets(pairs, key)
    ensures forall i: nat :: LastSetAt(pairs, key, i) ==> after[key] == pairs[i].1
    ensures key in before && !Sets(pairs, key) ==> after[key] == before[key]
  {
    PrintedParses(pairs, layout);
    var ps := ParseLines(Lines(PrintFile(pairs, layout)));
    assert ps[..|ps|] == ps;
    LastAssignmentWins(before, pairs, key);
  }

  lemma PrintedLineIsGood(pair: (string, string))
    requires Printable(pair)
    ensures ParseLine(Print(pair.0, pair.1)) == Assign(pair.0, pair.1)
    ensures Settable(pair.0, pair.1)
  {
    RoundTrip(pair.0, pair.1);
  }
}
