/**
 * The Python `str` operations the pipeline relies on, over `string` (= `seq<char>`):
 * `isspace`, `strip()`, `split(sep)`, `split()`, `splitlines()`, `sep.join(...)`,
 * `lower()` and `int(...)`.
 */
module Text {
  import opened Wrappers

  /** Python's `str.isspace()` on one character; `\s`, `split()` and `strip()` use the same set. */
  predicate IsSpace(c: char) {
    || c == ' '
    || ('\t' <= c <= '\r')
    || ('\U{1C}' <= c <= '\U{1F}')
    || c == '\U{85}' || c == '\U{A0}' || c == '\U{1680}'
    || ('\U{2000}' <= c <= '\U{200A}')
    || c == '\U{2028}' || c == '\U{2029}' || c == '\U{202F}' || c == '\U{205F}' || c == '\U{3000}'
  }

  /** Every character of `s` at an index in `[lo, hi)` is whitespace. */
  predicate SpaceRun(s: string, lo: int, hi: int) {
    forall i :: lo <= i < hi && 0 <= i < |s| ==> IsSpace(s[i])
  }

  /** Neither end of `s` is whitespace. */
  predicate NoEdgeSpace(s: string) {
    s == [] || (!IsSpace(s[0]) && !IsSpace(s[|s| - 1]))
  }

  predicate StartsWith(s: string, prefix: string) {
    |prefix| <= |s| && s[..|prefix|] == prefix
  }

  predicate EndsWith(s: string, suffix: string) {
    |suffix| <= |s| && s[|s| - |suffix|..] == suffix
  }

  predicate OccursAt(s: string, pat: string, k: int) {
    0 <= k && k + |pat| <= |s| && s[k..k + |pat|] == pat
  }

  predicate Contains(s: string, pat: string) {
    exists k :: 0 <= k <= |s| - |pat| && OccursAt(s, pat, k)
  }

  // ---------------------------------------------------------------- strip()

  /** Number of whitespace characters at the front of `s`. */
  function LeadingSpaces(s: string): (k: nat)
    ensures k <= |s| && SpaceRun(s, 0, k)
    ensures k < |s| ==> !IsSpace(s[k])
  {
    if s != [] && IsSpace(s[0]) then
      var k' := LeadingSpaces(s[1..]);
      assert forall i :: 1 <= i < |s| ==> s[i] == s[1..][i - 1];
      k' + 1
    else
      0
  }

  /** Number of whitespace characters at the back of `s`. */
  function TrailingSpaces(s: string): (k: nat)
    ensures k <= |s| && SpaceRun(s, |s| - k, |s|)
    ensures k < |s| ==> !IsSpace(s[|s| - k - 1])
  {
    if s != [] && IsSpace(s[|s| - 1]) then
      var init := s[..|s| - 1];
      var k' := TrailingSpaces(init);
      assert forall i :: 0 <= i < |init| ==> s[i] == init[i];
      k' + 1
    else
      0
  }

  /**
   * `r` is what remains of `s` once whitespace is cut from both ends: it sits in `s`
   * with only whitespace around it, and its own ends are not whitespace.
   */
  ghost predicate IsStripped(s: string, r: string) {
    exists a :: 0 <= a && a + |r| <= |s| && s[a..a + |r|] == r
      && SpaceRun(s, 0, a) && SpaceRun(s, a + |r|, |s|) && NoEdgeSpace(r)
  }

  /** Python's `str.strip()` with no argument. */
  function Strip(s: string): (r: string)
    ensures IsStripped(s, r)
    ensures |r| <= |s|
  {
    var a := LeadingSpaces(s);
    if a == |s| then
      assert s[a..a] == [];
      []
    else
      var b := TrailingSpaces(s);
      var r := s[a..|s| - b];
      assert s[a..a + |r|] == r;
      r
  }

  /** Where a stripped form of `s` can start: right after the leading whitespace. */
  lemma StrippedStart(s: string, r: string, a: nat)
    requires a + |r| <= |s| && s[a..a + |r|] == r && r != []
    requires SpaceRun(s, 0, a) && NoEdgeSpace(r)
    ensures a == LeadingSpaces(s)
  {
    assert s[a] == r[0];
  }

  /** Where a stripped form of `s` can end: right before the trailing whitespace. */
  lemma StrippedEnd(s: string, r: string, a: nat)
    requires a + |r| <= |s| && s[a..a + |r|] == r && r != []
    requires SpaceRun(s, a + |r|, |s|) && NoEdgeSpace(r)
    ensures a + |r| == |s| - TrailingSpaces(s)
  {
    assert s[a + |r| - 1] == r[|r| - 1];
  }

  /** `strip()` is exactly the stripped form of its argument, and there is only one. */
  lemma StripCharacterised(s: string, r: string)
    ensures IsStripped(s, r) <==> r == Strip(s)
  {
    if IsStripped(s, r) {
      var a :| 0 <= a && a + |r| <= |s| && s[a..a + |r|] == r
        && SpaceRun(s, 0, a) && SpaceRun(s, a + |r|, |s|) && NoEdgeSpace(r);
      StrippedIsStrip(s, r, a);
    }
  }

  /** A stripped form found at `a` is the one `strip()` gives. */
  lemma StrippedIsStrip(s: string, r: string, a: nat)
    requires a + |r| <= |s| && s[a..a + |r|] == r
    requires SpaceRun(s, 0, a) && SpaceRun(s, a + |r|, |s|) && NoEdgeSpace(r)
    ensures r == Strip(s)
  {
    if r == [] {
      assert SpaceRun(s, 0, |s|);
      assert LeadingSpaces(s) == |s|;
    } else {
      StrippedStart(s, r, a);
      StrippedEnd(s, r, a);
    }
  }

  /** A string whose ends are not whitespace is left alone by `strip()`. */
  lemma StripNoEdge(s: string)
    requires NoEdgeSpace(s)
    ensures Strip(s) == s
  {
    assert IsStripped(s, s) by {
      assert s[0..0 + |s|] == s;
      assert SpaceRun(s, 0, 0) && SpaceRun(s, |s|, |s|);
    }
    StripCharacterised(s, s);
  }

  lemma StripIdempotent(s: string)
    ensures Strip(Strip(s)) == Strip(s)
  {
    StripNoEdge(Strip(s));
  }

  /** Stripping cuts only whitespace off the ends, so it cannot create an occurrence. */
  lemma StrippedKeepsAbsence(s: string, pat: string)
    requires !Contains(s, pat)
    ensures !Contains(Strip(s), pat)
  {
    var r := Strip(s);
    var a := LeadingSpaces(s);
    StripIsSlice(s);
    forall p | 0 <= p <= |r| - |pat| && OccursAt(r, pat, p) ensures OccursAt(s, pat, a + p) {
      SliceOfSlice(s, r, a, p, |pat|);
    }
  }

  /** A piece of a slice is the slice of the same piece, shifted. */
  lemma SliceOfSlice(s: string, r: string, a: nat, p: nat, n: nat)
    requires a + |r| <= |s| && s[a..a + |r|] == r && p + n <= |r|
    ensures s[a + p..a + p + n] == r[p..p + n]
  {
    var x, y := s[a + p..a + p + n], r[p..p + n];
    forall k | 0 <= k < n ensures x[k] == y[k] {
      assert s[a + p + k] == s[a..a + |r|][p + k];
    }
    assert x == y;
  }

  /** `strip()` keeps the characters that follow the leading whitespace. */
  lemma StripIsSlice(s: string)
    ensures LeadingSpaces(s) + |Strip(s)| <= |s|
    ensures s[LeadingSpaces(s)..LeadingSpaces(s) + |Strip(s)|] == Strip(s)
  {
    var a := LeadingSpaces(s);
    if a == |s| {
      assert Strip(s) == [];
    } else {
      var b := TrailingSpaces(s);
      var r := s[a..|s| - b];
      assert Strip(s) == r;
      assert a + |r| == |s| - b;
    }
  }

  /** Python truthiness of an optional string: present and not empty. */
  predicate Truthy(o: Option<string>) {
    o.Some? && o.value != []
  }

  // ---------------------------------------------------------------- split(sep) and join

  /** Leftmost occurrence of `pat` in `s` at or after `from`. */
  function IndexOf(s: string, pat: string, from: nat): (r: Option<nat>)
    ensures r.Some? ==> from <= r.value && OccursAt(s, pat, r.value)
    ensures r.Some? ==> forall k :: from <= k < r.value ==> !OccursAt(s, pat, k)
    ensures r.None? ==> forall k :: from <= k ==> !OccursAt(s, pat, k)
    decreases |s| - from
  {
    if from + |pat| > |s| then None
    else if s[from..from + |pat|] == pat then Some(from)
    else IndexOf(s, pat, from + 1)
  }

  /** Python's `sep.join(parts)`. */
  function JoinWith(sep: string, parts: seq<string>): string {
    if parts == [] then []
    else if |parts| == 1 then parts[0]
    else parts[0] + sep + JoinWith(sep, parts[1..])
  }

  /**
   * Python's `s.split(sep)` for a non-empty separator: cut at every leftmost,
   * non-overlapping occurrence of `sep`. Joining the pieces back gives `s`, and
   * no piece contains `sep`.
   */
  function Split(s: string, sep: string): (parts: seq<string>)
    requires sep != []
    ensures |parts| >= 1
    ensures JoinWith(sep, parts) == s
    ensures forall i :: 0 <= i < |parts| ==> !Contains(parts[i], sep)
    decreases |s|
  {
    match IndexOf(s, sep, 0)
    case None => [s]
    case Some(i) =>
      var head, rest := s[..i], Split(s[i + |sep|..], sep);
      assert !Contains(head, sep) by {
        forall k | 0 <= k <= |head| - |sep| && OccursAt(head, sep, k) ensures false {
          assert s[k..k + |sep|] == head[k..k + |sep|];
          assert OccursAt(s, sep, k) && k < i;
        }
      }
      assert s == head + sep + s[i + |sep|..];
      [head] + rest
  }

  /**
   * Splitting `a + "; " + b` on `"; "` cuts first right after `a` when `a` holds no
   * separator: no occurrence can straddle the boundary, since `"; "` begins with `;`
   * and ends with a space.
   */
  lemma SplitAfterHead(a: string, b: string)
    requires !Contains(a, "; ")
    ensures Split(a + "; " + b, "; ") == [a] + Split(b, "; ")
  {
    var s, sep := a + "; " + b, "; ";
    assert OccursAt(s, sep, |a|) by { assert s[|a|..|a| + 2] == sep; }
    forall k | 0 <= k < |a| ensures !OccursAt(s, sep, k) {
      if k + 2 <= |a| {
        assert s[k..k + 2] == a[k..k + 2];
        assert !OccursAt(a, sep, k);
      } else {
        assert s[k + 1] == ';';
      }
    }
    assert IndexOf(s, sep, 0) == Some(|a|);
    assert s[..|a|] == a && s[|a| + 2..] == b;
  }

  /** Splitting `a + "; " + b` gives back `a` and `b` when neither holds the separator. */
  lemma SplitSemicolonPair(a: string, b: string)
    requires !Contains(a, "; ") && !Contains(b, "; ")
    ensures Split(a + "; " + b, "; ") == [a, b]
  {
    SplitAfterHead(a, b);
    assert IndexOf(b, "; ", 0).None?;
  }

  // ---------------------------------------------------------------- split() on whitespace

  /** Length of the run of non-whitespace characters at the front of `s`. */
  function WordLength(s: string): (n: nat)
    ensures n <= |s|
    ensures forall i :: 0 <= i < n ==> !IsSpace(s[i])
    ensures n < |s| ==> IsSpace(s[n])
  {
    if s != [] && !IsSpace(s[0]) then 1 + WordLength(s[1..]) else 0
  }

  /** Python's `s.split()` with no argument: the maximal runs of non-whitespace, in order. */
  function Words(s: string): (ws: seq<string>)
    ensures forall i :: 0 <= i < |ws| ==> ws[i] != [] && !exists j :: 0 <= j < |ws[i]| && IsSpace(ws[i][j])
    decreases |s|
  {
    var k := LeadingSpaces(s);
    if k == |s| then []
    else
      var t := s[k..];
      var n := WordLength(t);
      [t[..n]] + Words(t[n..])
  }

  /** A non-empty run of non-whitespace characters. */
  predicate IsWord(w: string) {
    w != [] && forall i :: 0 <= i < |w| ==> !IsSpace(w[i])
  }

  /** A word followed by whitespace (or nothing) is the first of the words. */
  lemma WordsAfterWord(w: string, s: string)
    requires IsWord(w) && (s == [] || IsSpace(s[0]))
    ensures Words(w + s) == [w] + Words(s)
  {
    var t := w + s;
    assert t[0] == w[0];
    assert LeadingSpaces(t) == 0;
    assert t[0..] == t;
    var n := WordLength(t);
    assert forall i :: 0 <= i < |w| ==> t[i] == w[i];
    assert s != [] ==> t[|w|] == s[0];
    assert t[..n] == w && t[n..] == s;
  }

  /** Leading whitespace does not change the words. */
  lemma WordsAfterSpace(c: char, s: string)
    requires IsSpace(c)
    ensures Words([c] + s) == Words(s)
  {
    var t := [c] + s;
    assert t[1..] == s;
    var k := LeadingSpaces(t);
    assert k == LeadingSpaces(s) + 1;
    if k < |t| {
      assert t[k..] == s[k - 1..];
    }
  }

  // ---------------------------------------------------------------- splitlines()

  /** The characters Python's `str.splitlines()` breaks lines at. */
  predicate IsLineBreak(c: char) {
    || c == '\n' || c == '\r' || c == '\U{B}' || c == '\U{C}'
    || ('\U{1C}' <= c <= '\U{1E}')
    || c == '\U{85}' || c == '\U{2028}' || c == '\U{2029}'
  }

  function LineLength(s: string): (n: nat)
    ensures n <= |s|
    ensures forall i :: 0 <= i < n ==> !IsLineBreak(s[i])
    ensures n < |s| ==> IsLineBreak(s[n])
  {
    if s != [] && !IsLineBreak(s[0]) then 1 + LineLength(s[1..]) else 0
  }

  /**
   * Python's `s.splitlines()`: `\r\n` counts as one break, and a break at the very end
   * does not start an extra empty line.
   */
  function SplitLines(s: string): (lines: seq<string>)
    ensures forall i :: 0 <= i < |lines| ==> !exists j :: 0 <= j < |lines[i]| && IsLineBreak(lines[i][j])
    decreases |s|
  {
    if s == [] then []
    else
      var n := LineLength(s);
      if n == |s| then [s]
      else
        var width := if s[n] == '\r' && n + 1 < |s| && s[n + 1] == '\n' then 2 else 1;
        [s[..n]] + SplitLines(s[n + width..])
  }

  predicate HasLineBreak(s: string) {
    exists j :: 0 <= j < |s| && IsLineBreak(s[j])
  }

  /**
   * `splitlines()` undoes joining lines with `\n`, as long as the last line is not empty
   * (it would vanish) and no line holds a line break itself.
   */
  lemma {:induction false} SplitLinesOfJoin(lines: seq<string>)
    requires forall i :: 0 <= i < |lines| ==> !HasLineBreak(lines[i])
    requires lines != [] ==> lines[|lines| - 1] != []
    ensures SplitLines(JoinWith("\n", lines)) == lines
  {
    if lines != [] {
      var l := lines[0];
      var s := JoinWith("\n", lines);
      assert s[..|l|] == l;
      var n := LineLength(s);
      assert forall i :: 0 <= i < |l| ==> s[i] == l[i];
      if |lines| == 1 {
        assert s == l;
      } else {
        var rest := JoinWith("\n", lines[1..]);
        assert s == l + "\n" + rest;
        assert s[|l|] == '\n';
        assert n == |l|;
        assert s[n + 1..] == rest;
        assert lines[1..][|lines| - 2] == lines[|lines| - 1];
        SplitLinesOfJoin(lines[1..]);
      }
    }
  }

  // ---------------------------------------------------------------- lower()

  function LowerChar(c: char): char {
    if 'A' <= c <= 'Z' then (c as int - 'A' as int + 'a' as int) as char else c
  }

  /** `str.lower()` on ASCII letters; every other character is kept. */
  function Lower(s: string): (r: string)
    ensures |r| == |s|
    ensures forall i :: 0 <= i < |s| ==> r[i] == LowerChar(s[i])
  {
    seq(|s|, i requires 0 <= i < |s| => LowerChar(s[i]))
  }

  // ---------------------------------------------------------------- int()

  predicate IsDigit(c: char) {
    '0' <= c <= '9'
  }

  function DigitValue(c: char): nat
    requires IsDigit(c)
  {
    c as int - '0' as int
  }

  predicate DigitsOrUnderscores(s: string) {
    forall i :: 0 <= i < |s| ==> IsDigit(s[i]) || s[i] == '_'
  }

  /**
   * The body of a Python decimal integer literal as `int()` accepts it: digits, with
   * single underscores allowed between two digits.
   */
  predicate IsDigitGroup(s: string) {
    && s != []
    && IsDigit(s[0])
    && IsDigit(s[|s| - 1])
    && DigitsOrUnderscores(s)
    && forall i :: 0 < i < |s| - 1 && s[i] == '_' ==> IsDigit(s[i - 1]) && IsDigit(s[i + 1])
  }

  /** The value of a digit group, underscores ignored. */
  function GroupValue(s: string): nat
    requires DigitsOrUnderscores(s)
  {
    if s == [] then 0
    else if s[|s| - 1] == '_' then GroupValue(s[..|s| - 1])
    else 10 * GroupValue(s[..|s| - 1]) + DigitValue(s[|s| - 1])
  }

  /** Python's `int(token)` for a token without surrounding whitespace; `None` is its `ValueError`. */
  function ParseInt(s: string): (r: Option<int>)
    ensures r.Some? ==> s != [] && (IsDigit(s[0]) || s[0] == '+' || s[0] == '-')
  {
    var negative := s != [] && s[0] == '-';
    var body := if s != [] && (s[0] == '+' || s[0] == '-') then s[1..] else s;
    if IsDigitGroup(body) then
      var v: int := GroupValue(body);
      Some(if negative then -v else v)
    else
      None
  }

  function DigitChar(d: nat): (c: char)
    requires d < 10
    ensures IsDigit(c) && DigitValue(c) == d
  {
    ('0' as int + d) as char
  }

  /** The decimal spelling of `n`, the way `lsof` prints a process id. */
  function Decimal(n: nat): (s: string)
    ensures s != [] && forall i :: 0 <= i < |s| ==> IsDigit(s[i])
  {
    if n < 10 then [DigitChar(n)] else Decimal(n / 10) + [DigitChar(n % 10)]
  }

  /** `int()` reads back every decimal spelling of a natural number. */
  lemma {:induction false} ParseDecimal(n: nat)
    ensures ParseInt(Decimal(n)) == Some(n)
  {
    DecimalValue(n);
  }

  lemma {:induction false} DecimalValue(n: nat)
    ensures GroupValue(Decimal(n)) == n
  {
    var s := Decimal(n);
    if n >= 10 {
      DecimalValue(n / 10);
      assert s[..|s| - 1] == Decimal(n / 10);
    }
  }
}
