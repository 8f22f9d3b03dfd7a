/**
 * String helpers standing for the Rust `str` methods the core calls:
 * `trim`, `trim_start_matches`, `to_lowercase` on ASCII, `eq_ignore_ascii_case`,
 * `starts_with`, `find`/`rfind` of a char, `replace`, `Ord for str`, `join`
 * and decimal formatting of an unsigned integer.
 *
 * Strings are sequences of Unicode scalar values; whitespace and
 * alphanumerics are restricted to their ASCII members (see README).
 */
module Text {
  import opened Wrappers

  datatype Ordering = Less | Equal | Greater {
    function Reverse(): Ordering {
      match this
      case Less => Greater
      case Equal => Equal
      case Greater => Less
    }
  }

  predicate IsWhitespace(c: char) {
    c == ' ' || c == '\t' || c == '\n' || c == '\r' || c == '\U{000B}' || c == '\U{000C}'
  }

  predicate IsAlphanumeric(c: char) {
    ('a' <= c <= 'z') || ('A' <= c <= 'Z') || ('0' <= c <= '9')
  }

  predicate IsDigit(c: char) {
    '0' <= c <= '9'
  }

  /** `trim_start`: drops leading whitespace only. */
  function TrimStart(s: string): (r: string)
    ensures |r| <= |s| && r == s[|s| - |r|..]
    ensures r != [] ==> !IsWhitespace(r[0])
    ensures forall k | 0 <= k < |s| - |r| :: IsWhitespace(s[k])
  {
    if s != [] && IsWhitespace(s[0]) then TrimStart(s[1..]) else s
  }

  /** `trim_end`: drops trailing whitespace only. */
  function TrimEnd(s: string): (r: string)
    ensures |r| <= |s| && r == s[..|r|]
    ensures r != [] ==> !IsWhitespace(r[|r| - 1])
    ensures forall k | |r| <= k < |s| :: IsWhitespace(s[k])
  {
    if s != [] && IsWhitespace(s[|s| - 1]) then TrimEnd(s[..|s| - 1]) else s
  }

  /** `trim`: the longest infix that neither starts nor ends with whitespace. */
  function Trim(s: string): (r: string)
    ensures |r| <= |s| && IsTrimmed(r)
  {
    var t := TrimStart(s);
    var r := TrimEnd(t);
    assert r != [] ==> r[0] == t[0];
    r
  }

  predicate IsTrimmed(s: string) {
    s == [] || (!IsWhitespace(s[0]) && !IsWhitespace(s[|s| - 1]))
  }

  /** Trimming yields an infix of the input with no whitespace at either end,
      and everything cut away was whitespace. */
  lemma TrimSpec(s: string)
    ensures IsTrimmed(Trim(s))
    ensures var i := |s| - |TrimStart(s)|;
      && i + |Trim(s)| <= |s|
      && Trim(s) == s[i..i + |Trim(s)|]
      && (forall k | 0 <= k < i :: IsWhitespace(s[k]))
      && (forall k | i + |Trim(s)| <= k < |s| :: IsWhitespace(s[k]))
  {
    TrimInfix(s);
    TrimCutsWhitespace(s);
  }

  lemma TrimInfix(s: string)
    ensures var i := |s| - |TrimStart(s)|;
      i + |Trim(s)| <= |s| && Trim(s) == s[i..i + |Trim(s)|]
  {
    var t := TrimStart(s);
    var r := TrimEnd(t);
    var i := |s| - |t|;
    assert Trim(s) == r;
    assert t == s[i..];
    assert r == t[..|r|];
    SliceOfSuffix(s, i, |r|);
  }

  lemma SliceOfSuffix(s: string, i: nat, n: nat)
    requires i + n <= |s|
    ensures s[i..][..n] == s[i..i + n]
  {
  }

  lemma TrimCutsWhitespace(s: string)
    ensures var i := |s| - |TrimStart(s)|;
      && (forall k | 0 <= k < i :: IsWhitespace(s[k]))
      && (forall k | i + |Trim(s)| <= k < |s| :: IsWhitespace(s[k]))
  {
    var t := TrimStart(s);
    var r := TrimEnd(t);
    var i := |s| - |t|;
    assert Trim(s) == r;
    forall k | i + |r| <= k < |s| ensures IsWhitespace(s[k]) {
      assert s[k] == t[k - i];
    }
  }

  /** Trimming twice is trimming once. */
  lemma TrimIdempotent(s: string)
    ensures Trim(Trim(s)) == Trim(s)
  {
    var r := Trim(s);
    TrimSpec(s);
    TrimOfTrimmed(r);
  }

  lemma TrimOfTrimmed(r: string)
    requires IsTrimmed(r)
    ensures Trim(r) == r
  {
    assert TrimStart(r) == r;
    assert TrimEnd(r) == r;
  }

  /** `trim_start_matches(|c| !c.is_alphanumeric())` */
  function TrimStartNonAlphanumeric(s: string): (r: string)
    ensures |r| <= |s| && r == s[|s| - |r|..]
    ensures r != [] ==> IsAlphanumeric(r[0])
    ensures forall k | 0 <= k < |s| - |r| :: !IsAlphanumeric(s[k])
  {
    if s != [] && !IsAlphanumeric(s[0]) then
      assert forall k | 1 <= k < |s| :: s[k] == s[1..][k - 1];
      TrimStartNonAlphanumeric(s[1..])
    else s
  }

  function LowerChar(c: char): char {
    if 'A' <= c <= 'Z' then (c as int + 32) as char else c
  }

  /** ASCII lower-casing, character by character. */
  function LowerAscii(s: string): (r: string)
    ensures |r| == |s|
    ensures forall k | 0 <= k < |s| :: r[k] == LowerChar(s[k])
  {
    if s == [] then [] else [LowerChar(s[0])] + LowerAscii(s[1..])
  }

  /** `eq_ignore_ascii_case` */
  predicate EqIgnoreAsciiCase(a: string, b: string) {
    LowerAscii(a) == LowerAscii(b)
  }

  predicate StartsWith(s: string, prefix: string) {
    |prefix| <= |s| && s[..|prefix|] == prefix
  }

  /** `str::find(char)`: index of the first occurrence. */
  function Find(s: string, c: char): (r: Option<nat>)
    ensures r.Some? ==> r.value < |s| && s[r.value] == c && c !in s[..r.value]
    ensures r.None? ==> c !in s
  {
    if s == [] then None
    else if s[0] == c then Some(0)
    else match Find(s[1..], c)
      case None => None
      case Some(i) => Some(i + 1)
  }

  /** `str::rfind(char)`: index of the last occurrence. */
  function RFind(s: string, c: char): (r: Option<nat>)
    ensures r.Some? ==> r.value < |s| && s[r.value] == c && c !in s[r.value + 1..]
    ensures r.None? ==> c !in s
  {
    if s == [] then None
    else if s[|s| - 1] == c then Some(|s| - 1)
    else RFind(s[..|s| - 1], c)
  }

  predicate OccursAt(s: string, pattern: string, i: nat) {
    i + |pattern| <= |s| && s[i..i + |pattern|] == pattern
  }

  predicate Contains(s: string, pattern: string) {
    exists i: nat | i <= |s| :: OccursAt(s, pattern, i)
  }

  /**
   * `str::replace(from, to)`: every non-overlapping occurrence of `from`,
   * scanning left to right, is replaced by `to`. An empty `from` matches at
   * every character boundary, so `to` is inserted before each character and
   * once more at the end.
   */
  function Replace(s: string, from: string, to: string): (r: string)
    ensures from == to ==> r == s
    ensures from != [] && !Contains(s, from) ==> r == s
  {
    if from == [] then
      InterleaveEmpty(s);
      Interleave(s, to)
    else
      ReplaceNonEmptySelf(s, from);
      ReplaceNonEmptyAbsent(s, from, to);
      ReplaceNonEmpty(s, from, to)
  }

  function Interleave(s: string, to: string): string {
    if s == [] then to else to + [s[0]] + Interleave(s[1..], to)
  }

  function ReplaceNonEmpty(s: string, from: string, to: string): string
    requires from != []
  {
    if |s| < |from| then s
    else if s[..|from|] == from then to + ReplaceNonEmpty(s[|from|..], from, to)
    else [s[0]] + ReplaceNonEmpty(s[1..], from, to)
  }

  /** Replacing the empty pattern by the empty string changes nothing. */
  lemma {:induction false} InterleaveEmpty(s: string)
    ensures Interleave(s, []) == s
  {
    if s != [] {
      InterleaveEmpty(s[1..]);
    }
  }

  /** Replacing a non-empty pattern by itself changes nothing. */
  lemma {:induction false} ReplaceNonEmptySelf(s: string, p: string)
    requires p != []
    ensures ReplaceNonEmpty(s, p, p) == s
    decreases |s|
  {
    if |s| < |p| {
    } else if s[..|p|] == p {
      ReplaceNonEmptySelf(s[|p|..], p);
      assert s == p + s[|p|..];
    } else {
      ReplaceNonEmptySelf(s[1..], p);
      assert s == [s[0]] + s[1..];
    }
  }

  /** A non-empty pattern that does not occur leaves the string as it is. */
  lemma {:induction false} ReplaceNonEmptyAbsent(s: string, from: string, to: string)
    requires from != []
    ensures !Contains(s, from) ==> ReplaceNonEmpty(s, from, to) == s
    decreases |s|
  {
    if |s| >= |from| && !Contains(s, from) {
      assert !OccursAt(s, from, 0);
      assert s[..|from|] != from;
      forall i: nat | OccursAt(s[1..], from, i) ensures OccursAt(s, from, i + 1) {
        assert s[1..][i..i + |from|] == s[i + 1..i + 1 + |from|];
      }
      assert !Contains(s[1..], from);
      ReplaceNonEmptyAbsent(s[1..], from, to);
      assert s == [s[0]] + s[1..];
    }
  }

  /** An occurrence at the front is replaced, and the scan goes on after it. */
  lemma ReplaceAtFront(from: string, to: string, c: string)
    requires from != []
    ensures Replace(from + c, from, to) == to + Replace(c, from, to)
  {
    assert (from + c)[..|from|] == from;
    assert (from + c)[|from|..] == c;
  }

  /** Characters at which no occurrence starts are copied unchanged. */
  lemma ReplaceSkip(a: string, from: string, to: string, c: string)
    requires from != []
    requires forall i | 0 <= i < |a| :: !OccursAt(a + c, from, i)
    ensures Replace(a + c, from, to) == a + Replace(c, from, to)
  {
    var s := a + c;
    ReplaceNonEmptySkip(s, from, to, |a|);
    assert s[..|a|] == a && s[|a|..] == c;
  }

  lemma {:induction false} ReplaceNonEmptySkip(s: string, from: string, to: string, n: nat)
    requires from != [] && n <= |s|
    requires forall i | 0 <= i < n :: !OccursAt(s, from, i)
    ensures ReplaceNonEmpty(s, from, to) == s[..n] + ReplaceNonEmpty(s[n..], from, to)
    decreases n
  {
    if n == 0 {
      assert s[..0] == [] && s[0..] == s;
    } else {
      var t := s[1..];
      ReplaceNoOccurrenceAtFront(s, from, to);
      forall i | 0 <= i < n - 1 ensures !OccursAt(t, from, i) {
        OccursInTail(s, from, i);
      }
      ReplaceNonEmptySkip(t, from, to, n - 1);
      TailSlices(s, n);
    }
  }

  lemma TailSlices(s: string, n: nat)
    requires 0 < n <= |s|
    ensures s[1..][n - 1..] == s[n..] && [s[0]] + s[1..][..n - 1] == s[..n]
  {
  }

  /** Where no occurrence starts at the front, the first character is copied. */
  lemma ReplaceNoOccurrenceAtFront(s: string, from: string, to: string)
    requires from != [] && s != [] && !OccursAt(s, from, 0)
    ensures ReplaceNonEmpty(s, from, to) == [s[0]] + ReplaceNonEmpty(s[1..], from, to)
  {
    if |s| < |from| {
      assert s == [s[0]] + s[1..];
    } else {
      assert s[..|from|] != from;
    }
  }

  lemma OccursInTail(s: string, from: string, i: nat)
    requires s != []
    ensures OccursAt(s[1..], from, i) <==> OccursAt(s, from, i + 1)
  {
    if i + 1 + |from| <= |s| {
      assert s[1..][i..i + |from|] == s[i + 1..i + 1 + |from|];
    }
  }

  /**
   * The first occurrence of a non-empty pattern is replaced: with no
   * occurrence starting in `a`, `a + from + c` becomes `a + to` followed by
   * the replacement of `c`.
   */
  lemma ReplaceFirstOccurrence(a: string, from: string, to: string, c: string)
    requires from != []
    requires forall i | 0 <= i < |a| :: !OccursAt(a + from + c, from, i)
    ensures Replace(a + from + c, from, to) == a + to + Replace(c, from, to)
  {
    assert a + from + c == a + (from + c);
    ReplaceSkip(a, from, to, from + c);
    ReplaceAtFront(from, to, c);
  }

  /**
   * A pattern whose first character occurs nowhere else in the string is
   * replaced exactly once.
   */
  lemma ReplaceOnce(a: string, from: string, to: string, c: string)
    requires from != [] && from[0] !in a && from[0] !in c
    ensures Replace(a + from + c, from, to) == a + to + c
  {
    forall i | 0 <= i < |a| ensures !OccursAt(a + from + c, from, i) {
      assert (a + from + c)[i] == a[i];
    }
    forall i: nat | i <= |c| ensures !OccursAt(c, from, i) {
      if i + |from| <= |c| {
        assert c[i..i + |from|][0] == c[i];
      }
    }
    ReplaceFirstOccurrence(a, from, to, c);
  }

  /** `Ord for str`: lexicographic order of the characters (equivalently of the UTF-8 bytes). */
  function LexCompare(a: string, b: string): (r: Ordering)
    ensures r == Equal <==> a == b
  {
    if a == [] then (if b == [] then Equal else Less)
    else if b == [] then Greater
    else if a[0] < b[0] then Less
    else if a[0] > b[0] then Greater
    else
      assert a == [a[0]] + a[1..] && b == [b[0]] + b[1..];
      LexCompare(a[1..], b[1..])
  }

  /** Comparing the other way round reverses the answer. */
  lemma {:induction false} LexCompareReverse(a: string, b: string)
    ensures LexCompare(b, a) == LexCompare(a, b).Reverse()
  {
    if a != [] && b != [] && a[0] == b[0] {
      LexCompareReverse(a[1..], b[1..]);
    }
  }

  /** `[..].join(sep)` */
  function Join(parts: seq<string>, sep: string): (r: string)
  {
    if |parts| == 0 then []
    else if |parts| == 1 then parts[0]
    else parts[0] + sep + Join(parts[1..], sep)
  }

  /** With an empty separator, joining is plain concatenation, piece after piece. */
  lemma {:induction false} JoinEmptyAppend(parts: seq<string>, last: string)
    ensures Join(parts + [last], []) == Join(parts, []) + last
  {
    if |parts| == 0 {
      assert parts + [last] == [last];
    } else if |parts| == 1 {
      assert (parts + [last])[1..] == [last];
    } else {
      assert (parts + [last])[1..] == parts[1..] + [last];
      JoinEmptyAppend(parts[1..], last);
    }
  }

  /** With an empty separator, joining two runs of pieces concatenates their joins. */
  lemma {:induction false} JoinEmptyConcat(p: seq<string>, q: seq<string>)
    ensures Join(p + q, []) == Join(p, []) + Join(q, [])
    decreases |q|
  {
    if q == [] {
      assert p + q == p;
    } else {
      var init, last := q[..|q| - 1], q[|q| - 1];
      assert q == init + [last];
      assert p + q == (p + init) + [last];
      JoinEmptyConcat(p, init);
      JoinEmptyAppend(p + init, last);
      JoinEmptyAppend(init, last);
    }
  }

  function DigitChar(d: nat): char
    requires d < 10
  {
    ('0' as int + d) as char
  }

  /** The value of a string of decimal digits. */
  function DecimalValue(s: string): nat
    requires forall k | 0 <= k < |s| :: IsDigit(s[k])
  {
    if s == [] then 0
    else DecimalValue(s[..|s| - 1]) * 10 + DigitValue(s[|s| - 1])
  }

  function DigitValue(c: char): nat
    requires IsDigit(c)
  {
    c as int - '0' as int
  }

  /** `format!("{n}")` for an unsigned integer: reads back as `n`, without leading zeros. */
  function NatToString(n: nat): (r: string)
    ensures r != [] && forall k | 0 <= k < |r| :: IsDigit(r[k])
    ensures DecimalValue(r) == n
    ensures r[0] == '0' ==> r == "0"
  {
    if n < 10 then [DigitChar(n)]
    else
      var prefix := NatToString(n / 10);
      var r := prefix + [DigitChar(n % 10)];
      assert r[..|r| - 1] == prefix;
      r
  }
}
