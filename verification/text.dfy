/** String primitives the bot relies on, restricted to ASCII semantics where
    Python's are Unicode-aware: `str.lower`/`str.upper` change only A-Z/a-z,
    `\d` is 0-9 and `\w` is [A-Za-z0-9_]. Whitespace follows `str.isspace`
    exactly, which is also what `str.strip()` and the regex class `\s` use. */
module Text {

  // ---------------------------------------------------------------------------
  // Characters
  // ---------------------------------------------------------------------------

  predicate IsDigit(c: char) { '0' <= c <= '9' }

  predicate IsAsciiUpper(c: char) { 'A' <= c <= 'Z' }

  predicate IsAsciiLower(c: char) { 'a' <= c <= 'z' }

  /** `\w` restricted to ASCII. */
  predicate IsWordChar(c: char) {
    IsAsciiUpper(c) || IsAsciiLower(c) || IsDigit(c) || c == '_'
  }

  /** The characters for which Python's `str.isspace()` holds. */
  predicate IsSpace(c: char) {
    || c == ' ' || c == '\t' || c == '\n' || c == '\r'
    || c == '\U{000B}' || c == '\U{000C}'
    || ('\U{001C}' <= c <= '\U{001F}')
    || c == '\U{0085}' || c == '\U{00A0}' || c == '\U{1680}'
    || ('\U{2000}' <= c <= '\U{200A}')
    || c == '\U{2028}' || c == '\U{2029}' || c == '\U{202F}'
    || c == '\U{205F}' || c == '\U{3000}'
  }

  function LowerChar(c: char): char {
    if IsAsciiUpper(c) then (c as int + 32) as char else c
  }

  function UpperChar(c: char): char {
    if IsAsciiLower(c) then (c as int - 32) as char else c
  }

  // ---------------------------------------------------------------------------
  // Case mapping
  // ---------------------------------------------------------------------------

  /** `s.lower()`: same length, every upper-case letter replaced by its
      lower-case form and nothing else touched. */
  function Lower(s: string): (r: string)
    ensures |r| == |s|
    ensures forall i | 0 <= i < |s| :: !IsAsciiUpper(r[i])
    ensures forall i | 0 <= i < |s| :: !IsAsciiUpper(s[i]) ==> r[i] == s[i]
    ensures forall i | 0 <= i < |s| :: IsAsciiUpper(s[i]) ==> r[i] as int == s[i] as int + 32
  {
    seq(|s|, i requires 0 <= i < |s| => LowerChar(s[i]))
  }

  /** `s.upper()`. */
  function Upper(s: string): (r: string)
    ensures |r| == |s|
    ensures forall i | 0 <= i < |s| :: !IsAsciiLower(r[i])
    ensures forall i | 0 <= i < |s| :: !IsAsciiLower(s[i]) ==> r[i] == s[i]
    ensures forall i | 0 <= i < |s| :: IsAsciiLower(s[i]) ==> r[i] as int == s[i] as int - 32
  {
    seq(|s|, i requires 0 <= i < |s| => UpperChar(s[i]))
  }

  /** Lower-casing distributes over concatenation. */
  lemma LowerAppend(a: string, b: string)
    ensures Lower(a + b) == Lower(a) + Lower(b)
  {
  }

  // ---------------------------------------------------------------------------
  // Substrings
  // ---------------------------------------------------------------------------

  /** `p` occurs in `s` starting at index `i`. */
  predicate MatchAt(s: string, p: string, i: int) {
    0 <= i && i + |p| <= |s| && s[i..i + |p|] == p
  }

  /** Python's `p in s`. */
  predicate Contains(s: string, p: string) {
    exists i | 0 <= i <= |s| - |p| :: MatchAt(s, p, i)
  }

  predicate StartsWith(s: string, p: string) {
    |p| <= |s| && s[..|p|] == p
  }

  predicate EndsWith(s: string, p: string) {
    |p| <= |s| && s[|s| - |p|..] == p
  }

  /** Occurrences survive extension on either side. */
  lemma ContainsInLonger(s: string, p: string, a: string, b: string)
    requires Contains(s, p)
    ensures Contains(a + s + b, p)
  {
    var i :| 0 <= i <= |s| - |p| && MatchAt(s, p, i);
    assert (a + s + b)[|a| + i..|a| + i + |p|] == s[i..i + |p|];
    assert MatchAt(a + s + b, p, |a| + i);
  }

  /** A pattern contained in a part of `p` is contained wherever `p` is. */
  lemma ContainsTransitive(s: string, p: string, q: string)
    requires Contains(s, p) && Contains(p, q)
    ensures Contains(s, q)
  {
    var i :| 0 <= i <= |s| - |p| && MatchAt(s, p, i);
    var j :| 0 <= j <= |p| - |q| && MatchAt(p, q, j);
    forall k | 0 <= k < |q| ensures s[i + j + k] == q[k] {
      assert s[i..i + |p|][j + k] == p[j + k];
      assert p[j..j + |q|][k] == p[j + k];
    }
    assert MatchAt(s, q, i + j);
  }

  /** A string is contained in any string built around it. */
  lemma ContainsInfix(a: string, p: string, b: string)
    ensures Contains(a + p + b, p)
  {
    assert MatchAt(p, p, 0);
    ContainsInLonger(p, p, a, b);
  }

  /** A pattern that starts a string is contained in it. */
  lemma StartsWithContains(s: string, p: string)
    requires StartsWith(s, p)
    ensures Contains(s, p)
  {
    assert MatchAt(s, p, 0);
  }

  /** The decision procedure used for concrete strings: `p` cannot occur in `s`
      when its `k`-th character is absent from every place it could land. */
  lemma AbsentFromWindow(s: string, p: string, k: nat)
    requires k < |p|
    requires |p| > |s| || p[k] !in s[k..|s| - |p| + k + 1]
    ensures !Contains(s, p)
  {
    forall i | 0 <= i <= |s| - |p| ensures !MatchAt(s, p, i) {
      assert s[i..i + |p|][k] == s[i + k];
      assert s[k..|s| - |p| + k + 1][i] == s[i + k];
    }
  }

  // ---------------------------------------------------------------------------
  // Whole-word matching (the regex `\b` + p + `\b`)
  // ---------------------------------------------------------------------------

  /** Index `k` of `s` holds a word character (false outside `s`). */
  predicate WordAt(s: string, k: int) {
    0 <= k < |s| && IsWordChar(s[k])
  }

  /** `\b` holds between indices `k-1` and `k`. */
  predicate IsBoundary(s: string, k: int) {
    WordAt(s, k - 1) != WordAt(s, k)
  }

  predicate WordMatchAt(s: string, p: string, i: int) {
    MatchAt(s, p, i) && IsBoundary(s, i) && IsBoundary(s, i + |p|)
  }

  /** `re.search(r'\b' + re.escape(p) + r'\b', s)` succeeds. */
  predicate ContainsWord(s: string, p: string) {
    exists i | 0 <= i <= |s| - |p| :: WordMatchAt(s, p, i)
  }

  /** Whole-word matching is a restriction of substring matching. */
  lemma ContainsWordContains(s: string, p: string)
    ensures ContainsWord(s, p) ==> Contains(s, p)
  {
    if ContainsWord(s, p) {
      var i :| 0 <= i <= |s| - |p| && WordMatchAt(s, p, i);
      assert MatchAt(s, p, i);
    }
  }

  // ---------------------------------------------------------------------------
  // Whitespace stripping (`str.strip()`)
  // ---------------------------------------------------------------------------

  predicate AllSpace(s: string) {
    forall k | 0 <= k < |s| :: IsSpace(s[k])
  }

  /** Number of leading whitespace characters. */
  function LeadingSpace(s: string): (n: nat)
    ensures n <= |s|
    ensures AllSpace(s[..n])
    ensures n < |s| ==> !IsSpace(s[n])
  {
    if |s| > 0 && IsSpace(s[0]) then
      var m := LeadingSpace(s[1..]);
      assert s[1..][..m] == s[1..m + 1];
      1 + m
    else 0
  }

  /** Number of trailing whitespace characters. */
  function TrailingSpace(s: string): (n: nat)
    ensures n <= |s|
    ensures AllSpace(s[|s| - n..])
    ensures n < |s| ==> !IsSpace(s[|s| - n - 1])
  {
    if |s| > 0 && IsSpace(s[|s| - 1]) then
      var m := TrailingSpace(s[..|s| - 1]);
      assert s[..|s| - 1][|s| - 1 - m..] == s[|s| - 1 - m..|s| - 1];
      1 + m
    else 0
  }

  /** If both the leading and trailing space counts leave nothing, every
      character of `s` is whitespace. */
  lemma EmptySliceAllSpace(s: string, a: nat, n: nat)
    requires a <= |s| && n <= |s| - a
    requires AllSpace(s[..a]) && AllSpace(s[a..][|s| - a - n..])
    ensures |s| - a - n == 0 ==> AllSpace(s)
  {
    if |s| - a - n == 0 {
      forall k | 0 <= k < |s| ensures IsSpace(s[k]) {
        if k < a {
          assert s[..a][k] == s[k];
        } else {
          assert s[a..][|s| - a - n..][k - a] == s[k];
        }
      }
    }
  }

  /** `s.strip()`: the slice of `s` left after removing whitespace at both
      ends; it is empty exactly when `s` is all whitespace, and otherwise
      begins and ends with a non-space. */
  function Strip(s: string): (r: string)
    ensures exists a | 0 <= a <= |s| - |r| ::
              s[a..a + |r|] == r && AllSpace(s[..a]) && AllSpace(s[a + |r|..])
    ensures r == [] <==> AllSpace(s)
    ensures r != [] ==> !IsSpace(r[0]) && !IsSpace(r[|r| - 1])
  {
    var a := LeadingSpace(s);
    var t := s[a..];
    var n := TrailingSpace(t);
    var r := t[..|t| - n];
    assert s[a..a + |r|] == r;
    assert s[a + |r|..] == t[|t| - n..];
    EmptySliceAllSpace(s, a, n);
    r
  }

  /** Stripping twice is stripping once. */
  lemma StripIdempotent(s: string)
    ensures Strip(Strip(s)) == Strip(s)
  {
    var r := Strip(s);
    if r != [] {
      assert LeadingSpace(r) == 0;
      assert r[0..] == r;
      assert TrailingSpace(r) == 0;
    }
  }

  // ---------------------------------------------------------------------------
  // Small builders
  // ---------------------------------------------------------------------------

  /** `sep.join(parts)`. */
  function Join(parts: seq<string>, sep: string): string {
    if |parts| == 0 then ""
    else if |parts| == 1 then parts[0]
    else parts[0] + sep + Join(parts[1..], sep)
  }

  /** Concatenation `"".join(parts)` peels off its first part. */
  lemma JoinCons(parts: seq<string>)
    requires |parts| >= 1
    ensures Join(parts, "") == parts[0] + Join(parts[1..], "")
  {
    if |parts| == 1 {
      assert parts[0] + "" == parts[0];
    }
  }

  /** `"".join` of a split list is the concatenation of the two joins. */
  lemma {:induction false} JoinSplit(parts: seq<string>, k: nat)
    requires k <= |parts|
    ensures Join(parts, "") == Join(parts[..k], "") + Join(parts[k..], "")
    decreases k
  {
    if k == 0 {
      assert parts[k..] == parts;
    } else {
      JoinCons(parts);
      JoinSplit(parts[1..], k - 1);
      assert parts[1..][..k - 1] == parts[1..k];
      assert parts[1..][k - 1..] == parts[k..];
      JoinCons(parts[..k]);
      assert parts[..k][1..] == parts[1..k];
    }
  }

  /** The parts `lo..hi` of `"".join(parts)` occur in it, joined. */
  lemma JoinContainsRun(parts: seq<string>, lo: nat, hi: nat)
    requires lo <= hi <= |parts|
    ensures Contains(Join(parts, ""), Join(parts[lo..hi], ""))
  {
    var a, x, c := Join(parts[..lo], ""), Join(parts[lo..hi], ""), Join(parts[hi..], "");
    JoinSplit(parts, lo);
    JoinSplitTail(parts, lo, hi);
    assert Join(parts, "") == a + x + c;
    ContainsInfix(a, x, c);
  }

  lemma JoinSplitTail(parts: seq<string>, lo: nat, hi: nat)
    requires lo <= hi <= |parts|
    ensures Join(parts[lo..], "") == Join(parts[lo..hi], "") + Join(parts[hi..], "")
  {
    var t := parts[lo..];
    JoinSplit(t, hi - lo);
    assert t[..hi - lo] == parts[lo..hi];
    assert t[hi - lo..] == parts[hi..];
  }

  /** Every part of `"".join(parts)` occurs in it. */
  lemma JoinContains(parts: seq<string>, i: nat)
    requires i < |parts|
    ensures Contains(Join(parts, ""), parts[i])
  {
    JoinContainsRun(parts, i, i + 1);
    assert parts[i..i + 1] == [parts[i]];
  }

  /** `s.split("\n")`: the pieces between line breaks, always at least one. */
  function Lines(s: string): (r: seq<string>)
    ensures |r| >= 1
    ensures forall i | 0 <= i < |r| :: '\n' !in r[i]
    ensures '\n' !in s ==> r == [s]
  {
    if |s| == 0 then [""]
    else
      var rest := Lines(s[1..]);
      if s[0] == '\n' then [""] + rest
      else
        assert forall c | c in [s[0]] + rest[0] :: c == s[0] || c in rest[0];
        assert '\n' !in s ==> '\n' !in s[1..] && [s[0]] + s[1..] == s;
        [[s[0]] + rest[0]] + rest[1..]
  }

  /** A line followed by a break: splitting finds the line, then the rest. */
  lemma {:induction false} LinesCons(a: string, b: string)
    requires '\n' !in a
    ensures Lines(a + "\n" + b) == [a] + Lines(b)
    decreases |a|
  {
    if |a| == 0 {
      assert a + "\n" + b == "\n" + b;
      assert ("\n" + b)[1..] == b;
    } else {
      assert (a + "\n" + b)[1..] == a[1..] + "\n" + b;
      LinesCons(a[1..], b);
      assert [a[0]] + a[1..] == a;
    }
  }

  /** Joining lines without breaks by "\n" and splitting again gives them back. */
  lemma {:induction false} LinesJoin(parts: seq<string>)
    requires |parts| >= 1
    requires forall i | 0 <= i < |parts| :: '\n' !in parts[i]
    ensures Lines(Join(parts, "\n")) == parts
    decreases |parts|
  {
    if |parts| > 1 {
      LinesCons(parts[0], Join(parts[1..], "\n"));
      LinesJoin(parts[1..]);
      assert [parts[0]] + parts[1..] == parts;
    }
  }

  /** `s * n` for a non-negative `n`. */
  function Repeat(s: string, n: nat): (r: string)
    ensures |r| == |s| * n
    ensures |s| == 1 ==> forall i | 0 <= i < |r| :: r[i] == s[0]
  {
    if n == 0 then "" else s + Repeat(s, n - 1)
  }

  function DigitChar(d: nat): char
    requires d < 10
  {
    ('0' as int + d) as char
  }

  predicate AllDigits(s: string) {
    forall i | 0 <= i < |s| :: IsDigit(s[i])
  }

  /** Decimal digits of a natural number, most significant first. */
  function NatToString(n: nat): (r: string)
    ensures |r| > 0 && AllDigits(r)
    decreases n
  {
    if n < 10 then [DigitChar(n)] else NatToString(n / 10) + [DigitChar(n % 10)]
  }

  /** Python's `str(n)` for an int. */
  function IntToString(n: int): string {
    if n < 0 then "-" + NatToString(-n) else NatToString(n)
  }

  /** The shape `str` gives an int: an optional minus sign and then digits. */
  predicate IsIntLiteral(s: string) {
    if |s| > 0 && s[0] == '-' then |s| > 1 && AllDigits(s[1..]) else |s| > 0 && AllDigits(s)
  }

  /** The value of a string of decimal digits. */
  function DigitsValue(s: string): nat
    requires AllDigits(s)
  {
    if |s| == 0 then 0
    else
      assert IsDigit(s[|s| - 1]);
      DigitsValue(s[..|s| - 1]) * 10 + (s[|s| - 1] as int - '0' as int)
  }

  /** Python's `int(s)` on a decimal literal. */
  function ParseInt(s: string): int
    requires IsIntLiteral(s)
  {
    if s[0] == '-' then -(DigitsValue(s[1..]) as int) else DigitsValue(s)
  }

  lemma {:induction false} NatToStringValue(n: nat)
    ensures DigitsValue(NatToString(n)) == n
    decreases n
  {
    if n >= 10 {
      NatToStringValue(n / 10);
      var r := NatToString(n / 10) + [DigitChar(n % 10)];
      assert r[..|r| - 1] == NatToString(n / 10);
    }
  }

  /** `int(str(n)) == n`: the rating printed in a message reads back as the score. */
  lemma IntToStringRoundTrip(n: int)
    ensures IsIntLiteral(IntToString(n))
    ensures ParseInt(IntToString(n)) == n
  {
    var s := IntToString(n);
    if n < 0 {
      var d := NatToString(-n);
      assert s == "-" + d;
      assert s[1..] == d;
      NatToStringValue(-n);
      assert ParseInt(s) == -(DigitsValue(d) as int);
    } else {
      NatToStringValue(n);
      assert s[0] != '-';
    }
  }
}
