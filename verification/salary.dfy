/** `JobAggregator.extract_salary`: the leftmost match of the pattern
    `\$\d+(?:,\d+)?(?:k|K)?(?:\s*-\s*\$\d+(?:,\d+)?(?:k|K)?)?` in a text, or
    "Not listed". The regex is replaced by a hand-written greedy scanner;
    every quantifier of the pattern is greedy and nothing after an optional
    part can fail, so the backtracking engine's first match is the greedy
    one. A reference grammar (`IsSalary`) states the language independently
    of the scanner. */
module Salary {
  import opened Wrappers
  import opened Text

  const NOT_LISTED := "Not listed"

  // ---------------------------------------------------------------------------
  // Reference grammar of a salary
  // ---------------------------------------------------------------------------

  /** `\d+` */
  predicate IsDigits(x: string) {
    |x| > 0 && AllDigits(x)
  }

  /** `\d+(?:,\d+)?` */
  predicate IsNumber(x: string) {
    || IsDigits(x)
    || exists j | 0 < j < |x| :: IsDigits(x[..j]) && x[j] == ',' && IsDigits(x[j + 1..])
  }

  predicate IsThousands(c: char) {
    c == 'k' || c == 'K'
  }

  /** `\$\d+(?:,\d+)?(?:k|K)?` */
  predicate IsAmount(x: string) {
    && |x| >= 2 && x[0] == '$'
    && (IsNumber(x[1..]) || (IsThousands(x[|x| - 1]) && IsNumber(x[1..|x| - 1])))
  }

  /** `<amount>\s*-\s*<amount>`, split as `x[..p]`, `x[p..q]`, `x[q]`, `x[q+1..u]`, `x[u..]`. */
  predicate IsRangeAt(x: string, p: int, q: int, u: int) {
    && 0 < p <= q < u <= |x|
    && IsAmount(x[..p]) && AllSpace(x[p..q]) && x[q] == '-'
    && AllSpace(x[q + 1..u]) && IsAmount(x[u..])
  }

  predicate IsRange(x: string) {
    exists p, q, u | 0 < p <= q < u <= |x| :: IsRangeAt(x, p, q, u)
  }

  /** The whole pattern: an amount, optionally followed by a range tail. */
  predicate IsSalary(x: string) {
    IsAmount(x) || IsRange(x)
  }

  /** A match can begin at `i`: a '$' immediately followed by a digit. */
  predicate StartsAmount(s: string, i: int) {
    0 <= i && i + 1 < |s| && s[i] == '$' && IsDigit(s[i + 1])
  }

  /** `i` is the leftmost index where a match can begin. */
  predicate IsLeftmostStart(s: string, i: int) {
    StartsAmount(s, i) && forall k | 0 <= k < i :: !StartsAmount(s, k)
  }

  // ---------------------------------------------------------------------------
  // The scanner
  // ---------------------------------------------------------------------------

  /** Length of the run of digits starting at `i`. */
  function DigitRun(s: string, i: nat): (n: nat)
    requires i <= |s|
    ensures i + n <= |s|
    decreases |s| - i
  {
    if i < |s| && IsDigit(s[i]) then 1 + DigitRun(s, i + 1) else 0
  }

  /** The run is maximal: all of it matches and the character after it does not. */
  lemma {:induction false} DigitRunMaximal(s: string, i: nat)
    requires i <= |s|
    ensures forall k | i <= k < i + DigitRun(s, i) :: IsDigit(s[k])
    ensures i + DigitRun(s, i) < |s| ==> !IsDigit(s[i + DigitRun(s, i)])
    decreases |s| - i
  {
    if i < |s| && IsDigit(s[i]) {
      DigitRunMaximal(s, i + 1);
    }
  }

  /** Length of the run of whitespace starting at `i`. */
  function SpaceRun(s: string, i: nat): (n: nat)
    requires i <= |s|
    ensures i + n <= |s|
    decreases |s| - i
  {
    if i < |s| && IsSpace(s[i]) then 1 + SpaceRun(s, i + 1) else 0
  }

  /** The run is maximal: all of it matches and the character after it does not. */
  lemma {:induction false} SpaceRunMaximal(s: string, i: nat)
    requires i <= |s|
    ensures forall k | i <= k < i + SpaceRun(s, i) :: IsSpace(s[k])
    ensures i + SpaceRun(s, i) < |s| ==> !IsSpace(s[i + SpaceRun(s, i)])
    decreases |s| - i
  {
    if i < |s| && IsSpace(s[i]) {
      SpaceRunMaximal(s, i + 1);
    }
  }

  /** End of `\d+(?:,\d+)?` starting at `j`, taken greedily. */
  function NumberEnd(s: string, j: nat): (e: nat)
    requires j < |s| && IsDigit(s[j])
    ensures j < e <= |s|
  {
    var d := j + DigitRun(s, j);
    if d < |s| && s[d] == ',' && DigitRun(s, d + 1) > 0 then d + 1 + DigitRun(s, d + 1) else d
  }

  /** End of the amount starting at `i`, if one starts there. */
  function AmountEnd(s: string, i: nat): (r: Option<nat>)
    requires i <= |s|
    ensures r.Some? <==> StartsAmount(s, i)
    ensures r.Some? ==> i + 2 <= r.value <= |s|
  {
    if StartsAmount(s, i) then
      var e := NumberEnd(s, i + 1);
      Some(if e < |s| && IsThousands(s[e]) then e + 1 else e)
    else None
  }

  /** End of the range tail `\s*-\s*<amount>` starting at `j`, if there is one. */
  function RangeEnd(s: string, j: nat): (r: Option<nat>)
    requires j <= |s|
    ensures r.Some? ==> j < r.value <= |s|
  {
    var q := j + SpaceRun(s, j);
    if q < |s| && s[q] == '-' then
      var u := q + 1 + SpaceRun(s, q + 1);
      AmountEnd(s, u)
    else None
  }

  /** End of the match starting at `i`: the amount, extended by the range
      tail when one follows. */
  function MatchEnd(s: string, i: nat): (r: Option<nat>)
    requires i <= |s|
    ensures r.Some? <==> StartsAmount(s, i)
    ensures r.Some? ==> i + 2 <= r.value <= |s|
  {
    match AmountEnd(s, i)
    case None => None
    case Some(a) =>
      match RangeEnd(s, a)
      case Some(b) => Some(b)
      case None => Some(a)
  }

  /** The leftmost index at or after `i` where a match can begin. */
  function FirstStart(s: string, i: nat): (r: Option<nat>)
    requires i <= |s|
    ensures r.Some? ==> i <= r.value < |s| && StartsAmount(s, r.value)
    ensures r.Some? ==> forall k | i <= k < r.value :: !StartsAmount(s, k)
    ensures r.None? ==> forall k | i <= k < |s| :: !StartsAmount(s, k)
    decreases |s| - i
  {
    if i == |s| then None
    else if StartsAmount(s, i) then Some(i)
    else FirstStart(s, i + 1)
  }

  /** `extract_salary(text)`: "Not listed" exactly when no '$' is followed by
      a digit; otherwise the text found at the leftmost such '$', which is a
      salary in the sense of the grammar above and the longest one starting
      there. */
  function ExtractSalary(text: string): (r: string)
    ensures r == NOT_LISTED <==> forall i | 0 <= i < |text| :: !StartsAmount(text, i)
    ensures forall i | IsLeftmostStart(text, i) ::
              i + |r| <= |text| && text[i..i + |r|] == r && IsSalary(r)
    ensures forall i, j | IsLeftmostStart(text, i) && i + |r| < j <= |text| :: !IsSalary(text[i..j])
  {
    match FirstStart(text, 0)
    case None => NOT_LISTED
    case Some(i) =>
      var e := MatchEnd(text, i).value;
      MatchSound(text, i);
      assert text[i..e][0] == '$';
      forall k | IsLeftmostStart(text, k) ensures k == i {
      }
      forall j | e < j <= |text| ensures !IsSalary(text[i..j]) {
        if IsSalary(text[i..j]) {
          SalaryBound(text, i, j);
        }
      }
      text[i..e]
  }

  // ---------------------------------------------------------------------------
  // Soundness: the scanner's match is in the grammar
  // ---------------------------------------------------------------------------

  lemma DigitsSlice(s: string, a: nat, b: nat)
    requires a < b <= |s|
    requires forall k | a <= k < b :: IsDigit(s[k])
    ensures IsDigits(s[a..b])
  {
    forall k | 0 <= k < b - a ensures IsDigit(s[a..b][k]) {
      assert s[a..b][k] == s[a + k];
    }
  }

  lemma NumberSound(s: string, j: nat)
    requires j < |s| && IsDigit(s[j])
    ensures IsNumber(s[j..NumberEnd(s, j)])
  {
    var d := j + DigitRun(s, j);
    var e := NumberEnd(s, j);
    DigitRunMaximal(s, j);
    DigitsSlice(s, j, d);
    if e != d {
      var x := s[j..e];
      DigitRunMaximal(s, d + 1);
      DigitsSlice(s, d + 1, e);
      assert x[..d - j] == s[j..d];
      assert x[d - j + 1..] == s[d + 1..e];
      assert x[d - j] == ',';
    } else {
      assert s[j..e] == s[j..d];
    }
  }

  lemma AmountSound(s: string, i: nat)
    requires StartsAmount(s, i)
    ensures IsAmount(s[i..AmountEnd(s, i).value])
  {
    var e := NumberEnd(s, i + 1);
    var a := AmountEnd(s, i).value;
    var x := s[i..a];
    NumberSound(s, i + 1);
    if a == e + 1 {
      assert x[1..|x| - 1] == s[i + 1..e];
      assert x[|x| - 1] == s[e];
    } else {
      assert x[1..] == s[i + 1..e];
    }
  }

  lemma SpacesSlice(s: string, a: nat, b: nat)
    requires a <= b <= |s|
    requires forall k | a <= k < b :: IsSpace(s[k])
    ensures AllSpace(s[a..b])
  {
    forall k | 0 <= k < b - a ensures IsSpace(s[a..b][k]) {
      assert s[a..b][k] == s[a + k];
    }
  }

  lemma SliceOfSlice(s: string, i: nat, b: nat, lo: nat, hi: nat)
    requires i <= b <= |s| && lo <= hi <= b - i
    ensures s[i..b][lo..hi] == s[i + lo..i + hi]
  {
    var x, y := s[i..b][lo..hi], s[i + lo..i + hi];
    forall k | 0 <= k < |x| ensures x[k] == y[k] {
      assert x[k] == s[i..b][lo + k];
    }
  }

  /** Gluing the parts of a range back together. */
  lemma RangeSound(s: string, i: nat, a: nat, q: nat, u: nat, b: nat)
    requires i < a <= q < u <= b <= |s|
    requires IsAmount(s[i..a]) && AllSpace(s[a..q]) && s[q] == '-'
    requires AllSpace(s[q + 1..u]) && IsAmount(s[u..b])
    ensures IsRange(s[i..b])
  {
    var x := s[i..b];
    SliceOfSlice(s, i, b, 0, a - i);
    SliceOfSlice(s, i, b, a - i, q - i);
    SliceOfSlice(s, i, b, q - i + 1, u - i);
    SliceOfSlice(s, i, b, u - i, b - i);
    assert IsRangeAt(x, a - i, q - i, u - i);
  }

  /** The tail found after the first amount is a well-formed range tail. */
  lemma RangeTailSound(s: string, i: nat, a: nat)
    requires i < a <= |s| && IsAmount(s[i..a])
    requires RangeEnd(s, a).Some?
    ensures IsRange(s[i..RangeEnd(s, a).value])
  {
    var q := a + SpaceRun(s, a);
    var u := q + 1 + SpaceRun(s, q + 1);
    AmountSound(s, u);
    SpaceRunMaximal(s, a);
    SpaceRunMaximal(s, q + 1);
    SpacesSlice(s, a, q);
    SpacesSlice(s, q + 1, u);
    RangeSound(s, i, a, q, u, RangeEnd(s, a).value);
  }

  lemma MatchSound(s: string, i: nat)
    requires StartsAmount(s, i)
    ensures IsSalary(s[i..MatchEnd(s, i).value])
  {
    var a := AmountEnd(s, i).value;
    AmountSound(s, i);
    if RangeEnd(s, a).Some? {
      RangeTailSound(s, i, a);
    }
  }

  // ---------------------------------------------------------------------------
  // Maximality: every salary starting where the scanner starts ends no later
  // than the scanner's match, so the match is the longest one (the one the
  // greedy regex engine returns)
  // ---------------------------------------------------------------------------

  lemma DigitsBound(s: string, a: nat, b: nat)
    requires a < b <= |s| && IsDigits(s[a..b])
    ensures b <= a + DigitRun(s, a)
  {
    DigitRunMaximal(s, a);
  }

  /** A number with a thousands comma, its pieces read back in `s`. */
  lemma CommaNumberBound(s: string, j: nat, c: nat, b: nat)
    requires j < c < b <= |s| && s[c] == ','
    requires IsDigits(s[j..c]) && IsDigits(s[c + 1..b])
    ensures b <= NumberEnd(s, j)
  {
    DigitRunMaximal(s, j);
    DigitsBound(s, j, c);
    DigitsBound(s, c + 1, b);
  }

  lemma NumberBound(s: string, j: nat, b: nat)
    requires j < b <= |s| && IsNumber(s[j..b])
    ensures IsDigit(s[j]) && b <= NumberEnd(s, j)
  {
    var x := s[j..b];
    assert x[0] == s[j];
    if IsDigits(x) {
      DigitsBound(s, j, b);
    } else {
      var c :| 0 < c < |x| && IsDigits(x[..c]) && x[c] == ',' && IsDigits(x[c + 1..]);
      assert x[..c] == s[j..j + c];
      assert x[c + 1..] == s[j + c + 1..b];
      assert x[c] == s[j + c];
      CommaNumberBound(s, j, j + c, b);
    }
  }

  lemma AmountBound(s: string, i: nat, b: nat)
    requires i < b <= |s| && IsAmount(s[i..b])
    ensures StartsAmount(s, i) && b <= AmountEnd(s, i).value
  {
    var x := s[i..b];
    assert x[0] == s[i];
    if IsNumber(x[1..]) {
      assert x[1..] == s[i + 1..b];
      NumberBound(s, i + 1, b);
    } else {
      SliceOfSlice(s, i, b, 1, b - i - 1);
      assert x[|x| - 1] == s[b - 1];
      NumberBound(s, i + 1, b - 1);
    }
  }

  /** Inside an amount there is neither whitespace nor a '-'. */
  lemma AmountChars(s: string, i: nat)
    requires StartsAmount(s, i)
    ensures forall k | i < k < AmountEnd(s, i).value :: s[k] != '-' && !IsSpace(s[k])
  {
    DigitRunMaximal(s, i + 1);
    var d := i + 1 + DigitRun(s, i + 1);
    if d < |s| && s[d] == ',' && DigitRun(s, d + 1) > 0 {
      DigitRunMaximal(s, d + 1);
    }
  }

  /** A space run that ends right before `t` is the scanner's whole run. */
  lemma SpaceRunExact(s: string, a: nat, t: nat)
    requires a <= t < |s| && AllSpace(s[a..t]) && !IsSpace(s[t])
    ensures a + SpaceRun(s, a) == t
  {
    SpaceRunMaximal(s, a);
  }

  /** The first amount of a range is the scanner's whole amount. */
  lemma RangeFirstAmount(s: string, i: nat, j: nat, p: nat, q: nat, u: nat)
    requires i <= j <= |s| && IsRangeAt(s[i..j], p, q, u)
    ensures StartsAmount(s, i) && AmountEnd(s, i) == Some(i + p)
  {
    var x := s[i..j];
    assert x[..p] == s[i..i + p];
    AmountBound(s, i, i + p);
    AmountChars(s, i);
    assert x[p] == s[i + p];
    if p < q {
      assert x[p..q][0] == x[p];
    }
  }

  /** The gap of a range, read back in `s`. */
  lemma RangeGap(s: string, i: nat, j: nat, p: nat, q: nat, u: nat)
    requires i <= j <= |s| && IsRangeAt(s[i..j], p, q, u)
    ensures AllSpace(s[i + p..i + q]) && s[i + q] == '-'
    ensures AllSpace(s[i + q + 1..i + u]) && !IsSpace(s[i + u])
  {
    var x := s[i..j];
    SliceOfSlice(s, i, j, p, q);
    assert x[q] == s[i + q];
    SliceOfSlice(s, i, j, q + 1, u);
    assert x[u..][0] == x[u] == s[i + u];
  }

  /** The second amount of a range, read back in `s`. */
  lemma RangeSecondAmount(s: string, i: nat, j: nat, p: nat, q: nat, u: nat)
    requires i <= j <= |s| && IsRangeAt(s[i..j], p, q, u)
    ensures i + u < j && StartsAmount(s, i + u) && j <= AmountEnd(s, i + u).value
  {
    var x := s[i..j];
    SliceOfSlice(s, i, j, u, j - i);
    assert x[u..] == x[u..j - i];
    AmountBound(s, i + u, j);
  }

  /** A range tail whose pieces are found in `s` after the scanner's first
      amount ends no later than the scanner's tail. */
  lemma RangeBound(s: string, a: nat, q: nat, u: nat, j: nat)
    requires a <= q < u < j <= |s|
    requires AllSpace(s[a..q]) && s[q] == '-' && AllSpace(s[q + 1..u]) && !IsSpace(s[u])
    requires StartsAmount(s, u) && j <= AmountEnd(s, u).value
    ensures RangeEnd(s, a).Some? && j <= RangeEnd(s, a).value
  {
    SpaceRunExact(s, a, q);
    SpaceRunExact(s, q + 1, u);
  }

  lemma RangeMatchBound(s: string, i: nat, a: nat, q: nat, u: nat, j: nat)
    requires StartsAmount(s, i) && AmountEnd(s, i) == Some(a)
    requires a <= q < u < j <= |s|
    requires AllSpace(s[a..q]) && s[q] == '-' && AllSpace(s[q + 1..u]) && !IsSpace(s[u])
    requires StartsAmount(s, u) && j <= AmountEnd(s, u).value
    ensures j <= MatchEnd(s, i).value
  {
    RangeBound(s, a, q, u, j);
  }

  lemma AmountMatchBound(s: string, i: nat, j: nat)
    requires i < j <= |s| && IsAmount(s[i..j])
    ensures StartsAmount(s, i) && j <= MatchEnd(s, i).value
  {
    AmountBound(s, i, j);
  }

  lemma RangeCaseBound(s: string, i: nat, j: nat)
    requires i <= j <= |s| && IsRange(s[i..j])
    ensures StartsAmount(s, i) && j <= MatchEnd(s, i).value
  {
    var p, q, u :| 0 < p <= q < u <= j - i && IsRangeAt(s[i..j], p, q, u);
    RangeAtMatchBound(s, i, j, p, q, u);
  }

  lemma RangeAtMatchBound(s: string, i: nat, j: nat, p: nat, q: nat, u: nat)
    requires i <= j <= |s| && IsRangeAt(s[i..j], p, q, u)
    ensures StartsAmount(s, i) && j <= MatchEnd(s, i).value
  {
    RangeFirstAmount(s, i, j, p, q, u);
    RangeGap(s, i, j, p, q, u);
    RangeSecondAmount(s, i, j, p, q, u);
    RangeMatchBound(s, i, i + p, i + q, i + u, j);
  }

  /** Any salary at `i` ends at or before the scanner's match from `i`. */
  lemma SalaryBound(s: string, i: nat, j: nat)
    requires i <= j <= |s| && IsSalary(s[i..j])
    ensures StartsAmount(s, i) && j <= MatchEnd(s, i).value
  {
    if IsAmount(s[i..j]) {
      AmountMatchBound(s, i, j);
    } else {
      RangeCaseBound(s, i, j);
    }
  }

  // ---------------------------------------------------------------------------
  // Idempotence: the scanner finds the same match again in its own output
  // ---------------------------------------------------------------------------

  // Each lemma below says that a scan that ends by index `m` of `s` reads the
  // same in the window `s[i..m]`, shifted by `i`.

  lemma {:induction false} DigitRunWindow(s: string, i: nat, m: nat, k: nat)
    requires i <= k <= m <= |s| && k + DigitRun(s, k) <= m
    ensures DigitRun(s[i..m], k - i) == DigitRun(s, k)
    decreases |s| - k
  {
    if k < m && IsDigit(s[k]) {
      DigitRunWindow(s, i, m, k + 1);
    }
  }

  lemma {:induction false} SpaceRunWindow(s: string, i: nat, m: nat, k: nat)
    requires i <= k <= m <= |s| && k + SpaceRun(s, k) <= m
    ensures SpaceRun(s[i..m], k - i) == SpaceRun(s, k)
    decreases |s| - k
  {
    if k < m && IsSpace(s[k]) {
      SpaceRunWindow(s, i, m, k + 1);
    }
  }

  lemma NumberEndWindow(s: string, i: nat, m: nat, j: nat)
    requires i <= j < |s| && IsDigit(s[j]) && NumberEnd(s, j) <= m <= |s|
    ensures NumberEnd(s[i..m], j - i) == NumberEnd(s, j) - i
  {
    var w := s[i..m];
    var d := j + DigitRun(s, j);
    DigitRunWindow(s, i, m, j);
    if d < m && s[d] == ',' {
      assert w[d - i] == ',';
      DigitRunWindow(s, i, m, d + 1);
    }
  }

  lemma AmountEndWindow(s: string, i: nat, m: nat, k: nat)
    requires i <= k <= m <= |s| && AmountEnd(s, k).Some? && AmountEnd(s, k).value <= m
    ensures AmountEnd(s[i..m], k - i) == Some(AmountEnd(s, k).value - i)
  {
    var w := s[i..m];
    assert w[k - i] == s[k] && w[k - i + 1] == s[k + 1];
    assert StartsAmount(w, k - i);
    NumberEndWindow(s, i, m, k + 1);
    var e := NumberEnd(s, k + 1);
    if e < m {
      assert w[e - i] == s[e];
    }
  }

  lemma RangeEndWindow(s: string, i: nat, m: nat, a: nat)
    requires i <= a <= m <= |s| && RangeEnd(s, a).Some? && RangeEnd(s, a).value <= m
    ensures RangeEnd(s[i..m], a - i) == Some(RangeEnd(s, a).value - i)
  {
    var w := s[i..m];
    var q := a + SpaceRun(s, a);
    SpaceRunWindow(s, i, m, a);
    assert w[q - i] == '-';
    var u := q + 1 + SpaceRun(s, q + 1);
    SpaceRunWindow(s, i, m, q + 1);
    AmountEndWindow(s, i, m, u);
  }

  /** The match starting at `i` is found whole in the window that holds just it. */
  lemma MatchEndWindow(s: string, i: nat)
    requires StartsAmount(s, i)
    ensures var e := MatchEnd(s, i).value;
            MatchEnd(s[i..e], 0) == Some(e - i)
  {
    var e := MatchEnd(s, i).value;
    var a := AmountEnd(s, i).value;
    AmountEndWindow(s, i, e, i);
    if RangeEnd(s, a).Some? {
      RangeEndWindow(s, i, e, a);
    } else {
      assert e == a;
      assert SpaceRun(s[i..e], a - i) == 0;
    }
  }

  /** Extracting from an extracted salary gives it back unchanged (and "Not
      listed" stays "Not listed"). */
  lemma ExtractSalaryIdempotent(text: string)
    ensures ExtractSalary(ExtractSalary(text)) == ExtractSalary(text)
  {
    var r := ExtractSalary(text);
    match FirstStart(text, 0)
    case None =>
      assert r == NOT_LISTED;
      forall k | 0 <= k < |NOT_LISTED| ensures !StartsAmount(NOT_LISTED, k) {
        assert NOT_LISTED[k] != '$';
      }
    case Some(i) =>
      var e := MatchEnd(text, i).value;
      assert r == text[i..e];
      MatchEndWindow(text, i);
      assert StartsAmount(r, 0);
      assert FirstStart(r, 0) == Some(0);
      assert r[0..e - i] == r;
  }
}
