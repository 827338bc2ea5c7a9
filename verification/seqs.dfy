/** Sequence operations the bot uses on its job lists: the order-preserving
    filter of a list comprehension (`[x for x in s if keep(x)]`), the slice
    `s[:n]`, and Python's stable `sort(key=..., reverse=True)`. */
module Seqs {

  /** `r` is `s` with some elements deleted and the rest in their order. */
  predicate IsSubsequence<T(==)>(r: seq<T>, s: seq<T>)
    decreases |s|
  {
    if |r| == 0 then true
    else if |s| == 0 then false
    else if r[0] == s[0] then IsSubsequence(r[1..], s[1..])
    else IsSubsequence(r, s[1..])
  }

  /** `[x for x in s if keep(x)]`: an order-preserving subsequence of `s`
      holding every kept element as often as `s` does, and nothing else. */
  function Filter<T(==, !new)>(s: seq<T>, keep: T -> bool): (r: seq<T>)
    ensures IsSubsequence(r, s)
    ensures forall x | x in r :: keep(x)
  {
    if |s| == 0 then []
    else
      var rest := Filter(s[1..], keep);
      assert s == [s[0]] + s[1..];
      if keep(s[0]) then
        assert ([s[0]] + rest)[1..] == rest;
        [s[0]] + rest
      else
        assert |rest| > 0 ==> rest[0] != s[0] by {
          if |rest| > 0 { assert rest[0] in rest; }
        }
        rest
  }

  /** The filter holds every kept element as often as `s` does, and nothing else. */
  lemma {:induction false} FilterMultiplicity<T(!new)>(s: seq<T>, keep: T -> bool)
    ensures forall x :: multiset(Filter(s, keep))[x] == if keep(x) then multiset(s)[x] else 0
    decreases |s|
  {
    if |s| > 0 {
      assert s == [s[0]] + s[1..];
      FilterMultiplicity(s[1..], keep);
    }
  }

  /** A filter that rejects nothing returns its input. */
  lemma {:induction false} FilterKeepsAll<T(!new)>(s: seq<T>, keep: T -> bool)
    requires forall x | x in s :: keep(x)
    ensures Filter(s, keep) == s
    decreases |s|
  {
    if |s| > 0 {
      assert forall x | x in s[1..] :: x in s;
      FilterKeepsAll(s[1..], keep);
    }
  }

  /** A filter that accepts nothing returns the empty sequence. */
  lemma {:induction false} FilterKeepsNone<T(!new)>(s: seq<T>, keep: T -> bool)
    requires forall x | x in s :: !keep(x)
    ensures Filter(s, keep) == []
    decreases |s|
  {
    if |s| > 0 {
      assert forall x | x in s[1..] :: x in s;
      FilterKeepsNone(s[1..], keep);
    }
  }

  /** Filtering twice by the same test is filtering once. */
  lemma FilterIdempotent<T(!new)>(s: seq<T>, keep: T -> bool)
    ensures Filter(Filter(s, keep), keep) == Filter(s, keep)
  {
    FilterKeepsAll(Filter(s, keep), keep);
  }

  /** `s[:n]` for a non-negative `n`. */
  function Take<T>(s: seq<T>, n: nat): (r: seq<T>)
    ensures |r| <= n && |r| <= |s|
    ensures |r| == n || r == s
    ensures forall i | 0 <= i < |r| :: r[i] == s[i]
  {
    if n < |s| then s[..n] else s
  }

  // ---------------------------------------------------------------------------
  // Stable sort by an integer key, highest first
  // ---------------------------------------------------------------------------

  predicate SortedDesc<T>(s: seq<T>, key: T -> int) {
    forall i, j | 0 <= i < j < |s| :: key(s[i]) >= key(s[j])
  }

  /** The elements of `s` whose key is `k`, in their order in `s`. */
  function WithKey<T(==, !new)>(s: seq<T>, key: T -> int, k: int): seq<T> {
    Filter(s, x => key(x) == k)
  }

  /** `WithKey` on a sequence split into its head and tail. */
  lemma WithKeyCons<T(!new)>(x: T, t: seq<T>, key: T -> int, k: int)
    ensures WithKey([x] + t, key, k) == (if key(x) == k then [x] else []) + WithKey(t, key, k)
  {
    assert ([x] + t)[1..] == t;
  }

  /** Inserts `x` into a sorted `t` before the first element whose key is not
      greater than `x`'s, so that `x` precedes every element of equal key. */
  function Insert<T(==, !new)>(x: T, t: seq<T>, key: T -> int): (r: seq<T>)
    ensures multiset(r) == multiset(t) + multiset{x}
    ensures SortedDesc(t, key) ==> SortedDesc(r, key)
    ensures forall k :: WithKey(r, key, k) == (if key(x) == k then [x] else []) + WithKey(t, key, k)
  {
    if |t| == 0 || key(t[0]) <= key(x) then
      forall k ensures WithKey([x] + t, key, k) == (if key(x) == k then [x] else []) + WithKey(t, key, k) {
        WithKeyCons(x, t, key, k);
      }
      [x] + t
    else
      var rest := Insert(x, t[1..], key);
      assert t == [t[0]] + t[1..];
      InsertStepSorted(x, t, rest, key);
      forall k ensures WithKey([t[0]] + rest, key, k)
                       == (if key(x) == k then [x] else []) + WithKey(t, key, k) {
        InsertStepWithKey(x, t, rest, key, k);
      }
      [t[0]] + rest
  }

  /** Sortedness is kept when `x` goes past the head of `t`. */
  lemma InsertStepSorted<T(!new)>(x: T, t: seq<T>, rest: seq<T>, key: T -> int)
    requires |t| > 0 && key(t[0]) > key(x)
    requires multiset(rest) == multiset(t[1..]) + multiset{x}
    requires SortedDesc(t, key) ==> SortedDesc(rest, key)
    ensures SortedDesc(t, key) ==> SortedDesc([t[0]] + rest, key)
  {
    if SortedDesc(t, key) {
      forall j | 0 <= j < |rest| ensures key(t[0]) >= key(rest[j]) {
        assert multiset(rest)[rest[j]] > 0;
        if rest[j] != x {
          assert rest[j] in t[1..];
          var i :| 0 <= i < |t[1..]| && t[1..][i] == rest[j];
          assert t[i + 1] == rest[j];
        }
      }
      var r := [t[0]] + rest;
      forall i, j | 0 <= i < j < |r| ensures key(r[i]) >= key(r[j]) {
        if i > 0 {
          assert r[i] == rest[i - 1] && r[j] == rest[j - 1];
        } else {
          assert r[j] == rest[j - 1];
        }
      }
    }
  }

  /** The equal-key runs are kept when `x` goes past the head of `t`. */
  lemma InsertStepWithKey<T(!new)>(x: T, t: seq<T>, rest: seq<T>, key: T -> int, k: int)
    requires |t| > 0 && key(t[0]) > key(x)
    requires WithKey(rest, key, k) == (if key(x) == k then [x] else []) + WithKey(t[1..], key, k)
    ensures WithKey([t[0]] + rest, key, k) == (if key(x) == k then [x] else []) + WithKey(t, key, k)
  {
    WithKeyCons(t[0], rest, key, k);
    assert t == [t[0]] + t[1..];
    WithKeyCons(t[0], t[1..], key, k);
    var head: seq<T> := if key(t[0]) == k then [t[0]] else [];
    var mine: seq<T> := if key(x) == k then [x] else [];
    if key(x) == k {
      assert head == [];
      assert WithKey([t[0]] + rest, key, k) == WithKey(rest, key, k);
      assert WithKey(t, key, k) == WithKey(t[1..], key, k);
    } else {
      assert mine == [];
      assert WithKey(rest, key, k) == WithKey(t[1..], key, k);
    }
  }

  /** `sorted(s, key=key, reverse=True)`: a permutation of `s`, in descending
      key order, in which elements of equal key keep their order in `s`. */
  function SortDesc<T(==, !new)>(s: seq<T>, key: T -> int): (r: seq<T>)
    ensures multiset(r) == multiset(s)
    ensures |r| == |s|
    ensures SortedDesc(r, key)
    ensures forall k :: WithKey(r, key, k) == WithKey(s, key, k)
  {
    if |s| == 0 then []
    else
      var rest := SortDesc(s[1..], key);
      assert s == [s[0]] + s[1..];
      var r := Insert(s[0], rest, key);
      assert |r| == |multiset(r)|;
      forall k ensures WithKey(r, key, k) == WithKey(s, key, k) {
        WithKeyCons(s[0], s[1..], key, k);
      }
      r
  }

  /** Sorting an already sorted sequence leaves it as it is. */
  lemma {:induction false} SortSorted<T(!new)>(s: seq<T>, key: T -> int)
    requires SortedDesc(s, key)
    ensures SortDesc(s, key) == s
    decreases |s|
  {
    if |s| > 0 {
      assert SortedDesc(s[1..], key);
      SortSorted(s[1..], key);
    }
  }

  /** Hence sorting is idempotent. */
  lemma SortIdempotent<T(!new)>(s: seq<T>, key: T -> int)
    ensures SortDesc(SortDesc(s, key), key) == SortDesc(s, key)
  {
    SortSorted(SortDesc(s, key), key);
  }
}
