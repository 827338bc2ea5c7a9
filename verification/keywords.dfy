/** Keyword-list searches shared by both scorers. A keyword is always
    compared in lower case against an already lower-cased text, either as a
    plain substring (`kw.lower() in text`) or as a whole word
    (`re.search(r'\b' + re.escape(kw.lower()) + r'\b', text)`). */
module Keywords {
  import opened Wrappers
  import opened Text

  datatype Matching = Substring | WholeWord

  predicate Matches(m: Matching, text: string, kw: string) {
    match m
    case Substring => Contains(text, Lower(kw))
    case WholeWord => ContainsWord(text, Lower(kw))
  }

  /** Some keyword of the list is found. */
  predicate AnyHit(kws: seq<string>, text: string, m: Matching) {
    exists i | 0 <= i < |kws| :: Matches(m, text, kws[i])
  }

  /** Keyword `i` is found and no earlier keyword of the list is. */
  predicate IsFirstHit(kws: seq<string>, text: string, m: Matching, i: int) {
    && 0 <= i < |kws|
    && Matches(m, text, kws[i])
    && forall k | 0 <= k < i :: !Matches(m, text, kws[k])
  }

  /** Indices, at or after `j`, of the keywords found. */
  function HitsFrom(kws: seq<string>, text: string, m: Matching, j: int): set<int> {
    set i | j <= i < |kws| && 0 <= i && Matches(m, text, kws[i])
  }

  /** Indices of all keywords found: `|Hits(..)|` is "how many keywords match". */
  function Hits(kws: seq<string>, text: string, m: Matching): set<int> {
    HitsFrom(kws, text, m, 0)
  }

  /** The scan `for kw in kws: if <found>: return kw`, starting at index `j`. */
  function FirstHitFrom(kws: seq<string>, text: string, m: Matching, j: nat): (r: Option<nat>)
    requires j <= |kws|
    ensures r.Some? ==> j <= r.value < |kws| && Matches(m, text, kws[r.value])
    ensures r.Some? ==> forall k | j <= k < r.value :: !Matches(m, text, kws[k])
    ensures r.None? ==> forall k | j <= k < |kws| :: !Matches(m, text, kws[k])
    decreases |kws| - j
  {
    if j == |kws| then None
    else if Matches(m, text, kws[j]) then Some(j)
    else FirstHitFrom(kws, text, m, j + 1)
  }

  /** The whole scan: it stops at the first keyword found in list order, and
      finds nothing exactly when no keyword of the list occurs. */
  function FirstHit(kws: seq<string>, text: string, m: Matching): (r: Option<nat>)
    ensures r.Some? ==> IsFirstHit(kws, text, m, r.value)
    ensures r.None? <==> !AnyHit(kws, text, m)
  {
    FirstHitFrom(kws, text, m, 0)
  }

  /** The first hit is unique. */
  lemma FirstHitUnique(kws: seq<string>, text: string, m: Matching, i: int, j: int)
    requires IsFirstHit(kws, text, m, i) && IsFirstHit(kws, text, m, j)
    ensures i == j
  {
  }

  /** Splitting off index `j` of the hit set, for counting by induction. */
  lemma HitsFromStep(kws: seq<string>, text: string, m: Matching, j: nat)
    requires j < |kws|
    ensures j !in HitsFrom(kws, text, m, j + 1)
    ensures Matches(m, text, kws[j]) ==>
              HitsFrom(kws, text, m, j) == HitsFrom(kws, text, m, j + 1) + {j}
              && |HitsFrom(kws, text, m, j)| == |HitsFrom(kws, text, m, j + 1)| + 1
    ensures !Matches(m, text, kws[j]) ==>
              HitsFrom(kws, text, m, j) == HitsFrom(kws, text, m, j + 1)
  {
    var a, b := HitsFrom(kws, text, m, j), HitsFrom(kws, text, m, j + 1);
    if Matches(m, text, kws[j]) {
      assert a == b + {j} by {
        forall i ensures i in a <==> i in b + {j} {
          if i == j { assert i in a; }
        }
      }
    } else {
      assert a == b by {
        forall i ensures i in a <==> i in b {
          if i == j { assert i !in a; }
        }
      }
    }
  }

  /** A keyword found in lower-cased `title` is found in the lower-cased
      combined text `title + " " + description`. */
  lemma TitleHitIsTextHit(title: string, description: string, kw: string)
    requires Contains(Lower(title), Lower(kw))
    ensures Contains(Lower(title + " " + description), Lower(kw))
  {
    LowerAppend(title, " " + description);
    ContainsInLonger(Lower(title), Lower(kw), "", Lower(" " + description));
    assert "" + Lower(title) + Lower(" " + description) == Lower(title + " " + description);
  }

  /** Hence the title's hits are among the combined text's hits. */
  lemma TitleHitsWithinTextHits(kws: seq<string>, title: string, description: string)
    ensures Hits(kws, Lower(title), Substring) <= Hits(kws, Lower(title + " " + description), Substring)
  {
    forall i | i in Hits(kws, Lower(title), Substring)
      ensures i in Hits(kws, Lower(title + " " + description), Substring)
    {
      TitleHitIsTextHit(title, description, kws[i]);
    }
  }

  /** For concrete texts: keyword `j` cannot be found when one of its
      characters, lower-cased, does not occur in the text at all. */
  lemma LacksChar(m: Matching, t: string, kws: seq<string>, j: nat, i: nat)
    requires j < |kws| && i < |kws[j]| && LowerChar(kws[j][i]) !in t
    ensures !Matches(m, t, kws[j])
  {
    var p := Lower(kws[j]);
    forall a | 0 <= a <= |t| - |p| ensures !MatchAt(t, p, a) {
      assert t[a..a + |p|][i] == t[a + i];
    }
    ContainsWordContains(t, p);
  }

  /** For concrete texts: keyword `j`, whose lower-cased form is `lowered`,
      cannot be found when its `k`-th character is absent from every place
      it could land. */
  lemma AbsentByWindow(m: Matching, t: string, kws: seq<string>, j: nat, lowered: string, k: nat)
    requires j < |kws| && Lower(kws[j]) == lowered && k < |lowered|
    requires |lowered| > |t| || lowered[k] !in t[k..|t| - |lowered| + k + 1]
    ensures !Matches(m, t, kws[j])
  {
    AbsentFromWindow(t, lowered, k);
    ContainsWordContains(t, lowered);
  }
}
