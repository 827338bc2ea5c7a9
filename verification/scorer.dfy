/** The keyword scorer of the aggregator (`JobAggregator.score_job`): a pure
    map from a posting's title and description to a score and a location
    label. Negatives are matched as plain substrings of the lower-cased
    title; the tiers and locations as substrings of the lower-cased text
    `title + " " + description`. */
module Scorer {
  import opened Wrappers
  import opened Text
  import opened Config
  import opened Keywords

  datatype Verdict = Verdict(score: int, location: string)

  /** What the scorer returns for a posting it throws away. */
  const DISCARDED := Verdict(-1, "N/A")

  /** The label of a posting that names no preferred location. */
  const REMOTE := "Remote"

  function CombinedText(title: string, description: string): string {
    Lower(title + " " + description)
  }

  /** The label for preferred location `i`. */
  function LocationLabel(i: nat): string
    requires i < |LOCATIONS|
  {
    "\U{1F4CD} " + LOCATIONS[i] + " (Likely Hybrid)"
  }

  /** A negative keyword occurs in the title. */
  predicate HasNegative(title: string) {
    AnyHit(NEGATIVE_KEYWORDS, Lower(title), Substring)
  }

  /** The "marketing trap": a marketing title with no Tier-1 or Tier-2 keyword in it. */
  predicate MarketingTrap(title: string) {
    Contains(Lower(title), "marketing") && !AnyHit(TIER_1_KEYWORDS + TIER_2_KEYWORDS, Lower(title), Substring)
  }

  /** The title alone decides whether a posting is thrown away. */
  predicate Discarded(title: string) {
    HasNegative(title) || MarketingTrap(title)
  }

  /** The keyword points as the counting rule states them: 50 per Tier-1
      keyword in the text, 30 more per Tier-1 keyword in the title, 15 per
      Tier-2 keyword in the text; each keyword counts once. */
  function KeywordPoints(title: string, description: string): int {
    var text := CombinedText(title, description);
    50 * |Hits(TIER_1_KEYWORDS, text, Substring)|
    + 30 * |Hits(TIER_1_KEYWORDS, Lower(title), Substring)|
    + 15 * |Hits(TIER_2_KEYWORDS, text, Substring)|
  }

  /** The Tier-1 loop from keyword `j` on: +50 when in the text, then +30 when also in the title. */
  function Tier1PointsFrom(kws: seq<string>, text: string, title: string, j: nat): (n: int)
    requires j <= |kws|
    ensures n == 50 * |HitsFrom(kws, text, Substring, j)|
                 + 30 * |HitsFrom(kws, text, Substring, j) * HitsFrom(kws, title, Substring, j)|
    decreases |kws| - j
  {
    if j == |kws| then
      assert HitsFrom(kws, text, Substring, j) == {};
      0
    else
      var rest := Tier1PointsFrom(kws, text, title, j + 1);
      HitsFromStep(kws, text, Substring, j);
      HitsFromStep(kws, title, Substring, j);
      IntersectionStep(HitsFrom(kws, text, Substring, j + 1), HitsFrom(kws, title, Substring, j + 1), j,
                       Matches(Substring, text, kws[j]), Matches(Substring, title, kws[j]));
      if Matches(Substring, text, kws[j]) then
        rest + 50 + (if Matches(Substring, title, kws[j]) then 30 else 0)
      else rest
  }

  /** Counting a new index `j` into an intersection of two index sets. */
  lemma IntersectionStep(a: set<int>, b: set<int>, j: int, inA: bool, inB: bool)
    requires j !in a && j !in b
    ensures var a' := if inA then a + {j} else a;
            var b' := if inB then b + {j} else b;
            |a' * b'| == |a * b| + (if inA && inB then 1 else 0)
  {
    var a' := if inA then a + {j} else a;
    var b' := if inB then b + {j} else b;
    if inA && inB {
      assert a' * b' == (a * b) + {j};
    } else {
      assert a' * b' == a * b;
    }
  }

  /** The Tier-2 loop from keyword `j` on: +15 per keyword in the text. */
  function Tier2PointsFrom(kws: seq<string>, text: string, j: nat): (n: int)
    requires j <= |kws|
    ensures n == 15 * |HitsFrom(kws, text, Substring, j)|
    decreases |kws| - j
  {
    if j == |kws| then
      assert HitsFrom(kws, text, Substring, j) == {};
      0
    else
      HitsFromStep(kws, text, Substring, j);
      Tier2PointsFrom(kws, text, j + 1) + (if Matches(Substring, text, kws[j]) then 15 else 0)
  }

  /** The two tier loops together earn exactly the keyword points: the
      title bonus counts the Tier-1 keywords of the title, since those are
      all in the combined text too. */
  function TierPoints(title: string, description: string): (n: int)
    ensures n == KeywordPoints(title, description)
    ensures n >= 0
  {
    var text := CombinedText(title, description);
    var lowerTitle := Lower(title);
    TitleHitsWithinTextHits(TIER_1_KEYWORDS, title, description);
    assert Hits(TIER_1_KEYWORDS, text, Substring) * Hits(TIER_1_KEYWORDS, lowerTitle, Substring)
        == Hits(TIER_1_KEYWORDS, lowerTitle, Substring);
    Tier1PointsFrom(TIER_1_KEYWORDS, text, lowerTitle, 0) + Tier2PointsFrom(TIER_2_KEYWORDS, text, 0)
  }

  /** The location step: +40 and a location label for the first preferred
      location found, and +20 with " - Hybrid" when "hybrid" also occurs. */
  function LocationStep(text: string, score: int): (v: Verdict)
    ensures v.score >= score
    ensures !AnyHit(LOCATIONS, text, Substring) ==> v == Verdict(score, REMOTE)
    ensures forall i | IsFirstHit(LOCATIONS, text, Substring, i) ::
              var hybrid := Contains(text, "hybrid");
              v == Verdict(score + 40 + (if hybrid then 20 else 0),
                           LocationLabel(i) + (if hybrid then " - Hybrid" else ""))
  {
    match FirstHit(LOCATIONS, text, Substring)
    case None => Verdict(score, REMOTE)
    case Some(i) =>
      if Contains(text, "hybrid") then Verdict(score + 40 + 20, LocationLabel(i) + " - Hybrid")
      else Verdict(score + 40, LocationLabel(i))
  }

  /** The two early returns of the scorer, computed as the source scans:
      the negative-keyword loop, then the marketing-trap test. */
  function DiscardCheck(title: string): (b: bool)
    ensures b <==> Discarded(title)
  {
    var lowerTitle := Lower(title);
    FirstHit(NEGATIVE_KEYWORDS, lowerTitle, Substring).Some?
    || (Contains(lowerTitle, "marketing") && FirstHit(TIER_1_KEYWORDS + TIER_2_KEYWORDS, lowerTitle, Substring).None?)
  }

  /** `score_job(title, description)`.
      A discarded title gives exactly `(-1, "N/A")` whatever the description;
      otherwise the score is the keyword points plus 40 for the first
      preferred location found (in list order) and 20 more when the text also
      says "hybrid", and the label names that location; with no location the
      label stays "Remote" and "hybrid" changes nothing. */
  function ScoreJob(title: string, description: string): (v: Verdict)
    ensures Discarded(title) ==> v == DISCARDED
    ensures !Discarded(title) ==> v.score >= KeywordPoints(title, description) >= 0
    ensures v.score == -1 <==> Discarded(title)
    ensures !Discarded(title) && !AnyHit(LOCATIONS, CombinedText(title, description), Substring) ==>
              v == Verdict(KeywordPoints(title, description), REMOTE)
    ensures forall i | IsFirstHit(LOCATIONS, CombinedText(title, description), Substring, i) ::
              !Discarded(title) ==>
                var hybrid := Contains(CombinedText(title, description), "hybrid");
                v == Verdict(KeywordPoints(title, description) + 40 + (if hybrid then 20 else 0),
                             LocationLabel(i) + (if hybrid then " - Hybrid" else ""))
  {
    if DiscardCheck(title) then DISCARDED
    else LocationStep(CombinedText(title, description), TierPoints(title, description))
  }

  /** One Tier-1 keyword in the title is enough: 50 + 30 = 80. */
  lemma Tier1InTitlePasses(title: string, description: string, i: int)
    requires 0 <= i < |TIER_1_KEYWORDS| && Matches(Substring, Lower(title), TIER_1_KEYWORDS[i])
    requires !Discarded(title)
    ensures ScoreJob(title, description).score >= 80 >= MIN_SCORE_THRESHOLD
  {
    assert i in Hits(TIER_1_KEYWORDS, Lower(title), Substring);
    TitleHitsWithinTextHits(TIER_1_KEYWORDS, title, description);
    assert i in Hits(TIER_1_KEYWORDS, CombinedText(title, description), Substring);
  }
}
