/** The simplified title-only scorer of the extraction checker
    (`score_job_debug`). Unlike the aggregator's scorer it matches negative
    keywords as whole words, and it stops at the first keyword found,
    returning a reason that names that keyword. */
module DebugScorer {
  import opened Wrappers
  import opened Text
  import opened Config
  import opened Keywords
  import opened Scorer

  datatype DebugVerdict = DebugVerdict(score: int, reason: string)

  const NO_MATCH := DebugVerdict(0, "No Keyword Match")

  /** `score_job_debug(title)`: the first whole-word negative gives -1 and
      names it; otherwise the first Tier-1 keyword gives 50, else the first
      Tier-2 keyword gives 15, else 0 with "No Keyword Match". Keywords are
      named in their configured spelling, not lower-cased. */
  function ScoreJobDebug(title: string): (v: DebugVerdict)
    ensures v.score in {-1, 0, 15, 50}
    ensures v.score == -1 <==> AnyHit(NEGATIVE_KEYWORDS, Lower(title), WholeWord)
    ensures forall i | IsFirstHit(NEGATIVE_KEYWORDS, Lower(title), WholeWord, i) ::
              v == DebugVerdict(-1, "Negative Keyword: " + NEGATIVE_KEYWORDS[i])
    ensures forall i | IsFirstHit(TIER_1_KEYWORDS, Lower(title), Substring, i) ::
              !AnyHit(NEGATIVE_KEYWORDS, Lower(title), WholeWord) ==>
                v == DebugVerdict(50, "Tier 1 Match: " + TIER_1_KEYWORDS[i])
    ensures forall i | IsFirstHit(TIER_2_KEYWORDS, Lower(title), Substring, i) ::
              !AnyHit(NEGATIVE_KEYWORDS, Lower(title), WholeWord) && !AnyHit(TIER_1_KEYWORDS, Lower(title), Substring) ==>
                v == DebugVerdict(15, "Tier 2 Match: " + TIER_2_KEYWORDS[i])
    ensures v == NO_MATCH <==>
              && !AnyHit(NEGATIVE_KEYWORDS, Lower(title), WholeWord)
              && !AnyHit(TIER_1_KEYWORDS, Lower(title), Substring)
              && !AnyHit(TIER_2_KEYWORDS, Lower(title), Substring)
  {
    var text := Lower(title);
    match FirstHit(NEGATIVE_KEYWORDS, text, WholeWord)
    case Some(i) => DebugVerdict(-1, "Negative Keyword: " + NEGATIVE_KEYWORDS[i])
    case None =>
      match FirstHit(TIER_1_KEYWORDS, text, Substring)
      case Some(i) => DebugVerdict(50, "Tier 1 Match: " + TIER_1_KEYWORDS[i])
      case None =>
        match FirstHit(TIER_2_KEYWORDS, text, Substring)
        case Some(i) => DebugVerdict(15, "Tier 2 Match: " + TIER_2_KEYWORDS[i])
        case None => NO_MATCH
  }

  /** The debug scorer is the more lenient on negatives: whatever it
      disqualifies, the aggregator's scorer discards too, for any description. */
  lemma DebugDiscardImpliesDiscard(title: string, description: string)
    requires ScoreJobDebug(title).score == -1
    ensures ScoreJob(title, description) == DISCARDED
  {
    var i :| 0 <= i < |NEGATIVE_KEYWORDS| && Matches(WholeWord, Lower(title), NEGATIVE_KEYWORDS[i]);
    ContainsWordContains(Lower(title), Lower(NEGATIVE_KEYWORDS[i]));
    assert Matches(Substring, Lower(title), NEGATIVE_KEYWORDS[i]);
  }

  /** A Tier-1 reason in the debug scorer means the aggregator, unless it
      discards the posting, scores it at least 80: 50 for the keyword in the
      text and 30 for it being in the title. */
  lemma DebugTier1ImpliesScore(title: string, description: string)
    requires ScoreJobDebug(title).score == 50
    requires !Discarded(title)
    ensures ScoreJob(title, description).score >= 80
  {
    var i :| 0 <= i < |TIER_1_KEYWORDS| && Matches(Substring, Lower(title), TIER_1_KEYWORDS[i]);
    assert i in Hits(TIER_1_KEYWORDS, Lower(title), Substring);
    TitleHitsWithinTextHits(TIER_1_KEYWORDS, title, description);
    var text := CombinedText(title, description);
    assert i in Hits(TIER_1_KEYWORDS, text, Substring);
    assert |Hits(TIER_1_KEYWORDS, Lower(title), Substring)| >= 1;
    assert |Hits(TIER_1_KEYWORDS, text, Substring)| >= 1;
  }
}
