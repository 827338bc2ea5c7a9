/** Worked examples of the two scorers on concrete titles, with the
    divergence between them that whole-word matching of negatives causes. */
module ScoringExamples {
  import opened Wrappers
  import opened Text
  import opened Config
  import opened Keywords
  import opened Scorer
  import opened DebugScorer

  // ---------------------------------------------------------------------------
  // Solver aids. Keyword-by-keyword absence from the lower-cased title
  // "internal communications", one keyword per lemma so that each stays cheap
  // to check. They state nothing about the bot by themselves; the example
  // that uses them follows the "Internal Communications" header below.
  // ---------------------------------------------------------------------------

  lemma NegativeAbsent1()
    ensures !Matches(WholeWord, "internal communications", NEGATIVE_KEYWORDS[1])
  {
    LacksChar(WholeWord, "internal communications", NEGATIVE_KEYWORDS, 1, 7);
  }

  lemma NegativeAbsent2()
    ensures !Matches(WholeWord, "internal communications", NEGATIVE_KEYWORDS[2])
  {
    AbsentByWindow(WholeWord, "internal communications", NEGATIVE_KEYWORDS, 2, "assistant", 1);
  }

  lemma NegativeAbsent3()
    ensures !Matches(WholeWord, "internal communications", NEGATIVE_KEYWORDS[3])
  {
    LacksChar(WholeWord, "internal communications", NEGATIVE_KEYWORDS, 3, 4);
  }

  lemma NegativeAbsent4()
    ensures !Matches(WholeWord, "internal communications", NEGATIVE_KEYWORDS[4])
  {
    LacksChar(WholeWord, "internal communications", NEGATIVE_KEYWORDS, 4, 4);
  }

  lemma NegativeAbsent5()
    ensures !Matches(WholeWord, "internal communications", NEGATIVE_KEYWORDS[5])
  {
    LacksChar(WholeWord, "internal communications", NEGATIVE_KEYWORDS, 5, 0);
  }

  lemma NegativeAbsent6()
    ensures !Matches(WholeWord, "internal communications", NEGATIVE_KEYWORDS[6])
  {
    AbsentByWindow(WholeWord, "internal communications", NEGATIVE_KEYWORDS, 6, "sales", 0);
  }

  lemma NegativeAbsent7()
    ensures !Matches(WholeWord, "internal communications", NEGATIVE_KEYWORDS[7])
  {
    LacksChar(WholeWord, "internal communications", NEGATIVE_KEYWORDS, 7, 1);
  }

  lemma NegativeAbsent8()
    ensures !Matches(WholeWord, "internal communications", NEGATIVE_KEYWORDS[8])
  {
    LacksChar(WholeWord, "internal communications", NEGATIVE_KEYWORDS, 8, 0);
  }

  lemma NegativeAbsent9()
    ensures !Matches(WholeWord, "internal communications", NEGATIVE_KEYWORDS[9])
  {
    LacksChar(WholeWord, "internal communications", NEGATIVE_KEYWORDS, 9, 9);
  }

  lemma NegativeAbsent10()
    ensures !Matches(WholeWord, "internal communications", NEGATIVE_KEYWORDS[10])
  {
    LacksChar(WholeWord, "internal communications", NEGATIVE_KEYWORDS, 10, 11);
  }

  lemma NegativeAbsent11()
    ensures !Matches(WholeWord, "internal communications", NEGATIVE_KEYWORDS[11])
  {
    LacksChar(WholeWord, "internal communications", NEGATIVE_KEYWORDS, 11, 12);
  }

  lemma NegativeAbsent12()
    ensures !Matches(WholeWord, "internal communications", NEGATIVE_KEYWORDS[12])
  {
    LacksChar(WholeWord, "internal communications", NEGATIVE_KEYWORDS, 12, 2);
  }

  lemma NegativeAbsent13()
    ensures !Matches(WholeWord, "internal communications", NEGATIVE_KEYWORDS[13])
  {
    LacksChar(WholeWord, "internal communications", NEGATIVE_KEYWORDS, 13, 2);
  }

  lemma NegativeAbsent14()
    ensures !Matches(WholeWord, "internal communications", NEGATIVE_KEYWORDS[14])
  {
    LacksChar(WholeWord, "internal communications", NEGATIVE_KEYWORDS, 14, 0);
  }

  lemma NegativeAbsent15()
    ensures !Matches(WholeWord, "internal communications", NEGATIVE_KEYWORDS[15])
  {
    LacksChar(WholeWord, "internal communications", NEGATIVE_KEYWORDS, 15, 0);
  }

  lemma NegativeAbsent16()
    ensures !Matches(WholeWord, "internal communications", NEGATIVE_KEYWORDS[16])
  {
    LacksChar(WholeWord, "internal communications", NEGATIVE_KEYWORDS, 16, 0);
  }

  lemma NegativeAbsent17()
    ensures !Matches(WholeWord, "internal communications", NEGATIVE_KEYWORDS[17])
  {
    AbsentByWindow(WholeWord, "internal communications", NEGATIVE_KEYWORDS, 17, "seo", 0);
  }

  lemma NegativeAbsent18()
    ensures !Matches(WholeWord, "internal communications", NEGATIVE_KEYWORDS[18])
  {
    LacksChar(WholeWord, "internal communications", NEGATIVE_KEYWORDS, 18, 0);
  }

  lemma NegativeAbsent19()
    ensures !Matches(WholeWord, "internal communications", NEGATIVE_KEYWORDS[19])
  {
    LacksChar(WholeWord, "internal communications", NEGATIVE_KEYWORDS, 19, 0);
  }

  lemma NegativeAbsent20()
    ensures !Matches(WholeWord, "internal communications", NEGATIVE_KEYWORDS[20])
  {
    LacksChar(WholeWord, "internal communications", NEGATIVE_KEYWORDS, 20, 8);
  }

  lemma NegativeAbsent21()
    ensures !Matches(WholeWord, "internal communications", NEGATIVE_KEYWORDS[21])
  {
    LacksChar(WholeWord, "internal communications", NEGATIVE_KEYWORDS, 21, 9);
  }

  lemma Tier1Absent0()
    ensures !Matches(Substring, "internal communications", TIER_1_KEYWORDS[0])
  {
    LacksChar(Substring, "internal communications", TIER_1_KEYWORDS, 0, 0);
  }

  lemma Tier1Absent1()
    ensures !Matches(Substring, "internal communications", TIER_1_KEYWORDS[1])
  {
    LacksChar(Substring, "internal communications", TIER_1_KEYWORDS, 1, 0);
  }

  lemma Tier1Absent2()
    ensures !Matches(Substring, "internal communications", TIER_1_KEYWORDS[2])
  {
    LacksChar(Substring, "internal communications", TIER_1_KEYWORDS, 2, 0);
  }

  lemma Tier1Absent3()
    ensures !Matches(Substring, "internal communications", TIER_1_KEYWORDS[3])
  {
    LacksChar(Substring, "internal communications", TIER_1_KEYWORDS, 3, 0);
  }

  lemma Tier1Absent4()
    ensures !Matches(Substring, "internal communications", TIER_1_KEYWORDS[4])
  {
    LacksChar(Substring, "internal communications", TIER_1_KEYWORDS, 4, 0);
  }

  lemma Tier1Absent5()
    ensures !Matches(Substring, "internal communications", TIER_1_KEYWORDS[5])
  {
    LacksChar(Substring, "internal communications", TIER_1_KEYWORDS, 5, 0);
  }

  lemma Tier1Absent6()
    ensures !Matches(Substring, "internal communications", TIER_1_KEYWORDS[6])
  {
    LacksChar(Substring, "internal communications", TIER_1_KEYWORDS, 6, 7);
  }

  lemma Tier1Absent7()
    ensures !Matches(Substring, "internal communications", TIER_1_KEYWORDS[7])
  {
    LacksChar(Substring, "internal communications", TIER_1_KEYWORDS, 7, 2);
  }

  lemma Tier1Absent8()
    ensures !Matches(Substring, "internal communications", TIER_1_KEYWORDS[8])
  {
    LacksChar(Substring, "internal communications", TIER_1_KEYWORDS, 8, 0);
  }

  lemma Tier1Absent9()
    ensures !Matches(Substring, "internal communications", TIER_1_KEYWORDS[9])
  {
    LacksChar(Substring, "internal communications", TIER_1_KEYWORDS, 9, 0);
  }

  lemma Tier1Absent10()
    ensures !Matches(Substring, "internal communications", TIER_1_KEYWORDS[10])
  {
    LacksChar(Substring, "internal communications", TIER_1_KEYWORDS, 10, 0);
  }

  lemma Tier1Absent11()
    ensures !Matches(Substring, "internal communications", TIER_1_KEYWORDS[11])
  {
    LacksChar(Substring, "internal communications", TIER_1_KEYWORDS, 11, 1);
  }

  lemma Tier1Absent12()
    ensures !Matches(Substring, "internal communications", TIER_1_KEYWORDS[12])
  {
    LacksChar(Substring, "internal communications", TIER_1_KEYWORDS, 12, 3);
  }

  lemma Tier1Absent13()
    ensures !Matches(Substring, "internal communications", TIER_1_KEYWORDS[13])
  {
    LacksChar(Substring, "internal communications", TIER_1_KEYWORDS, 13, 1);
  }

  lemma Tier2Absent0()
    ensures !Matches(Substring, "internal communications", TIER_2_KEYWORDS[0])
  {
    LacksChar(Substring, "internal communications", TIER_2_KEYWORDS, 0, 6);
  }

  lemma Tier2Absent1()
    ensures !Matches(Substring, "internal communications", TIER_2_KEYWORDS[1])
  {
    LacksChar(Substring, "internal communications", TIER_2_KEYWORDS, 1, 0);
  }

  lemma Tier2Absent2()
    ensures !Matches(Substring, "internal communications", TIER_2_KEYWORDS[2])
  {
    AbsentByWindow(Substring, "internal communications", TIER_2_KEYWORDS, 2, "crisis communications", 0);
  }

  /** "intern" occurs in "internal communications" only as the start of
      "internal", where no word boundary follows it. */
  lemma InternNotWholeWord()
    ensures !Matches(WholeWord, "internal communications", NEGATIVE_KEYWORDS[0])
  {
    var t := "internal communications";
    forall i | 0 <= i <= |t| - 6 ensures !WordMatchAt(t, "intern", i) {
      if i == 0 {
        assert !IsBoundary(t, 6);
      } else {
        assert t[i..i + 6][0] == t[i] && t[i..i + 6][1] == t[i + 1];
      }
    }
    assert Lower(NEGATIVE_KEYWORDS[0]) == "intern";
  }

  lemma NegativesAbsentLow()
    ensures forall k | 0 <= k < 11 :: !Matches(WholeWord, "internal communications", NEGATIVE_KEYWORDS[k])
  {
    forall k | 0 <= k < 11
      ensures !Matches(WholeWord, "internal communications", NEGATIVE_KEYWORDS[k])
    {
      if k == 0 { InternNotWholeWord(); }
      else if k == 1 { NegativeAbsent1(); }
      else if k == 2 { NegativeAbsent2(); }
      else if k == 3 { NegativeAbsent3(); }
      else if k == 4 { NegativeAbsent4(); }
      else if k == 5 { NegativeAbsent5(); }
      else if k == 6 { NegativeAbsent6(); }
      else if k == 7 { NegativeAbsent7(); }
      else if k == 8 { NegativeAbsent8(); }
      else if k == 9 { NegativeAbsent9(); }
      else { NegativeAbsent10(); }
    }
  }

  lemma NegativesAbsentHigh()
    ensures forall k | 11 <= k < 22 :: !Matches(WholeWord, "internal communications", NEGATIVE_KEYWORDS[k])
  {
    forall k | 11 <= k < 22
      ensures !Matches(WholeWord, "internal communications", NEGATIVE_KEYWORDS[k])
    {
      if k == 11 { NegativeAbsent11(); }
      else if k == 12 { NegativeAbsent12(); }
      else if k == 13 { NegativeAbsent13(); }
      else if k == 14 { NegativeAbsent14(); }
      else if k == 15 { NegativeAbsent15(); }
      else if k == 16 { NegativeAbsent16(); }
      else if k == 17 { NegativeAbsent17(); }
      else if k == 18 { NegativeAbsent18(); }
      else if k == 19 { NegativeAbsent19(); }
      else if k == 20 { NegativeAbsent20(); }
      else { NegativeAbsent21(); }
    }
  }

  /** No negative keyword occurs as a whole word in "internal communications". */
  lemma NoWholeWordNegative()
    ensures !AnyHit(NEGATIVE_KEYWORDS, "internal communications", WholeWord)
  {
    NegativesAbsentLow();
    NegativesAbsentHigh();
  }

  /** No Tier-1 keyword occurs in "internal communications". */
  lemma NoTier1()
    ensures !AnyHit(TIER_1_KEYWORDS, "internal communications", Substring)
  {
    forall k | 0 <= k < 14
      ensures !Matches(Substring, "internal communications", TIER_1_KEYWORDS[k])
    {
      if k == 0 { Tier1Absent0(); }
      else if k == 1 { Tier1Absent1(); }
      else if k == 2 { Tier1Absent2(); }
      else if k == 3 { Tier1Absent3(); }
      else if k == 4 { Tier1Absent4(); }
      else if k == 5 { Tier1Absent5(); }
      else if k == 6 { Tier1Absent6(); }
      else if k == 7 { Tier1Absent7(); }
      else if k == 8 { Tier1Absent8(); }
      else if k == 9 { Tier1Absent9(); }
      else if k == 10 { Tier1Absent10(); }
      else if k == 11 { Tier1Absent11(); }
      else if k == 12 { Tier1Absent12(); }
      else { Tier1Absent13(); }
    }
  }

  // ---------------------------------------------------------------------------
  // Example: "Internal Communications" under the two scorers
  // ---------------------------------------------------------------------------

  /** The aggregator discards "Internal Communications", in any
      capitalisation and whatever the description: "Intern" is a substring
      of "Internal". */
  lemma InternalCommunicationsDiscarded(title: string, description: string)
    requires Lower(title) == "internal communications"
    ensures ScoreJob(title, description) == DISCARDED
  {
    assert MatchAt("internal communications", "intern", 0);
    assert Lower(NEGATIVE_KEYWORDS[0]) == "intern";
    assert Matches(Substring, Lower(title), NEGATIVE_KEYWORDS[0]);
  }

  /** "Internal Communications" is the first Tier-2 keyword found in its own
      lower-cased form. */
  lemma Tier2FirstHit()
    ensures IsFirstHit(TIER_2_KEYWORDS, "internal communications", Substring, 3)
  {
    Tier2Absent0();
    Tier2Absent1();
    Tier2Absent2();
    assert Lower(TIER_2_KEYWORDS[3]) == "internal communications";
    assert MatchAt("internal communications", "internal communications", 0);
  }

  lemma Tier2Reason()
    ensures "Tier 2 Match: " + TIER_2_KEYWORDS[3] == "Tier 2 Match: Internal Communications"
  {
  }

  /** The debug scorer keeps "Internal Communications", in any capitalisation,
      and names the Tier-2 keyword it matches. */
  lemma InternalCommunicationsDebug(title: string)
    requires Lower(title) == "internal communications"
    ensures ScoreJobDebug(title) == DebugVerdict(15, "Tier 2 Match: Internal Communications")
  {
    NoWholeWordNegative();
    NoTier1();
    Tier2FirstHit();
    assert ScoreJobDebug(title) == DebugVerdict(15, "Tier 2 Match: " + TIER_2_KEYWORDS[3]);
    Tier2Reason();
  }

  /** The two scorers disagree on the title "Internal Communications": the
      aggregator discards it whatever the description, while the debug scorer
      awards it 15 points. */
  lemma InternalCommunicationsDiverges(description: string)
    ensures ScoreJob("Internal Communications", description).score == -1
    ensures ScoreJobDebug("Internal Communications").score == 15
  {
    assert Lower("Internal Communications") == "internal communications";
    InternalCommunicationsDiscarded("Internal Communications", description);
    InternalCommunicationsDebug("Internal Communications");
  }

  // ---------------------------------------------------------------------------
  // Consequences of the configured keyword lists for the aggregator's scorer
  // ---------------------------------------------------------------------------

  /** Any title containing "intern" (so "Internal Communications",
      "International ...", "Internship") is discarded by the substring test,
      whatever the description. */
  lemma InternInTitleDiscards(title: string, description: string)
    requires Contains(Lower(title), "intern")
    ensures HasNegative(title)
    ensures ScoreJob(title, description) == DISCARDED
  {
    assert Lower(NEGATIVE_KEYWORDS[0]) == "intern";
    assert Matches(Substring, Lower(title), NEGATIVE_KEYWORDS[0]);
  }

  /** Under substring matching the entry "Internship" is redundant: any title
      it would catch is already caught by "Intern", the first entry. */
  lemma InternshipRedundant(title: string)
    requires Contains(Lower(title), "internship")
    ensures FirstHit(NEGATIVE_KEYWORDS, Lower(title), Substring) == Some(0)
  {
    assert MatchAt("internship", "intern", 0);
    ContainsTransitive(Lower(title), "internship", "intern");
    assert Lower(NEGATIVE_KEYWORDS[0]) == "intern";
    assert IsFirstHit(NEGATIVE_KEYWORDS, Lower(title), Substring, 0);
    var r := FirstHit(NEGATIVE_KEYWORDS, Lower(title), Substring);
    FirstHitUnique(NEGATIVE_KEYWORDS, Lower(title), Substring, r.value, 0);
  }

  /** "Marketing Coordinator" never reaches the marketing-trap rule: the
      negative "Coordinator" discards it first. */
  lemma CoordinatorDiscards(title: string, description: string)
    requires Contains(Lower(title), "coordinator")
    ensures HasNegative(title)
    ensures ScoreJob(title, description) == DISCARDED
  {
    assert Lower(NEGATIVE_KEYWORDS[3]) == "coordinator";
    assert Matches(Substring, Lower(title), NEGATIVE_KEYWORDS[3]);
  }

  lemma MarketingCoordinatorDiscarded(description: string)
    ensures HasNegative("Marketing Coordinator")
    ensures ScoreJob("Marketing Coordinator", description) == DISCARDED
  {
    assert Lower("Marketing Coordinator") == "marketing " + "coordinator" + "";
    ContainsInfix("marketing ", "coordinator", "");
    CoordinatorDiscards("Marketing Coordinator", description);
  }

  /** "Director of Public Relations" earns two Tier-1 entries, itself and
      "Public Relations", each 50 in the text plus 30 in the title. */
  lemma DirectorOfPublicRelations(title: string, description: string)
    requires Contains(Lower(title), "director of public relations")
    requires !Discarded(title)
    ensures ScoreJob(title, description).score >= 160
  {
    var inTitle := Hits(TIER_1_KEYWORDS, Lower(title), Substring);
    PublicRelationsHits(title);
    assert |inTitle| >= 2 by { SubsetCard({0, 10}, inTitle); }
    TitleHitsWithinTextHits(TIER_1_KEYWORDS, title, description);
    SubsetCard(inTitle, Hits(TIER_1_KEYWORDS, CombinedText(title, description), Substring));
  }

  /** Both Tier-1 entries 0 ("Public Relations") and 10 ("Director of Public
      Relations") are found in such a title. */
  lemma PublicRelationsHits(title: string)
    requires Contains(Lower(title), "director of public relations")
    ensures {0, 10} <= Hits(TIER_1_KEYWORDS, Lower(title), Substring)
  {
    PublicRelationsInDirector();
    ContainsTransitive(Lower(title), "director of public relations", "public relations");
    PublicRelationsSpelling();
  }

  lemma PublicRelationsInDirector()
    ensures Contains("director of public relations", "public relations")
  {
    assert "director of public relations" == "director of " + "public relations" + "";
    ContainsInfix("director of ", "public relations", "");
  }

  lemma PublicRelationsSpelling()
    ensures Lower(TIER_1_KEYWORDS[0]) == "public relations"
    ensures Lower(TIER_1_KEYWORDS[10]) == "director of public relations"
  {
    DirectorSpelling();
  }

  lemma DirectorSpelling()
    ensures Lower(TIER_1_KEYWORDS[10]) == "director of public relations"
  {
  }

  lemma SubsetCard(a: set<int>, b: set<int>)
    requires a <= b
    ensures |a| <= |b|
  {
    assert b == a + (b - a);
  }

  /** Location order is priority order: whenever "los angeles" is in the
      text, Los Angeles is the label, even if "hollywood" or any other
      preferred location is mentioned too. */
  lemma LosAngelesFirst(title: string, description: string)
    requires Contains(CombinedText(title, description), "los angeles")
    requires !Discarded(title)
    ensures IsFirstHit(LOCATIONS, CombinedText(title, description), Substring, 0)
    ensures var v := ScoreJob(title, description);
            v.location == LocationLabel(0) || v.location == LocationLabel(0) + " - Hybrid"
  {
    assert Lower(LOCATIONS[0]) == "los angeles";
  }

  // ---------------------------------------------------------------------------
  // The threshold of 60 against the keyword points (no location named)
  // ---------------------------------------------------------------------------

  /** One Tier-1 keyword found only in the description, and nothing else,
      scores 50 and fails. */
  lemma Tier1InDescriptionOnlyFails(title: string, description: string, i: int)
    requires Hits(TIER_1_KEYWORDS, CombinedText(title, description), Substring) == {i}
    requires Hits(TIER_1_KEYWORDS, Lower(title), Substring) == {}
    requires Hits(TIER_2_KEYWORDS, CombinedText(title, description), Substring) == {}
    requires !AnyHit(LOCATIONS, CombinedText(title, description), Substring)
    requires !Discarded(title)
    ensures ScoreJob(title, description).score == 50 < MIN_SCORE_THRESHOLD
  {
  }

  /** Up to three Tier-2 keywords and nothing else score at most 45 and fail. */
  lemma Tier2OnlyFails(title: string, description: string)
    requires Hits(TIER_1_KEYWORDS, CombinedText(title, description), Substring) == {}
    requires |Hits(TIER_2_KEYWORDS, CombinedText(title, description), Substring)| <= 3
    requires !AnyHit(LOCATIONS, CombinedText(title, description), Substring)
    requires !Discarded(title)
    ensures ScoreJob(title, description).score <= 45 < MIN_SCORE_THRESHOLD
  {
    TitleHitsWithinTextHits(TIER_1_KEYWORDS, title, description);
  }

  // ---------------------------------------------------------------------------
  // Whole-word negatives in the debug scorer
  // ---------------------------------------------------------------------------

  /** "intern" does not occur as a whole word in "international": the only
      occurrence is followed by the word character 'a'. */
  lemma InternNotWordInInternational()
    ensures !ContainsWord("international", "intern")
  {
    var t := "international";
    forall i | 0 <= i <= |t| - 6 ensures !WordMatchAt(t, "intern", i) {
      if i == 0 {
        assert !IsBoundary(t, 6);
      } else {
        assert t[i..i + 6][0] == t[i] && t[i..i + 6][1] == t[i + 1];
      }
    }
  }

  /** Under whole-word matching "Intern" does not fire on "Internship"; the
      debug scorer catches it only through its own entry, and names it. */
  lemma InternshipCaughtByOwnEntry(title: string)
    requires Lower(title) == "internship"
    ensures IsFirstHit(NEGATIVE_KEYWORDS, "internship", WholeWord, 1)
    ensures ScoreJobDebug(title) == DebugVerdict(-1, "Negative Keyword: Internship")
  {
    var t := "internship";
    forall i | 0 <= i <= |t| - 6 ensures !WordMatchAt(t, "intern", i) {
      if i == 0 {
        assert !IsBoundary(t, 6);
      } else {
        assert t[i..i + 6][0] == t[i] && t[i..i + 6][1] == t[i + 1];
      }
    }
    assert Lower(NEGATIVE_KEYWORDS[0]) == "intern";
    assert Lower(NEGATIVE_KEYWORDS[1]) == t;
    assert WordMatchAt(t, t, 0);
    InternshipReason();
  }

  lemma InternshipReason()
    ensures "Negative Keyword: " + NEGATIVE_KEYWORDS[1] == "Negative Keyword: Internship"
  {
  }
}
