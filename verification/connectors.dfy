/** What the aggregator's connectors do with records already fetched: score
    them, add the source's boost, keep those at or above the threshold, and
    build the job record; then `get_jobs` sorts everything collected by
    score, highest first. Fetching (RSS, JSON API, HTML) is not modelled:
    each connector starts from the sequence of records it would have read. */
module Connectors {
  import opened Wrappers
  import opened Text
  import opened Config
  import opened Keywords
  import opened Scorer
  import opened Salary
  import opened Seqs
  import opened Postings

  /** The Muse's boost for a job the API places in Los Angeles. */
  const MUSE_BOOST := 20
  const LOS_ANGELES_LABEL := "\U{1F4CD} Los Angeles"

  /** EntertainmentCareers.net's boost for being a specialised board. */
  const EC_BOOST := 10
  const EC_ROOT := "https://www.entertainmentcareers.net"

  /** An RSS entry of a PRSA feed (`author` is optional). */
  datatype FeedEntry = FeedEntry(title: string, description: string, link: string, author: Option<string>)

  /** A result of the Muse API: `name`, `contents`, `company.name`,
      `refs.landing_page`, and the names of its `locations`. */
  datatype MuseJob = MuseJob(
    name: Option<string>,
    contents: Option<string>,
    companyName: Option<string>,
    landingPage: Option<string>,
    locations: seq<string>)

  /** An `<a href=...>` of the EntertainmentCareers page and its text. */
  datatype Link = Link(href: string, text: string)

  predicate Passes(score: int) {
    score >= MIN_SCORE_THRESHOLD
  }

  /** One Tier-1 keyword in a title that is not thrown away gives 80 points. */
  lemma Tier1TitlePasses(title: string, description: string)
    ensures !Discarded(title) && AnyHit(TIER_1_KEYWORDS, Lower(title), Substring) ==>
              ScoreJob(title, description).score >= 80
  {
    if !Discarded(title) && AnyHit(TIER_1_KEYWORDS, Lower(title), Substring) {
      var i :| 0 <= i < |TIER_1_KEYWORDS| && Matches(Substring, Lower(title), TIER_1_KEYWORDS[i]);
      Tier1InTitlePasses(title, description, i);
    }
  }

  // ---------------------------------------------------------------------------
  // PRSA (no boost)
  // ---------------------------------------------------------------------------

  /** `fetch_prsa` on one entry: kept with its keyword score and label, the
      author as company ("Unknown" when absent) and the salary found in the
      description, exactly when the score reaches the threshold. */
  function PrsaRecord(e: FeedEntry): (r: Option<Posting>)
    ensures r.Some? <==> Passes(ScoreJob(e.title, e.description).score)
    ensures Discarded(e.title) ==> r.None?
    ensures !Discarded(e.title) && AnyHit(TIER_1_KEYWORDS, Lower(e.title), Substring) ==> r.Some?
    ensures r.Some? ==> && r.value.title == e.title
                        && r.value.score == ScoreJob(e.title, e.description).score
                        && r.value.location == Some(ScoreJob(e.title, e.description).location)
                        && r.value.url == e.link && r.value.ai.None? && r.value.description.None?
                        && r.value.salary == ExtractSalary(e.description)
                        && r.value.company == (if e.author.Some? then e.author.value else "Unknown")
                        && r.value.source == "PRSA Jobcenter"
  {
    Tier1TitlePasses(e.title, e.description);
    var v := ScoreJob(e.title, e.description);
    if Passes(v.score) then
      Some(Posting(e.title, e.author.GetOr("Unknown"), e.link, v.score, ExtractSalary(e.description),
                   Some(v.location), None, "PRSA Jobcenter", None))
    else None
  }

  // ---------------------------------------------------------------------------
  // The Muse (+20 and a Los Angeles label when the API says Los Angeles)
  // ---------------------------------------------------------------------------

  /** The API places the job in Los Angeles: "Los Angeles" occurs, with that
      exact capitalisation, in the comma-joined location names. */
  predicate InLosAngeles(j: MuseJob) {
    Contains(Join(j.locations, ", "), "Los Angeles")
  }

  /** The score and label after the Muse's boost. */
  function MuseVerdict(j: MuseJob): (v: Verdict)
    ensures var base := ScoreJob(j.name.GetOr(""), j.contents.GetOr(""));
            && (InLosAngeles(j) ==> v == Verdict(base.score + MUSE_BOOST, LOS_ANGELES_LABEL))
            && (!InLosAngeles(j) ==> v == base)
  {
    var base := ScoreJob(j.name.GetOr(""), j.contents.GetOr(""));
    if InLosAngeles(j) then Verdict(base.score + MUSE_BOOST, LOS_ANGELES_LABEL) else base
  }

  /** `fetch_themuse` on one result. A discarded title scores -1 + 20 at most,
      so it is never kept, even in Los Angeles. */
  function MuseRecord(j: MuseJob): (r: Option<Posting>)
    ensures r.Some? <==> Passes(MuseVerdict(j).score)
    ensures Discarded(j.name.GetOr("")) ==> r.None?
    ensures !Discarded(j.name.GetOr("")) && AnyHit(TIER_1_KEYWORDS, Lower(j.name.GetOr("")), Substring) ==> r.Some?
    ensures r.Some? && InLosAngeles(j) ==> r.value.location == Some(LOS_ANGELES_LABEL)
    ensures r.Some? ==> && r.value.title == (if j.name.Some? then j.name.value else "")
                        && r.value.score == MuseVerdict(j).score
                        && r.value.location == Some(MuseVerdict(j).location)
                        && r.value.url == j.landingPage.GetOr("") && r.value.ai.None? && r.value.description.None?
                        && r.value.salary == ExtractSalary(j.contents.GetOr(""))
                        && r.value.company == (if j.companyName.Some? then j.companyName.value else "Unknown")
                        && r.value.source == "The Muse"
  {
    var title := j.name.GetOr("");
    var description := j.contents.GetOr("");
    Tier1TitlePasses(title, description);
    var v := MuseVerdict(j);
    if Passes(v.score) then
      Some(Posting(title, j.companyName.GetOr("Unknown"), j.landingPage.GetOr(""), v.score,
                   ExtractSalary(description), Some(v.location), None, "The Muse", None))
    else None
  }

  // ---------------------------------------------------------------------------
  // EntertainmentCareers.net (+10, title only, relative links made absolute)
  // ---------------------------------------------------------------------------

  /** A link looks like a job: "job" in its href and more than ten
      characters of stripped text. */
  predicate IsJobLink(l: Link) {
    Contains(l.href, "job") && |Strip(l.text)| > 10
  }

  /** The site root is put in front of an href that starts with "/"; any
      other href is kept as it is. */
  function AbsoluteUrl(href: string): (u: string)
    ensures StartsWith(href, "/") ==> u == EC_ROOT + href
    ensures !StartsWith(href, "/") ==> u == href
    ensures !StartsWith(u, "/")
    ensures EndsWith(u, href)
  {
    if StartsWith(href, "/") then
      assert (EC_ROOT + href)[0] == 'h';
      assert (EC_ROOT + href)[|EC_ROOT + href| - |href|..] == href;
      EC_ROOT + href
    else
      assert href[|href| - |href|..] == href;
      href
  }

  /** Absolutising twice is absolutising once. */
  lemma AbsoluteUrlIdempotent(href: string)
    ensures AbsoluteUrl(AbsoluteUrl(href)) == AbsoluteUrl(href)
  {
  }

  /** `fetch_entertainment_careers` on one link. It is scored with its
      stripped text as both title and description, gets 10 points, and is
      kept when that reaches the threshold; company and salary are
      placeholders. A discarded title is never kept. */
  function EcRecord(l: Link): (r: Option<Posting>)
    ensures r.Some? <==> IsJobLink(l) && Passes(ScoreJob(Strip(l.text), Strip(l.text)).score + EC_BOOST)
    ensures Discarded(Strip(l.text)) ==> r.None?
    ensures (IsJobLink(l) && !Discarded(Strip(l.text))
             && AnyHit(TIER_1_KEYWORDS, Lower(Strip(l.text)), Substring)) ==> r.Some?
    ensures r.Some? ==> && r.value.title == Strip(l.text)
                        && r.value.url == AbsoluteUrl(l.href)
                        && r.value.score == ScoreJob(Strip(l.text), Strip(l.text)).score + EC_BOOST
                        && r.value.company == "See Listing" && r.value.salary == "Check Listing"
                        && r.value.location == Some(ScoreJob(Strip(l.text), Strip(l.text)).location)
                        && r.value.source == "EntertainmentCareers.net" && r.value.ai.None? && r.value.description.None?
  {
    var title := Strip(l.text);
    Tier1TitlePasses(title, title);
    if IsJobLink(l) then
      var v := ScoreJob(title, title);
      var score := v.score + EC_BOOST;
      if Passes(score) then
        Some(Posting(title, "See Listing", AbsoluteUrl(l.href), score, "Check Listing",
                     Some(v.location), None, "EntertainmentCareers.net", None))
      else None
    else None
  }

  // ---------------------------------------------------------------------------
  // Collecting and sorting
  // ---------------------------------------------------------------------------

  /** The records a connector appends, in the order it reads them. */
  function Collect<E>(entries: seq<E>, record: E -> Option<Posting>): (r: seq<Posting>)
    ensures |r| <= |entries|
    ensures forall p | p in r :: exists i | 0 <= i < |entries| :: record(entries[i]) == Some(p)
    ensures forall i | 0 <= i < |entries| :: record(entries[i]).Some? ==> record(entries[i]).value in r
    decreases |entries|
  {
    if |entries| == 0 then []
    else
      var rest := Collect(entries[1..], record);
      assert forall i | 1 <= i < |entries| :: entries[1..][i - 1] == entries[i];
      match record(entries[0])
      case Some(p) => [p] + rest
      case None => rest
  }

  /** One entry contributes its record, or nothing. */
  lemma CollectOne<E>(e: E, record: E -> Option<Posting>)
    ensures Collect([e], record) == (if record(e).Some? then [record(e).value] else [])
  {
    assert [e][1..] == [];
  }

  /** Collecting is done entry by entry, in order: the records of a longer
      sequence are those of its first part followed by those of the rest. */
  lemma {:induction false} CollectConcat<E>(a: seq<E>, b: seq<E>, record: E -> Option<Posting>)
    ensures Collect(a + b, record) == Collect(a, record) + Collect(b, record)
    decreases |a|
  {
    if |a| == 0 {
      assert a + b == b;
    } else {
      assert (a + b)[1..] == a[1..] + b;
      assert (a + b)[0] == a[0];
      CollectConcat(a[1..], b, record);
    }
  }

  /** Everything a connector collects passes the threshold. */
  lemma CollectedPass(entries: seq<FeedEntry>, jobs: seq<MuseJob>, links: seq<Link>)
    ensures forall p | p in Collect(entries, PrsaRecord) :: Passes(p.score)
    ensures forall p | p in Collect(jobs, MuseRecord) :: Passes(p.score)
    ensures forall p | p in Collect(links, EcRecord) :: Passes(p.score)
  {
    forall p | p in Collect(entries, PrsaRecord) ensures Passes(p.score) {
      var i :| 0 <= i < |entries| && PrsaRecord(entries[i]) == Some(p);
    }
    forall p | p in Collect(jobs, MuseRecord) ensures Passes(p.score) {
      var i :| 0 <= i < |jobs| && MuseRecord(jobs[i]) == Some(p);
    }
    forall p | p in Collect(links, EcRecord) ensures Passes(p.score) {
      var i :| 0 <= i < |links| && EcRecord(links[i]) == Some(p);
    }
  }

  /** The sort at the end of `get_jobs`: a permutation of what was
      collected, highest score first, jobs of equal score in collection
      order. */
  function SortByScore(jobs: seq<Posting>): (r: seq<Posting>)
    ensures multiset(r) == multiset(jobs)
    ensures forall i, j | 0 <= i < j < |r| :: r[i].score >= r[j].score
    ensures forall k :: WithKey(r, KeywordScore, k) == WithKey(jobs, KeywordScore, k)
  {
    SortDesc(jobs, KeywordScore)
  }
}
