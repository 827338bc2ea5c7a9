/** The AI relevance filter (`GeminiJobFilter`), with the model call left
    uninterpreted. The reply to the `i`-th request of a batch is a parameter
    `ask(i, request)`; JSON decoding is a parameter `parse`. What is modelled
    is what the filter does with them: cleaning the reply, normalising the
    decoded object, falling back on failure, and selecting jobs. */
module AiFilter {
  import opened Wrappers
  import opened Text
  import opened Seqs
  import opened Postings

  const FENCE := "```"
  const DEFAULT_SCORE := 5
  const DEFAULT_RECOMMENDATION := "MAYBE"
  const DEFAULT_REASONING := "No reasoning provided"
  const DISABLED_REASONING := "AI filter unavailable - manual review recommended"
  const FAILURE_PREFIX := "AI evaluation failed: "
  const DEFAULT_MIN_SCORE := 7

  /** How the model call ended: it raised, or it answered with text. */
  datatype Reply = Raised(message: string) | Answered(text: string)

  /** A key of the decoded object: absent, usable, or present with a value
      whose conversion (`int(...)`, `.upper()`) raises with `message`. */
  datatype Field<T> = Absent | Present(value: T) | Unusable(message: string)

  /** The decoded JSON object as far as it is read; a present score is the
      value `int(...)` makes of it. */
  datatype Decoded = Decoded(
    score: Field<int>,
    recommendation: Field<string>,
    reasoning: Option<string>,
    highlights: Option<seq<string>>,
    requirements: Option<seq<string>>)

  /** What `json.loads` made of the cleaned reply. */
  datatype Parse = Parsed(obj: Decoded) | ParseError(message: string)

  /** What the filter sends to the model for one job. */
  datatype Request = Request(title: string, company: string, description: string, location: string)

  // ---------------------------------------------------------------------------
  // Cleaning the reply
  // ---------------------------------------------------------------------------

  /** The first index at or after `i` where a fence starts. */
  function NextFence(s: string, i: nat): (r: Option<nat>)
    requires i <= |s|
    ensures r.Some? ==> i <= r.value <= |s| - |FENCE| && MatchAt(s, FENCE, r.value)
    ensures forall k | i <= k && (r.None? || k < r.value) :: !MatchAt(s, FENCE, k)
    decreases |s| - i
  {
    if i + |FENCE| > |s| then None
    else if MatchAt(s, FENCE, i) then Some(i)
    else NextFence(s, i + 1)
  }

  /** Removes a leading "json" tag. */
  function DropJsonTag(s: string): (r: string)
    ensures StartsWith(s, "json") ==> r == s[4..]
    ensures !StartsWith(s, "json") ==> r == s
  {
    if StartsWith(s, "json") then s[4..] else s
  }

  /** The reply cleaning of `evaluate_job`: the text is stripped; if it then
      starts with a fence, what is kept is the part between that fence and
      the next one (or the end), less a leading "json" tag, stripped again.
      A cleaned fenced reply holds no fence at all. */
  function CleanReply(text: string): (r: string)
    ensures !StartsWith(Strip(text), FENCE) ==> r == Strip(text)
    ensures StartsWith(Strip(text), FENCE) ==>
              var t := Strip(text);
              && !Contains(r, FENCE)
              && exists e | |FENCE| <= e <= |t| ::
                   && (e == |t| || MatchAt(t, FENCE, e))
                   && (forall k | |FENCE| <= k < e :: !MatchAt(t, FENCE, k))
                   && r == Strip(DropJsonTag(t[|FENCE|..e]))
  {
    var t := Strip(text);
    if StartsWith(t, FENCE) then
      var e := match NextFence(t, |FENCE|) case Some(k) => k case None => |t|;
      var segment := t[|FENCE|..e];
      var r := Strip(DropJsonTag(segment));
      FencelessSegment(t, e, r);
      r
    else t
  }

  /** Nothing cut out of a stretch of `t` without a fence holds a fence. */
  lemma FencelessSegment(t: string, e: nat, r: string)
    requires |FENCE| <= e <= |t|
    requires forall k | |FENCE| <= k < e :: !MatchAt(t, FENCE, k)
    requires r == Strip(DropJsonTag(t[|FENCE|..e]))
    ensures !Contains(r, FENCE)
  {
    var segment := t[|FENCE|..e];
    StripKeepsOut(DropJsonTag(segment), FENCE);
    DropJsonTagKeepsOut(segment, FENCE);
    SliceKeepsOut(t, |FENCE|, e, FENCE);
  }

  /** A pattern absent from `s` is absent from its stripped form. */
  lemma StripKeepsOut(s: string, p: string)
    ensures Contains(Strip(s), p) ==> Contains(s, p)
  {
    var r := Strip(s);
    var a :| 0 <= a <= |s| - |r| && s[a..a + |r|] == r && AllSpace(s[..a]) && AllSpace(s[a + |r|..]);
    assert MatchAt(s, r, a);
    if Contains(r, p) {
      ContainsTransitive(s, r, p);
    }
  }

  /** A pattern absent from `s` is absent once the tag is dropped. */
  lemma DropJsonTagKeepsOut(s: string, p: string)
    ensures Contains(DropJsonTag(s), p) ==> Contains(s, p)
  {
    var off := if StartsWith(s, "json") then 4 else 0;
    assert s[off..] == DropJsonTag(s);
    assert s[off..off + |s[off..]|] == s[off..];
    assert MatchAt(s, DropJsonTag(s), off);
    if Contains(DropJsonTag(s), p) {
      ContainsTransitive(s, DropJsonTag(s), p);
    }
  }

  /** An occurrence inside a slice is an occurrence in the whole. */
  lemma SliceKeepsOut(t: string, lo: nat, hi: nat, p: string)
    requires lo <= hi <= |t|
    ensures Contains(t[lo..hi], p) ==> exists k | lo <= k <= hi - |p| :: MatchAt(t, p, k)
  {
    if Contains(t[lo..hi], p) {
      var j :| 0 <= j <= hi - lo - |p| && MatchAt(t[lo..hi], p, j);
      forall m | 0 <= m < |p| ensures t[lo + j + m] == p[m] {
        assert t[lo..hi][j..j + |p|][m] == p[m];
      }
      assert t[lo + j..lo + j + |p|] == p;
      assert MatchAt(t, p, lo + j);
    }
  }

  /** Cleaning a cleaned reply changes nothing. */
  lemma CleanReplyIdempotent(text: string)
    ensures CleanReply(CleanReply(text)) == CleanReply(text)
  {
    var r := CleanReply(text);
    var t := Strip(text);
    if StartsWith(t, FENCE) {
      var e :| |FENCE| <= e <= |t|
               && (e == |t| || MatchAt(t, FENCE, e))
               && (forall k | |FENCE| <= k < e :: !MatchAt(t, FENCE, k))
               && r == Strip(DropJsonTag(t[|FENCE|..e]));
      StripIdempotent(DropJsonTag(t[|FENCE|..e]));
      if StartsWith(r, FENCE) {
        StartsWithContains(r, FENCE);
      }
    } else {
      StripIdempotent(text);
    }
  }

  /** The usual fenced reply: "```json\n{}\n```" cleans to "{}". */
  lemma CleanFencedJson()
    ensures CleanReply("```json\n{}\n```") == "{}"
  {
    FencedJsonStripped();
    FencedJsonNextFence();
    assert "```json\n{}\n```"[3..11] == "json\n{}\n";
    assert DropJsonTag("json\n{}\n") == "\n{}\n";
    FencedJsonBody();
  }

  lemma FencedJsonStripped()
    ensures Strip("```json\n{}\n```") == "```json\n{}\n```"
    ensures StartsWith("```json\n{}\n```", FENCE)
  {
    var text := "```json\n{}\n```";
    assert LeadingSpace(text) == 0;
    assert text[0..] == text;
    assert TrailingSpace(text) == 0;
  }

  lemma FencedJsonNextFence()
    ensures NextFence("```json\n{}\n```", 3) == Some(11)
  {
    var text := "```json\n{}\n```";
    forall k | 3 <= k < 11 ensures !MatchAt(text, FENCE, k) {
      assert text[k..k + 3][0] == text[k];
    }
    assert MatchAt(text, FENCE, 11);
  }

  lemma FencedJsonBody()
    ensures Strip("\n{}\n") == "{}"
  {
    var body := "\n{}\n";
    assert LeadingSpace(body) == 1;
    assert body[1..] == "{}\n";
    assert TrailingSpace("{}\n") == 1;
  }

  // ---------------------------------------------------------------------------
  // Normalising the decoded object
  // ---------------------------------------------------------------------------

  /** `max(1, min(10, n))`. */
  function Clamp(n: int): (c: int)
    ensures 1 <= c <= 10
    ensures 1 <= n <= 10 ==> c == n
    ensures n < 1 ==> c == 1
    ensures n > 10 ==> c == 10
  {
    if n < 1 then 1 else if n > 10 then 10 else n
  }

  /** Clamping twice is clamping once. */
  lemma ClampIdempotent(n: int)
    ensures Clamp(Clamp(n)) == Clamp(n)
  {
  }

  /** The record returned when the filter has no API key. */
  const DISABLED_EVAL := AiEval(DEFAULT_SCORE, DEFAULT_RECOMMENDATION, DISABLED_REASONING, [], [])

  /** The permissive record returned when anything raises: the first fifty
      characters of the error message are kept. */
  function FailureEval(message: string): (e: AiEval)
    ensures IsFallback(e)
    ensures e.reasoning == FAILURE_PREFIX + Take(message, 50)
    ensures |e.reasoning| <= |FAILURE_PREFIX| + 50
  {
    AiEval(DEFAULT_SCORE, DEFAULT_RECOMMENDATION, FAILURE_PREFIX + Take(message, 50), [], [])
  }

  /** A fallback record: score 5, "MAYBE", no highlights, no requirements. */
  predicate IsFallback(e: AiEval) {
    e.score == 5 && e.recommendation == "MAYBE" && e.highlights == [] && e.requirements == []
  }

  /** The normalisation of `evaluate_job`: the score is clamped into 1..10
      (5 when absent), the recommendation upper-cased ("MAYBE" when absent),
      and the other keys take their defaults when absent. A score or
      recommendation that cannot be converted raises, and the failure record
      is returned with that message. */
  function Normalise(d: Decoded): (e: AiEval)
    ensures 1 <= e.score <= 10
    ensures d.score.Unusable? ==> e == FailureEval(d.score.message)
    ensures !d.score.Unusable? && d.recommendation.Unusable? ==> e == FailureEval(d.recommendation.message)
    ensures !d.score.Unusable? && !d.recommendation.Unusable? ==>
              && (d.score.Present? ==> e.score == Clamp(d.score.value))
              && (d.score.Absent? ==> e.score == DEFAULT_SCORE)
              && (d.recommendation.Present? ==> e.recommendation == Upper(d.recommendation.value))
              && (d.recommendation.Absent? ==> e.recommendation == DEFAULT_RECOMMENDATION)
              && e.reasoning == d.reasoning.GetOr(DEFAULT_REASONING)
              && e.highlights == d.highlights.GetOr([])
              && e.requirements == d.requirements.GetOr([])
  {
    match d.score
    case Unusable(m) => FailureEval(m)
    case Absent => Finish(d, Clamp(DEFAULT_SCORE))
    case Present(n) => Finish(d, Clamp(n))
  }

  /** The rest of the normalisation once the score is known. */
  function Finish(d: Decoded, score: int): (e: AiEval)
    ensures d.recommendation.Unusable? ==> e == FailureEval(d.recommendation.message)
    ensures !d.recommendation.Unusable? ==> e.score == score
  {
    match d.recommendation
    case Unusable(m) => FailureEval(m)
    case Absent =>
      AiEval(score, DEFAULT_RECOMMENDATION, d.reasoning.GetOr(DEFAULT_REASONING),
             d.highlights.GetOr([]), d.requirements.GetOr([]))
    case Present(rec) =>
      AiEval(score, Upper(rec), d.reasoning.GetOr(DEFAULT_REASONING),
             d.highlights.GetOr([]), d.requirements.GetOr([]))
  }

  /** `evaluate_job`: the disabled record without a key, the failure record
      when the call raises or the cleaned reply does not decode, and the
      normalised object otherwise. The score is always within 1..10. */
  function Evaluate(enabled: bool, reply: Reply, parse: string -> Parse): (e: AiEval)
    ensures 1 <= e.score <= 10
    ensures !enabled ==> e == DISABLED_EVAL && IsFallback(e)
    ensures enabled && reply.Raised? ==> e == FailureEval(reply.message)
    ensures enabled && reply.Answered? && parse(CleanReply(reply.text)).ParseError? ==>
              e == FailureEval(parse(CleanReply(reply.text)).message)
    ensures enabled && reply.Answered? && parse(CleanReply(reply.text)).Parsed? ==>
              e == Normalise(parse(CleanReply(reply.text)).obj)
  {
    if !enabled then DISABLED_EVAL
    else
      match reply
      case Raised(m) => FailureEval(m)
      case Answered(text) =>
        match parse(CleanReply(text))
        case ParseError(m) => FailureEval(m)
        case Parsed(d) => Normalise(d)
  }

  // ---------------------------------------------------------------------------
  // Selecting jobs
  // ---------------------------------------------------------------------------

  /** The request for a job: "Unknown" stands in for a missing location and
      the title for a missing description. */
  function RequestFor(p: Posting): (q: Request)
    ensures q.description == p.description.GetOr(p.title)
    ensures q.location == p.location.GetOr("Unknown")
    ensures q.title == p.title && q.company == p.company
  {
    Request(p.title, p.company, p.description.GetOr(p.title), p.location.GetOr("Unknown"))
  }

  /** Every job of the batch with its evaluation attached, in order; nothing
      else about a job changes. */
  function Evaluations(jobs: seq<Posting>, ask: (nat, Request) -> Reply, parse: string -> Parse): (r: seq<Posting>)
    ensures |r| == |jobs|
    ensures forall i | 0 <= i < |jobs| ::
              && r[i] == Annotate(jobs[i], Evaluate(true, ask(i, RequestFor(jobs[i])), parse))
              && r[i].(ai := jobs[i].ai) == jobs[i]
              && r[i].ai.Some? && 1 <= r[i].ai.value.score <= 10
  {
    seq(|jobs|, i requires 0 <= i < |jobs| => Annotate(jobs[i], Evaluate(true, ask(i, RequestFor(jobs[i])), parse)))
  }

  /** Every evaluated job carries a score within 1..10. */
  lemma EvaluationsInRange(jobs: seq<Posting>, ask: (nat, Request) -> Reply, parse: string -> Parse)
    ensures forall p | p in Evaluations(jobs, ask, parse) :: p.ai.Some? && 1 <= p.ai.value.score <= 10
  {
  }

  /** The model recommends sending the job, or leaves it open. */
  predicate IsRecommended(p: Posting) {
    p.ai.Some? && (p.ai.value.recommendation == "SEND" || p.ai.value.recommendation == "MAYBE")
  }

  /** The job reached `minScore`. */
  predicate ReachesScore(p: Posting, minScore: int) {
    p.ai.Some? && p.ai.value.score >= minScore
  }

  /** `batch_evaluate`: without a key the input comes back; otherwise the
      evaluated jobs recommended "SEND" or "MAYBE", in input order. */
  function BatchEvaluate(enabled: bool, jobs: seq<Posting>, ask: (nat, Request) -> Reply,
                         parse: string -> Parse): (r: seq<Posting>)
    ensures !enabled ==> r == jobs
    ensures enabled ==> IsSubsequence(r, Evaluations(jobs, ask, parse))
    ensures enabled ==> forall p | p in r :: IsRecommended(p)
    ensures enabled ==> forall p :: (multiset(r)[p] ==
              if IsRecommended(p) then multiset(Evaluations(jobs, ask, parse))[p] else 0)
  {
    if !enabled then jobs
    else
      var all := Evaluations(jobs, ask, parse);
      FilterMultiplicity(all, IsRecommended);
      Filter(all, IsRecommended)
  }

  /** `filter_jobs`: without a key the input comes back, an empty input
      gives the empty list, and otherwise the evaluated jobs scoring at
      least `minScore`, in input order. */
  function FilterJobs(enabled: bool, jobs: seq<Posting>, minScore: int, ask: (nat, Request) -> Reply,
                      parse: string -> Parse): (r: seq<Posting>)
    ensures !enabled ==> r == jobs
    ensures enabled && jobs == [] ==> r == []
    ensures enabled ==> IsSubsequence(r, Evaluations(jobs, ask, parse))
    ensures enabled ==> forall p | p in r :: p.ai.Some? && minScore <= p.ai.value.score && 1 <= p.ai.value.score <= 10
    ensures enabled ==> forall p :: (multiset(r)[p] ==
              if ReachesScore(p, minScore) then multiset(Evaluations(jobs, ask, parse))[p] else 0)
  {
    if !enabled then jobs
    else if |jobs| == 0 then []
    else
      var all := Evaluations(jobs, ask, parse);
      var keep := (p: Posting) => ReachesScore(p, minScore);
      FilterMultiplicity(all, keep);
      EvaluationsInRange(jobs, ask, parse);
      Filter(all, keep)
  }

  /** With the default threshold of 7, a job whose evaluation failed
      (fallback score 5) is not selected. */
  lemma FailedEvaluationRejected(jobs: seq<Posting>, i: nat, ask: (nat, Request) -> Reply, parse: string -> Parse)
    requires i < |jobs|
    requires IsFallback(Evaluations(jobs, ask, parse)[i].ai.value)
    ensures Evaluations(jobs, ask, parse)[i] !in FilterJobs(true, jobs, DEFAULT_MIN_SCORE, ask, parse)
  {
  }

  /** In particular, a job whose model call raised is not selected. */
  lemma RaisedCallRejected(jobs: seq<Posting>, i: nat, ask: (nat, Request) -> Reply, parse: string -> Parse)
    requires i < |jobs| && ask(i, RequestFor(jobs[i])).Raised?
    ensures Evaluations(jobs, ask, parse)[i] !in FilterJobs(true, jobs, DEFAULT_MIN_SCORE, ask, parse)
  {
    FailedEvaluationRejected(jobs, i, ask, parse);
  }
}
