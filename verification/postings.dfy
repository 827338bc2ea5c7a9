/** The job record passed between the bot's stages. In the source it is a
    dictionary; here the keys every connector sets are plain fields, the keys
    some records lack are `Option`s, and the five `ai_*` keys the AI filter
    attaches travel together as one optional evaluation. */
module Postings {
  import opened Wrappers

  /** What the AI filter attaches to a job (`ai_score`, `ai_recommendation`,
      `ai_reasoning`, `ai_highlights`, `ai_requirements`). */
  datatype AiEval = AiEval(
    score: int,
    recommendation: string,
    reasoning: string,
    highlights: seq<string>,
    requirements: seq<string>)

  datatype Posting = Posting(
    title: string,
    company: string,
    url: string,
    score: int,
    salary: string,
    location: Option<string>,
    description: Option<string>,
    source: string,
    ai: Option<AiEval>)
  {
    /** `job.get('ai_score', 0)`: the sort key of the AI ordering. */
    function AiScoreOrZero(): int {
      if ai.Some? then ai.value.score else 0
    }

    /** `job.get('ai_score', job.get('score', 0))`: the rating shown to the user. */
    function Rating(): int {
      if ai.Some? then ai.value.score else score
    }
  }

  /** The keyword score: the sort key of the keyword ordering. */
  function KeywordScore(p: Posting): int { p.score }

  /** The AI score, 0 when absent. */
  function AiScore(p: Posting): int { p.AiScoreOrZero() }

  /** Attaching an evaluation changes nothing but the `ai_*` keys. */
  function Annotate(p: Posting, e: AiEval): (q: Posting)
    ensures q.ai == Some(e)
    ensures q.(ai := p.ai) == p
  {
    p.(ai := Some(e))
  }

  /** `[job['url'] for job in jobs]`. */
  function UrlsOf(jobs: seq<Posting>): (r: seq<string>)
    ensures |r| == |jobs|
    ensures forall i | 0 <= i < |jobs| :: r[i] == jobs[i].url
  {
    seq(|jobs|, i requires 0 <= i < |jobs| => jobs[i].url)
  }
}
