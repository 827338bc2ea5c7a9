/** One run of the bot (`main`): the aggregated jobs are checked against
    the seen store, the new ones are ranked either by the AI filter or by
    keyword score, the first five are posted, and the URLs of all new jobs
    are recorded. Aggregation itself is an input; the AI model, JSON decoding
    and the Telegram sends are the parameters of the stages they belong to. */
module Pipeline {
  import opened Wrappers
  import opened Seqs
  import opened Postings
  import opened SeenStore
  import opened AiFilter
  import opened Telegram

  /** How many jobs are posted at most. */
  const TOP_POSTS := 5

  /** How many keyword-ranked jobs are considered without the AI filter. */
  const KEYWORD_CANDIDATES := 10

  /** The AI score a job needs in a run. */
  const RUN_MIN_SCORE := 7

  /** The environment of a run: the AI key and the Telegram credentials. */
  datatype Environment = Environment(aiKey: Option<string>, telegram: Credentials)

  /** The model call, JSON decoding and the Telegram sends of a run. */
  datatype Services = Services(ask: (nat, Request) -> Reply, parse: string -> Parse, send: (nat, Attempt) -> bool)

  /** What a run did: the new jobs, the ranked candidates, the jobs posted,
      the send attempts, and the store it leaves. */
  datatype Outcome = Outcome(
    newJobs: seq<Posting>,
    candidates: seq<Posting>,
    posted: seq<Posting>,
    attempts: seq<Attempt>,
    store: Store)

  /** `bool(os.environ.get("GEMINI_API_KEY"))`. */
  predicate UsesAi(env: Environment) {
    env.aiKey.Some? && env.aiKey.value != ""
  }

  /** The ranking of the new jobs: with the AI filter, the jobs it scores 7
      or more, highest AI score first; without it, the ten highest keyword
      scores. Both sorts are stable. */
  function Candidates(useAi: bool, newJobs: seq<Posting>, s: Services): (r: seq<Posting>)
    ensures useAi ==> SortedDesc(r, AiScore)
    ensures useAi ==> forall p | p in r :: p.ai.Some? && RUN_MIN_SCORE <= p.ai.value.score <= 10
    ensures useAi ==> multiset(r) == multiset(FilterJobs(true, newJobs, RUN_MIN_SCORE, s.ask, s.parse))
    ensures useAi ==> forall k :: WithKey(r, AiScore, k) == WithKey(FilterJobs(true, newJobs, RUN_MIN_SCORE, s.ask, s.parse), AiScore, k)
    ensures !useAi ==> r == Take(SortDesc(newJobs, KeywordScore), KEYWORD_CANDIDATES)
    ensures !useAi ==> |r| <= KEYWORD_CANDIDATES && SortedDesc(r, KeywordScore)
    ensures forall p | p in r :: exists q | q in newJobs :: q.url == p.url && q.(ai := p.ai) == p
  {
    if useAi then
      var kept := FilterJobs(true, newJobs, RUN_MIN_SCORE, s.ask, s.parse);
      var r := SortDesc(kept, AiScore);
      forall p | p in r ensures p in kept {
        assert multiset(r)[p] > 0;
      }
      forall p | p in r ensures exists q | q in newJobs :: q.url == p.url && q.(ai := p.ai) == p {
        EvaluatedFromBatch(newJobs, s, p, kept);
      }
      r
    else
      var sorted := SortDesc(newJobs, KeywordScore);
      var r := Take(sorted, KEYWORD_CANDIDATES);
      forall p | p in r ensures p in newJobs {
        var i :| 0 <= i < |r| && r[i] == p;
        assert sorted[i] == p;
        assert multiset(sorted)[p] > 0;
      }
      assert SortedDesc(r, KeywordScore) by {
        forall i, j | 0 <= i < j < |r| ensures KeywordScore(r[i]) >= KeywordScore(r[j]) {
          assert r[i] == sorted[i] && r[j] == sorted[j];
        }
      }
      forall p | p in r ensures exists q | q in newJobs :: q.url == p.url && q.(ai := p.ai) == p {
        assert p.(ai := p.ai) == p;
      }
      r
  }

  /** A job the AI filter keeps is one of the batch with an evaluation attached. */
  lemma EvaluatedFromBatch(newJobs: seq<Posting>, s: Services, p: Posting, kept: seq<Posting>)
    requires kept == FilterJobs(true, newJobs, RUN_MIN_SCORE, s.ask, s.parse)
    requires p in kept
    ensures exists q | q in newJobs :: q.url == p.url && q.(ai := p.ai) == p
  {
    var all := Evaluations(newJobs, s.ask, s.parse);
    assert multiset(kept)[p] > 0;
    assert p in all;
    var i :| 0 <= i < |all| && all[i] == p;
    assert newJobs[i] in newJobs;
    assert newJobs[i].url == p.url;
  }

  /** The first candidates are jobs of this run with unseen URLs. */
  lemma PostedAreNew(allJobs: seq<Posting>, store: Store, newJobs: seq<Posting>, candidates: seq<Posting>,
                     top: seq<Posting>)
    requires newJobs == FilterNew(store, allJobs)
    requires forall p | p in candidates :: exists q | q in newJobs :: q.url == p.url && q.(ai := p.ai) == p
    requires top == Take(candidates, TOP_POSTS)
    ensures forall p | p in top :: p.url !in Seen(store)
    ensures forall p | p in top :: exists q | q in allJobs :: q.url == p.url && q.(ai := p.ai) == p
  {
    forall p | p in top
      ensures p.url !in Seen(store) && exists q | q in allJobs :: q.url == p.url && q.(ai := p.ai) == p
    {
      var i :| 0 <= i < |top| && top[i] == p;
      assert candidates[i] == p;
      var q :| q in newJobs && q.url == p.url && q.(ai := p.ai) == p;
      assert multiset(newJobs)[q] > 0;
    }
  }

  /** `main()`. With no new job, nothing is posted and the store is saved
      unchanged (which creates it if missing). Otherwise at most five jobs are
      posted, the first five candidates, each a job of this run whose URL was
      not seen before; and the store then holds the old URLs and those of
      every new job, posted or not. */
  method Run(allJobs: seq<Posting>, store: Store, env: Environment, s: Services) returns (out: Outcome)
    ensures out.newJobs == FilterNew(store, allJobs)
    ensures out.newJobs == [] ==> out.posted == [] && out.attempts == [] && out.store.Urls?
                                  && Seen(out.store) == Seen(store)
    ensures out.newJobs != [] ==> Seen(out.store) == Seen(store) + Elems(UrlsOf(out.newJobs))
    ensures |out.posted| <= TOP_POSTS && out.posted == Take(out.candidates, TOP_POSTS)
    ensures forall p | p in out.posted :: p.url !in Seen(store)
    ensures forall p | p in out.posted :: exists q | q in allJobs :: q.url == p.url && q.(ai := p.ai) == p
    ensures UsesAi(env) ==> forall p | p in out.candidates :: p.ai.Some? && p.ai.value.score >= RUN_MIN_SCORE
    ensures UsesAi(env) ==> SortedDesc(out.candidates, AiScore)
    ensures out.candidates == Candidates(UsesAi(env), out.newJobs, s)
    ensures UsesAi(env) ==> multiset(out.candidates) == multiset(FilterJobs(true, out.newJobs, RUN_MIN_SCORE, s.ask, s.parse))
    ensures !UsesAi(env) ==> out.candidates == Take(SortDesc(out.newJobs, KeywordScore), KEYWORD_CANDIDATES)
    ensures !HasCredentials(env.telegram) ==> out.attempts == []
    ensures HasCredentials(env.telegram) ==> |out.attempts| == |out.posted|
    ensures HasCredentials(env.telegram) ==> forall i | 0 <= i < |out.posted| ::
              out.attempts[i].text == Message(out.posted[i])
  {
    var newJobs := FilterNew(store, allJobs);
    if newJobs == [] {
      SaveNothing(store);
      return Outcome([], [], [], [], Save(store, []));
    }
    var candidates := Candidates(UsesAi(env), newJobs, s);
    var top := Take(candidates, TOP_POSTS);
    PostedAreNew(allJobs, store, newJobs, candidates, top);
    var attempts: seq<Attempt> := [];
    if candidates != [] {
      attempts := PostToTelegram(env.telegram, top, s.send);
    }
    out := Outcome(newJobs, candidates, top, attempts, Save(store, UrlsOf(newJobs)));
  }
}
