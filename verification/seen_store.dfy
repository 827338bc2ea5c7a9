/** The store of job URLs already processed (`data_manager.py`). The JSON
    file becomes an abstract state: absent, holding undecodable text, or
    holding a list of URLs. Python writes `list(set(...))`, whose order is
    unspecified; the model keeps the old URLs first and then the new ones,
    each once, and every property below speaks only of the set of URLs and
    the absence of repeats. */
module SeenStore {
  import opened Seqs
  import opened Postings

  datatype Store = Missing | Corrupt | Urls(urls: seq<string>)

  predicate NoDuplicates(s: seq<string>) {
    forall i, j | 0 <= i < j < |s| :: s[i] != s[j]
  }

  /** The URLs of a list, as a set. */
  function Elems(s: seq<string>): set<string> {
    set x | x in s
  }

  /** `s` with every repeat of an earlier element removed. */
  function Dedup(s: seq<string>): (r: seq<string>)
    ensures Elems(r) == Elems(s)
    ensures NoDuplicates(r)
  {
    if |s| == 0 then []
    else
      var d := Dedup(s[..|s| - 1]);
      var last := s[|s| - 1];
      assert s == s[..|s| - 1] + [last];
      assert Elems(s) == Elems(s[..|s| - 1]) + {last};
      if last in d then d
      else
        assert Elems(d + [last]) == Elems(d) + {last};
        d + [last]
  }

  /** `load_seen_jobs()`: a missing or undecodable store reads as empty. */
  function Load(st: Store): (r: seq<string>)
    ensures !st.Urls? ==> r == []
    ensures st.Urls? ==> r == st.urls
  {
    match st
    case Missing => []
    case Corrupt => []
    case Urls(u) => u
  }

  /** `set(load_seen_jobs())`. */
  function Seen(st: Store): set<string> {
    Elems(Load(st))
  }

  /** `save_seen_jobs(urls)`: the store is overwritten with the union of what
      it held and `urls`, without repeats; it exists afterwards. */
  function Save(st: Store, urls: seq<string>): (r: Store)
    ensures r.Urls?
    ensures Seen(r) == Seen(st) + Elems(urls)
    ensures NoDuplicates(r.urls)
  {
    Urls(Dedup(Load(st) + urls))
  }

  /** `filter_new_jobs(jobs)`: the jobs whose URL is not in the store, in
      their order; a job with an unseen URL is kept as often as it occurs,
      since there is no de-duplication within a batch. */
  function FilterNew(st: Store, jobs: seq<Posting>): (r: seq<Posting>)
    ensures IsSubsequence(r, jobs)
    ensures forall p | p in r :: p.url !in Seen(st)
    ensures forall p :: multiset(r)[p] == if p.url !in Seen(st) then multiset(jobs)[p] else 0
  {
    var seen := Seen(st);
    FilterMultiplicity(jobs, (p: Posting) => p.url !in seen);
    Filter(jobs, (p: Posting) => p.url !in seen)
  }

  /** Appending elements already present changes nothing. */
  lemma {:induction false} DedupAbsorbs(a: seq<string>, b: seq<string>)
    requires forall x | x in b :: x in a
    ensures Dedup(a + b) == Dedup(a)
    decreases |b|
  {
    if |b| > 0 {
      var c := a + b[..|b| - 1];
      assert a + b == c + [b[|b| - 1]];
      assert (a + b)[..|a + b| - 1] == c;
      assert b[|b| - 1] in b;
      assert b[|b| - 1] in Dedup(c) by {
        assert b[|b| - 1] in a;
        assert b[|b| - 1] in Elems(c);
      }
      DedupAbsorbs(a, b[..|b| - 1]);
    } else {
      assert a + b == a;
    }
  }

  /** Saving nothing keeps the set of URLs and makes the store exist. */
  lemma SaveNothing(st: Store)
    ensures Save(st, []).Urls?
    ensures Seen(Save(st, [])) == Seen(st)
  {
  }

  /** Saving the same URLs twice leaves the store as saving them once. */
  lemma SaveTwice(st: Store, urls: seq<string>)
    ensures Save(Save(st, urls), urls) == Save(st, urls)
  {
    var once := Dedup(Load(st) + urls);
    forall x | x in urls ensures x in once {
      assert x in Elems(Load(st) + urls);
    }
    DedupAbsorbs(once, urls);
    DedupIdempotent(once);
  }

  /** A list without repeats is its own de-duplication. */
  lemma {:induction false} DedupIdempotent(s: seq<string>)
    requires NoDuplicates(s)
    ensures Dedup(s) == s
    decreases |s|
  {
    if |s| > 0 {
      var init := s[..|s| - 1];
      assert NoDuplicates(init);
      DedupIdempotent(init);
      assert s[|s| - 1] !in init by {
        forall i | 0 <= i < |init| ensures init[i] != s[|s| - 1] {
          assert init[i] == s[i];
        }
      }
      assert init + [s[|s| - 1]] == s;
    }
  }

  /** Saving over a missing or undecodable store keeps exactly the new URLs. */
  lemma SaveOverUnreadable(st: Store, urls: seq<string>)
    requires !st.Urls?
    ensures Save(st, urls) == Urls(Dedup(urls))
    ensures Seen(Save(st, urls)) == Elems(urls)
  {
    assert [] + urls == urls;
  }

  /** Reading the store twice with no save between gives the same answer,
      and the second filter finds nothing more to drop. */
  lemma FilterNewStable(st: Store, jobs: seq<Posting>)
    ensures FilterNew(st, FilterNew(st, jobs)) == FilterNew(st, jobs)
  {
    var seen := Seen(st);
    FilterIdempotent(jobs, (p: Posting) => p.url !in seen);
  }

  /** Every job of a batch whose URLs are all unseen is kept, duplicates included. */
  lemma FilterNewAllUnseen(st: Store, jobs: seq<Posting>)
    requires forall p | p in jobs :: p.url !in Seen(st)
    ensures FilterNew(st, jobs) == jobs
  {
    var seen := Seen(st);
    FilterKeepsAll(jobs, (p: Posting) => p.url !in seen);
  }

  /** After saving a batch's URLs, filtering that batch leaves nothing. */
  lemma FilterAfterSave(st: Store, jobs: seq<Posting>)
    ensures FilterNew(Save(st, UrlsOf(jobs)), jobs) == []
  {
    var urls := UrlsOf(jobs);
    var seen := Seen(Save(st, urls));
    forall p | p in jobs ensures p.url in seen {
      var i :| 0 <= i < |jobs| && jobs[i] == p;
      assert urls[i] == p.url && urls[i] in urls;
    }
    FilterKeepsNone(jobs, (p: Posting) => p.url !in seen);
  }
}
