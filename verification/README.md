# Job-alert bot: keyword scoring, filtering and posting pipeline

A Dafny model of the decision logic of a job-alert bot. The bot collects
postings from three job boards, scores each with keyword tiers, keeps the
ones above a threshold, drops those already seen, optionally has a language
model rate them, and posts the top five to a Telegram chat.

The model covers seven pieces, each in its own module:

- `Config`: the keyword tiers, the negative keywords, the preferred
  locations and the score threshold, transcribed as constants.
- `Keywords`, `Scorer`, `DebugScorer`: the main scorer (`score_job`) and the
  simpler debug scorer (`score_job_debug`).
  - The main scorer checks negatives by plain substring.
  - The debug scorer checks them on word boundaries.
  - `ScoringExamples` proves the consequences of the configured lists,
    including the divergence: "Internal Communications" is a Tier-2 keyword,
    yet the main scorer discards such a title because it contains the
    negative "intern", while the debug scorer scores it 15.
- `Salary`: `extract_salary`, written as a deterministic left-to-right scanner
  for the salary regular expression. It is proved to return the leftmost
  match, and the longest salary starting there, or "Not listed" when there is
  none.
- `Connectors`: what each connector does with records already fetched.
  - The source boosts, the threshold gate and the record each connector builds.
  - EntertainmentCareers link filtering and URL absolutisation.
  - The stable score sort of `get_jobs`.
- `SeenStore`: the seen-URL file as an abstract state `Missing | Corrupt | Urls`.
  It has load, union-and-overwrite save, and the order-preserving
  `filter_new_jobs`.
- `AiFilter`: the AI step with the model call and JSON decoding as parameters.
  - Cleaning the reply of Markdown fences.
  - Score clamping, defaults and the fallback record.
  - `batch_evaluate` and `filter_jobs` over job sequences.
- `Telegram`: the message text (bullets, stars, fields) and the send loop.
  Each send is an abstract attempt.
- `Pipeline`: `main`. It de-duplicates, picks the AI or the keyword ordering,
  posts at most five jobs, and records the URLs of all new jobs.

Supporting modules:

- `Wrappers` (`Option`).
- `Text`: ASCII case mapping, substring and word matching, strip, join, line
  split and integer printing.
- `Seqs`: filter, take, and a stable insertion sort with its permutation and
  stability facts.
- `Postings`: the job record. The source's dictionary becomes a datatype, and
  the five `ai_*` keys become one optional evaluation.

## Model

| member | source | states |
|---|---|---|
| Keywords.FirstHitFrom | aggregator.py:63-68 | the first list entry from position j that matches, or none; every earlier entry fails to match |
| Keywords.FirstHit | verify_extraction.py:27-43 | the first matching keyword in list order, and it is absent exactly when no keyword matches |
| Keywords.FirstHitUnique | aggregator.py:63-68 | there is only one first hit, so the chosen location is determined |
| Keywords.HitsFromStep | aggregator.py:38-49 | adding one keyword to the scan adds one hit exactly when that keyword matches; each keyword counts once |
| Keywords.TitleHitIsTextHit | aggregator.py:26 | a keyword found in the lower-cased title is also found in the lower-cased "title description" text |
| Keywords.TitleHitsWithinTextHits | aggregator.py:38-44 | the Tier-1 keywords hit in the title are a subset of those hit in the combined text |
| Scorer.Tier1PointsFrom | aggregator.py:37-44 | Tier-1 points are 50 per keyword in the text plus 30 per keyword in both the text and the title |
| Scorer.Tier2PointsFrom | aggregator.py:46-49 | Tier-2 points are 15 per keyword found in the text |
| Scorer.TierPoints | aggregator.py:36-49 | the keyword points equal the tier formula and are never negative |
| Scorer.LocationStep | aggregator.py:61-81 | only the first configured location found adds 40 and sets the label "📍 loc (Likely Hybrid)"; "hybrid" adds 20 and " - Hybrid" only with a location; otherwise the label is "Remote" and the score unchanged |
| Scorer.DiscardCheck | aggregator.py:31-59 | the discard decision is true exactly when a negative keyword is in the title (lines 31-34) or the marketing trap fires (lines 55-59) |
| Scorer.ScoreJob | aggregator.py:23-83 | a negative keyword in the title or the marketing trap gives exactly (-1, "N/A"), and -1 happens only then; otherwise the score is the keyword points plus the location and hybrid points, at least 0, with the first location's label or "Remote" |
| DebugScorer.ScoreJobDebug | verify_extraction.py:21-45 | a word-bounded negative gives (-1, "Negative Keyword: kw"); else the first Tier-1 hit gives (50, "Tier 1 Match: kw"); else the first Tier-2 hit gives 15; else (0, "No Keyword Match"); the score is always -1, 0, 15 or 50 |
| DebugScorer.DebugDiscardImpliesDiscard | verify_extraction.py:26-31 | a title the debug scorer rejects is also discarded by the main scorer, whatever the description |
| DebugScorer.DebugTier1ImpliesScore | verify_extraction.py:34-37 | a title the debug scorer rates Tier 1 and the main scorer keeps scores at least 80 |
| ScoringExamples.InternalCommunicationsDiverges | config.py:28-43 | "Internal Communications" is discarded (-1) by the main scorer and rated 15 by the debug scorer |
| ScoringExamples.InternalCommunicationsDiscarded | aggregator.py:32-34 | any title that lower-cases to "internal communications" is discarded, whatever the description |
| ScoringExamples.InternalCommunicationsDebug | verify_extraction.py:26-43 | the debug scorer rates "internal communications" as (15, "Tier 2 Match: Internal Communications"), because "intern" is not a whole word there |
| ScoringExamples.InternNotWordInInternational | verify_extraction.py:28-30 | "intern" does not occur as a whole word in "international" |
| ScoringExamples.InternInTitleDiscards | aggregator.py:32-34 | any title containing "intern", including "International", is discarded by the substring check |
| ScoringExamples.InternshipRedundant | config.py:43-44 | under substring matching, "Intern" is the first negative found in any title containing "internship", so the "Internship" entry is never the one that fires |
| ScoringExamples.InternshipCaughtByOwnEntry | verify_extraction.py:27-31 | under word-boundary matching, "internship" is caught by the "Internship" entry, not by "Intern" |
| ScoringExamples.CoordinatorDiscards | aggregator.py:32-34 | any title containing "coordinator" is discarded |
| ScoringExamples.MarketingCoordinatorDiscarded | config.py:42-65 | "Marketing Coordinator" is discarded by the negative "Coordinator" |
| ScoringExamples.DirectorOfPublicRelations | aggregator.py:38-44 | a kept title containing "director of public relations" earns both Tier-1 entries, so it scores at least 160 |
| ScoringExamples.PublicRelationsHits | config.py:9-24 | such a title hits both "Public Relations" and "Director of Public Relations" |
| ScoringExamples.LosAngelesFirst | config.py:71-82 | text naming "los angeles" is labelled Los Angeles whatever other locations it names, since that entry comes first |
| Scorer.Tier1InTitlePasses | config.py:110 | one Tier-1 keyword in a kept title gives at least 80, which reaches the threshold of 60 |
| ScoringExamples.Tier1InDescriptionOnlyFails | config.py:110 | one Tier-1 keyword only in the description, with no Tier-2 or location hit, scores exactly 50, below the threshold |
| ScoringExamples.Tier2OnlyFails | config.py:110 | at most three Tier-2 hits and nothing else score at most 45, below the threshold |
| Salary.FirstStart | aggregator.py:18 | the leftmost position where a '$' is followed by a digit, or none when no such position exists |
| Salary.MatchEnd | aggregator.py:17 | a match starts exactly where '$' is followed by a digit, and spans at least two characters |
| Salary.MatchSound | aggregator.py:17 | what the scanner takes from a start position is a salary in the pattern's language: an amount, optionally "-" and a second amount |
| Salary.ExtractSalary | aggregator.py:13-21 | "Not listed" exactly when no '$' is followed by a digit; otherwise a slice of the text starting at the leftmost such '$' that matches the salary pattern, and no longer slice from that position matches it (the greedy match) |
| Salary.SalaryBound | aggregator.py:17 | every salary that starts at a position ends no later than the scanner's match from there, so the scanner's greedy choices never stop short |
| Salary.ExtractSalaryIdempotent | aggregator.py:13-21 | extracting from an extracted salary gives it back unchanged |
| Salary.DigitRunMaximal | aggregator.py:17 | the digit scan takes every digit from the start and stops at the first non-digit, as the greedy `\d+` does |
| Connectors.PrsaRecord | aggregator.py:92-103 | a feed entry is kept exactly when its score reaches 60; a discarded title never is, and a kept Tier-1 title always is; the record has the entry's title, its score and location label, the link, the description's salary, the author or "Unknown" when there is none, the source "PRSA Jobcenter", no description (so the AI is later given the title in its place) and no AI evaluation |
| Connectors.MuseVerdict | aggregator.py:119-128 | the API placing the job in Los Angeles adds 20 and sets the label "📍 Los Angeles"; otherwise the verdict is the keyword scorer's |
| Connectors.MuseRecord | aggregator.py:113-139 | a Muse result is kept exactly when its boosted score reaches 60; a discarded title never is, since -1 + 20 < 60; the record has the name (or ""), the boosted score and its label, the landing page, the contents' salary, the company or "Unknown", the source "The Muse", no description and no AI evaluation |
| Connectors.AbsoluteUrl | aggregator.py:171 | an href starting with "/" gets the site root in front; any other href is kept as it is; the result never starts with "/" and ends with the href |
| Connectors.AbsoluteUrlIdempotent | aggregator.py:171 | making a URL absolute twice is the same as doing it once |
| Connectors.EcRecord | aggregator.py:158-180 | a link is kept exactly when its href contains "job", its stripped text is longer than 10, and its score on that text as both title and description, plus 10, reaches 60; a discarded title never is; the record has the stripped text as title, that score plus 10, the scorer's location label, the absolute URL, the "See Listing" and "Check Listing" placeholders, the source "EntertainmentCareers.net", no description and no AI evaluation |
| Connectors.Collect | aggregator.py:92-103 | a connector appends the kept record of every entry and nothing else |
| Connectors.CollectOne | aggregator.py:94-103 | one entry appends exactly its own record when it is kept, and nothing otherwise |
| Connectors.CollectConcat | aggregator.py:93-103 | the loop appends entry by entry in feed order: the records of a sequence are the records of its first part followed by those of the rest, so order and repetitions are kept |
| Connectors.CollectedPass | aggregator.py:94 | every job a connector collects has a score of at least 60 |
| Connectors.SortByScore | aggregator.py:194 | the sorted jobs are a permutation of the collected ones, in descending score order; jobs of equal score keep their collection order |
| Seqs.SortDesc | aggregator.py:194 | the insertion sort gives a permutation, sorted descending by the key, and keeps the relative order of each key's jobs |
| Seqs.SortSorted | main.py:58 | sorting a sequence that is already in descending key order leaves it unchanged |
| Seqs.SortIdempotent | main.py:58 | sorting a sorted result again changes nothing |
| Seqs.Take | main.py:74 | `s[:n]` is the first min(n, length) elements |
| Seqs.FilterMultiplicity | data_manager.py:36-38 | filtering keeps every copy of an element it accepts and none of one it rejects |
| SeenStore.Load | data_manager.py:6-14 | a missing or undecodable store loads as the empty list, and a readable one as its URLs |
| SeenStore.Dedup | data_manager.py:25 | converting to a set keeps the same URLs, with no duplicates |
| SeenStore.Save | data_manager.py:16-29 | afterwards the store exists, holds no duplicates, and its URLs are the old ones plus the saved ones |
| SeenStore.SaveNothing | main.py:41 | saving the empty list creates the store and changes none of its URLs |
| SeenStore.SaveTwice | data_manager.py:25-29 | saving the same URLs twice is the same as saving them once |
| SeenStore.SaveOverUnreadable | data_manager.py:13-14 | saving over a missing or corrupt store leaves exactly the new URLs |
| SeenStore.FilterNew | data_manager.py:31-40 | the result is an order-preserving subsequence of the jobs; it keeps every copy of each job with an unseen URL, including duplicates within the batch, and drops every job with a seen one |
| SeenStore.FilterNewStable | data_manager.py:31-40 | filtering again without a save gives the same result |
| SeenStore.FilterNewAllUnseen | data_manager.py:36-38 | when no URL has been seen, every job is kept |
| SeenStore.FilterAfterSave | data_manager.py:25-38 | after saving a batch's URLs, filtering that batch leaves nothing |
| Postings.Annotate | gemini_filter.py:262-266 | attaching an evaluation sets the AI fields and changes no other field |
| AiFilter.NextFence | gemini_filter.py:153 | the position of the next "```" from a given point, or none; no earlier position holds one |
| AiFilter.CleanReply | gemini_filter.py:149-156 | a stripped reply not starting with "```" is kept as it is; otherwise the result is the stripped segment up to the next "```", with a leading "json" removed, and contains no fence |
| AiFilter.CleanReplyIdempotent | gemini_filter.py:149-156 | cleaning a cleaned reply changes nothing |
| AiFilter.CleanFencedJson | gemini_filter.py:152-156 | "```json\n{}\n```" cleans to "{}" |
| AiFilter.Clamp | gemini_filter.py:162 | the score is forced into 1..10, and a score already in range is unchanged |
| AiFilter.ClampIdempotent | gemini_filter.py:162 | clamping twice is clamping once |
| AiFilter.FailureEval | gemini_filter.py:170-179 | the fallback record: score 5, "MAYBE", no highlights or requirements, and the reason "AI evaluation failed: " followed by at most 50 characters of the error |
| AiFilter.Normalise | gemini_filter.py:161-168 | the score is clamped or defaults to 5; the recommendation is upper-cased or defaults to "MAYBE"; reasoning, highlights and requirements take their defaults; a score or recommendation that cannot be converted gives the fallback record |
| AiFilter.Evaluate | gemini_filter.py:87-179 | when disabled, the fixed "unavailable" record; when the call raises or the JSON cannot be decoded, the fallback record; otherwise the normalised reply; the score is always in 1..10 |
| AiFilter.RequestFor | gemini_filter.py:252-255 | the description defaults to the title and the location to "Unknown" |
| AiFilter.Evaluations | gemini_filter.py:251-266 | every job is evaluated once, in order, and gets all the AI fields, whether it passes or not; nothing else in it changes |
| AiFilter.EvaluationsInRange | gemini_filter.py:162 | every evaluated job has an AI score in 1..10 |
| AiFilter.BatchEvaluate | gemini_filter.py:181-225 | disabled returns the jobs unchanged; otherwise the result is the order-preserving subsequence of evaluated jobs whose recommendation is "SEND" or "MAYBE", every copy of each |
| AiFilter.FilterJobs | gemini_filter.py:227-281 | disabled returns the jobs unchanged, and an empty batch returns []; otherwise the result is the order-preserving subsequence of evaluated jobs whose AI score reaches the minimum |
| AiFilter.FailedEvaluationRejected | gemini_filter.py:173-179 | with the default minimum of 7, a job whose evaluation fell back (score 5) is rejected |
| AiFilter.RaisedCallRejected | gemini_filter.py:170-179 | with the default minimum of 7, a job whose model call raised is rejected |
| Telegram.Bullets | telegram_poster.py:24 | one "  • item" line per item |
| Telegram.KeyPoints | telegram_poster.py:22-28 | the first four requirements if there are any, else the first four highlights, each as a "  • " line, joined by line breaks, else the single placeholder line; when no item holds a line break, splitting the section gives back exactly those bullet lines |
| Telegram.BulletSection | telegram_poster.py:24-26 | when no item holds a line break, splitting the section on line breaks gives exactly one bullet line per item |
| Telegram.Stars | telegram_poster.py:31 | "N/A" exactly when the score is 0; otherwise min(score, 10) stars, and none for a negative score |
| Telegram.MessageFields | telegram_poster.py:33-41 | the message contains the title, the company, the location (default "Remote") and "rating/10 stars", and ends with "[Apply Here](url)" |
| Telegram.PostToTelegram | telegram_poster.py:5-56 | without both credentials nothing is sent; otherwise exactly one send per job, in order, with the job's message, the endpoint and the chat; a failed send does not stop the rest |
| Pipeline.Candidates | main.py:47-63 | with the AI key: the jobs scored 7 or more, sorted by AI score, the same jobs as the filter keeps, with jobs of equal AI score kept in the filter's order; without it: the first ten of the new jobs sorted by keyword score; either way each candidate is a new job, differing at most in its AI fields |
| Pipeline.EvaluatedFromBatch | gemini_filter.py:251-271 | a job the AI filter keeps is a job of the batch with an evaluation attached |
| Pipeline.PostedAreNew | main.py:36-74 | the jobs posted come from the aggregated ones and have URLs the store had not seen |
| Pipeline.Run | main.py:8-94 | the new jobs are those of this run with unseen URLs, and the candidates are their ranking (AI or keyword, as the key decides). With no new job: nothing posted, no send, and the store exists with the same URLs. Otherwise: at most the first five candidates are posted, each with an unseen URL; the store gains the URLs of all new jobs, posted or not; one send per posted job with credentials, none without |
| Text.Strip | gemini_filter.py:149 | the result is a slice of the input with only whitespace around it, and it neither starts nor ends with whitespace |
| Text.StripIdempotent | gemini_filter.py:156 | stripping twice is stripping once |
| Text.Lower | aggregator.py:26 | lower-casing keeps the length, leaves no ASCII capital, changes only ASCII capitals, and maps each to its lower-case letter (code point plus 32) |
| Text.LinesJoin | telegram_poster.py:24 | joining lines without line breaks on "\n" and splitting again gives the lines back |
| Text.IntToStringRoundTrip | telegram_poster.py:39 | the decimal text of a score reads back as that score |

## Left out

- HTTP and scraping. The feed reader, the JSON API call, the HTML download and
  the link extraction are not modelled. Each connector starts from the
  sequence of records it would have read: `FeedEntry`, `MuseJob` or `Link`.
  Exceptions in fetching are out of scope too.
- The order in which `get_jobs` calls the connectors. As written, it calls two
  methods the class does not define (aggregator.py:188, 191). Also, `fetch_prsa`
  reads URL keys that config.py does not define. So do `fetch_themuse` and
  `fetch_entertainment_careers` (aggregator.py:111, 152), whose `try` blocks
  catch the error, so as shipped those two connectors collect nothing. So only
  the per-connector post-processing and the final sort are modelled.
- The Muse location names that are missing (`None`) would make the join raise.
  The model takes location names as strings.
- The language-model call, its prompt, the rate-limit sleep and `json.loads`.
  These are the parameters `ask(i, request)` (the reply to the i-th call, or
  the exception it raised) and `parse` (the decoded object or a decoding
  error).
  - For `score` and `recommendation`, a decoded value of the wrong kind is the
    `Unusable` case of the field. Examples are a score `int()` cannot convert,
    or a recommendation without `.upper()`.
  - Wrong-kind `reasoning`, `highlights` and `requirements` are not represented.
    Examples are `null`, a number, or a string where a list is expected. Python
    keeps such values (gemini_filter.py:164-166), and the message would then
    show them as printed: "None" for a null reasoning, and one bullet per
    character for a string list. The model takes `parse` to give these three
    fields the right kind or leave them absent.
  - The truncation of the description to 3000 characters only feeds the prompt,
    so it is not modelled.
- Printing and logging everywhere.
- File I/O of the seen store. The file is the abstract `Store`.
  - Errors other than a decoding error, and JSON that is not a list, are not
    modelled.
- SeenStore.Save: keeps the old URLs first (first occurrence), then the new ones.
  The source writes `list(set)`, whose order is unspecified. So the contract
  states only the set of URLs and that none is duplicated.
- The Telegram HTTP request. It is the parameter `send(i, attempt)`, which says
  whether the i-th send was delivered. The payload's parse mode and
  link-preview flags are not modelled.
- Telegram.MessageFields: states the fields the message shows, not the exact
  Markdown and emoji around them, whose rendering is out of scope.
- Python's Unicode behaviour of `.lower()`, `.upper()`, `.strip()` and of
  the regex classes `\d`, `\w` and `\b`. The model case-maps only ASCII
  letters, treats only ASCII digits as `\d`, and treats only ASCII letters,
  digits and `_` as word characters. Whitespace, for `.strip()` and `\s`, is
  the full set of Python's `str.isspace`, so that part is not left out.
- The helper scripts `debug_scraper.py`, `check_new_sources.py`,
  `check_lever.py` and `get_id.py`. They are network probes and debugging aids
  with no decision logic of the bot. The rest of `verify_extraction.py`, apart
  from `score_job_debug`, is a network probe too.
- Mutation of the job dictionaries in place. `filter_jobs` and `batch_evaluate`
  write the AI keys into the caller's dictionaries. The model returns annotated
  copies, so a job the filter rejects is not also changed in the caller's list.
