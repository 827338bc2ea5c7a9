/** The notification step (`post_to_telegram`): one Markdown message per
    job, sent through the Bot API. The HTTP request is a parameter
    `send(i, request)` that says whether the `i`-th send succeeded; the
    message text and the loop around the sends are modelled. */
module Telegram {
  import opened Wrappers
  import opened Text
  import opened Seqs
  import opened Postings

  const BULLET := "  • "
  const NO_KEY_POINTS := "  • See full listing for details"
  const STAR := "⭐"
  const NO_RATING := "N/A"
  const NO_ANALYSIS := "No AI analysis available"
  const KEY_POINT_LIMIT := 4

  // Fixed Markdown between the fields of a message.
  const TITLE_OPEN := "\U{1F4BC} *"
  const TITLE_CLOSE := "*\n\U{1F3E2} "
  const ANALYSIS_OPEN := "\n\n\U{1F916} *AI Analysis:*\n_"
  const ANALYSIS_CLOSE := "_\n\n\U{1F4CD} *Location:* "
  const KEY_POINTS_OPEN := "\n\n\U{1F4CB} *Key Points:*\n"
  const RATING_OPEN := "\n\n\U{1F3AF} *Match Rating:* "
  const LINK_OPEN := "\n\n\U{1F517} "

  /** The two environment variables; unset and empty both count as missing. */
  datatype Credentials = Credentials(token: Option<string>, chatId: Option<string>)

  predicate HasCredentials(c: Credentials) {
    c.token.Some? && c.token.value != "" && c.chatId.Some? && c.chatId.value != ""
  }

  /** One `sendMessage` call: endpoint, chat, text, and whether it went through. */
  datatype Attempt = Attempt(endpoint: string, chatId: string, text: string, delivered: bool)

  /** The lines of the key-points section, one per item. */
  function Bullets(items: seq<string>): (r: seq<string>)
    ensures |r| == |items|
    ensures forall i | 0 <= i < |items| :: r[i] == BULLET + items[i]
  {
    seq(|items|, i requires 0 <= i < |items| => BULLET + items[i])
  }

  /** The key-points section: the first four requirements if there are
      any, else the first four highlights, else a single placeholder line. */
  function KeyPoints(requirements: seq<string>, highlights: seq<string>): (r: string)
    ensures requirements == [] && highlights == [] ==> r == NO_KEY_POINTS
    ensures requirements != [] ==> r == Join(Bullets(Take(requirements, KEY_POINT_LIMIT)), "\n")
    ensures requirements == [] && highlights != [] ==> r == Join(Bullets(Take(highlights, KEY_POINT_LIMIT)), "\n")
    ensures requirements != [] && (forall x | x in Take(requirements, KEY_POINT_LIMIT) :: '\n' !in x) ==>
              Lines(r) == Bullets(Take(requirements, KEY_POINT_LIMIT))
    ensures requirements == [] && highlights != [] && (forall x | x in Take(highlights, KEY_POINT_LIMIT) :: '\n' !in x) ==>
              Lines(r) == Bullets(Take(highlights, KEY_POINT_LIMIT))
  {
    if requirements != [] then BulletSection(Take(requirements, KEY_POINT_LIMIT))
    else if highlights != [] then BulletSection(Take(highlights, KEY_POINT_LIMIT))
    else NO_KEY_POINTS
  }

  /** The bullet lines joined by line breaks; when no item holds a line
      break, splitting the section gives back exactly one line per item. */
  function BulletSection(items: seq<string>): (r: string)
    requires items != []
    ensures (forall x | x in items :: '\n' !in x) ==> Lines(r) == Bullets(items)
  {
    BulletsSplit(items);
    Join(Bullets(items), "\n")
  }

  lemma BulletsSplit(items: seq<string>)
    requires items != []
    ensures (forall x | x in items :: '\n' !in x) ==> Lines(Join(Bullets(items), "\n")) == Bullets(items)
  {
    var lines := Bullets(items);
    if forall x | x in items :: '\n' !in x {
      forall i | 0 <= i < |lines| ensures '\n' !in lines[i] {
        assert items[i] in items;
        assert lines[i] == BULLET + items[i];
      }
      LinesJoin(lines);
    }
  }

  /** The star rating: "N/A" for a score of 0, otherwise as many stars as
      the score, at most ten (none for a negative score, as Python's string
      repetition gives). */
  function Stars(score: int): (r: string)
    ensures score == 0 <==> r == NO_RATING
    ensures score != 0 ==> |r| == (if score < 0 then 0 else if score > 10 then 10 else score)
    ensures score != 0 ==> forall i | 0 <= i < |r| :: r[i] == STAR[0]
  {
    if score == 0 then NO_RATING
    else
      var n := if score > 10 then 10 else score;
      assert NO_RATING[0] != STAR[0];
      if n < 0 then "" else Repeat(STAR, n)
  }

  /** The reasoning shown: the AI's, or a placeholder without one. */
  function Reasoning(p: Posting): string {
    if p.ai.Some? then p.ai.value.reasoning else NO_ANALYSIS
  }

  /** The key points shown: from the AI's requirements and highlights, the
      placeholder line without an evaluation. */
  function KeyPointsOf(p: Posting): string {
    if p.ai.Some? then KeyPoints(p.ai.value.requirements, p.ai.value.highlights) else KeyPoints([], [])
  }

  /** The pieces of the message in order: fixed Markdown around the title,
      company, reasoning, location, key points, rating, stars and link. */
  function MessageParts(p: Posting): seq<string> {
    var rating := p.Rating();
    [ TITLE_OPEN, p.title, TITLE_CLOSE, p.company,
      ANALYSIS_OPEN, Reasoning(p), ANALYSIS_CLOSE, p.location.GetOr("Remote"),
      KEY_POINTS_OPEN, KeyPointsOf(p), RATING_OPEN, IntToString(rating), "/10 ", Stars(rating),
      LINK_OPEN, "[Apply Here](", p.url, ")" ]
  }

  /** The message for one job. */
  function Message(p: Posting): string {
    Join(MessageParts(p), "")
  }

  /** What a message shows: the title, the company, the location ("Remote"
      when absent), the rating out of ten and its stars, and it ends with the
      link to apply. */
  lemma MessageFields(p: Posting)
    ensures Contains(Message(p), p.title)
    ensures Contains(Message(p), p.company)
    ensures Contains(Message(p), p.location.GetOr("Remote"))
    ensures Contains(Message(p), IntToString(p.Rating()) + "/10 " + Stars(p.Rating()))
    ensures EndsWith(Message(p), "[Apply Here](" + p.url + ")")
  {
    var parts := MessageParts(p);
    assert |parts| == 18;
    JoinContains(parts, 1);
    JoinContains(parts, 3);
    JoinContains(parts, 7);
    JoinContainsRun(parts, 11, 14);
    assert parts[11..14] == [IntToString(p.Rating()), "/10 ", Stars(p.Rating())];
    JoinThree(IntToString(p.Rating()), "/10 ", Stars(p.Rating()));
    JoinSplit(parts, 15);
    assert parts[15..] == ["[Apply Here](", p.url, ")"];
    JoinThree("[Apply Here](", p.url, ")");
    var last := parts[15..];
    var m := Message(p);
    assert m[|m| - |Join(last, "")|..] == Join(last, "");
  }

  lemma JoinThree(a: string, b: string, c: string)
    ensures Join([a, b, c], "") == a + b + c
  {
    JoinCons([a, b, c]);
    assert [a, b, c][1..] == [b, c];
    JoinCons([b, c]);
    assert [b, c][1..] == [c];
    assert c + "" == c;
  }

  /** The Bot API endpoint for a token. */
  function Endpoint(token: string): string {
    "https://api.telegram.org/bot" + token + "/sendMessage"
  }

  /** `post_to_telegram(jobs)`: without both credentials nothing is sent;
      otherwise exactly one message per job, in order, and a failed send
      does not stop the jobs after it. */
  method PostToTelegram(c: Credentials, jobs: seq<Posting>, send: (nat, Attempt) -> bool)
    returns (attempts: seq<Attempt>)
    ensures !HasCredentials(c) ==> attempts == []
    ensures HasCredentials(c) ==> |attempts| == |jobs|
    ensures HasCredentials(c) ==> forall i | 0 <= i < |jobs| ::
              && attempts[i].text == Message(jobs[i])
              && attempts[i].endpoint == Endpoint(c.token.value)
              && attempts[i].chatId == c.chatId.value
              && attempts[i].delivered == send(i, attempts[i].(delivered := false))
  {
    if !HasCredentials(c) {
      return [];
    }
    var token, chat := c.token.value, c.chatId.value;
    attempts := [];
    var i := 0;
    while i < |jobs|
      invariant 0 <= i <= |jobs| && |attempts| == i
      invariant forall k | 0 <= k < i ::
                  && attempts[k].text == Message(jobs[k])
                  && attempts[k].endpoint == Endpoint(token)
                  && attempts[k].chatId == chat
                  && attempts[k].delivered == send(k, attempts[k].(delivered := false))
    {
      var request := Attempt(Endpoint(token), chat, Message(jobs[i]), false);
      var ok := send(i, request);
      attempts := attempts + [request.(delivered := ok)];
      i := i + 1;
    }
  }
}
