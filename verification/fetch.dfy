/** The paginated fetch of `src/utils/fetch_data.py`: `api_call` builds the
    request variables for one page, and `fetch_from` walks the pages of one
    (year, season) unit until the last page, a failure, or the rate limit.

    The network is a parameter: `replies[p - 1]` is what the request for page
    `p` gets back, `None` when `api_call` swallowed a request exception (or no
    reply is given for that page). Sleeping and logging are left out. */
module Fetch {
  import opened Basics
  import opened Records

  /** The `variables` object of one request. */
  datatype Variables = Variables(
    page: int, perPage: int, seasonYear: int, season: string, sort: string, kind: string)

  /** The variables `api_call` sends for one page. */
  function ApiVariables(year: int, season: string, page: int): (v: Variables)
    ensures v.page == page && v.seasonYear == year && v.season == season
    ensures v.perPage == 50 && v.sort == "ID" && v.kind == "ANIME"
  {
    Variables(page, 50, year, season, "ID", "ANIME")
  }

  /** A key lookup in a decoded JSON object: the key is missing, maps to
      null, or maps to a value. */
  datatype Field<T> = Absent | JsonNull | Present(value: T)

  /** A response body: not JSON at all, or the two things `fetch_from` reads
      from `data.Page`. */
  datatype Body = Unparseable | Json(media: Field<seq<Media>>, hasNextPage: Field<bool>)

  /** A response: status code, the two rate-limit headers (`None` when missing
      or not an integer), and the body. */
  datatype Reply = Reply(status: int, remaining: Option<int>, limit: Option<int>, body: Body)

  /** What the reply for page `page` is. */
  function ReplyAt(replies: seq<Option<Reply>>, page: int): Option<Reply> {
    if 1 <= page <= |replies| then replies[page - 1] else None
  }

  /** What one iteration of the loop does with a reply: leave the loop
      (`break`), let an exception out, return the quota pair for an empty
      page, or append the page and stop or go on. */
  datatype Step = Stop | Crash | NoEntries(remaining: int, limit: int) | LastPage(media: seq<Media>) | NextPage(media: seq<Media>)

  /** The rate-limit test of the loop. */
  predicate Throttled(status: int, remaining: int) {
    status == 429 || remaining < 20
  }

  function Classify(reply: Option<Reply>): (s: Step)
    ensures s.NoEntries? <==>
              reply.Some? && reply.value.remaining.Some? && reply.value.limit.Some?
              && !Throttled(reply.value.status, reply.value.remaining.value)
              && reply.value.body.Json? && reply.value.body.media == Present([])
    ensures s.NoEntries? ==> s.remaining == reply.value.remaining.value && s.limit == reply.value.limit.value
    ensures (s.LastPage? || s.NextPage?) ==> |s.media| > 0
  {
    if reply.None? then Stop
    else
      var r := reply.value;
      if r.remaining.None? || r.limit.None? then Stop
      else if Throttled(r.status, r.remaining.value) then Stop
      else if r.body.Unparseable? then Crash
      else if !r.body.media.Present? then Crash
      else if |r.body.media.value| == 0 then NoEntries(r.remaining.value, r.limit.value)
      else if r.body.hasNextPage.Absent? then Crash
      else if r.body.hasNextPage == Present(true) then NextPage(r.body.media.value)
      else LastPage(r.body.media.value)
  }

  /** What `fetch_from` returns: the concatenated frame, the pair
      `(remaining, limit)` when a page came back empty, `None` when nothing
      was gathered, or an exception. */
  datatype FetchOutcome = Frame(media: seq<Media>) | Quota(remaining: int, limit: int) | Nothing | Raises

  /** `pl.concat(data)`: fails, and the function falls off its end, when no
      page was gathered. */
  function Finish(data: seq<seq<Media>>): FetchOutcome {
    if |data| == 0 then Nothing else Frame(Flatten(data))
  }

  /** The loop from page `page` on, with the pages gathered so far. */
  function Run(replies: seq<Option<Reply>>, page: nat, data: seq<seq<Media>>): FetchOutcome
    decreases |replies| + 1 - page
  {
    match Classify(ReplyAt(replies, page))
    case Stop => Finish(data)
    case Crash => Raises
    case NoEntries(remaining, limit) => Quota(remaining, limit)
    case LastPage(media) => Finish(data + [media])
    case NextPage(media) => Run(replies, page + 1, data + [media])
  }

  function FetchAll(replies: seq<Option<Reply>>): FetchOutcome {
    Run(replies, 1, [])
  }

  /** `fetch_from` as the source writes it: a loop over pages that appends
      each page's media and records the request it sent. */
  method FetchFrom(year: int, season: string, replies: seq<Option<Reply>>)
    returns (outcome: FetchOutcome, requests: seq<Variables>)
    ensures outcome == FetchAll(replies)
    ensures 1 <= |requests| <= |replies| + 1
    ensures forall i :: 0 <= i < |requests| ==> requests[i] == ApiVariables(year, season, i + 1)
    ensures forall i :: 0 <= i < |requests| ==>
              && requests[i].page == i + 1 && requests[i].perPage == 50
              && requests[i].seasonYear == year && requests[i].season == season
              && requests[i].sort == "ID" && requests[i].kind == "ANIME"
  {
    var data: seq<seq<Media>> := [];
    var page: nat := 1;
    requests := [];
    while true
      invariant 1 <= page <= |replies| + 1
      invariant |requests| == page - 1
      invariant forall i :: 0 <= i < |requests| ==> requests[i] == ApiVariables(year, season, i + 1)
      invariant Run(replies, page, data) == FetchAll(replies)
      decreases |replies| + 1 - page
    {
      requests := requests + [ApiVariables(year, season, page)];
      var step := Classify(ReplyAt(replies, page));
      if step.Stop? {
        break;
      } else if step.Crash? {
        return Raises, requests;
      } else if step.NoEntries? {
        return Quota(step.remaining, step.limit), requests;
      }
      data := data + [step.media];
      if step.LastPage? {
        break;
      }
      page := page + 1;
    }
    outcome := Finish(data);
  }

  /* ---------------------------------------------------------------------
     What a run promises
     --------------------------------------------------------------------- */

  /** Pages `1 .. k - 1` all came back full and asked for more. */
  predicate MoreUpTo(replies: seq<Option<Reply>>, k: nat) {
    forall p :: 1 <= p < k ==> Classify(ReplyAt(replies, p)).NextPage?
  }

  /** The media of pages `1 .. k - 1`. */
  function PagesBefore(replies: seq<Option<Reply>>, k: nat): (pages: seq<seq<Media>>)
    requires MoreUpTo(replies, k)
    ensures |pages| == if k == 0 then 0 else k - 1
  {
    seq(if k == 0 then 0 else k - 1, i requires 0 <= i < (if k == 0 then 0 else k - 1) =>
      Classify(ReplyAt(replies, i + 1)).media)
  }

  lemma {:induction false} RunPrefix(replies: seq<Option<Reply>>, k: nat)
    requires 1 <= k && MoreUpTo(replies, k)
    ensures FetchAll(replies) == Run(replies, k, PagesBefore(replies, k))
    decreases k
  {
    if k > 1 {
      RunPrefix(replies, k - 1);
      var before := PagesBefore(replies, k - 1);
      assert Classify(ReplyAt(replies, k - 1)).NextPage?;
      assert before + [Classify(ReplyAt(replies, k - 1)).media] == PagesBefore(replies, k);
    } else {
      assert PagesBefore(replies, 1) == [];
    }
  }

  /** Once pages `1 .. k - 1` asked for more, page `k` decides the result:
      a failed or throttled request keeps the earlier pages and drops page
      `k`; an exception escapes; an empty page discards everything gathered;
      a last page completes the frame with all pages in order. */
  lemma FetchAt(replies: seq<Option<Reply>>, k: nat)
    requires 1 <= k && MoreUpTo(replies, k)
    ensures Classify(ReplyAt(replies, k)).Stop? ==> FetchAll(replies) == Finish(PagesBefore(replies, k))
    ensures Classify(ReplyAt(replies, k)).Crash? ==> FetchAll(replies) == Raises
    ensures Classify(ReplyAt(replies, k)).NoEntries? ==>
              FetchAll(replies) == Quota(Classify(ReplyAt(replies, k)).remaining, Classify(ReplyAt(replies, k)).limit)
    ensures Classify(ReplyAt(replies, k)).LastPage? ==>
              FetchAll(replies) == Frame(Flatten(PagesBefore(replies, k) + [Classify(ReplyAt(replies, k)).media]))
  {
    RunPrefix(replies, k);
  }

  /** A throttled first request gathers nothing: the result is `None`. */
  lemma ThrottledFirstPage(replies: seq<Option<Reply>>)
    requires 1 <= |replies| && replies[0].Some?
    requires replies[0].value.remaining.Some? && replies[0].value.limit.Some?
    requires Throttled(replies[0].value.status, replies[0].value.remaining.value)
    ensures FetchAll(replies) == Nothing
  {
  }

  /** An empty page after full pages still gives the quota pair: the pages
      already gathered are thrown away, not returned. */
  lemma EmptyLaterPage()
    ensures
      var full := Reply(200, Some(80), Some(90), Json(Present([TestMedia]), Present(true)));
      var empty := Reply(200, Some(79), Some(90), Json(Present([]), Present(false)));
      FetchAll([Some(full), Some(empty)]) == Quota(79, 90)
  {
    var full := Reply(200, Some(80), Some(90), Json(Present([TestMedia]), Present(true)));
    var empty := Reply(200, Some(79), Some(90), Json(Present([]), Present(false)));
    var replies := [Some(full), Some(empty)];
    assert Classify(ReplyAt(replies, 1)) == NextPage([TestMedia]);
    assert Classify(ReplyAt(replies, 2)) == NoEntries(79, 90);
    assert Run(replies, 2, [[TestMedia]]) == Quota(79, 90);
    var none: seq<seq<Media>> := [];
    assert none + [[TestMedia]] == [[TestMedia]];
    assert Run(replies, 1, none) == Run(replies, 2, none + [[TestMedia]]);
  }

  const TestMedia: Media := Media(
    Some(1), Some("FALL"), Some(2020), None, None, None, None, None, None, None, None, None,
    None, None, None, Null, None, None, None, None, None)

  /** The frame, when there is one, is never empty, and the quota pair comes
      only from an empty page. */
  lemma {:induction false} RunResults(replies: seq<Option<Reply>>, page: nat, data: seq<seq<Media>>)
    requires forall i :: 0 <= i < |data| ==> |data[i]| > 0
    ensures Run(replies, page, data).Frame? ==> |Run(replies, page, data).media| > 0
    ensures Run(replies, page, data).Quota? ==>
              exists p :: page <= p && Classify(ReplyAt(replies, p)) ==
                NoEntries(Run(replies, page, data).remaining, Run(replies, page, data).limit)
    decreases |replies| + 1 - page
  {
    var step := Classify(ReplyAt(replies, page));
    match step
    case Stop =>
      if |data| > 0 {
        FlattenLength(data);
      }
    case Crash =>
    case NoEntries(_, _) =>
    case LastPage(media) =>
      FlattenLength(data + [media]);
    case NextPage(media) =>
      RunResults(replies, page + 1, data + [media]);
  }

  lemma FetchResults(replies: seq<Option<Reply>>)
    ensures FetchAll(replies).Frame? ==> |FetchAll(replies).media| > 0
    ensures FetchAll(replies).Quota? ==>
              exists p :: 1 <= p && Classify(ReplyAt(replies, p)) ==
                NoEntries(FetchAll(replies).remaining, FetchAll(replies).limit)
  {
    RunResults(replies, 1, []);
  }

  /* ---------------------------------------------------------------------
     The throttle message
     --------------------------------------------------------------------- */

  /** The message the loop prints when throttled, around the count it shows
      after the slash. */
  function ThrottleHead(remaining: int): string {
    "Rate limit exceeded (" + IntText(remaining) + "/"
  }

  function ThrottleTail(page: int): string {
    "). Stopping at page " + IntText(page) + ".\nTrying again in 300 seconds."
  }

  /** The message as written: the remaining count appears on both sides of
      the slash. */
  function ThrottleMessageAsWritten(remaining: int, limit: int, page: int): string {
    ThrottleHead(remaining) + IntText(remaining) + ThrottleTail(page)
  }

  /** The limit does not reach the message as written. */
  lemma ThrottleMessageIgnoresLimit()
    ensures ThrottleMessageAsWritten(5, 90, 1) == ThrottleMessageAsWritten(5, 30, 1)
  {
  }

  /** The message with `remaining/limit`, as the summary line prints them. */
  function ThrottleMessage(remaining: int, limit: int, page: int): string {
    ThrottleHead(remaining) + IntText(limit) + ThrottleTail(page)
  }

  lemma NatTextInjective(a: nat, b: nat)
    requires NatText(a) == NatText(b)
    ensures a == b
  {
    ReadNatText(a);
    ReadNatText(b);
  }

  /** Equal texts with a common head and tail have equal middles. */
  lemma CancelAround(head: string, a: string, b: string, tail: string)
    requires head + a + tail == head + b + tail
    ensures a == b
  {
    var x, y := head + a + tail, head + b + tail;
    assert |a| == |b|;
    assert a == x[|head|..|head| + |a|];
    assert b == y[|head|..|head| + |b|];
  }

  /** The corrected message tells limits apart. */
  lemma ThrottleMessageShowsLimit(remaining: int, l1: nat, l2: nat, page: int)
    requires ThrottleMessage(remaining, l1, page) == ThrottleMessage(remaining, l2, page)
    ensures l1 == l2
  {
    CancelAround(ThrottleHead(remaining), IntText(l1), IntText(l2), ThrottleTail(page));
    NatTextInjective(l1, l2);
  }
}
