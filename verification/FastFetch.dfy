/**
 * Fast Fetch: the remote changes feed is streamed in bounded pages into the local database, in batches, and a
 * checkpoint is kept from which a later attempt resumes. A script answers for the outside world: what the feed
 * gained meanwhile, and how each request, write and save goes. Where the script ends, the process stops.
 */
module FastFetch {

  import opened Options
  import opened ChangesFeed

  datatype Doc = Doc(revision: int, deleted: bool, size: nat)

  /** A change may be listed without its document. */
  type DocRow = Row<Option<Doc>>

  type DocFeed = Feed<Option<Doc>>

  /** Every document listed in front of a position is among `stored`. */
  ghost predicate Holds(feed: DocFeed, upTo: nat, stored: set<DocRow>) {
    upTo <= |feed| && forall i | 0 <= i < upTo && Current(feed, i) && feed[i].value.Some? :: feed[i] in stored
  }

  /** What is held stays held while the feed grows and more is stored. */
  lemma HoldsStays(feed: DocFeed, upTo: nat, stored: set<DocRow>, feed': DocFeed, stored': set<DocRow>)
    requires Holds(feed, upTo, stored) && feed <= feed' && stored <= stored'
    ensures Holds(feed', upTo, stored')
  {
    forall i | 0 <= i < upTo && Current(feed', i) && feed'[i].value.Some?
      ensures feed'[i] in stored'
    {
      CurrentBefore(feed, feed', i);
    }
  }

  /** Positions with nothing listed in between hold the same. */
  lemma HoldsAcrossGap(feed: DocFeed, upTo: nat, further: nat, stored: set<DocRow>)
    requires Holds(feed, upTo, stored) && upTo <= further <= |feed|
    requires forall k | upTo <= k < further :: !Current(feed, k)
    ensures Holds(feed, further, stored)
  {
  }

  lemma HoldsNext(feed: DocFeed, at: nat, stored: set<DocRow>)
    requires at < |feed| && Holds(feed, at, stored) && (feed[at].value.Some? ==> feed[at] in stored)
    ensures Holds(feed, at + 1, stored)
  {
  }

  lemma {:induction false} CountAcrossGap(feed: DocFeed, from: nat, until: nat)
    requires from <= until <= |feed| && forall k | from <= k < until :: !Current(feed, k)
    ensures CountCurrent(feed, from) == CountCurrent(feed, until)
    decreases until
  {
    if from < until {
      CountAcrossGap(feed, from, until - 1);
    }
  }

  // ----- failures -----

  datatype Stage = Transport | Authentication | Protocol | Decryption | Storage

  datatype Failure = Failure(stage: Stage, retryable: bool)

  /** responseFailure: a timeout, too many requests and a failing server are tried again. */
  function ResponseFailure(status: nat): (f: Failure)
    ensures f.stage.Authentication? <==> status in {401, 403}
    ensures f.retryable <==> status in {408, 429} || status >= 500
    ensures f.stage == if f.retryable then Transport else if status in {401, 403} then Authentication else Protocol
  {
    if status == 401 || status == 403 then Failure(Authentication, false)
    else
      var retryable := status == 408 || status == 429 || status >= 500;
      Failure(if retryable then Transport else Protocol, retryable)
  }

  // ----- the script -----

  const BATCH_ITEM_LIMIT := 100
  const BATCH_SIZE_LIMIT := 2 * 1024 * 1024
  const PAGE_LIMIT := 10000
  const RETRIES := 4

  datatype Answer =
    | Fine
    | Broken              // the request, the stream or the write fails
    | Http(status: nat)   // an unsuccessful response
    | Invalid             // an answer that cannot be understood, or a document that cannot be decrypted
    | Terminator(skip: nat) // the page ends with its last_seq line, which may lie some superseded changes further
    | EndOfStream         // the stream ends without it
    | Partial(n: nat)     // a write that fails after some documents, or a save that fails after storing

  /** A terminator that comes where no line is awaited is a success like any other. */
  predicate Succeeds(answer: Answer) {
    answer.Fine? || answer.Terminator?
  }

  datatype Event = Event(appended: DocFeed, answer: Answer)

  function FeedAfter(feed: DocFeed, events: seq<Event>): DocFeed {
    if events == [] then feed else FeedAfter(feed, events[..|events| - 1]) + events[|events| - 1].appended
  }

  lemma OneMoreEvent(feed: DocFeed, events: seq<Event>, e: Event)
    ensures FeedAfter(feed, events + [e]) == FeedAfter(feed, events) + e.appended
  {
    assert (events + [e])[..|events|] == events;
  }

  /** Where the feed has grown, an event has appended something. */
  lemma {:induction false} GrowthShows(feed: DocFeed, past0: seq<Event>, past: seq<Event>)
    requires past0 <= past
    ensures FeedAfter(feed, past) == FeedAfter(feed, past0) || exists i :: |past0| <= i < |past| && past[i].appended != []
  {
    if past != past0 {
      assert past0 <= past[..|past| - 1];
      GrowthShows(feed, past0, past[..|past| - 1]);
      assert past[|past| - 1].appended == [] ==> FeedAfter(feed, past) == FeedAfter(feed, past[..|past| - 1]);
    } else {
      assert past == past0;
    }
  }

  datatype Moment = Moment(feed: DocFeed, past: seq<Event>, script: seq<Event>, local: set<DocRow>)

  predicate IsPlayed(m: Moment, m': Moment) {
    m.feed <= m'.feed && m.past <= m'.past && m'.past + m'.script == m.past + m.script
  }

  predicate Continues(m: Moment, m': Moment) {
    IsPlayed(m, m') && m.local <= m'.local
  }

  /** Exactly so many events have come, and the feed is the same. */
  predicate RanOver(m: Moment, m': Moment, events: nat) {
    m'.feed == m.feed && events <= |m.script| && m'.script == m.script[events..]
  }

  lemma RanOne(m: Moment, m': Moment)
    requires RanOver(m, m', 1)
    ensures m'.feed == m.feed && m.script != [] && m'.script == m.script[1..]
  {
  }

  lemma RanOn(m: Moment, m': Moment, m'': Moment, n: nat, n': nat)
    requires RanOver(m, m', n) && RanOver(m', m'', n')
    ensures RanOver(m, m'', n + n')
  {
    assert m.script[n..][n'..] == m.script[n + n'..];
  }

  /** So far a page has gone as well as it promised to. */
  predicate GoesWell(m: Moment, end: PageEnd, m': Moment, at: nat, rows: nat, limit: nat, items: nat, bytes: nat) {
    && |m'.script| <= |m.script| && RanOver(m, m', |m.script| - |m'.script|) && at <= |m'.feed|
    && |m.script| - |m'.script| < end.events
    && GoodLines(m'.feed, at, rows, limit, items, bytes, m'.script) == Some(end.(events := end.events - (|m.script| - |m'.script|)))
  }

  /** What the next line has to be, and what it leads to. */
  lemma NextLineGoesWell(m: Moment, end: PageEnd, m': Moment, at: nat, rows: nat, limit: nat, items: nat, bytes: nat)
    requires GoesWell(m, end, m', at, rows, limit, items, bytes)
    ensures m'.script != [] && m'.script[0].appended == [] && Succeeds(m'.script[0].answer)
    ensures var next := NextRow(m'.feed, at);
            if m'.script[0].answer.Terminator? then
              && rows > 0 && StartsCalm(m'.script[1..], FlushEvents(items) + 1)
              && end.position == (if at + m'.script[0].answer.skip < next then at + m'.script[0].answer.skip else next)
              && end.events == |m.script| - |m'.script| + 1 + FlushEvents(items) + 1
            else
              var events := if next == |m'.feed| then 0 else RowEvents(m'.feed[next].value, items, bytes);
              (next < |m'.feed| ==> rows < limit) && StartsCalm(m'.script[1..], events)
  {
    NextGoodLine(m'.feed, at, rows, limit, items, bytes, m'.script, end.(events := end.events - (|m.script| - |m'.script|)));
  }

  lemma LineWentWell(m: Moment, end: PageEnd, m1: Moment, at: nat, rows: nat, limit: nat, items: nat, bytes: nat, m2: Moment)
    requires GoesWell(m, end, m1, at, rows, limit, items, bytes) && m1.script != [] && m1.script[0].answer.Fine?
    requires var next := NextRow(m1.feed, at);
             RanOver(m1, m2, 1 + if next == |m1.feed| then 0 else RowEvents(m1.feed[next].value, items, bytes))
    ensures var next := NextRow(m1.feed, at);
            if next == |m1.feed| then GoesWell(m, end, m2, next, rows, limit, items, bytes)
            else
              var row := m1.feed[next].value;
              GoesWell(m, end, m2, next + 1, rows + 1, limit, ItemsAfter(row, items, bytes), BytesAfter(row, items, bytes))
  {
    hide GoodLines, RowEvents, ItemsAfter, BytesAfter, StartsCalm, FlushEvents, Current;
    var next := NextRow(m1.feed, at);
    var left := end.(events := end.events - (|m.script| - |m1.script|));
    var events := 1 + if next == |m1.feed| then 0 else RowEvents(m1.feed[next].value, items, bytes);
    NextGoodLine(m1.feed, at, rows, limit, items, bytes, m1.script, left);
    RanOn(m, m1, m2, |m.script| - |m1.script|, events);
    assert m1.script[1..][events - 1..] == m1.script[events..] == m2.script;
    assert |m.script| - |m2.script| == |m.script| - |m1.script| + events;
    assert left.(events := left.events - events) == end.(events := end.events - (|m.script| - |m2.script|));
  }

  lemma TerminatorWentWell(m: Moment, end: PageEnd, m1: Moment, at: nat, rows: nat, limit: nat, items: nat, bytes: nat, m2: Moment, m3: Moment)
    requires GoesWell(m, end, m1, at, rows, limit, items, bytes) && m1.script != [] && m1.script[0].answer.Terminator?
    requires RanOver(m1, m2, 1) && RanOver(m2, m3, FlushEvents(items) + 1)
    ensures RanOver(m, m3, end.events)
  {
    hide GoodLines;
    NextLineGoesWell(m, end, m1, at, rows, limit, items, bytes);
    RanOn(m1, m2, m3, 1, FlushEvents(items) + 1);
    RanOn(m, m1, m3, |m.script| - |m1.script|, 1 + (FlushEvents(items) + 1));
  }

  lemma OnlyGrows(m: Moment, m': Moment)
    requires Continues(m, m')
    ensures m.feed <= m'.feed && m.past <= m'.past && m.local <= m'.local
  {
  }

  lemma ContinuesOn(m: Moment, m': Moment, m'': Moment)
    requires Continues(m, m') && Continues(m', m'')
    ensures Continues(m, m'') && |m''.script| <= |m'.script|
  {
    assert |m''.past| + |m''.script| == |m'.past| + |m'.script|;
  }

  function LimitOf(available: nat): nat {
    if available < PAGE_LIMIT then available else PAGE_LIMIT
  }

  /** Changes may have been appended, or so many events have come. */
  ghost predicate Overlong(past: seq<Event>, n: nat) {
    |past| > n + PAGE_LIMIT || exists i :: n <= i < |past| && past[i].appended != []
  }

  ghost predicate SomethingFailed(past: seq<Event>, n: nat) {
    exists i :: n <= i < |past| && !Succeeds(past[i].answer)
  }

  lemma FailedEarlier(past: seq<Event>, n: nat, n': nat)
    requires n <= n'
    ensures SomethingFailed(past, n') ==> SomethingFailed(past, n)
  {
  }

  /**
   * Since the `n`-th event something has failed; or a page was too long, because the feed has grown since it was
   * counted or because it is at the limit; or a page ended without a single row.
   */
  ghost predicate WentWrong(failure: Failure, past: seq<Event>, n: nat, rows: nat) {
    || SomethingFailed(past, n)
    || (failure == Failure(Protocol, false) && Overlong(past, n))
    || (failure == Failure(Transport, true) && rows == 0 && exists i :: n <= i < |past| && past[i].answer.Terminator?)
  }

  lemma StillWrong(failure: Failure, past: seq<Event>, n: nat, past': seq<Event>, n': nat, rows: nat)
    requires WentWrong(failure, past, n, rows) && past <= past' && n' <= n
    ensures WentWrong(failure, past', n', rows)
  {
    assert forall i | 0 <= i < |past| :: past'[i] == past[i];
  }

  /** A page that began at a moment has come up to a position; while the feed does not grow, it brings no more than was counted before it. */
  ghost predicate InPage(m0: Moment, pageSince: nat, m: Moment, at: nat, rows: nat) {
    && pageSince <= |m0.feed| && Continues(m0, m) && |m.past| > |m0.past| + rows && at <= |m.feed|
    && (m.feed == m0.feed ==> rows + CountCurrent(m.feed, at) == CountCurrent(m0.feed, pageSince))
  }

  lemma StillInPage(m0: Moment, pageSince: nat, m: Moment, at: nat, rows: nat, m': Moment)
    requires InPage(m0, pageSince, m, at, rows) && Continues(m, m')
    ensures InPage(m0, pageSince, m', at, rows)
  {
    if m'.feed == m0.feed {
      assert m.feed == m0.feed;
    }
  }

  lemma FurtherInPage(m0: Moment, pageSince: nat, m: Moment, at: nat, rows: nat)
    requires InPage(m0, pageSince, m, at, rows)
    ensures InPage(m0, pageSince, m, NextRow(m.feed, at), rows)
  {
    CountAcrossGap(m.feed, at, NextRow(m.feed, at));
  }

  lemma RowOfPage(m0: Moment, pageSince: nat, m: Moment, at: nat, rows: nat)
    requires InPage(m0, pageSince, m, at, rows) && |m.past| > |m0.past| + rows + 1 && at < |m.feed| && Current(m.feed, at)
    ensures InPage(m0, pageSince, m, at + 1, rows + 1)
  {
  }

  lemma PageIsOverlong(start: DocFeed, m0: Moment, pageSince: nat, m: Moment, at: nat, rows: nat)
    requires InPage(m0, pageSince, m, at, rows) && m0.feed == FeedAfter(start, m0.past) && m.feed == FeedAfter(start, m.past)
    requires at < |m.feed| && Current(m.feed, at) && rows >= LimitOf(CountCurrent(m0.feed, pageSince))
    ensures Overlong(m.past, |m0.past|)
  {
    hide FeedAfter;
    GrowthShows(start, m0.past, m.past);
  }

  // ----- scripts that go well -----

  /** Nothing fails, and nothing is appended. */
  predicate IsCalm(e: Event) {
    e.appended == [] && Succeeds(e.answer)
  }

  predicate StartsCalm(script: seq<Event>, n: nat) {
    n <= |script| && forall i | 0 <= i < n :: IsCalm(script[i])
  }

  /** A batch that is not empty is written and its position saved. */
  function FlushEvents(items: nat): nat {
    if items == 0 then 0 else 2
  }

  predicate IsFull(items: nat, bytes: nat) {
    items >= 100 || bytes >= 2 * 1024 * 1024
  }

  /** The calls for a row: a live document is decrypted, a full batch flushed; without a document the batch is flushed and the position saved. */
  function RowEvents(row: Option<Doc>, items: nat, bytes: nat): nat {
    if row.None? then FlushEvents(items) + 1
    else (if row.value.deleted then 0 else 1) + if IsFull(items + 1, bytes + row.value.size) then 2 else 0
  }

  function ItemsAfter(row: Option<Doc>, items: nat, bytes: nat): nat {
    if row.None? || IsFull(items + 1, bytes + row.value.size) then 0 else items + 1
  }

  function BytesAfter(row: Option<Doc>, items: nat, bytes: nat): nat {
    if row.None? || IsFull(items + 1, bytes + row.value.size) then 0 else bytes + row.value.size
  }

  /** Where a page ended, and how many events it took. */
  datatype PageEnd = PageEnd(position: nat, events: nat)

  /**
   * The lines of a page that goes well: at least one row and at most `limit`, whose calls succeed, and the terminator.
   * `items` and `bytes` are what is in the batch.
   */
  function GoodLines(feed: DocFeed, at: nat, rows: nat, limit: nat, items: nat, bytes: nat, script: seq<Event>): (end: Option<PageEnd>)
    requires at <= |feed|
    ensures end.Some? ==> 0 < end.value.events <= |script| && at <= end.value.position <= |feed|
    decreases |script|
  {
    var next := NextRow(feed, at);
    if script == [] || !IsCalm(script[0]) then None
    else if script[0].answer.Terminator? then
      var events := 2 + FlushEvents(items);
      if rows == 0 || !StartsCalm(script, events) then None
      else Some(PageEnd(if at + script[0].answer.skip < next then at + script[0].answer.skip else next, events))
    else if next == |feed| then Longer(GoodLines(feed, next, rows, limit, items, bytes, script[1..]), 1)
    else
      var row := feed[next].value;
      var events := 1 + RowEvents(row, items, bytes);
      if rows >= limit || !StartsCalm(script, events) then None
      else Longer(GoodLines(feed, next + 1, rows + 1, limit, ItemsAfter(row, items, bytes), BytesAfter(row, items, bytes), script[events..]), events)
  }

  function Longer(end: Option<PageEnd>, events: nat): Option<PageEnd> {
    if end.None? then None else Some(end.value.(events := end.value.events + events))
  }

  /** A page with its request. */
  function GoodPage(feed: DocFeed, since: nat, limit: nat, script: seq<Event>): (end: Option<PageEnd>)
    requires since <= |feed|
    ensures end.Some? ==> 0 < end.value.events <= |script| && end.value.position <= |feed|
  {
    if !StartsCalm(script, 1) then None else Longer(GoodLines(feed, since, 0, limit, 0, 0, script[1..]), 1)
  }

  /** Probes and pages, up to a probe that finds nothing more. */
  predicate GoodPages(feed: DocFeed, since: nat, script: seq<Event>)
    requires since <= |feed|
    decreases |script|
  {
    && StartsCalm(script, 1)
    && (CountCurrent(feed, since) > 0 ==>
          var available := CountCurrent(feed, since);
          var page := GoodPage(feed, since, if available < 10000 then available else 10000, script[1..]);
          page.Some? && GoodPages(feed, page.value.position, script[1 + page.value.events..]))
  }

  /** A whole attempt: the target, and the pages. */
  predicate GoodRun(feed: DocFeed, since: nat, script: seq<Event>) {
    since <= |feed| && StartsCalm(script, 1) && GoodPages(feed, since, script[1..])
  }

  /** A request that fails and may be tried again. */
  predicate IsRetried(e: Event) {
    && e.appended == []
    && match e.answer
       case Http(status) => status == 408 || status == 429 || status >= 500
       case Broken => true
       case EndOfStream => true
       case Partial(_) => true
       case _ => false
  }

  /** Some attempts whose first request fails, and one that goes well. */
  predicate GoodAfter(feed: DocFeed, since: nat, script: seq<Event>, failures: nat) {
    if failures == 0 then GoodRun(feed, since, script)
    else script != [] && IsRetried(script[0]) && GoodAfter(feed, since, script[1..], failures - 1)
  }

  /** After so many failed attempts, the others are still to come. */
  ghost predicate IsPlanned(feed0: DocFeed, since0: nat, script0: seq<Event>, attempts: nat, feed: DocFeed, since: nat, script: seq<Event>) {
    forall failures: nat | GoodAfter(feed0, since0, script0, failures) ::
      attempts <= failures && GoodAfter(feed, since, script, failures - attempts)
  }

  lemma PlanStarts(feed: DocFeed, since: nat, script: seq<Event>)
    ensures IsPlanned(feed, since, script, 0, feed, since, script)
  {
  }

  lemma NextAttempt(feed0: DocFeed, since0: nat, script0: seq<Event>, attempts: nat, feed: DocFeed, since: nat, script: seq<Event>,
                    feed': DocFeed, since': nat, script': seq<Event>)
    requires IsPlanned(feed0, since0, script0, attempts, feed, since, script)
    ensures forall failures: nat | GoodAfter(feed0, since0, script0, failures) ::
              attempts <= failures && if failures == attempts then GoodRun(feed, since, script) else script != [] && IsRetried(script[0])
    ensures !GoodRun(feed, since, script) && (script != [] && IsRetried(script[0]) ==> feed' == feed && since' == since && script' == script[1..]) ==>
              IsPlanned(feed0, since0, script0, attempts + 1, feed', since', script')
  {
    hide GoodRun, IsRetried;
    forall failures: nat | GoodAfter(feed0, since0, script0, failures)
      ensures attempts <= failures && if failures == attempts then GoodRun(feed, since, script) else script != [] && IsRetried(script[0])
    {
      assert GoodAfter(feed, since, script, failures - attempts);
    }
  }

  lemma CalmInTurn(script: seq<Event>, n: nat, m: nat)
    requires StartsCalm(script, n + m)
    ensures StartsCalm(script, n) && StartsCalm(script[n..], m) && script[n..][m..] == script[n + m..]
  {
  }

  lemma NextGoodPage(feed: DocFeed, since: nat, script: seq<Event>)
    requires since <= |feed| && GoodPages(feed, since, script)
    ensures StartsCalm(script, 1)
    ensures CountCurrent(feed, since) > 0 ==>
              var page := GoodPage(feed, since, LimitOf(CountCurrent(feed, since)), script[1..]);
              page.Some? && GoodPages(feed, page.value.position, script[1..][page.value.events..])
  {
    hide GoodPage, CountCurrent;
    if CountCurrent(feed, since) > 0 {
      var page := GoodPage(feed, since, LimitOf(CountCurrent(feed, since)), script[1..]);
      assert script[1..][page.value.events..] == script[1 + page.value.events..];
    }
  }

  lemma NextGoodLine(feed: DocFeed, at: nat, rows: nat, limit: nat, items: nat, bytes: nat, script: seq<Event>, end: PageEnd)
    requires at <= |feed| && GoodLines(feed, at, rows, limit, items, bytes, script) == Some(end)
    ensures script != [] && IsCalm(script[0])
    ensures var next := NextRow(feed, at);
            if script[0].answer.Terminator? then
              && rows > 0 && StartsCalm(script[1..], 1 + FlushEvents(items)) && end.events == 2 + FlushEvents(items)
              && end.position == if at + script[0].answer.skip < next then at + script[0].answer.skip else next
            else if next == |feed| then
              end.events > 1 && GoodLines(feed, next, rows, limit, items, bytes, script[1..]) == Some(end.(events := end.events - 1))
            else
              var row := feed[next].value;
              var events := 1 + RowEvents(row, items, bytes);
              && rows < limit && StartsCalm(script[1..], events - 1) && end.events > events
              && GoodLines(feed, next + 1, rows + 1, limit, ItemsAfter(row, items, bytes), BytesAfter(row, items, bytes), script[1..][events - 1..])
                   == Some(end.(events := end.events - events))
  {
    hide RowEvents, ItemsAfter, BytesAfter, Current;
    var next := NextRow(feed, at);
    if !script[0].answer.Terminator? && next < |feed| {
      var events := 1 + RowEvents(feed[next].value, items, bytes);
      CalmInTurn(script, 1, events - 1);
    } else if script[0].answer.Terminator? {
      CalmInTurn(script, 1, 1 + FlushEvents(items));
    }
  }

  /** A feed with one live document: its page takes a request, a line, a decryption, the terminator, a write and two saves. */
  lemma OneDocumentPage(row: DocRow)
    requires row.value.Some? && !row.value.value.deleted && row.value.value.size < 1000
    ensures var fine := Event([], Fine);
            GoodPage([row], 0, 1, [fine, fine, fine, Event([], Terminator(0)), fine, fine, fine, fine]) == Some(PageEnd(1, 7))
  {
    var fine, end := Event([], Fine), Event([], Terminator(0));
    var feed, script := [row], [fine, fine, fine, end, fine, fine, fine, fine];
    assert script[1..][2..] == [end, fine, fine, fine, fine];
    assert NextRow(feed, 0) == 0 && NextRow(feed, 1) == 1;
    assert GoodLines(feed, 1, 1, 1, 1, row.value.value.size, script[1..][2..]) == Some(PageEnd(1, 4));
  }

  /** Ten calls for that feed, and the run goes well. */
  lemma OneDocumentGoesWell(row: DocRow)
    requires row.value.Some? && !row.value.value.deleted && row.value.value.size < 1000
    ensures var fine := Event([], Fine);
            GoodRun([row], 0, [fine, fine, fine, fine, fine, Event([], Terminator(0)), fine, fine, fine, fine])
  {
    hide GoodPage;
    var fine, end := Event([], Fine), Event([], Terminator(0));
    var feed, script := [row], [fine, fine, fine, fine, fine, end, fine, fine, fine, fine];
    assert script[1..][1..] == [fine, fine, fine, end, fine, fine, fine, fine];
    OneDocumentPage(row);
    assert CountCurrent(feed, 1) == 0 && CountCurrent(feed, 0) == 1;
    assert script[1..][1 + 7..] == [fine];
    assert GoodPages(feed, 1, [fine]);
  }

  /** The state in which the world was first seen. */
  datatype Start = Start(feed: DocFeed, local: set<DocRow>)

  datatype Outcome<T> = Done(value: T) | Failed(failure: Failure) | Stopped

  /** The same end of something larger. */
  function Ended<S, T>(outcome: Outcome<S>): Outcome<T>
    requires !outcome.Done?
  {
    if outcome.Stopped? then Stopped else Failed(outcome.failure)
  }

  class Fetcher {
    var feed: DocFeed
    var script: seq<Event>

    // what survives the process
    var local: set<DocRow>
    var checkpoint: Option<nat>

    // the batch writer
    var batchBuffer: seq<DocRow>
    var currentBatchSizeBytes: nat
    var batchLastSequence: Option<nat>

    ghost var received: set<DocRow> // the documents that were put into the buffer since it was new

    ghost var start: Start
    ghost var past: seq<Event>  // the events so far
    ghost var read: set<DocRow> // the documents that were read from the feed so far
    ghost var pageRows: nat     // the rows that the last page has brought

    /** The checkpoint names a durable prefix of the feed. */
    ghost predicate CheckpointIsDurable()
      reads this
    {
      checkpoint.Some? ==> Holds(feed, checkpoint.value, local)
    }

    ghost function Buffered(): set<DocRow>
      reads this
    {
      set row | row in batchBuffer
    }

    /** The buffer is empty, or it completes the feed up to the position of its last document. */
    ghost predicate BufferIsPrefix()
      reads this
    {
      if batchBuffer == [] then batchLastSequence == None && currentBatchSizeBytes == 0
      else batchLastSequence.Some? && Holds(feed, batchLastSequence.value, local + Buffered())
    }

    ghost predicate BufferIsSmall()
      reads this
    {
      |batchBuffer| < BATCH_ITEM_LIMIT && currentBatchSizeBytes < BATCH_SIZE_LIMIT
    }

    /** What was received is stored, or will be. */
    ghost predicate NothingIsDropped()
      reads this
    {
      received <= local + Buffered()
    }

    /** The feed is what the events have made of it, and no document is stored that was not read, one by one. */
    ghost predicate HistoryIsTrue()
      reads this
    {
      feed == FeedAfter(start.feed, past) && local + Buffered() <= start.local + read && |read| <= |past|
    }

    ghost predicate Valid()
      reads this
    {
      CheckpointIsDurable() && BufferIsPrefix() && NothingIsDropped() && HistoryIsTrue()
    }

    ghost function Now(): Moment
      reads this
    {
      Moment(feed, past, script, local)
    }

    /** The script is played event by event, and the feed only grows. */
    twostate predicate Plays()
      reads this
    {
      IsPlayed(old(Now()), Now())
    }

    /** Nothing that is stored is taken back. */
    twostate predicate Progress()
      reads this
    {
      Continues(old(Now()), Now())
    }

    /** The calls succeed one after another, and are the only ones. */
    twostate predicate Runs(events: nat)
      reads this
    {
      RanOver(old(Now()), Now(), events)
    }

    /** A run stops only at the end of the script, and fails only if something went wrong. */
    ghost predicate EndsRightly<T>(outcome: Outcome<T>, n: nat)
      reads this
    {
      match outcome
      case Done(_) => true
      case Stopped => script == []
      case Failed(failure) => WentWrong(failure, past, n, pageRows)
    }

    lemma EndsEarlier<T>(outcome: Outcome<T>, n: nat, n': nat)
      requires n <= n' && EndsRightly(outcome, n')
      ensures EndsRightly(outcome, n)
    {
    }

    lemma StopsRightly<T>(n: nat)
      requires script == []
      ensures EndsRightly<T>(Stopped, n)
    {
    }

    lemma EndsAlike<S, T>(outcome: Outcome<S>, n: nat)
      requires !outcome.Done? && EndsRightly(outcome, n)
      ensures EndsRightly<T>(Ended(outcome), n)
    {
    }

    method Next() returns (e: Option<Answer>)
      requires CheckpointIsDurable() && HistoryIsTrue()
      modifies this`feed, this`script, this`past
      ensures CheckpointIsDurable() && HistoryIsTrue() && (old(BufferIsPrefix()) ==> BufferIsPrefix()) && Progress()
      ensures e.None? ==> script == [] && past == old(past) && feed == old(feed)
      ensures e.Some? ==> |script| < |old(script)| && |past| == |old(past)| + 1 && past[|old(past)|].answer == e.value
      ensures e.None? <==> old(script) == []
      ensures e.Some? ==> e.value == old(script)[0].answer && (old(script)[0].appended == [] ==> Runs(1))
    {
      hide FeedAfter, Holds;
      if script == [] {
        return None;
      }
      var event := script[0];
      assert script == [event] + script[1..];
      OneMoreEvent(start.feed, past, event);
      script, feed, past := script[1..], feed + event.appended, past + [event];
      assert event.appended == [] ==> feed == old(feed);
      if checkpoint.Some? {
        HoldsStays(old(feed), checkpoint.value, local, feed, local);
      }
      if old(BufferIsPrefix()) && batchBuffer != [] {
        HoldsStays(old(feed), batchLastSequence.value, local + Buffered(), feed, local + Buffered());
      }
      return Some(event.answer);
    }

    /** A request and its response. */
    method Request() returns (outcome: Outcome<()>)
      requires CheckpointIsDurable() && HistoryIsTrue()
      modifies this`feed, this`script, this`past
      ensures CheckpointIsDurable() && HistoryIsTrue() && (old(BufferIsPrefix()) ==> BufferIsPrefix()) && Progress()
      ensures EndsRightly(outcome, |old(past)|) && (outcome.Done? ==> |past| > |old(past)| && |script| < |old(script)|)
      ensures outcome.Failed? ==> outcome.failure.stage != Storage
      ensures StartsCalm(old(script), 1) ==> outcome.Done? && Runs(1)
      ensures old(script) != [] && IsRetried(old(script)[0]) ==> outcome == Failed(Failure(Transport, true)) && Runs(1)
    {
      hide FeedAfter, Holds;
      var response := Next();
      match response {
        case None => return Stopped;
        case Some(Fine) => return Done(());
        case Some(Terminator(_)) => return Done(());
        case Some(Http(status)) => return Failed(ResponseFailure(status));
        case Some(Invalid) => return Failed(Failure(Protocol, false));
        case Some(_) => return Failed(Failure(Transport, true));
      }
    }

    method SaveCheckpoint(sequence: nat) returns (outcome: Outcome<()>)
      requires CheckpointIsDurable() && HistoryIsTrue() && Holds(feed, sequence, local)
      modifies this`feed, this`script, this`past, this`checkpoint
      ensures CheckpointIsDurable() && HistoryIsTrue() && (old(BufferIsPrefix()) ==> BufferIsPrefix()) && Progress()
      ensures EndsRightly(outcome, |old(past)|)
      ensures outcome.Failed? ==> outcome.failure == Failure(Storage, false)
      ensures outcome.Done? ==> checkpoint == Some(sequence)
      ensures StartsCalm(old(script), 1) ==> outcome.Done? && Runs(1)
    {
      hide FeedAfter;
      var e := Next();
      if e == None {
        return Stopped;
      }
      HoldsStays(old(feed), sequence, local, feed, local);
      if Succeeds(e.value) || e.value.Partial? {
        checkpoint := Some(sequence);
      }
      return if Succeeds(e.value) then Done(()) else Failed(Failure(Storage, false));
    }

    method Abort()
      modifies this`batchBuffer, this`currentBatchSizeBytes, this`batchLastSequence
      ensures batchBuffer == [] && BufferIsPrefix() && (old(HistoryIsTrue()) ==> HistoryIsTrue())
      ensures CheckpointIsDurable() == old(CheckpointIsDurable())
    {
      batchBuffer, currentBatchSizeBytes, batchLastSequence := [], 0, None;
    }

    /** The first documents of the buffer are written. */
    method Store(n: nat)
      requires Valid() && n <= |batchBuffer|
      modifies this`local
      ensures Valid() && local == old(local) + set row | row in batchBuffer[..n]
    {
      hide FeedAfter, Holds;
      local := local + set row | row in batchBuffer[..n];
      if checkpoint.Some? {
        HoldsStays(feed, checkpoint.value, old(local), feed, local);
      }
      if batchBuffer != [] {
        HoldsStays(feed, batchLastSequence.value, old(local) + Buffered(), feed, local + Buffered());
      }
    }

    /** The batch is written, as a whole or in part. */
    method WriteBatch() returns (outcome: Outcome<()>)
      requires Valid()
      modifies this`feed, this`script, this`past, this`local
      ensures EndsRightly(outcome, |old(past)|)
      ensures Valid() && Progress()
      ensures outcome.Failed? ==> outcome.failure == Failure(Storage, false)
      ensures outcome.Done? ==> Buffered() <= local
      ensures StartsCalm(old(script), 1) ==> outcome.Done? && Runs(1)
    {
      hide FeedAfter, Holds;
      var e := Next();
      if e == None {
        return Stopped;
      }
      var written := if Succeeds(e.value) then |batchBuffer|
                     else if e.value.Partial? && e.value.n < |batchBuffer| then e.value.n else 0;
      Store(written);
      assert batchBuffer[..|batchBuffer|] == batchBuffer;
      return if Succeeds(e.value) then Done(()) else Failed(Failure(Storage, false));
    }

    /** Only a batch that has been written as a whole may be covered by a checkpoint. */
    method Flush() returns (outcome: Outcome<()>)
      requires Valid()
      modifies this`feed, this`script, this`past, this`local, this`checkpoint, this`batchBuffer, this`currentBatchSizeBytes, this`batchLastSequence
      ensures EndsRightly(outcome, |old(past)|)
      ensures Valid() && Progress()
      ensures outcome.Failed? ==> outcome.failure == Failure(Storage, false)
      ensures outcome.Done? ==> batchBuffer == [] && old(Buffered()) <= local
      ensures outcome.Done? && old(batchBuffer) != [] ==> checkpoint == old(batchLastSequence)
      ensures outcome.Done? && old(batchBuffer) == [] ==> checkpoint == old(checkpoint)
      ensures received == old(received)
      ensures StartsCalm(old(script), FlushEvents(|old(batchBuffer)|)) ==> outcome.Done? && Runs(FlushEvents(|old(batchBuffer)|))
    {
      hide FeedAfter, Holds, WentWrong, StartsCalm;
      if batchBuffer == [] {
        return Done(());
      }
      var through := batchLastSequence.value;
      if StartsCalm(script, 2) {
        CalmInTurn(script, 1, 1);
      }
      ghost var m := Now();
      outcome := WriteBatch();
      if !outcome.Done? {
        return;
      }
      assert local + Buffered() == local;
      ghost var m1 := Now();
      outcome := SaveCheckpoint(through);
      EndsEarlier(outcome, |old(past)|, |m1.past|);
      if StartsCalm(m.script, 2) {
        RanOn(m, m1, Now(), 1, 1);
      }
      if outcome.Done? {
        Abort();
      }
    }

    method Push(at: nat, row: DocRow)
      requires Valid() && |read| < |past| && at < |feed| && row == feed[at] && row.value.Some? && Holds(feed, at, local + Buffered())
      modifies this`batchBuffer, this`currentBatchSizeBytes, this`batchLastSequence, this`received, this`read
      ensures Valid() && Holds(feed, at + 1, local + Buffered())
      ensures batchBuffer == old(batchBuffer) + [row] && received == old(received) + {row}
      ensures currentBatchSizeBytes == old(currentBatchSizeBytes) + row.value.value.size
    {
      hide FeedAfter, Holds;
      ghost var before := Buffered();
      batchBuffer := batchBuffer + [row];
      currentBatchSizeBytes := currentBatchSizeBytes + row.value.value.size;
      batchLastSequence := Some(at + 1);
      received, read := received + {row}, read + {row};
      assert Buffered() == before + {row};
      HoldsStays(feed, at, local + before, feed, local + Buffered());
      HoldsNext(feed, at, local + Buffered());
    }

    /** If the calls for a row succeed, they are made, and the batch is what it should be. */
    twostate predicate RowGoesWell(row: Option<Doc>, new outcome: Outcome<()>)
      reads this
    {
      var items, bytes := |old(batchBuffer)|, old(currentBatchSizeBytes);
      StartsCalm(old(script), RowEvents(row, items, bytes)) ==>
        && outcome.Done? && Runs(RowEvents(row, items, bytes))
        && |batchBuffer| == ItemsAfter(row, items, bytes) && currentBatchSizeBytes == BytesAfter(row, items, bytes)
    }

    /** A live document is decrypted. */
    method Decrypt(doc: Doc) returns (outcome: Outcome<()>)
      requires Valid()
      modifies this`feed, this`script, this`past
      ensures EndsRightly(outcome, |old(past)|)
      ensures Valid() && Progress()
      ensures outcome.Failed? ==> outcome.failure == Failure(Decryption, false)
      ensures var events := if doc.deleted then 0 else 1; StartsCalm(old(script), events) ==> outcome.Done? && Runs(events)
    {
      hide FeedAfter, Holds;
      if doc.deleted {
        return Done(());
      }
      var e := Next();
      if e == None {
        return Stopped;
      }
      return if Succeeds(e.value) then Done(()) else Failed(Failure(Decryption, false));
    }

    /** A document is put into the batch, and a full batch is flushed. */
    method Add(at: nat) returns (outcome: Outcome<()>)
      requires Valid() && BufferIsSmall() && |read| < |past| && at < |feed| && feed[at].value.Some? && Holds(feed, at, local + Buffered())
      modifies this`feed, this`script, this`past, this`local, this`checkpoint, this`batchBuffer, this`currentBatchSizeBytes, this`batchLastSequence, this`received, this`read
      ensures EndsRightly(outcome, |old(past)|)
      ensures Valid() && Progress()
      ensures outcome.Failed? ==> !outcome.failure.retryable
      ensures outcome.Done? ==> BufferIsSmall() && Holds(feed, at + 1, local + Buffered())
      ensures received == old(received) + {old(feed[at])}
      ensures var row, items, bytes := old(feed[at].value), |old(batchBuffer)|, old(currentBatchSizeBytes);
              var events := if IsFull(items + 1, bytes + row.value.size) then 2 else 0;
              StartsCalm(old(script), events) ==>
                && outcome.Done? && Runs(events)
                && |batchBuffer| == ItemsAfter(row, items, bytes) && currentBatchSizeBytes == BytesAfter(row, items, bytes)
    {
      hide FeedAfter, Holds, WentWrong, StartsCalm;
      Push(at, feed[at]);
      if |batchBuffer| < BATCH_ITEM_LIMIT && currentBatchSizeBytes < BATCH_SIZE_LIMIT {
        return Done(());
      }
      ghost var stored0 := local + Buffered();
      outcome := Flush();
      if outcome.Done? {
        HoldsStays(old(feed), at + 1, stored0, feed, local + Buffered());
      }
    }

    /** One listed change. */
    method Write(at: nat) returns (outcome: Outcome<()>)
      requires Valid() && BufferIsSmall() && |read| < |past| && at < |feed| && feed[at].value.Some? && Holds(feed, at, local + Buffered())
      modifies this`feed, this`script, this`past, this`local, this`checkpoint, this`batchBuffer, this`currentBatchSizeBytes, this`batchLastSequence, this`received, this`read
      ensures EndsRightly(outcome, |old(past)|)
      ensures Valid() && Progress()
      ensures outcome.Failed? ==> !outcome.failure.retryable
      ensures outcome.Done? ==> BufferIsSmall() && Holds(feed, at + 1, local + Buffered())
      ensures received == old(received) || received == old(received) + {old(feed[at])}
      ensures outcome.Done? ==> old(feed[at]) in received
      ensures RowGoesWell(old(feed[at].value), outcome)
    {
      hide FeedAfter, Holds, WentWrong, StartsCalm;
      ghost var row, m := feed[at], Now();
      ghost var events, calls := RowEvents(row.value, |batchBuffer|, currentBatchSizeBytes), if row.value.value.deleted then 0 else 1;
      ghost var calm := StartsCalm(script, events);
      if calm {
        CalmInTurn(script, calls, events - calls);
      }
      outcome := Decrypt(feed[at].value.value);
      if !outcome.Done? {
        return;
      }
      HoldsStays(old(feed), at, local + Buffered(), feed, local + Buffered());
      ghost var m1 := Now();
      outcome := Add(at);
      EndsEarlier(outcome, |old(past)|, |m1.past|);
      ContinuesOn(m, m1, Now());
      if calm {
        RanOn(m, m1, Now(), calls, events - calls);
      }
    }

    /** One listed change without a document. */
    method FlushThrough(at: nat) returns (outcome: Outcome<()>)
      requires Valid() && at < |feed| && feed[at].value.None? && Holds(feed, at, local + Buffered())
      modifies this`feed, this`script, this`past, this`local, this`checkpoint, this`batchBuffer, this`currentBatchSizeBytes, this`batchLastSequence
      ensures EndsRightly(outcome, |old(past)|)
      ensures Valid() && Progress()
      ensures outcome.Failed? ==> outcome.failure == Failure(Storage, false)
      ensures outcome.Done? ==> batchBuffer == [] && Holds(feed, at + 1, local) && checkpoint == Some(at + 1)
      ensures received == old(received)
      ensures RowGoesWell(None, outcome)
    {
      ghost var stored0 := local + Buffered();
      HoldsNext(feed, at, stored0);
      outcome := Flush();
      if !outcome.Done? {
        return;
      }
      HoldsStays(old(feed), at + 1, stored0, feed, local);
      ghost var feed1, local1 := feed, local;
      outcome := SaveCheckpoint(at + 1);
      HoldsStays(feed1, at + 1, local1, feed, local);
    }

    /** One listed change. */
    method TakeRow(at: nat) returns (outcome: Outcome<()>)
      requires Valid() && BufferIsSmall() && |read| < |past| && at < |feed| && Holds(feed, at, local + Buffered())
      modifies this`feed, this`script, this`past, this`local, this`checkpoint, this`batchBuffer, this`currentBatchSizeBytes, this`batchLastSequence, this`received, this`read
      ensures EndsRightly(outcome, |old(past)|)
      ensures Valid() && Progress() && old(received) <= received
      ensures outcome.Done? ==> BufferIsSmall() && Holds(feed, at + 1, local + Buffered())
      ensures RowGoesWell(old(feed[at].value), outcome)
      ensures outcome.Failed? ==> !outcome.failure.retryable
    {
      hide FeedAfter;
      if feed[at].value.Some? {
        outcome := Write(at);
      } else {
        outcome := FlushThrough(at);
        assert local + {} == local;
      }
    }

    method EndPage(lastSequence: nat) returns (outcome: Outcome<nat>)
      requires Valid() && Holds(feed, lastSequence, local + Buffered())
      modifies this`feed, this`script, this`past, this`local, this`checkpoint, this`batchBuffer, this`currentBatchSizeBytes, this`batchLastSequence
      ensures EndsRightly(outcome, |old(past)|)
      ensures Valid() && Progress() && old(received) <= received
      ensures outcome.Done? ==> outcome.value == lastSequence && batchBuffer == []
      ensures outcome.Done? ==> Holds(feed, lastSequence, local) && checkpoint == Some(lastSequence)
      ensures var events := FlushEvents(|old(batchBuffer)|) + 1; StartsCalm(old(script), events) ==> outcome.Done? && Runs(events)
      ensures outcome.Failed? ==> outcome.failure == Failure(Storage, false)
    {
      ghost var stored0 := local + Buffered();
      var flushed := Flush();
      if !flushed.Done? {
        return if flushed.Stopped? then Stopped else Failed(flushed.failure);
      }
      HoldsStays(old(feed), lastSequence, stored0, feed, local);
      ghost var feed1, local1 := feed, local;
      var saved := SaveCheckpoint(lastSequence);
      if !saved.Done? {
        return if saved.Stopped? then Stopped else Failed(saved.failure);
      }
      HoldsStays(feed1, lastSequence, local1, feed, local);
      return Done(lastSequence);
    }

    /** Nothing has been taken in. */
    twostate predicate NothingTaken()
      reads this
    {
      local == old(local) && received == old(received) && checkpoint == old(checkpoint) && batchBuffer == old(batchBuffer)
    }

    /** The terminator: with at least one row, its position is saved behind everything that was read. */
    method Terminated(skip: nat, at: nat, fetchedRows: nat) returns (outcome: Outcome<nat>)
      requires Valid() && past != [] && past[|past| - 1].answer == Terminator(skip) && pageRows == fetchedRows
      requires at <= |feed| && Holds(feed, at, local + Buffered())
      modifies this`feed, this`script, this`past, this`local, this`checkpoint, this`batchBuffer, this`currentBatchSizeBytes, this`batchLastSequence
      ensures EndsRightly(outcome, |old(past)| - 1)
      ensures Valid() && Progress()
      ensures outcome.Done? ==> batchBuffer == [] && Holds(feed, outcome.value, local) && checkpoint == Some(outcome.value)
      ensures fetchedRows == 0 ==> outcome == Failed(Failure(Transport, true)) && NothingTaken()
      ensures fetchedRows > 0 ==>
                var next, events := NextRow(old(feed), at), FlushEvents(|old(batchBuffer)|) + 1;
                && (outcome.Failed? ==> outcome.failure.stage == Storage && !outcome.failure.retryable)
                && (outcome.Done? || StartsCalm(old(script), events) ==>
                      outcome == Done(if at + skip < next then at + skip else next) && (StartsCalm(old(script), events) ==> Runs(events)))
    {
      hide FeedAfter, Holds, StartsCalm, CountCurrent;
      if fetchedRows == 0 {
        return Failed(Failure(Transport, true));
      }
      var next := NextRow(feed, at);
      var lastSequence := if at + skip < next then at + skip else next;
      HoldsAcrossGap(feed, at, lastSequence, local + Buffered());
      outcome := EndPage(lastSequence);
      EndsEarlier(outcome, |old(past)| - 1, |old(past)|);
    }

    /** A line that is no change ends the page: its terminator, the end of the stream, or trouble. */
    method LastLine(line: Answer, at: nat, fetchedRows: nat) returns (outcome: Outcome<nat>)
      requires Valid() && !line.Fine? && past != [] && past[|past| - 1].answer == line && pageRows == fetchedRows
      requires at <= |feed| && Holds(feed, at, local + Buffered())
      modifies this`feed, this`script, this`past, this`local, this`checkpoint, this`batchBuffer, this`currentBatchSizeBytes, this`batchLastSequence
      ensures EndsRightly(outcome, |old(past)| - 1)
      ensures Valid() && Progress()
      ensures outcome.Done? ==> batchBuffer == [] && Holds(feed, outcome.value, local) && checkpoint == Some(outcome.value)
      ensures outcome.Failed? && outcome.failure.retryable ==>
                SomethingFailed(past, |old(past)| - 1) || (line.Terminator? && fetchedRows == 0 && NothingTaken())
      ensures line.Terminator? && fetchedRows > 0 ==>
                var next, events := NextRow(old(feed), at), FlushEvents(|old(batchBuffer)|) + 1;
                && (outcome.Failed? ==> outcome.failure.stage == Storage)
                && (outcome.Done? || StartsCalm(old(script), events) ==>
                      outcome == Done(if at + line.skip < next then at + line.skip else next) && (StartsCalm(old(script), events) ==> Runs(events)))
    {
      hide FeedAfter, Holds, StartsCalm, CountCurrent;
      match line {
        case Terminator(skip) =>
          outcome := Terminated(skip, at, fetchedRows);
        case EndOfStream =>
          var flushed := Flush();
          return if flushed.Failed? then Failed(flushed.failure) else if flushed.Stopped? then Stopped
                 else Failed(Failure(Transport, true));
        case Invalid =>
          return Failed(Failure(Protocol, false));
        case _ =>
          return Failed(Failure(Transport, true));
      }
    }

    /** The page began in the feed as the events had made it, with what was listed there as its limit. */
    ghost predicate IsLimited(m0: Moment, pageSince: nat, pageLimit: nat)
      reads this
    {
      m0.feed == FeedAfter(start.feed, m0.past) && pageSince <= |m0.feed| && pageLimit == LimitOf(CountCurrent(m0.feed, pageSince))
    }

    /** If the calls for the next row succeed, they are made, and it is counted. */
    twostate predicate LineGoesWell(at: nat, fetchedRows: nat, pageLimit: nat, new outcome: Outcome<()>, next: nat, rows: nat)
      reads this
    {
      var row := if at <= |old(feed)| then NextRow(old(feed), at) else at;
      if row >= |old(feed)| then
        outcome.Done? && next == row && rows == fetchedRows && Runs(0) && |batchBuffer| == |old(batchBuffer)| && currentBatchSizeBytes == old(currentBatchSizeBytes)
      else fetchedRows < pageLimit ==>
        && (outcome.Done? ==> next == row + 1 && rows == fetchedRows + 1)
        && RowGoesWell(old(feed)[row].value, outcome)
    }

    /** A page has been read up to a position, and brought so many rows. */
    ghost predicate HasRead(m0: Moment, pageSince: nat, pageLimit: nat, at: nat, rows: nat)
      reads this
    {
      && Valid() && BufferIsSmall() && pageRows == rows && at <= |feed| && Holds(feed, at, local + Buffered())
      && InPage(m0, pageSince, Now(), at, rows) && IsLimited(m0, pageSince, pageLimit)
    }

    /** A line with a change: the next one that is listed, if there is one. */
    method TakeLine(at: nat, fetchedRows: nat, pageLimit: nat, ghost m0: Moment, ghost pageSince: nat)
        returns (outcome: Outcome<()>, next: nat, rows: nat)
      requires HasRead(m0, pageSince, pageLimit, at, fetchedRows) && |read| < |past| && |past| > |m0.past| + fetchedRows + 1
      modifies this`feed, this`script, this`past, this`local, this`checkpoint, this`batchBuffer, this`currentBatchSizeBytes, this`batchLastSequence, this`received, this`read, this`pageRows
      ensures outcome.Failed? ==> !outcome.failure.retryable
      ensures LineGoesWell(at, fetchedRows, pageLimit, outcome, next, rows)
      ensures EndsRightly(outcome, |m0.past|)
      ensures Valid() && Continues(m0, Now()) && old(received) <= received && |script| <= |old(script)|
      ensures outcome.Done? ==> HasRead(m0, pageSince, pageLimit, next, rows)
      ensures pageRows == rows >= fetchedRows && (rows == fetchedRows ==> NothingTaken())
    {
      hide FeedAfter, Overlong, Holds, CountCurrent, Continues;
      next, rows := NextRow(feed, at), fetchedRows;
      HoldsAcrossGap(feed, at, next, local + Buffered());
      FurtherInPage(m0, pageSince, Now(), at, rows);
      if next == |feed| {
        return Done(()), next, rows;
      }
      if rows >= pageLimit {
        PageIsOverlong(start.feed, m0, pageSince, Now(), next, rows);
        return Failed(Failure(Protocol, false)), next, rows;
      }
      RowOfPage(m0, pageSince, Now(), next, rows);
      pageRows := rows + 1;
      outcome := TakeRow(next);
      EndsEarlier(outcome, |m0.past|, |old(past)|);
      ContinuesOn(m0, old(Now()), Now());
      next, rows := next + 1, rows + 1;
      StillInPage(m0, pageSince, old(Now()), next, rows, Now());
    }

    method AwaitLine(at: nat, ghost rows: nat, ghost m0: Moment, ghost pageSince: nat) returns (line: Option<Answer>)
      requires Valid() && Holds(feed, at, local + Buffered()) && InPage(m0, pageSince, Now(), at, rows)
      modifies this`feed, this`script, this`past
      ensures Valid() && at <= |feed| && Holds(feed, at, local + Buffered()) && InPage(m0, pageSince, Now(), at, rows) && Continues(m0, Now())
      ensures if old(script) == [] then line == None && script == []
              else line == Some(old(script)[0].answer) && (old(script)[0].appended == [] ==> Runs(1))
      ensures NothingTaken() && (old(BufferIsSmall()) ==> BufferIsSmall())
      ensures line.Some? ==> |script| < |old(script)| && |read| < |past| && |past| > |m0.past| + rows + 1 > 0 && past[|past| - 1].answer == line.value
    {
      assert |past| > |m0.past| + rows;
      hide InPage, Holds;
      line := Next();
      HoldsStays(old(feed), at, local + Buffered(), feed, local + Buffered());
      StillInPage(m0, pageSince, old(Now()), at, rows, Now());
    }

    /** One line; the result is the end of the page, if it is the last one. */
    method OneLine(at: nat, fetchedRows: nat, pageLimit: nat, ghost m0: Moment, ghost pageSince: nat, ghost m: Moment, ghost end: Option<PageEnd>)
        returns (ended: Option<Outcome<nat>>, next: nat, rows: nat)
      requires HasRead(m0, pageSince, pageLimit, at, fetchedRows)
      requires end.Some? ==> GoesWell(m, end.value, Now(), at, fetchedRows, pageLimit, |batchBuffer|, currentBatchSizeBytes)
      modifies this`feed, this`script, this`past, this`local, this`checkpoint, this`batchBuffer, this`currentBatchSizeBytes, this`batchLastSequence, this`received, this`read, this`pageRows
      ensures Valid() && Continues(m0, Now()) && old(received) <= received && rows >= fetchedRows && (rows == fetchedRows && ended.None? ==> NothingTaken()) && pageRows == rows
      ensures ended.None? ==>
                && HasRead(m0, pageSince, pageLimit, next, rows) && |script| < |old(script)|
                && (end.Some? ==> GoesWell(m, end.value, Now(), next, rows, pageLimit, |batchBuffer|, currentBatchSizeBytes))
      ensures ended.Some? ==>
                && EndsRightly(ended.value, |m0.past|)
                && (ended.value.Done? ==> batchBuffer == [] && Holds(feed, ended.value.value, local) && checkpoint == Some(ended.value.value))
                && (ended.value.Failed? && ended.value.failure.retryable ==> SomethingFailed(past, |m0.past|) || (fetchedRows == 0 && NothingTaken()))
                && (end.Some? ==> ended.value == Done(end.value.position) && RanOver(m, Now(), end.value.events))
    {
      hide FeedAfter, CountCurrent, Holds, StartsCalm, RowEvents, FlushEvents, GoodLines, RanOver, GoesWell, WentWrong, SomethingFailed;
      hide Continues, InPage, Fetcher.Valid, Fetcher.BufferIsSmall, Fetcher.Buffered, Fetcher.EndsRightly;
      ghost var m1, items, bytes := Now(), |batchBuffer|, currentBatchSizeBytes;
      next, rows := at, fetchedRows;
      if end.Some? {
        NextLineGoesWell(m, end.value, m1, at, fetchedRows, pageLimit, items, bytes);
      }
      var line := AwaitLine(at, fetchedRows, m0, pageSince);
      ghost var m2 := Now();
      if end.Some? {
        RanOne(m1, m2);
      }
      if line == None {
        StopsRightly<nat>(|m0.past|);
        return Some(Stopped), next, rows;
      }
      if !line.value.Fine? {
        var outcome := LastLine(line.value, at, fetchedRows);
        ContinuesOn(m0, m2, Now());
        EndsEarlier(outcome, |m0.past|, |m2.past| - 1);
        FailedEarlier(past, |m0.past|, |m2.past| - 1);
        if end.Some? {
          TerminatorWentWell(m, end.value, m1, at, fetchedRows, pageLimit, items, bytes, m2, Now());
        }
        return Some(outcome), next, rows;
      }
      var taken;
      taken, next, rows := TakeLine(at, fetchedRows, pageLimit, m0, pageSince);
      if !taken.Done? {
        EndsAlike<(), nat>(taken, |m0.past|);
        return Some(Ended(taken)), next, rows;
      }
      if end.Some? {
        RanOn(m1, m2, Now(), 1, if NextRow(m1.feed, at) == |m1.feed| then 0 else RowEvents(m1.feed[NextRow(m1.feed, at)].value, items, bytes));
        LineWentWell(m, end.value, m1, at, fetchedRows, pageLimit, items, bytes, Now());
      }
      return None, next, rows;
    }

    /** The lines of a page, up to its terminator. */
    method ReadLines(pageSince: nat, pageLimit: nat, ghost m0: Moment) returns (outcome: Outcome<nat>)
      requires Valid() && batchBuffer == [] && Holds(feed, pageSince, local) && InPage(m0, pageSince, Now(), pageSince, 0) && pageRows == 0
      requires IsLimited(m0, pageSince, pageLimit)
      modifies this`feed, this`script, this`past, this`local, this`checkpoint, this`batchBuffer, this`currentBatchSizeBytes, this`batchLastSequence, this`received, this`read, this`pageRows
      ensures EndsRightly(outcome, |m0.past|)
      ensures Valid() && Continues(m0, Now()) && old(received) <= received
      ensures outcome.Done? ==> batchBuffer == [] && Holds(feed, outcome.value, local) && checkpoint == Some(outcome.value)
      ensures outcome.Failed? && outcome.failure.retryable ==> SomethingFailed(past, |m0.past|) || NothingTaken()
      ensures var end := old(GoodLines(feed, pageSince, 0, pageLimit, 0, 0, script));
              end.Some? ==> outcome == Done(end.value.position) && Runs(end.value.events)
    {
      assert local + Buffered() == local;
      assert BufferIsSmall() && currentBatchSizeBytes == 0;
      assert pageSince <= |feed|;
      ghost var m, end := Now(), GoodLines(feed, pageSince, 0, pageLimit, 0, 0, script);
      assert end.Some? ==> GoesWell(m, end.value, m, pageSince, 0, pageLimit, 0, 0);
      hide FeedAfter, WentWrong, CountCurrent, Holds, GoodLines, RanOver, GoesWell, SomethingFailed;
      hide Continues, InPage, Fetcher.Valid, Fetcher.BufferIsSmall, Fetcher.Buffered, Fetcher.EndsRightly;
      var at: nat := pageSince;
      var fetchedRows := 0;
      while true
        invariant HasRead(m0, pageSince, pageLimit, at, fetchedRows) && old(received) <= received
        invariant fetchedRows == 0 ==> NothingTaken()
        invariant end.Some? ==> GoesWell(m, end.value, Now(), at, fetchedRows, pageLimit, |batchBuffer|, currentBatchSizeBytes)
        decreases |script|
      {
        var ended;
        ended, at, fetchedRows := OneLine(at, fetchedRows, pageLimit, m0, pageSince, m, end);
        if ended.Some? {
          return ended.value;
        }
      }
    }

    /** One page, from its request to its terminator, whose position is the result. */
    method FetchPage(pageSince: nat, pageLimit: nat) returns (outcome: Outcome<nat>)
      requires Valid() && batchBuffer == [] && Holds(feed, pageSince, local) && pageLimit == LimitOf(CountCurrent(feed, pageSince))
      modifies this`feed, this`script, this`past, this`local, this`checkpoint, this`batchBuffer, this`currentBatchSizeBytes, this`batchLastSequence, this`received, this`read, this`pageRows
      ensures EndsRightly(outcome, |old(past)|)
      ensures Valid() && Progress() && old(received) <= received
      ensures outcome.Done? ==> batchBuffer == [] && Holds(feed, outcome.value, local) && checkpoint == Some(outcome.value)
      ensures outcome.Failed? && outcome.failure.retryable ==> SomethingFailed(past, |old(past)|) || NothingTaken()
      ensures var page := old(GoodPage(feed, pageSince, pageLimit, script));
              page.Some? ==> outcome == Done(page.value.position) && Runs(page.value.events)
    {
      hide FeedAfter, CountCurrent, GoodLines;
      ghost var m := Now();
      pageRows := 0;
      var response := Request();
      ghost var m1 := Now();
      HoldsStays(old(feed), pageSince, local, feed, local);
      if !response.Done? {
        return if response.Stopped? then Stopped else Failed(response.failure);
      }
      outcome := ReadLines(pageSince, pageLimit, old(Now()));
      if GoodPage(m.feed, pageSince, pageLimit, m.script).Some? {
        RanOn(m, m1, Now(), 1, GoodPage(m.feed, pageSince, pageLimit, m.script).value.events - 1);
      }
    }

    /** Probes and pages, until a probe finds nothing more; the batch writer is new. */
    method FetchPages(since: nat) returns (outcome: Outcome<()>)
      requires Valid() && batchBuffer == [] && Holds(feed, since, local)
      modifies this`feed, this`script, this`past, this`local, this`checkpoint, this`batchBuffer, this`currentBatchSizeBytes, this`batchLastSequence, this`received, this`read, this`pageRows
      ensures EndsRightly(outcome, |old(past)|)
      ensures Valid() && Progress() && old(received) <= received
      ensures outcome.Done? ==> batchBuffer == [] && Holds(feed, |feed|, local)
      ensures old(GoodPages(feed, since, script)) ==> outcome.Done?
    {
      ghost var m := Now();
      assert Continues(m, m);
      hide GoodPage, GoodPages, StartsCalm, CountCurrent, FeedAfter, WentWrong, Continues;
      var pageSince: nat := since;
      while true
        invariant Valid() && Continues(m, Now()) && old(received) <= received && batchBuffer == [] && Holds(feed, pageSince, local)
        invariant pageSince <= |feed| && (old(GoodPages(feed, since, script)) ==> GoodPages(feed, pageSince, script))
        decreases |script|
      {
        ghost var m1 := Now();
        OnlyGrows(m, m1);
        if GoodPages(feed, pageSince, script) {
          NextGoodPage(feed, pageSince, script);
        }
        var probe := Request();
        ghost var m2 := Now();
        OnlyGrows(m1, m2);
        ContinuesOn(m, m1, m2);
        EndsEarlier(probe, |old(past)|, |m1.past|);
        HoldsStays(m1.feed, pageSince, local, feed, local);
        if !probe.Done? {
          return probe;
        }
        var available := CountCurrent(feed, pageSince);
        if available == 0 {
          HoldsAcrossGap(feed, pageSince, |feed|, local);
          return Done(());
        }
        OnlyGrows(m, m2);
        var page := FetchPage(pageSince, LimitOf(available));
        EndsEarlier(page, |old(past)|, |m2.past|);
        ContinuesOn(m, m2, Now());
        if !page.Done? {
          EndsAlike<nat, ()>(page, |old(past)|);
          return Ended(page);
        }
        pageSince := page.value;
      }
    }

    /** After a failure that is not one of storage, what is in the buffer is still written. */
    method SaveTheRest(failure: Failure, ghost n: nat) returns (outcome: Outcome<()>)
      requires Valid() && n <= |past| && WentWrong(failure, past, n, pageRows)
      modifies this`feed, this`script, this`past, this`local, this`checkpoint, this`batchBuffer, this`currentBatchSizeBytes, this`batchLastSequence
      ensures EndsRightly(outcome, n) && !outcome.Done?
      ensures CheckpointIsDurable() && HistoryIsTrue() && Progress() && received == old(received)
      ensures outcome.Failed? && outcome.failure.stage != Storage ==> received <= local
      ensures outcome.Failed? ==> batchBuffer == []
    {
      hide FeedAfter, WentWrong, Holds;
      outcome := Failed(failure);
      if failure.stage != Storage {
        var flushed := Flush();
        StillWrong(failure, old(past), n, past, n, pageRows);
        if !flushed.Done? {
          EndsEarlier(flushed, n, |old(past)|);
          outcome := flushed;
        }
      }
      if outcome.Failed? {
        Abort();
      }
    }

    /** fetchChangesForInitialSync: what was received before a failure that is not one of storage is still written. */
    method FetchChanges(since: nat) returns (outcome: Outcome<()>)
      requires CheckpointIsDurable() && HistoryIsTrue() && Holds(feed, since, local)
      modifies this`feed, this`script, this`past, this`local, this`checkpoint, this`batchBuffer, this`currentBatchSizeBytes, this`batchLastSequence, this`received, this`read, this`pageRows
      ensures EndsRightly(outcome, |old(past)|)
      ensures CheckpointIsDurable() && HistoryIsTrue() && Progress()
      ensures outcome.Done? || (outcome.Failed? && outcome.failure.stage != Storage) ==> received <= local
      ensures outcome.Done? ==> Holds(feed, |feed|, local)
      ensures !outcome.Stopped? ==> batchBuffer == []
      ensures GoodRun(old(feed), since, old(script)) ==> outcome.Done?
      ensures old(script) != [] && IsRetried(old(script)[0]) ==> outcome == Failed(Failure(Transport, true)) && Runs(1) && checkpoint == old(checkpoint)
    {
      hide FeedAfter, Holds, WentWrong, GoodPages, Continues, StartsCalm;
      ghost var m := Now();
      Abort();
      received := {};
      var target := Request();
      OnlyGrows(m, Now());
      HoldsStays(old(feed), since, local, feed, local);
      if !target.Done? {
        return target;
      }
      ghost var m1 := Now();
      outcome := FetchPages(since);
      EndsEarlier(outcome, |old(past)|, |m1.past|);
      ContinuesOn(m, m1, Now());
      OnlyGrows(m, Now());
      if outcome.Failed? {
        ghost var m2 := Now();
        outcome := SaveTheRest(outcome.failure, |old(past)|);
        ContinuesOn(m, m2, Now());
      } else if outcome.Done? {
        Abort();
      }
    }

    /** Where the first attempt starts. */
    function ResumesAt(): nat
      reads this
    {
      if checkpoint.Some? && local != {} then checkpoint.value else 0
    }

    /**
     * The retry loop around it, with what it does before: resume from a checkpoint, unless there is none or the
     * local database turns out to be empty. However the process ends, and wherever it stops, the checkpoint that
     * is left names a durable prefix; and if it ends well, everything listed at the last probe is local.
     */
    method FastFetch() returns (outcome: Outcome<()>, attempts: nat)
      requires CheckpointIsDurable() && HistoryIsTrue()
      modifies this`feed, this`script, this`past, this`local, this`checkpoint, this`batchBuffer, this`currentBatchSizeBytes, this`batchLastSequence, this`received, this`read, this`pageRows
      ensures CheckpointIsDurable() && HistoryIsTrue() && Plays() && EndsRightly(outcome, |old(past)|)
      ensures outcome.Done? ==> Holds(feed, |feed|, local)
      ensures old(checkpoint).Some? && old(local) != {} ==> Progress()
      ensures attempts <= 5
      ensures outcome.Failed? && outcome.failure.retryable ==> attempts == 5
      ensures forall failures | 0 <= failures <= 4 && GoodAfter(old(feed), old(ResumesAt()), old(script), failures) ::
                outcome.Done? && attempts == failures + 1
    {
      hide GoodRun, IsRetried, GoodAfter, IsPlanned, FeedAfter, WentWrong;
      var since: nat := if checkpoint.Some? then checkpoint.value else 0;
      if checkpoint.None? || local == {} {
        checkpoint, local, since := None, {}, 0;
      }
      ghost var since0 := since;
      PlanStarts(feed, since, script);
      attempts := 0;
      while true
        invariant checkpoint.Some? ==> checkpoint.value == since
        invariant IsPlanned(old(feed), since0, old(script), attempts, feed, since, script)
        invariant CheckpointIsDurable() && HistoryIsTrue() && Plays() && Holds(feed, since, local) && attempts <= RETRIES
        invariant old(checkpoint).Some? && old(local) != {} ==> old(local) <= local
        decreases RETRIES - attempts
      {
        ghost var feed1, since1, script1, local1, k := feed, since, script, local, |past|;
        outcome := FetchChanges(since);
        HoldsStays(feed1, since, local1, feed, local);
        EndsEarlier(outcome, |old(past)|, k);
        NextAttempt(old(feed), since0, old(script), attempts, feed1, since1, script1, feed, if checkpoint.Some? then checkpoint.value else since, script);
        attempts := attempts + 1;
        if !outcome.Failed? || !outcome.failure.retryable || attempts > RETRIES {
          return;
        }
        since := if checkpoint.Some? then checkpoint.value else since;
      }
    }
  }
}
