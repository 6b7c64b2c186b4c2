/** Filtered event queries with a line cursor. */
module EventQuery {
  import opened Ordering
  import opened Counters
  import opened EventFields
  import opened SparkEvents
  import opened Wrappers

  /** The filters of a `QueryRequest`; the cursor and the page size are not part of them. */
  datatype Filter = Filter(
    eventTypes: Option<seq<string>>,
    lines: Option<seq<nat>>,
    ids: Ids,
    reason: Option<string>)

  predicate Agrees<T(==)>(wanted: Option<T>, actual: Option<T>) {
    wanted.Some? ==> actual == wanted
  }

  predicate IdsAgree(wanted: Ids, actual: Ids) {
    && Agrees(wanted.executionId, actual.executionId)
    && Agrees(wanted.jobId, actual.jobId)
    && Agrees(wanted.stageId, actual.stageId)
    && Agrees(wanted.stageAttemptId, actual.stageAttemptId)
    && Agrees(wanted.taskId, actual.taskId)
    && Agrees(wanted.executorId, actual.executorId)
  }

  /** The reason a task end reports; other events report none. */
  function ReasonOf(e: Event): Option<string> {
    if Name(e) == TASK_END then Some(TaskReason(e).0) else None
  }

  predicate Matches(f: Filter, line: nat, e: Event) {
    && (f.eventTypes.Some? ==> Name(e) in f.eventTypes.value)
    && (f.lines.Some? ==> line in f.lines.value)
    && IdsAgree(f.ids, DirectIds(e))
    && (f.reason.Some? ==> ReasonOf(e) == f.reason)
  }

  datatype Hit = Hit(line: nat, event: Event)

  /** Every matching line, in order. */
  function Hits(stream: seq<Event>, f: Filter): seq<Hit> {
    if stream == [] then []
    else
      var before, e := Hits(stream[..|stream| - 1], f), stream[|stream| - 1];
      if Matches(f, |stream|, e) then before + [Hit(|stream|, e)] else before
  }

  function Reasons(hits: seq<Hit>): seq<string> {
    if hits == [] then []
    else
      var before, reason := Reasons(hits[..|hits| - 1]), ReasonOf(hits[|hits| - 1].event);
      if reason.Some? then before + [reason.value] else before
  }

  function Beyond(hits: seq<Hit>, afterLine: nat): seq<Hit> {
    if hits == [] then []
    else
      var before, h := Beyond(hits[..|hits| - 1], afterLine), hits[|hits| - 1];
      if h.line > afterLine then before + [h] else before
  }

  datatype Page = Page(
    matched: nat,
    taskEnds: nat,
    reasons: seq<Count>,
    reasonsOmitted: nat,
    entries: seq<Hit>,
    next: Option<nat>)

  /** The page that a query with these filters, cursor and page size must return. */
  function PageOf(hits: seq<Hit>, afterLine: nat, limit: nat): Page {
    var counter := CounterOf(Reasons(hits));
    var eligible := Beyond(hits, afterLine);
    var entries := Take(limit, eligible);
    Page(|hits|, SumOf(counter), MostFrequent(counter), if |counter| > 32 then |counter| - 32 else 0,
         entries, if |eligible| > |entries| && entries != [] then Some(entries[|entries| - 1].line) else None)
  }

  /** What the query's visitor keeps from line to line. */
  class QueryScan {
    const filter: Filter
    const afterLine: nat
    const limit: nat
    var reasons: Counter
    var entries: seq<Hit>
    var matched: nat
    var eligible: nat

    ghost predicate Valid(hits: seq<Hit>)
      reads this
    {
      && reasons == CounterOf(Reasons(hits))
      && entries == Take(limit, Beyond(hits, afterLine))
      && matched == |hits|
      && eligible == |Beyond(hits, afterLine)|
    }

    constructor (filter: Filter, afterLine: nat, limit: nat)
      ensures Valid([])
      ensures this.filter == filter && this.afterLine == afterLine && this.limit == limit
    {
      this.filter, this.afterLine, this.limit := filter, afterLine, limit;
      reasons, entries, matched, eligible := [], [], 0, 0;
    }

    /** The part of `visit` behind the filters. */
    method Match(ghost hits: seq<Hit>, h: Hit)
      requires Valid(hits)
      modifies this
      ensures Valid(hits + [h])
    {
      var all := hits + [h];
      assert all[..|hits|] == hits;
      matched := matched + 1;
      var reason := ReasonOf(h.event);
      if reason.Some? {
        ghost var named := Reasons(hits) + [reason.value];
        assert named[..|Reasons(hits)|] == Reasons(hits);
        reasons := Bump(reasons, reason.value);
      }
      if h.line <= afterLine {
        return;
      }
      eligible := eligible + 1;
      if |entries| < limit {
        entries := entries + [h];
      }
    }

    /** The result of a finished scan. */
    method Result(ghost hits: seq<Hit>) returns (page: Page)
      requires Valid(hits)
      ensures page == PageOf(hits, afterLine, limit)
    {
      var next := if eligible > |entries| && entries != [] then Some(entries[|entries| - 1].line) else None;
      page := Page(matched, SumOf(reasons), MostFrequent(reasons),
                   if |reasons| > 32 then |reasons| - 32 else 0, entries, next);
    }
  }

  /** `_query` */
  method Query(stream: seq<Event>, f: Filter, afterLine: nat, limit: nat) returns (page: Page)
    requires 1 <= limit <= 20
    ensures page == PageOf(Hits(stream, f), afterLine, limit)
  {
    var scan := new QueryScan(f, afterLine, limit);
    var i := 0;
    while i < |stream|
      invariant i <= |stream| && scan.Valid(Hits(stream[..i], f)) && fresh(scan)
      invariant scan.filter == f && scan.afterLine == afterLine && scan.limit == limit
    {
      var matches := IsMatch(f, i + 1, stream[i]);
      HitsAppend(stream[..i], stream[i], f);
      assert stream[..i] + [stream[i]] == stream[..i + 1];
      if matches {
        scan.Match(Hits(stream[..i], f), Hit(i + 1, stream[i]));
      }
      i := i + 1;
    }
    assert stream[..i] == stream;
    page := scan.Result(Hits(stream, f));
  }

  /** The filters at the head of `visit`, in their order. */
  method IsMatch(f: Filter, line: nat, e: Event) returns (r: bool)
    ensures r == Matches(f, line, e)
  {
    if f.eventTypes.Some? && Name(e) !in f.eventTypes.value {
      return false;
    }
    if f.lines.Some? && line !in f.lines.value {
      return false;
    }
    if !IdsAgree(f.ids, DirectIds(e)) {
      return false;
    }
    return f.reason.None? || ReasonOf(e) == f.reason;
  }

  lemma HitsAppend(seen: seq<Event>, e: Event, f: Filter)
    ensures Hits(seen + [e], f) ==
            if Matches(f, |seen| + 1, e) then Hits(seen, f) + [Hit(|seen| + 1, e)] else Hits(seen, f)
  {
    assert (seen + [e])[..|seen|] == seen;
  }

  // ---------------------------------------------------------------------------------------------
  // What a query finds, and following its cursor

  ghost predicate Increasing(hits: seq<Hit>) {
    forall i, j :: 0 <= i < j < |hits| ==> hits[i].line < hits[j].line
  }

  lemma {:induction false} HitsMatch(stream: seq<Event>, f: Filter, h: Hit)
    ensures h in Hits(stream, f) <==>
            1 <= h.line <= |stream| && h.event == stream[h.line - 1] && Matches(f, h.line, h.event)
    ensures Increasing(Hits(stream, f))
    ensures forall i :: 0 <= i < |Hits(stream, f)| ==> 1 <= Hits(stream, f)[i].line <= |stream|
  {
    if stream != [] {
      HitsMatch(stream[..|stream| - 1], f, h);
    }
  }

  /** The raw event on this line passes every filter: its name, its line, each identifier under its
      own keys, and its task-end reason. */
  predicate Passes(f: Filter, line: nat, e: Event) {
    && (f.eventTypes.Some? ==> EventName(e) in f.eventTypes.value)
    && (f.lines.Some? ==> line in f.lines.value)
    && (f.ids.executionId.Some? ==> IdsAt(e).executionId == f.ids.executionId)
    && (f.ids.jobId.Some? ==> LongAt(e, ["Job ID"]) == f.ids.jobId)
    && (f.ids.stageId.Some? ==> Long(EitherAt(e, ["Stage ID"], ["Stage Info", "Stage ID"])) == f.ids.stageId)
    && (f.ids.stageAttemptId.Some? ==>
          Long(EitherAt(e, ["Stage Attempt ID"], ["Stage Info", "Stage Attempt ID"])) == f.ids.stageAttemptId)
    && (f.ids.taskId.Some? ==> LongAt(e, ["Task Info", "Task ID"]) == f.ids.taskId)
    && (f.ids.executorId.Some? ==> IdsAt(e).executorId == f.ids.executorId)
    && (f.reason.Some? ==> ReasonText(e) == f.reason)
  }

  lemma MatchesMean(f: Filter, line: nat, e: Event)
    ensures Matches(f, line, e) <==> Passes(f, line, e)
  {
    EventNames(e);
    IdsMean(e);
    ReasonTextsMean(e);
  }

  /** The hits are the lines whose raw events pass every filter, each once and in order. */
  lemma HitsAreTheMatchingLines(stream: seq<Event>, f: Filter, h: Hit)
    ensures h in Hits(stream, f) <==>
            1 <= h.line <= |stream| && h.event == stream[h.line - 1] && Passes(f, h.line, stream[h.line - 1])
    ensures Increasing(Hits(stream, f))
  {
    HitsMatch(stream, f, h);
    MatchesMean(f, h.line, h.event);
  }

  /** The eligible hits are the suffix behind the cursor. */
  lemma {:induction false} BeyondIsSuffix(hits: seq<Hit>, k: nat, afterLine: nat)
    requires k <= |hits|
    requires forall i :: 0 <= i < |hits| ==> (hits[i].line > afterLine <==> i >= k)
    ensures Beyond(hits, afterLine) == hits[k..]
  {
    if hits != [] {
      var n := |hits| - 1;
      if k == |hits| {
        assert hits[n].line <= afterLine;
        BeyondIsSuffix(hits[..n], n, afterLine);
      } else {
        BeyondIsSuffix(hits[..n], k, afterLine);
        assert hits[k..] == hits[..n][k..] + [hits[n]];
      }
    }
  }

  /** The cursor that stands behind the first `k` hits. */
  function Cursor(hits: seq<Hit>, k: nat): nat
    requires k <= |hits|
  {
    if k == 0 then 0 else hits[k - 1].line
  }

  /** A page from a cursor carries on where the cursor stands, and its own cursor carries on
      behind the page. */
  lemma PageContinues(hits: seq<Hit>, k: nat, limit: nat) returns (k': nat)
    requires 0 < limit && k <= |hits| && Increasing(hits) && forall i :: 0 <= i < |hits| ==> 1 <= hits[i].line
    ensures var page := PageOf(hits, Cursor(hits, k), limit);
            && k <= k' <= |hits| && page.entries == hits[k..k']
            && page.next == if k' < |hits| then Some(Cursor(hits, k')) else None
    ensures k' < |hits| ==> k' == k + limit
  {
    BeyondIsSuffix(hits, k, Cursor(hits, k));
    var rest := hits[k..];
    k' := k + |Take(limit, rest)|;
    assert Take(limit, rest) == hits[k..k'];
    assert k' > k ==> hits[k..k'][k' - k - 1] == hits[k' - 1];
  }

  function Concat(pages: seq<Page>): seq<Hit> {
    if pages == [] then [] else Concat(pages[..|pages| - 1]) + pages[|pages| - 1].entries
  }

  lemma ConcatAppend(pages: seq<Page>, page: Page)
    ensures Concat(pages + [page]) == Concat(pages) + page.entries
  {
    assert (pages + [page])[..|pages|] == pages;
  }

  function Events(hits: seq<Hit>): (r: seq<Event>)
    ensures |r| == |hits| && forall i :: 0 <= i < |r| ==> r[i] == hits[i].event
  {
    seq(|hits|, i requires 0 <= i < |hits| => hits[i].event)
  }

  /** Every page reports the same totals: the matches, the task ends among them, and the counts of
      the most frequent reasons. */
  ghost predicate Consistent(page: Page, hits: seq<Hit>) {
    && page.matched == |hits|
    && page.taskEnds == |Positions(Events(hits), ReportsReason())|
    && page.reasons == MostFrequent(CounterOf(Reasons(hits)))
    && page.reasonsOmitted == |CounterOf(Reasons(hits))| - |page.reasons|
    && forall x :: x in page.reasons ==> x.n == |Positions(Events(hits), Reports(x.name))|
  }

  /** The reasons are those of the task ends among the hits, each as often as it is reported. */
  lemma {:induction false} ReasonsAreReported(hits: seq<Hit>, reason: string)
    ensures |Reasons(hits)| == |Positions(Events(hits), ReportsReason())|
    ensures multiset(Reasons(hits))[reason] == |Positions(Events(hits), Reports(reason))|
  {
    if hits != [] {
      var n := |hits| - 1;
      var e := hits[n].event;
      ReasonsAreReported(hits[..n], reason);
      ReasonTextsMean(e);
      assert Events(hits) == Events(hits[..n]) + [e];
      PositionsAppend(Events(hits[..n]), e, ReportsReason());
      PositionsAppend(Events(hits[..n]), e, Reports(reason));
    }
  }

  lemma PagesAreConsistent(hits: seq<Hit>, afterLine: nat, limit: nat)
    ensures Consistent(PageOf(hits, afterLine, limit), hits)
  {
    CountsAreMultiplicities(Reasons(hits));
    MostFrequentAreCounts(Reasons(hits));
    ReasonsAreReported(hits, "");
    forall x | x in MostFrequent(CounterOf(Reasons(hits))) ensures x.n == |Positions(Events(hits), Reports(x.name))| {
      ReasonsAreReported(hits, x.name);
    }
  }

  /** The pages so far hold the first `k` hits and agree on the totals; `limit` entries are on each
      but the last. */
  ghost predicate Followed(pages: seq<Page>, hits: seq<Hit>, k: nat, limit: nat) {
    && k <= |hits| && Concat(pages) == hits[..k]
    && (forall i :: 0 <= i < |pages| ==> Consistent(pages[i], hits))
    && (forall i :: 0 <= i < |pages| - 1 ==> |pages[i].entries| == limit)
  }

  lemma FollowedStep(pages: seq<Page>, hits: seq<Hit>, k: nat, limit: nat, page: Page, k': nat)
    requires Followed(pages, hits, k, limit) && (pages != [] ==> |pages[|pages| - 1].entries| == limit)
    requires k <= k' <= |hits| && page.entries == hits[k..k'] && Consistent(page, hits)
    ensures Followed(pages + [page], hits, k', limit)
  {
    ConcatAppend(pages, page);
    assert hits[..k] + hits[k..k'] == hits[..k'];
  }

  /** One request of a client whose cursor stands behind the first `k` hits. */
  method NextPage(stream: seq<Event>, f: Filter, cursor: nat, limit: nat, ghost k: nat)
    returns (page: Page, ghost k': nat)
    requires 1 <= limit <= 20 && k <= |Hits(stream, f)| && cursor == Cursor(Hits(stream, f), k)
    ensures k <= k' <= |Hits(stream, f)| && page.entries == Hits(stream, f)[k..k']
    ensures page.next == if k' < |Hits(stream, f)| then Some(Cursor(Hits(stream, f), k')) else None
    ensures k' < |Hits(stream, f)| ==> k' == k + limit
    ensures Consistent(page, Hits(stream, f))
  {
    HitsMatch(stream, f, Hit(0, map[]));
    page := Query(stream, f, cursor, limit);
    k' := PageContinues(Hits(stream, f), k, limit);
    PagesAreConsistent(Hits(stream, f), cursor, limit);
  }

  /** A client that follows `next_after_line` from zero until there is none: it stops, it has seen
      every matching line exactly once and in order, and all its pages but the last are full. */
  method FollowPages(stream: seq<Event>, f: Filter, limit: nat) returns (pages: seq<Page>)
    requires 1 <= limit <= 20
    ensures pages != [] && Concat(pages) == Hits(stream, f)
    ensures forall i :: 0 <= i < |pages| ==> Consistent(pages[i], Hits(stream, f))
    ensures forall i :: 0 <= i < |pages| - 1 ==> |pages[i].entries| == limit
  {
    ghost var hits := Hits(stream, f);
    pages := [];
    var cursor := Some(0);
    ghost var k: nat := 0;
    while cursor.Some?
      invariant Followed(pages, hits, k, limit) && (pages == [] ==> k == 0 && cursor.Some?)
      invariant cursor.Some? ==>
        cursor.value == Cursor(hits, k) && (pages != [] ==> k < |hits| && |pages[|pages| - 1].entries| == limit)
      invariant cursor.None? ==> k == |hits|
      decreases cursor.Some?, |hits| - k
    {
      var page, k' := NextPage(stream, f, cursor.value, limit, k);
      FollowedStep(pages, hits, k, limit, page, k');
      pages := pages + [page];
      cursor := page.next;
      k := k';
    }
    assert hits[..k] == hits;
  }
}
