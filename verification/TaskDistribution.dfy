/** The one-pass task distribution of one stage attempt: a bounded heap of the best-ranked tasks
    and the full samples of six metrics. */
module TaskDistribution {
  import opened EventFields
  import opened Ordering
  import opened SparkEvents
  import opened Wrappers

  // ---------------------------------------------------------------------------------------------
  // Nearest-rank statistics

  datatype Distribution = Distribution(
    valid: nat, missing: int, min: Option<int>, p50: Option<int>, p95: Option<int>, max: Option<int>)

  /** `sorted(values)` */
  function Sorted(values: seq<int>): (r: seq<int>)
    ensures |r| == |values|
  {
    Sort((v: int) => [v], values)
  }

  ghost predicate Ascending(values: seq<int>) {
    forall i, j :: 0 <= i < j < |values| ==> values[i] <= values[j]
  }

  lemma SortedAscends(values: seq<int>)
    ensures Ascending(Sorted(values)) && multiset(Sorted(values)) == multiset(values)
  {
    var key := (v: int) => [v];
    SortSorted(key, values);
    var r := Sorted(values);
    forall i, j | 0 <= i < j < |r| ensures r[i] <= r[j] {
      assert AtMost(key(r[i]), key(r[j]));
    }
  }

  /** `metric_distribution` */
  function MetricDistribution(values: seq<int>, successful: int): Distribution {
    var ordered := Sorted(values);
    var count := |ordered|;
    if count == 0 then Distribution(0, successful, None, None, None, None)
    else
      Distribution(count, successful - count, Some(ordered[0]),
                   Some(ordered[(50 * count + 99) / 100 - 1]),
                   Some(ordered[(95 * count + 99) / 100 - 1]), Some(ordered[count - 1]))
  }

  function CountAtMost(values: seq<int>, v: int): nat {
    if values == [] then 0
    else CountAtMost(values[..|values| - 1], v) + if values[|values| - 1] <= v then 1 else 0
  }

  /** The least sample with at least `percent` hundredths of the samples at or below it. */
  ghost predicate NearestRank(values: seq<int>, percent: nat, v: int) {
    && v in values
    && 100 * CountAtMost(values, v) >= percent * |values|
    && forall w :: w in values && w < v ==> 100 * CountAtMost(values, w) < percent * |values|
  }

  lemma {:induction false} CountAppend(a: seq<int>, b: seq<int>, v: int)
    ensures CountAtMost(a + b, v) == CountAtMost(a, v) + CountAtMost(b, v)
  {
    if b == [] {
      assert a + b == a;
    } else {
      CountAppend(a, b[..|b| - 1], v);
      assert (a + b)[..|a + b| - 1] == a + b[..|b| - 1];
    }
  }

  lemma {:induction false} CountInsert(x: int, xs: seq<int>, v: int)
    ensures CountAtMost(Insert((n: int) => [n], x, xs), v) == CountAtMost(xs, v) + if x <= v then 1 else 0
  {
    if xs != [] {
      CountInsert(x, xs[..|xs| - 1], v);
    }
  }

  lemma {:induction false} CountOfSorted(values: seq<int>, v: int)
    ensures CountAtMost(Sorted(values), v) == CountAtMost(values, v)
  {
    if values != [] {
      CountOfSorted(values[..|values| - 1], v);
      CountInsert(values[|values| - 1], Sorted(values[..|values| - 1]), v);
    }
  }

  lemma {:induction false} CountAll(values: seq<int>, v: int)
    requires forall i :: 0 <= i < |values| ==> values[i] <= v
    ensures CountAtMost(values, v) == |values|
  {
    if values != [] {
      CountAll(values[..|values| - 1], v);
    }
  }

  lemma {:induction false} CountNone(values: seq<int>, v: int)
    requires forall i :: 0 <= i < |values| ==> v < values[i]
    ensures CountAtMost(values, v) == 0
  {
    if values != [] {
      CountNone(values[..|values| - 1], v);
    }
  }

  lemma {:induction false} CountBound(values: seq<int>, v: int)
    ensures CountAtMost(values, v) <= |values|
  {
    if values != [] {
      CountBound(values[..|values| - 1], v);
    }
  }

  /** In a sorted sample more than `i` values are at or below the one at index `i`, and at most
      `i` are at or below a smaller one. */
  lemma SortedCounts(sorted: seq<int>, i: nat)
    requires i < |sorted| && Ascending(sorted)
    ensures CountAtMost(sorted, sorted[i]) > i
  {
    assert sorted == sorted[..i + 1] + sorted[i + 1..];
    CountAppend(sorted[..i + 1], sorted[i + 1..], sorted[i]);
    CountAll(sorted[..i + 1], sorted[i]);
  }

  lemma SmallerCounts(sorted: seq<int>, i: nat, w: int)
    requires i < |sorted| && Ascending(sorted) && w < sorted[i]
    ensures CountAtMost(sorted, w) <= i
  {
    assert sorted == sorted[..i] + sorted[i..];
    CountAppend(sorted[..i], sorted[i..], w);
    CountBound(sorted[..i], w);
    forall k | 0 <= k < |sorted[i..]| ensures w < sorted[i..][k] {
      assert sorted[i..][k] == sorted[i + k];
    }
    CountNone(sorted[i..], w);
  }

  lemma RankIndex(percent: nat, n: nat) returns (i: nat)
    requires 1 <= percent <= 100 && 0 < n
    ensures i == (percent * n + 99) / 100 - 1 && i < n
    ensures 100 * i < percent * n <= 100 * (i + 1)
  {
    assert n <= percent * n <= 100 * n;
    i := (percent * n + 99) / 100 - 1;
  }

  lemma SortedRank(values: seq<int>, i: nat)
    requires i < |values|
    ensures Sorted(values)[i] in values && CountAtMost(values, Sorted(values)[i]) >= i + 1
    ensures forall w :: w in values && w < Sorted(values)[i] ==> CountAtMost(values, w) <= i
  {
    var sorted := Sorted(values);
    SortedAscends(values);
    assert sorted[i] in multiset(sorted);
    CountOfSorted(values, sorted[i]);
    SortedCounts(sorted, i);
    forall w | w in values && w < sorted[i] ensures CountAtMost(values, w) <= i {
      CountOfSorted(values, w);
      SmallerCounts(sorted, i, w);
    }
  }

  lemma IndexIsNearestRank(values: seq<int>, percent: nat)
    requires values != [] && 1 <= percent <= 100
    ensures var i := (percent * |values| + 99) / 100 - 1;
            0 <= i < |values| && NearestRank(values, percent, Sorted(values)[i])
  {
    var i := RankIndex(percent, |values|);
    SortedRank(values, i);
  }

  lemma NearestRankIsUnique(values: seq<int>, percent: nat, v: int, w: int)
    requires NearestRank(values, percent, v) && NearestRank(values, percent, w)
    ensures v == w
  {
  }

  lemma SortedBounds(values: seq<int>)
    requires values != []
    ensures var r := Sorted(values);
            r[0] in values && r[|r| - 1] in values && forall v :: v in values ==> r[0] <= v <= r[|r| - 1]
  {
    var r := Sorted(values);
    SortedAscends(values);
    assert r[0] in multiset(r) && r[|r| - 1] in multiset(r);
    forall v | v in values ensures r[0] <= v <= r[|r| - 1] {
      assert v in multiset(r);
      var i :| 0 <= i < |r| && r[i] == v;
    }
  }

  /** For every nonempty sample the four statistics are samples in this order, and the quantiles
      are the nearest ranks. */
  lemma DistributionIsNearestRank(values: seq<int>, successful: int)
    requires values != []
    ensures var d := MetricDistribution(values, successful);
            && d.valid == |values| && d.valid + d.missing == successful
            && d.min.Some? && d.p50.Some? && d.p95.Some? && d.max.Some?
            && d.min.value in values && d.max.value in values
            && (forall v :: v in values ==> d.min.value <= v <= d.max.value)
            && d.min.value <= d.p50.value <= d.p95.value <= d.max.value
            && NearestRank(values, 50, d.p50.value) && NearestRank(values, 95, d.p95.value)
  {
    SortedAscends(values);
    SortedBounds(values);
    IndexIsNearestRank(values, 50);
    IndexIsNearestRank(values, 95);
  }

  /** Without samples there are no statistics, and every success lacks a value. */
  lemma EmptySample(successful: int)
    ensures MetricDistribution([], successful) == Distribution(0, successful, None, None, None, None)
  {
  }

  /** The order in which the samples arrived does not matter. */
  lemma DistributionIgnoresOrder(a: seq<int>, b: seq<int>, successful: int)
    requires multiset(a) == multiset(b)
    ensures MetricDistribution(a, successful) == MetricDistribution(b, successful)
  {
    SortedAscends(a);
    SortedAscends(b);
    AscendingIsUnique(Sorted(a), Sorted(b));
  }

  lemma AscendingIsUnique(a: seq<int>, b: seq<int>)
    requires Ascending(a) && Ascending(b) && multiset(a) == multiset(b)
    ensures a == b
  {
    var key := (v: int) => [v];
    forall x: int, y: int ensures x <= y ==> AtMost(key(x), key(y)) {
    }
    SortedUnique(key, a, b);
  }

  // ---------------------------------------------------------------------------------------------
  // Candidates and the bounded heap

  datatype Candidate = Candidate(score: int, line: nat, values: TaskValues, ids: Ids)

  /** The published order: score descending, then line ascending. */
  function Rank(): Candidate -> Key {
    (c: Candidate) => [-c.score, c.line]
  }

  /** The heap's order on (score, -line). */
  predicate Lower(a: Candidate, b: Candidate) {
    a.score < b.score || (a.score == b.score && a.line > b.line)
  }

  lemma LowerIsRankedLater(a: Candidate, b: Candidate)
    ensures Lower(a, b) <==> Less(Rank()(b), Rank()(a))
  {
    assert Less([b.line as int], [a.line as int]) <==> b.line < a.line;
    assert Rank()(a)[1..] == [a.line as int] && Rank()(b)[1..] == [b.line as int];
  }

  function Parent(i: nat): nat
    requires i > 0
  {
    (i - 1) / 2
  }

  ghost predicate HeapExcept(items: seq<Candidate>, hole: int) {
    forall i :: 0 < i < |items| && i != hole ==> !Lower(items[i], items[Parent(i)])
  }

  lemma {:induction false} RootIsLowest(items: seq<Candidate>, i: nat)
    requires HeapExcept(items, -1) && i < |items|
    ensures !Lower(items[i], items[0])
  {
    if i > 0 {
      RootIsLowest(items, Parent(i));
    }
  }

  function LowestChild(items: seq<Candidate>, i: nat): (c: nat)
    requires 2 * i + 1 < |items|
    ensures 0 < c < |items| && Parent(c) == i
    ensures forall j :: 0 < j < |items| && Parent(j) == i ==> !Lower(items[j], items[c])
  {
    assert forall j :: j > 0 && Parent(j) == i ==> j == 2 * i + 1 || j == 2 * i + 2;
    if 2 * i + 2 < |items| && Lower(items[2 * i + 2], items[2 * i + 1]) then 2 * i + 2 else 2 * i + 1
  }

  function Swap(items: seq<Candidate>, i: nat, j: nat): (r: seq<Candidate>)
    requires i < |items| && j < |items|
    ensures |r| == |items|
    ensures multiset(r) == multiset(items)
  {
    items[i := items[j]][j := items[i]]
  }

  /** The `heapq` list of candidates. */
  class CandidateHeap {
    var items: seq<Candidate>

    ghost predicate Valid()
      reads this
    {
      HeapExcept(items, -1)
    }

    constructor ()
      ensures Valid() && items == []
    {
      items := [];
    }

    /** `heapq.heappush` */
    method Push(c: Candidate)
      requires Valid()
      modifies this
      ensures Valid() && |items| == |old(items)| + 1
      ensures multiset(items) == multiset(old(items)) + multiset{c}
    {
      items := items + [c];
      ghost var start := items;
      var i: nat := |items| - 1;
      while i > 0
        invariant SiftingUp(items, i) && |items| == |start| && multiset(items) == multiset(start)
        decreases i
      {
        if !Lower(items[i], items[Parent(i)]) {
          return;
        }
        SiftUpStep(items, i);
        items := Swap(items, i, Parent(i));
        i := Parent(i);
      }
    }

    /** `heapq.heapreplace` */
    method Replace(c: Candidate)
      requires Valid() && items != []
      modifies this
      ensures Valid() && |items| == |old(items)|
      ensures multiset(items) == multiset(old(items)) - multiset{old(items)[0]} + multiset{c}
    {
      NewRoot(items, c);
      items := items[0 := c];
      ghost var start := items;
      var i := 0;
      while 2 * i + 1 < |items|
        invariant SiftingDown(items, i) && |items| == |old(items)|
        invariant multiset(items) == multiset(start)
        decreases |items| - i
      {
        var child := LowestChild(items, i);
        if !Lower(items[child], items[i]) {
          SiftingDone(items, i);
          return;
        }
        SiftDownStep(items, i, child);
        items := Swap(items, i, child);
        i := child;
      }
      SiftingDone(items, i);
    }
  }

  /** A heap but for position `i`, whose children are in order with its parent. */
  ghost predicate SiftingUp(items: seq<Candidate>, i: nat) {
    && i < |items| && HeapExcept(items, i)
    && (i > 0 ==> forall j :: 0 < j < |items| && Parent(j) == i ==> !Lower(items[j], items[Parent(i)]))
  }

  lemma SiftUpStep(items: seq<Candidate>, i: nat)
    requires SiftingUp(items, i) && i > 0 && Lower(items[i], items[Parent(i)])
    ensures SiftingUp(Swap(items, i, Parent(i)), Parent(i))
  {
    var p := Parent(i);
    var r := Swap(items, i, p);
    forall j | 0 < j < |r| && j != p ensures !Lower(r[j], r[Parent(j)]) {
      assert j != i ==> !Lower(items[j], items[Parent(j)]);
    }
    if p > 0 {
      forall j | 0 < j < |r| && Parent(j) == p ensures !Lower(r[j], r[Parent(p)]) {
        assert !Lower(items[p], items[Parent(p)]);
        assert j != i ==> !Lower(items[j], items[p]);
      }
    }
  }

  /** A heap but for the children of position `i`, which are in order with its parent. */
  ghost predicate SiftingDown(items: seq<Candidate>, i: nat) {
    && i < |items|
    && (forall j :: 0 < j < |items| && Parent(j) != i ==> !Lower(items[j], items[Parent(j)]))
    && (i > 0 ==> forall j :: 0 < j < |items| && Parent(j) == i ==> !Lower(items[j], items[Parent(i)]))
  }

  lemma NewRoot(items: seq<Candidate>, c: Candidate)
    requires items != [] && HeapExcept(items, -1)
    ensures SiftingDown(items[0 := c], 0)
    ensures multiset(items[0 := c]) == multiset(items) - multiset{items[0]} + multiset{c}
  {
  }

  lemma SiftingDone(items: seq<Candidate>, i: nat)
    requires SiftingDown(items, i)
    requires forall j :: 0 < j < |items| && Parent(j) == i ==> !Lower(items[j], items[i])
    ensures HeapExcept(items, -1)
  {
  }

  lemma SiftDownStep(items: seq<Candidate>, i: nat, child: nat)
    requires SiftingDown(items, i) && 0 < child < |items| && Parent(child) == i
    requires Lower(items[child], items[i])
    requires forall j :: 0 < j < |items| && Parent(j) == i ==> !Lower(items[j], items[child])
    ensures SiftingDown(Swap(items, i, child), child)
  {
    var r := Swap(items, i, child);
    forall j | 0 < j < |r| && Parent(j) != child ensures !Lower(r[j], r[Parent(j)]) {
      if j == i {
        assert !Lower(items[child], items[Parent(i)]);
      }
    }
    forall j | 0 < j < |r| && Parent(j) == child ensures !Lower(r[j], r[Parent(child)]) {
      assert !Lower(items[j], items[Parent(j)]);
    }
  }

  // ---------------------------------------------------------------------------------------------
  // The scan and its specification: collect everything, sort, take the first `limit`

  const METRICS: seq<Metric> := [Duration, RunTime, GcTime, InputBytes, ShuffleRead, FetchWait]

  function Position(m: Metric): (i: nat)
    ensures i < |METRICS| && METRICS[i] == m
  {
    match m
    case Duration => 0
    case RunTime => 1
    case GcTime => 2
    case InputBytes => 3
    case ShuffleRead => 4
    case FetchWait => 5
  }

  /** The stage attempt a request asks about. */
  datatype Attempt = Attempt(stageId: int, attemptId: int)

  predicate Selected(e: Event, a: Attempt) {
    && Name(e) == TASK_END
    && MetricInteger(Get(e, "Stage ID")) == Some(a.stageId)
    && MetricInteger(Get(e, "Stage Attempt ID")) == Some(a.attemptId)
  }

  /** What the visitor makes of one event. */
  datatype Reading = Skipped | Failed | Unclear | Done(values: TaskValues, ids: Ids)

  function Read(e: Event, a: Attempt): Reading {
    if !Selected(e, a) then Skipped
    else match TaskOutcome(e)
      case NonSuccess => Failed
      case Unknown => Unclear
      case Success => Done(TaskMetricValues(e), DirectIds(e))
  }

  function ReadAll(stream: seq<Event>, a: Attempt): (r: seq<Reading>)
    ensures |r| == |stream|
    ensures forall i :: 0 <= i < |r| ==> r[i] == Read(stream[i], a)
  {
    seq(|stream|, i requires 0 <= i < |stream| => Read(stream[i], a))
  }

  datatype Tally = Tally(successful: nat, nonSuccess: nat, unknown: nat)

  /** The attempt's task ends by outcome. */
  function Outcomes(rs: seq<Reading>): Tally {
    if rs == [] then Tally(0, 0, 0)
    else
      var t := Outcomes(rs[..|rs| - 1]);
      match rs[|rs| - 1]
      case Skipped => t
      case Failed => t.(nonSuccess := t.nonSuccess + 1)
      case Unclear => t.(unknown := t.unknown + 1)
      case Done(_, _) => t.(successful := t.successful + 1)
  }

  /** The values of one metric over the successful tasks, in stream order. */
  function Samples(rs: seq<Reading>, m: Metric): seq<int> {
    if rs == [] then [] else Samples(rs[..|rs| - 1], m) + Sample(rs[|rs| - 1], m)
  }

  function Sample(r: Reading, m: Metric): (s: seq<int>)
    ensures |s| <= 1
  {
    if r.Done? && Value(r.values, m).Some? then [Value(r.values, m).value] else []
  }

  /** The successful tasks that have the ranking metric; a line number is a position from one. */
  function Candidates(rs: seq<Reading>, m: Metric): seq<Candidate> {
    if rs == [] then []
    else
      var r := rs[|rs| - 1];
      Candidates(rs[..|rs| - 1], m) +
      if r.Done? && Value(r.values, m).Some?
      then [Candidate(Value(r.values, m).value, |rs|, r.values, r.ids)]
      else []
  }

  function Best(all: seq<Candidate>, limit: nat): seq<Candidate> {
    Take(limit, Sort(Rank(), all))
  }

  ghost predicate DistinctLines(all: seq<Candidate>) {
    forall c, d :: c in all && d in all && c.line == d.line ==> c == d
  }

  lemma {:induction false} CandidateLines(rs: seq<Reading>, m: Metric)
    ensures DistinctLines(Candidates(rs, m))
    ensures forall c :: c in Candidates(rs, m) ==> 1 <= c.line <= |rs|
  {
    if rs != [] {
      CandidateLines(rs[..|rs| - 1], m);
    }
  }

  /** The heap holds the best candidates so far. */
  ghost predicate HoldsBest(items: seq<Candidate>, all: seq<Candidate>, limit: nat) {
    multiset(items) == multiset(Best(all, limit))
  }

  lemma SameSize<T>(a: seq<T>, b: seq<T>)
    requires multiset(a) == multiset(b)
    ensures |a| == |b|
  {
    assert |multiset(a)| == |a| && |multiset(b)| == |b|;
  }

  lemma RoomForOneMore(items: seq<Candidate>, all: seq<Candidate>, limit: nat, c: Candidate)
    requires HoldsBest(items, all, limit) && |items| < limit
    ensures multiset(items) + multiset{c} == multiset(Best(all + [c], limit))
  {
    SameSize(items, Best(all, limit));
    SortAppend(Rank(), all, c);
    SortSorted(Rank(), all);
    InsertSorted(Rank(), c, Sort(Rank(), all));
  }

  /** The lowest of the best candidates is the one ranked last. */
  lemma LowestIsLast(items: seq<Candidate>, all: seq<Candidate>, limit: nat)
    requires HoldsBest(items, all, limit) && |items| == limit > 0 && DistinctLines(all)
    requires HeapExcept(items, -1)
    ensures |Best(all, limit)| == limit && items[0] == Best(all, limit)[limit - 1]
  {
    var best, w := Best(all, limit), items[0];
    SameSize(items, best);
    SortSorted(Rank(), all);
    var last := best[limit - 1];
    assert w in multiset(best) && last in multiset(items);
    var i :| 0 <= i < |best| && best[i] == w;
    var j :| 0 <= j < |items| && items[j] == last;
    RootIsLowest(items, j);
    LowerIsRankedLater(last, w);
    assert AtMost(Rank()(best[i]), Rank()(last)) by {
      LessTotal(Rank()(last), Rank()(last));
    }
    LessTotal(Rank()(w), Rank()(last));
    assert w in multiset(Sort(Rank(), all)) && last in multiset(Sort(Rank(), all));
    SameRank(all, w, last);
  }

  lemma SameRank(all: seq<Candidate>, c: Candidate, d: Candidate)
    requires DistinctLines(all) && c in multiset(all) && d in multiset(all) && Rank()(c) == Rank()(d)
    ensures c == d
  {
    assert Rank()(c)[1] == Rank()(d)[1];
  }

  lemma BestAppend(all: seq<Candidate>, c: Candidate, limit: nat)
    ensures Best(all + [c], limit) == Take(limit, Insert(Rank(), c, Best(all, limit)))
    ensures SortedBy(Rank(), Best(all, limit))
  {
    SortSorted(Rank(), all);
    SortAppend(Rank(), all, c);
    TakeInsert(Rank(), limit, c, Sort(Rank(), all));
  }

  /** A full heap takes a new candidate in place of its root exactly if that ranks before it. */
  lemma FullHeapStep(items: seq<Candidate>, all: seq<Candidate>, limit: nat, c: Candidate)
    requires HoldsBest(items, all, limit) && |items| == limit > 0 && DistinctLines(all)
    requires HeapExcept(items, -1)
    ensures multiset(Best(all + [c], limit)) ==
            if Lower(items[0], c) then multiset(items) - multiset{items[0]} + multiset{c} else multiset(items)
  {
    var best := Best(all, limit);
    LowestIsLast(items, all, limit);
    BestAppend(all, c, limit);
    LowerIsRankedLater(items[0], c);
    var rest, last := best[..limit - 1], best[limit - 1];
    assert best == rest + [last];
    if Lower(items[0], c) {
      InsertSorted(Rank(), c, rest);
      assert Take(limit, Insert(Rank(), c, best)) == Insert(Rank(), c, rest);
    } else {
      assert Take(limit, Insert(Rank(), c, best)) == best;
    }
  }

  function AsInts(words: seq<Word>): (r: seq<int>)
    ensures |r| == |words| && forall i :: 0 <= i < |r| ==> r[i] == words[i] as int
  {
    seq(|words|, i requires 0 <= i < |words| => words[i] as int)
  }

  datatype Result = Result(
    tally: Tally,
    distributions: map<Metric, Distribution>,
    ranked: nat,
    top: seq<Candidate>,
    omitted: int)

  ghost predicate HoldsSamples(samples: map<Metric, seq<Word>>, rs: seq<Reading>) {
    forall m: Metric :: m in samples && AsInts(samples[m]) == Samples(rs, m)
  }

  /** One append; the value fits the 64-bit array. */
  method AppendSample(samples: map<Metric, seq<Word>>, r: Reading, m: Metric) returns (s: map<Metric, seq<Word>>)
    requires m in samples && (r.Done? ==> FitsWord(Value(r.values, m)))
    ensures s.Keys == samples.Keys && forall n :: n in samples && n != m ==> s[n] == samples[n]
    ensures AsInts(s[m]) == AsInts(samples[m]) + Sample(r, m)
  {
    if r.Done? && Value(r.values, m).Some? {
      var grown := samples[m] + [Value(r.values, m).value as Word];
      assert AsInts(grown) == AsInts(samples[m]) + Sample(r, m);
      return samples[m := grown];
    }
    return samples;
  }

  /** The inner loop over the metric names. */
  method AppendSamples(samples: map<Metric, seq<Word>>, r: Reading, names: seq<Metric>)
    returns (s: map<Metric, seq<Word>>)
    requires r.Done? ==> Fits(r.values)
    requires forall m :: m in names ==> m in samples
    requires forall i, j :: 0 <= i < j < |names| ==> names[i] != names[j]
    ensures s.Keys == samples.Keys
    ensures forall m :: m in names ==> AsInts(s[m]) == AsInts(samples[m]) + Sample(r, m)
  {
    s := samples;
    var k := 0;
    while k < |names|
      invariant k <= |names| && s.Keys == samples.Keys
      invariant forall j :: 0 <= j < k ==> AsInts(s[names[j]]) == AsInts(samples[names[j]]) + Sample(r, names[j])
      invariant forall j :: k <= j < |names| ==> s[names[j]] == samples[names[j]]
    {
      s := AppendSample(s, r, names[k]);
      k := k + 1;
    }
  }

  lemma MetricsAreAll()
    ensures forall m: Metric :: m in METRICS
    ensures forall i, j :: 0 <= i < j < |METRICS| ==> METRICS[i] != METRICS[j]
  {
    forall m: Metric ensures m in METRICS {
      assert METRICS[Position(m)] == m;
    }
    forall i, j | 0 <= i < j < |METRICS| ensures METRICS[i] != METRICS[j] {
      assert Position(METRICS[i]) == i && Position(METRICS[j]) == j;
    }
  }

  lemma CandidatesAppend(seen: seq<Reading>, r: Reading, m: Metric)
    ensures Candidates(seen + [r], m) ==
            if r.Done? && Value(r.values, m).Some?
            then Candidates(seen, m) + [Candidate(Value(r.values, m).value, |seen| + 1, r.values, r.ids)]
            else Candidates(seen, m)
  {
    assert (seen + [r])[..|seen|] == seen;
  }

  /** The state that the visitor of `scan_task_distribution` updates line by line. */
  class TaskScan {
    const orderBy: Metric
    const limit: nat
    const heap: CandidateHeap
    var samples: map<Metric, seq<Word>>
    var tally: Tally
    var ranked: nat

    ghost predicate HeapValid(seen: seq<Reading>)
      reads this, heap
    {
      && heap.Valid() && 0 < limit
      && ranked == |Candidates(seen, orderBy)|
      && HoldsBest(heap.items, Candidates(seen, orderBy), limit)
    }

    ghost predicate Valid(seen: seq<Reading>)
      reads this, heap
    {
      HeapValid(seen) && tally == Outcomes(seen) && HoldsSamples(samples, seen)
    }

    constructor (orderBy: Metric, limit: nat)
      requires 0 < limit
      ensures Valid([]) && fresh(heap)
      ensures this.orderBy == orderBy && this.limit == limit
    {
      this.orderBy, this.limit := orderBy, limit;
      samples := map[Duration := [], RunTime := [], GcTime := [], InputBytes := [], ShuffleRead := [], FetchWait := []];
      tally, ranked := Tally(0, 0, 0), 0;
      heap := new CandidateHeap();
      new;
      forall m: Metric ensures m in samples && samples[m] == [] {
        match m case Duration => case _ =>
      }
    }

    /** `visit` on the line after those seen. */
    method VisitNext(ghost rs: seq<Reading>, i: nat, r: Reading)
      requires i < |rs| && Valid(rs[..i]) && r == rs[i] && (r.Done? ==> Fits(r.values))
      modifies this, heap
      ensures Valid(rs[..i + 1])
    {
      assert rs[..i] + [rs[i]] == rs[..i + 1];
      Visit(rs[..i], i + 1, r);
    }

    method Visit(ghost seen: seq<Reading>, line: nat, r: Reading)
      requires Valid(seen) && line == |seen| + 1 && (r.Done? ==> Fits(r.values))
      modifies this, heap
      ensures Valid(seen + [r])
    {
      assert (seen + [r])[..|seen|] == seen;
      MetricsAreAll();
      match r {
        case Skipped =>
        case Failed => tally := tally.(nonSuccess := tally.nonSuccess + 1);
        case Unclear => tally := tally.(unknown := tally.unknown + 1);
        case Done(_, _) =>
          tally := tally.(successful := tally.successful + 1);
          samples := AppendSamples(samples, r, METRICS);
      }
      RankTask(seen, line, r);
      forall m: Metric ensures m in samples && AsInts(samples[m]) == Samples(seen + [r], m) {
        assert m in METRICS;
      }
    }

    /** The ranking half of `visit`: a bounded heap step. */
    method RankTask(ghost seen: seq<Reading>, line: nat, r: Reading)
      requires HeapValid(seen) && line == |seen| + 1
      modifies this`ranked, heap
      ensures HeapValid(seen + [r])
    {
      CandidatesAppend(seen, r, orderBy);
      if r.Done? && Value(r.values, orderBy).Some? {
        ranked := ranked + 1;
        CandidateLines(seen, orderBy);
        Consider(Candidates(seen, orderBy), Candidate(Value(r.values, orderBy).value, line, r.values, r.ids));
      }
    }

    method Consider(ghost all: seq<Candidate>, c: Candidate)
      requires heap.Valid() && 0 < limit && HoldsBest(heap.items, all, limit) && DistinctLines(all)
      modifies heap
      ensures heap.Valid() && HoldsBest(heap.items, all + [c], limit)
    {
      SameSize(heap.items, Best(all, limit));
      if |heap.items| < limit {
        RoomForOneMore(heap.items, all, limit, c);
        heap.Push(c);
      } else {
        FullHeapStep(heap.items, all, limit, c);
        if Lower(heap.items[0], c) {
          heap.Replace(c);
        }
      }
    }
  }

  lemma OrderedHeapIsBest(items: seq<Candidate>, rs: seq<Reading>, m: Metric, limit: nat)
    requires HoldsBest(items, Candidates(rs, m), limit)
    ensures Sort(Rank(), items) == Best(Candidates(rs, m), limit)
  {
    var all := Candidates(rs, m);
    var best := Best(all, limit);
    SortSorted(Rank(), items);
    SortSorted(Rank(), all);
    CandidateLines(rs, m);
    forall x, y | x in Sort(Rank(), items) && y in Sort(Rank(), items) && Rank()(x) == Rank()(y) ensures x == y {
      assert x in multiset(best) && y in multiset(best);
      assert x in multiset(Sort(Rank(), all)) && y in multiset(Sort(Rank(), all));
      assert Rank()(x)[1] == Rank()(y)[1];
    }
    SortedUnique(Rank(), Sort(Rank(), items), best);
  }

  function Distributions(samples: map<Metric, seq<Word>>, successful: nat): (r: map<Metric, Distribution>)
    ensures r.Keys == samples.Keys
    ensures forall m :: m in samples ==> r[m] == MetricDistribution(AsInts(samples[m]), successful)
  {
    map m | m in samples :: MetricDistribution(AsInts(samples[m]), successful)
  }

  // ---------------------------------------------------------------------------------------------
  // The readings, read off the raw events

  /** The event ends a task of the attempt with this outcome. */
  function EndsWith(a: Attempt, o: Outcome): Event -> bool {
    (e: Event) => TaskEndOf(e, a.stageId, a.attemptId) && OutcomeIs(e, o)
  }

  lemma SelectedMeans(e: Event, a: Attempt)
    ensures Selected(e, a) <==> TaskEndOf(e, a.stageId, a.attemptId)
  {
    NamesMean(e, TASK_END);
    KeyUnfolds(e, "Stage ID");
    KeyUnfolds(e, "Stage Attempt ID");
  }

  predicate HasOutcome(r: Reading, o: Outcome) {
    match o case Success => r.Done? case NonSuccess => r.Failed? case Unknown => r.Unclear?
  }

  function Of(t: Tally, o: Outcome): nat {
    match o case Success => t.successful case NonSuccess => t.nonSuccess case Unknown => t.unknown
  }

  lemma ReadMeans(e: Event, a: Attempt, o: Outcome)
    ensures HasOutcome(Read(e, a), o) <==> EndsWith(a, o)(e)
    ensures Read(e, a).Done? ==> Read(e, a) == Done(TaskMetricValues(e), DirectIds(e))
  {
    SelectedMeans(e, a);
    OutcomesMean(e);
  }

  lemma OutcomesStep(rs: seq<Reading>, o: Outcome)
    requires rs != []
    ensures var n := |rs| - 1;
            Of(Outcomes(rs), o) == Of(Outcomes(rs[..n]), o) + if HasOutcome(rs[n], o) then 1 else 0
  {
  }

  lemma ReadPrefix(stream: seq<Event>, a: Attempt)
    requires stream != []
    ensures var n := |stream| - 1;
            ReadAll(stream, a)[..n] == ReadAll(stream[..n], a) && ReadAll(stream, a)[n] == Read(stream[n], a)
  {
  }

  lemma {:induction false} OutcomesCount(rs: seq<Reading>, stream: seq<Event>, p: Event -> bool, o: Outcome)
    requires |rs| == |stream| && forall i :: 0 <= i < |rs| ==> (HasOutcome(rs[i], o) <==> p(stream[i]))
    ensures Of(Outcomes(rs), o) == |Positions(stream, p)|
  {
    if stream != [] {
      var n := |stream| - 1;
      OutcomesCount(rs[..n], stream[..n], p, o);
      OutcomesStep(rs, o);
      assert stream == stream[..n] + [stream[n]];
      PositionsAppend(stream[..n], stream[n], p);
    }
  }

  /** Each outcome is counted as often as task ends with that raw outcome occur. */
  lemma OutcomesAreCounts(stream: seq<Event>, a: Attempt, o: Outcome)
    ensures Of(Outcomes(ReadAll(stream, a)), o) == |Positions(stream, EndsWith(a, o))|
  {
    forall i | 0 <= i < |stream| ensures HasOutcome(ReadAll(stream, a)[i], o) <==> EndsWith(a, o)(stream[i]) {
      ReadMeans(stream[i], a, o);
    }
    OutcomesCount(ReadAll(stream, a), stream, EndsWith(a, o), o);
  }

  /** The samples of a metric are the raw measurements of the successful tasks. */
  lemma {:induction false} SamplesAreMeasured(stream: seq<Event>, a: Attempt, m: Metric)
    ensures Samples(ReadAll(stream, a), m) == Measured(stream, a.stageId, a.attemptId, m)
  {
    if stream != [] {
      var before, e := stream[..|stream| - 1], stream[|stream| - 1];
      SamplesAreMeasured(before, a, m);
      ReadPrefix(stream, a);
      ReadMeans(e, a, Success);
      MeasurementsMean(e, m);
    }
  }

  /** `scan_task_distribution` */
  method ScanTaskDistribution(stream: seq<Event>, a: Attempt, orderBy: Metric, limit: nat) returns (r: Result)
    requires 1 <= limit <= 20
    ensures r.tally == Tally(|Positions(stream, EndsWith(a, Success))|, |Positions(stream, EndsWith(a, NonSuccess))|,
                             |Positions(stream, EndsWith(a, Unknown))|)
    ensures forall m: Metric :: m in r.distributions &&
              r.distributions[m] == MetricDistribution(Measured(stream, a.stageId, a.attemptId, m), r.tally.successful)
    ensures r.ranked == |Measured(stream, a.stageId, a.attemptId, orderBy)|
    ensures r.top == Best(Candidates(ReadAll(stream, a), orderBy), limit) && r.omitted == r.ranked - |r.top|
  {
    r := ScanReadings(stream, a, orderBy, limit);
    OutcomesAreCounts(stream, a, Success);
    OutcomesAreCounts(stream, a, NonSuccess);
    OutcomesAreCounts(stream, a, Unknown);
    forall m: Metric ensures Samples(ReadAll(stream, a), m) == Measured(stream, a.stageId, a.attemptId, m) {
      SamplesAreMeasured(stream, a, m);
    }
    RankedTasksAreSamples(ReadAll(stream, a), orderBy);
  }

  method ReadEvent(e: Event, a: Attempt) returns (r: Reading)
    ensures r == Read(e, a) && (r.Done? ==> Fits(r.values))
  {
    TaskValuesFit(e);
    return Read(e, a);
  }

  /** The reader's loop around the visitor, and what follows it. */
  method ScanReadings(stream: seq<Event>, a: Attempt, orderBy: Metric, limit: nat) returns (r: Result)
    requires 1 <= limit <= 20
    ensures var rs := ReadAll(stream, a);
            && r.tally == Outcomes(rs)
            && (forall m: Metric :: m in r.distributions &&
                 r.distributions[m] == MetricDistribution(Samples(rs, m), Outcomes(rs).successful))
            && r.ranked == |Candidates(rs, orderBy)|
            && r.top == Best(Candidates(rs, orderBy), limit)
            && r.omitted == r.ranked - |r.top|
  {
    var scan := new TaskScan(orderBy, limit);
    var i := 0;
    ghost var rs := ReadAll(stream, a);
    while i < |stream|
      invariant i <= |stream| && scan.Valid(rs[..i])
      invariant fresh(scan) && fresh(scan.heap) && scan.orderBy == orderBy && scan.limit == limit
    {
      var reading := ReadEvent(stream[i], a);
      scan.VisitNext(rs, i, reading);
      i := i + 1;
    }
    assert rs[..i] == rs;
    var top := Sort(Rank(), scan.heap.items);
    OrderedHeapIsBest(scan.heap.items, rs, orderBy, limit);
    r := Result(scan.tally, Distributions(scan.samples, scan.tally.successful), scan.ranked, top, scan.ranked - |top|);
  }

  // ---------------------------------------------------------------------------------------------
  // What the ranking means

  /** A task ranks before another: higher score, or the same score on an earlier line. */
  predicate Before(c: Candidate, d: Candidate) {
    c.score > d.score || (c.score == d.score && c.line < d.line)
  }

  lemma RankIsBefore(c: Candidate, d: Candidate)
    ensures Less(Rank()(c), Rank()(d)) <==> Before(c, d)
  {
    LowerIsRankedLater(d, c);
  }

  /** The candidates are the attempt's successful tasks that have the metric, each at its line. */
  lemma {:induction false} CandidatesAreReadings(rs: seq<Reading>, m: Metric, c: Candidate)
    ensures c in Candidates(rs, m) <==>
            && 1 <= c.line <= |rs| && rs[c.line - 1] == Done(c.values, c.ids) && Value(c.values, m) == Some(c.score)
  {
    if rs != [] {
      CandidatesAreReadings(rs[..|rs| - 1], m, c);
      CandidateLines(rs[..|rs| - 1], m);
    }
  }

  /** The same on the raw events: a candidate is a task end of the attempt whose raw reason is
      "Success", at its line, with the raw measurements and identifiers, ranked by the raw
      measurement of the metric. */
  lemma CandidatesAreTheRankedTasks(stream: seq<Event>, a: Attempt, m: Metric, c: Candidate)
    ensures c in Candidates(ReadAll(stream, a), m) <==>
            && 1 <= c.line <= |stream|
            && var e := stream[c.line - 1];
               && TaskEndOf(e, a.stageId, a.attemptId) && Succeeded(e)
               && Measurement(e, m) == Some(c.score)
               && (forall n: Metric :: Value(c.values, n) == Measurement(e, n)) && c.ids == IdsAt(e)
  {
    CandidatesAreReadings(ReadAll(stream, a), m, c);
    if 1 <= c.line <= |stream| {
      var e := stream[c.line - 1];
      ReadMeans(e, a, Success);
      IdsMean(e);
      forall n: Metric ensures Value(TaskMetricValues(e), n) == Measurement(e, n) {
        MeasurementsMean(e, n);
      }
      if forall n: Metric :: Value(c.values, n) == Measurement(e, n) {
        ValuesIdentify(c.values, TaskMetricValues(e));
      }
    }
  }

  lemma ValuesIdentify(v: TaskValues, w: TaskValues)
    requires forall n: Metric :: Value(v, n) == Value(w, n)
    ensures v == w
  {
    assert Value(v, Duration) == Value(w, Duration) && Value(v, RunTime) == Value(w, RunTime);
    assert Value(v, GcTime) == Value(w, GcTime) && Value(v, InputBytes) == Value(w, InputBytes);
    assert Value(v, ShuffleRead) == Value(w, ShuffleRead) && Value(v, FetchWait) == Value(w, FetchWait);
  }

  lemma {:induction false} CandidatesOccurOnce(rs: seq<Reading>, m: Metric, c: Candidate)
    ensures multiset(Candidates(rs, m))[c] <= 1
  {
    if rs != [] {
      CandidatesOccurOnce(rs[..|rs| - 1], m, c);
      CandidateLines(rs[..|rs| - 1], m);
      assert c.line == |rs| ==> c !in Candidates(rs[..|rs| - 1], m);
    }
  }

  lemma SortedIsStrict(rs: seq<Reading>, m: Metric, i: nat, j: nat)
    requires i < j < |Candidates(rs, m)|
    ensures var sorted := Sort(Rank(), Candidates(rs, m)); Before(sorted[i], sorted[j])
  {
    var all := Candidates(rs, m);
    var sorted := Sort(Rank(), all);
    SortSorted(Rank(), all);
    CandidateLines(rs, m);
    if sorted[i] == sorted[j] {
      CandidatesOccurOnce(rs, m, sorted[i]);
      OccursTwice(sorted, i, j);
    }
    assert AtMost(Rank()(sorted[i]), Rank()(sorted[j]));
    RankIsBefore(sorted[j], sorted[i]);
    assert sorted[i] in multiset(sorted) && sorted[j] in multiset(sorted);
  }

  /** The top tasks are min(limit, ranked) candidates in strict order, and every other candidate
      ranks after all of them. */
  lemma TopTasksAreTheBest(rs: seq<Reading>, m: Metric, limit: nat)
    ensures var all, top := Candidates(rs, m), Best(Candidates(rs, m), limit);
            && |top| == (if |all| < limit then |all| else limit)
            && (forall i :: 0 <= i < |top| ==> top[i] in all)
            && (forall i, j :: 0 <= i < j < |top| ==> Before(top[i], top[j]))
            && (forall c, i :: c in all && c !in top && 0 <= i < |top| ==> Before(top[i], c))
  {
    var all := Candidates(rs, m);
    var sorted, top := Sort(Rank(), all), Best(all, limit);
    SortSorted(Rank(), all);
    forall i | 0 <= i < |top| ensures top[i] in all {
      assert top[i] in multiset(sorted);
    }
    forall i, j | 0 <= i < j < |top| ensures Before(top[i], top[j]) {
      SortedIsStrict(rs, m, i, j);
    }
    forall c, i | c in all && c !in top && 0 <= i < |top| ensures Before(top[i], c) {
      assert c in multiset(sorted);
      var j :| 0 <= j < |sorted| && sorted[j] == c;
      assert j >= |top|;
      SortedIsStrict(rs, m, i, j);
    }
  }

  /** A smaller limit gives a prefix of the list for a larger one. */
  lemma SmallerLimitsGivePrefixes(rs: seq<Reading>, m: Metric, small: nat, large: nat)
    requires small <= large
    ensures Best(Candidates(rs, m), small) <= Best(Candidates(rs, m), large)
  {
  }

  /** The ranked count is the sample count of the ranking metric, and no metric has more samples
      than there are successes, so no count of missing values is negative. */
  lemma {:induction false} RankedTasksAreSamples(rs: seq<Reading>, m: Metric)
    ensures |Candidates(rs, m)| == |Samples(rs, m)| <= Outcomes(rs).successful
  {
    if rs != [] {
      RankedTasksAreSamples(rs[..|rs| - 1], m);
    }
  }
}
