/** The one-pass aggregation of stage and task events into stage attempts. */
module StageMetrics {
  import opened EventFields
  import opened Ordering
  import opened SparkEvents
  import opened Wrappers

  datatype StageKey = StageKey(stageId: int, attemptId: int)

  datatype Times = Times(submission: Option<int>, completion: Option<int>)

  /** What the visitor makes of one event, before it filters by stage attempt. */
  datatype Reading =
    | Irrelevant
    | Unassigned
    | TaskEnd(key: StageKey, outcome: Outcome, input: Option<int>, shuffle: Option<int>)
    | Submitted(key: StageKey, times: Times)
    | Completed(key: StageKey, times: Times)

  function TimesOf(info: Event): Times {
    Times(MetricInteger(Get(info, "Submission Time")), MetricInteger(Get(info, "Completion Time")))
  }

  function Read(e: Event): Reading {
    var name := Name(e);
    if name != TASK_END && name != STAGE_SUBMITTED && name != STAGE_COMPLETED then Irrelevant
    else
      var source := if name == TASK_END then e else Nested(e, "Stage Info");
      var stage, attempt := MetricInteger(Get(source, "Stage ID")), MetricInteger(Get(source, "Stage Attempt ID"));
      if stage.None? || attempt.None? then (if name == TASK_END then Unassigned else Irrelevant)
      else
        var key := StageKey(stage.value, attempt.value);
        if name == TASK_END then
          var values := TaskMetricValues(e);
          TaskEnd(key, TaskOutcome(e), values.inputBytes, values.shuffleRead)
        else if name == STAGE_SUBMITTED then Submitted(key, TimesOf(source))
        else Completed(key, TimesOf(source))
  }

  function ReadAll(stream: seq<Event>): (r: seq<Reading>)
    ensures |r| == |stream|
    ensures forall i :: 0 <= i < |r| ==> r[i] == Read(stream[i])
  {
    seq(|stream|, i requires 0 <= i < |stream| => Read(stream[i]))
  }

  // ---------------------------------------------------------------------------------------------
  // The accumulators

  /** `_Total` */
  datatype Total = Total(value: int, valid: nat) {
    function Add(v: Option<int>): Total {
      if v.Some? then Total(value + v.value, valid + 1) else this
    }
  }

  /** `MetricTotal`, from `_Total.result`. */
  datatype MetricTotal = MetricTotal(total: Option<int>, valid: nat, missing: int)

  /** A stage event seen last, with its line. */
  datatype Sighting = Sighting(line: nat, times: Times)

  /** `_Stage` */
  datatype Stage = Stage(
    submitted: Option<Sighting>,
    completed: Option<Sighting>,
    successful: nat,
    nonSuccess: nat,
    unknown: nat,
    inputs: Total,
    shuffle: Total)
  {
    function TimesOf(): Times {
      if completed.Some? then completed.value.times
      else if submitted.Some? then submitted.value.times
      else Times(None, None)
    }

    function Duration(): (d: Option<int>)
      ensures d.Some? ==> 0 <= d.value
    {
      var t := TimesOf();
      if t.submission.Some? && t.completion.Some? && t.completion.value >= t.submission.value
      then Some(t.completion.value - t.submission.value)
      else None
    }

    function TaskEnds(): nat {
      successful + nonSuccess + unknown
    }
  }

  const NEW_STAGE := Stage(None, None, 0, 0, 0, Total(0, 0), Total(0, 0))

  function TotalResult(t: Total, successes: nat): MetricTotal {
    MetricTotal(if t.valid > 0 then Some(t.value) else None, t.valid, successes - t.valid)
  }

  /** The group of a reading's key after the reading. */
  function Update(g: Stage, line: nat, r: Reading): Stage
    requires HasKey(r)
  {
    match r
    case TaskEnd(_, Success, input, shuffle) =>
      g.(successful := g.successful + 1, inputs := g.inputs.Add(input), shuffle := g.shuffle.Add(shuffle))
    case TaskEnd(_, NonSuccess, _, _) => g.(nonSuccess := g.nonSuccess + 1)
    case TaskEnd(_, Unknown, _, _) => g.(unknown := g.unknown + 1)
    case Submitted(_, times) => g.(submitted := Some(Sighting(line, times)))
    case Completed(_, times) => g.(completed := Some(Sighting(line, times)))
  }

  predicate HasKey(r: Reading) {
    r.TaskEnd? || r.Submitted? || r.Completed?
  }

  predicate About(r: Reading, k: StageKey) {
    HasKey(r) && r.key == k
  }

  predicate Wanted(filter: Option<StageKey>, k: StageKey) {
    filter.None? || filter.value == k
  }

  // ---------------------------------------------------------------------------------------------
  // The specification: each field of each group on its own

  function TasksOf(rs: seq<Reading>, k: StageKey, o: Outcome): nat {
    if rs == [] then 0
    else
      var r := rs[|rs| - 1];
      TasksOf(rs[..|rs| - 1], k, o) + if r.TaskEnd? && r.key == k && r.outcome == o then 1 else 0
  }

  /** The values that the successful tasks of `k` carry, for one of the two totals. */
  function ValuesOf(rs: seq<Reading>, k: StageKey, input: bool): seq<int> {
    if rs == [] then []
    else
      var before, r := ValuesOf(rs[..|rs| - 1], k, input), rs[|rs| - 1];
      if r.TaskEnd? && r.key == k && r.outcome == Success && (if input then r.input else r.shuffle).Some?
      then before + [(if input then r.input else r.shuffle).value]
      else before
  }

  function SumOf(values: seq<int>): int {
    if values == [] then 0 else SumOf(values[..|values| - 1]) + values[|values| - 1]
  }

  /** The last stage event of one kind for `k`. */
  function LastSighting(rs: seq<Reading>, k: StageKey, completed: bool): Option<Sighting> {
    if rs == [] then None
    else
      var r := rs[|rs| - 1];
      if (if completed then r.Completed? else r.Submitted?) && r.key == k then Some(Sighting(|rs|, r.times))
      else LastSighting(rs[..|rs| - 1], k, completed)
  }

  function TotalOf(values: seq<int>): Total {
    Total(SumOf(values), |values|)
  }

  function Describe(rs: seq<Reading>, k: StageKey): Stage {
    Stage(LastSighting(rs, k, false), LastSighting(rs, k, true),
          TasksOf(rs, k, Success), TasksOf(rs, k, NonSuccess), TasksOf(rs, k, Unknown),
          TotalOf(ValuesOf(rs, k, true)), TotalOf(ValuesOf(rs, k, false)))
  }

  function UnassignedOf(rs: seq<Reading>): nat {
    if rs == [] then 0
    else UnassignedOf(rs[..|rs| - 1]) + if rs[|rs| - 1].Unassigned? then 1 else 0
  }

  /** The wanted keys, in the order in which the stream first mentions them. */
  function KeysOf(rs: seq<Reading>, filter: Option<StageKey>): seq<StageKey> {
    if rs == [] then []
    else
      var before, r := KeysOf(rs[..|rs| - 1], filter), rs[|rs| - 1];
      if HasKey(r) && Wanted(filter, r.key) && r.key !in before then before + [r.key] else before
  }

  lemma {:induction false} KeysAreMentioned(rs: seq<Reading>, filter: Option<StageKey>)
    ensures forall k :: k in KeysOf(rs, filter) <==> Wanted(filter, k) && exists i :: 0 <= i < |rs| && About(rs[i], k)
    ensures forall i, j :: 0 <= i < j < |KeysOf(rs, filter)| ==> KeysOf(rs, filter)[i] != KeysOf(rs, filter)[j]
  {
    if rs != [] {
      var before, r := rs[..|rs| - 1], rs[|rs| - 1];
      KeysAreMentioned(before, filter);
      forall k
        ensures (exists i :: 0 <= i < |rs| && About(rs[i], k)) <==>
                About(r, k) || exists i :: 0 <= i < |before| && About(before[i], k)
      {
        if i :| 0 <= i < |rs| && About(rs[i], k) {
          assert i < |before| ==> before[i] == rs[i];
        }
        if About(r, k) {
          assert About(rs[|rs| - 1], k);
        }
      }
    }
  }

  lemma {:induction false} UnmentionedIsNew(rs: seq<Reading>, k: StageKey)
    requires forall i :: 0 <= i < |rs| ==> !About(rs[i], k)
    ensures Describe(rs, k) == NEW_STAGE
  {
    if rs != [] {
      assert !About(rs[|rs| - 1], k);
      UnmentionedIsNew(rs[..|rs| - 1], k);
    }
  }

  lemma DescribeStep(rs: seq<Reading>, r: Reading, k: StageKey)
    ensures Describe(rs + [r], k) == if About(r, k) then Update(Describe(rs, k), |rs| + 1, r) else Describe(rs, k)
  {
    assert (rs + [r])[..|rs|] == rs;
    ValuesStep(rs, r, k, true);
    ValuesStep(rs, r, k, false);
  }

  lemma ValuesStep(rs: seq<Reading>, r: Reading, k: StageKey, input: bool)
    ensures TotalOf(ValuesOf(rs + [r], k, input)) ==
            if About(r, k) && r.TaskEnd? && r.outcome == Success
            then TotalOf(ValuesOf(rs, k, input)).Add(if input then r.input else r.shuffle)
            else TotalOf(ValuesOf(rs, k, input))
  {
    assert (rs + [r])[..|rs|] == rs;
    var values := ValuesOf(rs, k, input);
    if About(r, k) && r.TaskEnd? && r.outcome == Success && (if input then r.input else r.shuffle).Some? {
      var v := (if input then r.input else r.shuffle).value;
      assert (values + [v])[..|values|] == values;
    }
  }

  // ---------------------------------------------------------------------------------------------
  // The scan

  /** The state that the visitor of `scan_stage_metrics` updates; `keys` is the insertion order of
      the dictionary. */
  class StageScan {
    const filter: Option<StageKey>
    var keys: seq<StageKey>
    var groups: map<StageKey, Stage>
    var unassigned: nat

    ghost predicate Valid(seen: seq<Reading>)
      reads this
    {
      && keys == KeysOf(seen, filter)
      && (forall k :: k in groups <==> k in keys)
      && (forall k :: k in groups ==> groups[k] == Describe(seen, k))
      && unassigned == UnassignedOf(seen)
    }

    constructor (filter: Option<StageKey>)
      ensures Valid([]) && this.filter == filter
    {
      this.filter := filter;
      keys, groups, unassigned := [], map[], 0;
    }

    /** `visit` on the line after those seen. */
    method VisitEvent(ghost rs: seq<Reading>, i: nat, e: Event)
      requires i < |rs| && Valid(rs[..i]) && Read(e) == rs[i]
      modifies this
      ensures Valid(rs[..i + 1])
    {
      assert rs[..i] + [rs[i]] == rs[..i + 1];
      Visit(rs[..i], i + 1, Read(e));
    }

    method Visit(ghost seen: seq<Reading>, line: nat, r: Reading)
      requires Valid(seen) && line == |seen| + 1
      modifies this
      ensures Valid(seen + [r])
    {
      assert (seen + [r])[..|seen|] == seen;
      KeysAreMentioned(seen, filter);
      if r.Unassigned? {
        unassigned := unassigned + 1;
      }
      if HasKey(r) && Wanted(filter, r.key) {
        UpdateGroup(seen, line, r);
      }
      forall k | k in groups ensures groups[k] == Describe(seen + [r], k) {
        DescribeStep(seen, r, k);
        assert About(r, k) ==> Wanted(filter, k);
      }
    }

    /** `groups.setdefault` and the update of the group. */
    method UpdateGroup(ghost seen: seq<Reading>, line: nat, r: Reading)
      requires HasKey(r) && Wanted(filter, r.key) && keys == KeysOf(seen, filter)
      requires forall k :: k in groups <==> k in keys
      requires forall k :: k in groups ==> groups[k] == Describe(seen, k)
      modifies this`keys, this`groups
      ensures keys == if r.key in old(keys) then old(keys) else old(keys) + [r.key]
      ensures groups == old(groups)[r.key := Update(Describe(seen, r.key), line, r)]
    {
      if r.key !in groups {
        KeysAreMentioned(seen, filter);
        UnmentionedIsNew(seen, r.key);
        keys := keys + [r.key];
        groups := groups[r.key := NEW_STAGE];
      }
      groups := groups[r.key := Update(groups[r.key], line, r)];
    }

    /** `groups.items()` */
    method Entries(ghost seen: seq<Reading>) returns (items: seq<Item>)
      requires Valid(seen)
      ensures items == Items(seen, keys)
    {
      items := [];
      while |items| < |keys|
        invariant |items| <= |keys|
        invariant forall j :: 0 <= j < |items| ==> items[j] == Item(keys[j], Describe(seen, keys[j]))
      {
        items := items + [Item(keys[|items|], groups[keys[|items|]])];
      }
    }
  }

  datatype Item = Item(key: StageKey, stage: Stage)

  /** `_stage_order`: longest duration first, unknown durations last, then by IDs. */
  function StageOrder(): Item -> Key {
    (i: Item) =>
      var d := i.stage.Duration();
      [if d.None? then 1 else 0, if d.Some? then -d.value else 0, i.key.stageId, i.key.attemptId]
  }

  function Items(rs: seq<Reading>, keys: seq<StageKey>): (r: seq<Item>)
    ensures |r| == |keys|
    ensures forall i :: 0 <= i < |r| ==> r[i] == Item(keys[i], Describe(rs, keys[i]))
  {
    seq(|keys|, i requires 0 <= i < |keys| => Item(keys[i], Describe(rs, keys[i])))
  }

  /** All wanted groups in published order. */
  function Ordered(rs: seq<Reading>, filter: Option<StageKey>): seq<Item> {
    Sort(StageOrder(), Items(rs, KeysOf(rs, filter)))
  }

  datatype Metrics = Metrics(
    key: StageKey,
    times: Times,
    duration: Option<int>,
    submittedLine: Option<nat>,
    completedLine: Option<nat>,
    taskEnds: nat,
    successful: nat,
    nonSuccess: nat,
    unknown: nat,
    inputs: MetricTotal,
    shuffle: MetricTotal)

  function Line(s: Option<Sighting>): Option<nat> {
    if s.Some? then Some(s.value.line) else None
  }

  function Publish(i: Item): Metrics {
    var g := i.stage;
    Metrics(i.key, g.TimesOf(), g.Duration(), Line(g.submitted), Line(g.completed),
            g.successful + g.nonSuccess + g.unknown, g.successful, g.nonSuccess, g.unknown,
            TotalResult(g.inputs, g.successful), TotalResult(g.shuffle, g.successful))
  }

  function PublishAll(items: seq<Item>): (r: seq<Metrics>)
    ensures |r| == |items|
    ensures forall i :: 0 <= i < |r| ==> r[i] == Publish(items[i])
  {
    seq(|items|, i requires 0 <= i < |items| => Publish(items[i]))
  }

  datatype Result = Result(matched: nat, unassigned: nat, stages: seq<Metrics>, omitted: int)

  /** The reader's loop around the visitor. */
  method ScanStream(stream: seq<Event>, filter: Option<StageKey>) returns (scan: StageScan)
    ensures fresh(scan) && scan.filter == filter && scan.Valid(ReadAll(stream))
  {
    scan := new StageScan(filter);
    ghost var rs := ReadAll(stream);
    var i := 0;
    while i < |stream|
      invariant i <= |stream| && scan.Valid(rs[..i]) && fresh(scan) && scan.filter == filter
    {
      scan.VisitEvent(rs, i, stream[i]);
      i := i + 1;
    }
    assert rs[..i] == rs;
  }

  // ---------------------------------------------------------------------------------------------
  // The published metrics, read off the raw events

  /** The event ends a task of the stage attempt with this outcome. */
  function Ends(k: StageKey, o: Outcome): Event -> bool {
    (e: Event) => TaskEndOf(e, k.stageId, k.attemptId) && OutcomeIs(e, o)
  }

  predicate StageInfoOf(e: Event, k: StageKey) {
    && LongAt(e, ["Stage Info", "Stage ID"]) == Some(k.stageId)
    && LongAt(e, ["Stage Info", "Stage Attempt ID"]) == Some(k.attemptId)
  }

  function Submits(k: StageKey): Event -> bool {
    (e: Event) => NamedAs(e, "SparkListenerStageSubmitted") && StageInfoOf(e, k)
  }

  function Completes(k: StageKey): Event -> bool {
    (e: Event) => NamedAs(e, "SparkListenerStageCompleted") && StageInfoOf(e, k)
  }

  /** A task end without a stage attempt. */
  function Unassignable(): Event -> bool {
    (e: Event) => NamedAs(e, "SparkListenerTaskEnd") &&
                  (LongAt(e, ["Stage ID"]).None? || LongAt(e, ["Stage Attempt ID"]).None?)
  }

  function TimesAt(e: Event): Times {
    Times(LongAt(e, ["Stage Info", "Submission Time"]), LongAt(e, ["Stage Info", "Completion Time"]))
  }

  function EndsAny(k: StageKey): Event -> bool {
    (e: Event) => TaskEndOf(e, k.stageId, k.attemptId)
  }

  ghost predicate CountFacts(stream: seq<Event>, m: Metrics) {
    && m.successful == |Positions(stream, Ends(m.key, Success))|
    && m.nonSuccess == |Positions(stream, Ends(m.key, NonSuccess))|
    && m.unknown == |Positions(stream, Ends(m.key, Unknown))|
    && m.taskEnds == |Positions(stream, EndsAny(m.key))|
  }

  /** The lines of the last stage events; the completion's times count when there is one. */
  ghost predicate TimeFacts(stream: seq<Event>, m: Metrics) {
    && LastAt(stream, Submits(m.key), m.submittedLine) && LastAt(stream, Completes(m.key), m.completedLine)
    && m.times == (match (m.completedLine, m.submittedLine)
                   case (Some(n), _) => TimesAt(stream[n - 1])
                   case (None, Some(n)) => TimesAt(stream[n - 1])
                   case _ => Times(None, None))
    && m.duration == (match (m.times.submission, m.times.completion)
                      case (Some(from), Some(to)) => if from <= to then Some(to - from) else None
                      case _ => None)
  }

  ghost predicate TotalsFacts(stream: seq<Event>, m: Metrics) {
    && m.inputs == TotalFacts(Measured(stream, m.key.stageId, m.key.attemptId, InputBytes), m.successful)
    && m.shuffle == TotalFacts(Measured(stream, m.key.stageId, m.key.attemptId, ShuffleRead), m.successful)
  }

  /** What the published fields of a stage attempt say about the stream. */
  ghost predicate StageFacts(stream: seq<Event>, m: Metrics) {
    CountFacts(stream, m) && TimeFacts(stream, m) && TotalsFacts(stream, m)
  }

  /** The sum of the values, if there are any, and how many successes have one and have none. */
  function TotalFacts(values: seq<int>, successes: nat): MetricTotal {
    MetricTotal(if values == [] then None else Some(SumOf(values)), |values|, successes - |values|)
  }

  lemma TaskEndReads(e: Event, k: StageKey)
    ensures Read(e).TaskEnd? && Read(e).key == k <==> TaskEndOf(e, k.stageId, k.attemptId)
    ensures Read(e).Unassigned? <==> Unassignable()(e)
    ensures Read(e).TaskEnd? ==>
      && Read(e).outcome == TaskOutcome(e)
      && Read(e).input == TaskMetricValues(e).inputBytes && Read(e).shuffle == TaskMetricValues(e).shuffleRead
  {
    NamesMean(e, TASK_END);
    KeyUnfolds(e, "Stage ID");
    KeyUnfolds(e, "Stage Attempt ID");
  }

  lemma StageEventReads(e: Event, k: StageKey)
    ensures Read(e).Submitted? && Read(e).key == k <==> Submits(k)(e)
    ensures Read(e).Completed? && Read(e).key == k <==> Completes(k)(e)
    ensures Read(e).Submitted? || Read(e).Completed? ==> Read(e).times == TimesAt(e)
  {
    NamesMean(e, STAGE_SUBMITTED);
    NamesMean(e, STAGE_COMPLETED);
    PathUnfolds(e, "Stage Info", "Stage ID");
    PathUnfolds(e, "Stage Info", "Stage Attempt ID");
    PathUnfolds(e, "Stage Info", "Submission Time");
    PathUnfolds(e, "Stage Info", "Completion Time");
  }

  lemma {:induction false} TasksCount(rs: seq<Reading>, stream: seq<Event>, k: StageKey, o: Outcome, p: Event -> bool)
    requires |rs| == |stream|
    requires forall i :: 0 <= i < |rs| ==> (rs[i].TaskEnd? && rs[i].key == k && rs[i].outcome == o <==> p(stream[i]))
    ensures TasksOf(rs, k, o) == |Positions(stream, p)|
  {
    if stream != [] {
      var n := |stream| - 1;
      TasksCount(rs[..n], stream[..n], k, o, p);
      assert stream == stream[..n] + [stream[n]];
      PositionsAppend(stream[..n], stream[n], p);
    }
  }

  lemma {:induction false} UnassignedCount(rs: seq<Reading>, stream: seq<Event>, p: Event -> bool)
    requires |rs| == |stream| && forall i :: 0 <= i < |rs| ==> (rs[i].Unassigned? <==> p(stream[i]))
    ensures UnassignedOf(rs) == |Positions(stream, p)|
  {
    if stream != [] {
      var n := |stream| - 1;
      UnassignedCount(rs[..n], stream[..n], p);
      assert stream == stream[..n] + [stream[n]];
      PositionsAppend(stream[..n], stream[n], p);
    }
  }

  /** The unassigned task ends are those that name no stage attempt. */
  lemma UnassignedAreCounted(stream: seq<Event>)
    ensures UnassignedOf(ReadAll(stream)) == |Positions(stream, Unassignable())|
  {
    forall i | 0 <= i < |stream| ensures ReadAll(stream)[i].Unassigned? <==> Unassignable()(stream[i]) {
      TaskEndReads(stream[i], StageKey(0, 0));
    }
    UnassignedCount(ReadAll(stream), stream, Unassignable());
  }

  lemma TasksAreCounted(stream: seq<Event>, k: StageKey, o: Outcome)
    ensures TasksOf(ReadAll(stream), k, o) == |Positions(stream, Ends(k, o))|
  {
    var rs := ReadAll(stream);
    forall i | 0 <= i < |stream|
      ensures rs[i].TaskEnd? && rs[i].key == k && rs[i].outcome == o <==> Ends(k, o)(stream[i])
    {
      TaskEndReads(stream[i], k);
      OutcomesMean(stream[i]);
    }
    TasksCount(rs, stream, k, o, Ends(k, o));
  }

  lemma TaskEndsPartition(stream: seq<Event>, k: StageKey)
    ensures |Positions(stream, EndsAny(k))| ==
            |Positions(stream, Ends(k, Success))| + |Positions(stream, Ends(k, NonSuccess))| + |Positions(stream, Ends(k, Unknown))|
  {
    var a, b, c := Positions(stream, Ends(k, Success)), Positions(stream, Ends(k, NonSuccess)), Positions(stream, Ends(k, Unknown));
    var all := Positions(stream, EndsAny(k));
    assert a * b == {} && (a + b) * c == {} && all == a + b + c by {
      forall i: nat | i < |stream| ensures !(i in a && i in b) && !(i in a && i in c) && !(i in b && i in c) {
        OutcomesMean(stream[i]);
      }
      forall i: nat | i < |stream| ensures i in all <==> i in a || i in b || i in c {
        OutcomesMean(stream[i]);
      }
    }
  }

  /** The value that a reading and its event contribute to one of the totals. */
  predicate ValueReads(r: Reading, e: Event, k: StageKey, input: bool) {
    var m := if input then InputBytes else ShuffleRead;
    var v := if r.TaskEnd? && r.key == k && r.outcome == Success then if input then r.input else r.shuffle else None;
    v == if TaskEndOf(e, k.stageId, k.attemptId) && Succeeded(e) then Measurement(e, m) else None
  }

  lemma ValueReadsEvent(e: Event, k: StageKey, input: bool)
    ensures ValueReads(Read(e), e, k, input)
  {
    TaskEndReads(e, k);
    OutcomesMean(e);
    MeasurementsMean(e, if input then InputBytes else ShuffleRead);
  }

  lemma {:induction false} ValuesMeasured(rs: seq<Reading>, stream: seq<Event>, k: StageKey, input: bool)
    requires |rs| == |stream| && forall i :: 0 <= i < |rs| ==> ValueReads(rs[i], stream[i], k, input)
    ensures ValuesOf(rs, k, input) == Measured(stream, k.stageId, k.attemptId, if input then InputBytes else ShuffleRead)
  {
    if stream != [] {
      var n := |stream| - 1;
      ValuesMeasured(rs[..n], stream[..n], k, input);
      assert ValueReads(rs[n], stream[n], k, input);
    }
  }

  lemma ValuesAreMeasured(stream: seq<Event>, k: StageKey, input: bool)
    ensures ValuesOf(ReadAll(stream), k, input) ==
            Measured(stream, k.stageId, k.attemptId, if input then InputBytes else ShuffleRead)
  {
    forall i | 0 <= i < |stream| ensures ValueReads(ReadAll(stream)[i], stream[i], k, input) {
      ValueReadsEvent(stream[i], k, input);
    }
    ValuesMeasured(ReadAll(stream), stream, k, input);
  }

  /** A reading is a sighting exactly if its event satisfies `p`, and carries the event's times. */
  predicate SightingReads(r: Reading, e: Event, k: StageKey, completed: bool, p: Event -> bool) {
    && ((if completed then r.Completed? else r.Submitted?) && r.key == k <==> p(e))
    && (r.Submitted? || r.Completed? ==> r.times == TimesAt(e))
  }

  ghost predicate IsLastSighting(stream: seq<Event>, s: Option<Sighting>, p: Event -> bool) {
    && LastAt(stream, p, Line(s))
    && (s.Some? ==> 1 <= s.value.line <= |stream| && s.value.times == TimesAt(stream[s.value.line - 1]))
  }

  lemma {:induction false} SightingIsLast(rs: seq<Reading>, stream: seq<Event>, k: StageKey, completed: bool, p: Event -> bool)
    requires |rs| == |stream| && forall i :: 0 <= i < |rs| ==> SightingReads(rs[i], stream[i], k, completed, p)
    ensures IsLastSighting(stream, LastSighting(rs, k, completed), p)
  {
    if stream != [] {
      var n := |stream| - 1;
      SightingIsLast(rs[..n], stream[..n], k, completed, p);
      assert SightingReads(rs[n], stream[n], k, completed, p);
      var s := LastSighting(rs[..n], k, completed);
      if s.Some? {
        assert stream[..n][s.value.line - 1] == stream[s.value.line - 1];
      }
    }
  }

  lemma SubmissionIsLast(stream: seq<Event>, k: StageKey)
    ensures IsLastSighting(stream, LastSighting(ReadAll(stream), k, false), Submits(k))
  {
    forall i | 0 <= i < |stream| ensures SightingReads(ReadAll(stream)[i], stream[i], k, false, Submits(k)) {
      StageEventReads(stream[i], k);
    }
    SightingIsLast(ReadAll(stream), stream, k, false, Submits(k));
  }

  lemma CompletionIsLast(stream: seq<Event>, k: StageKey)
    ensures IsLastSighting(stream, LastSighting(ReadAll(stream), k, true), Completes(k))
  {
    forall i | 0 <= i < |stream| ensures SightingReads(ReadAll(stream)[i], stream[i], k, true, Completes(k)) {
      StageEventReads(stream[i], k);
    }
    SightingIsLast(ReadAll(stream), stream, k, true, Completes(k));
  }

  lemma PublishedCounts(stream: seq<Event>, k: StageKey)
    ensures CountFacts(stream, Publish(Item(k, Describe(ReadAll(stream), k))))
  {
    TasksAreCounted(stream, k, Success);
    TasksAreCounted(stream, k, NonSuccess);
    TasksAreCounted(stream, k, Unknown);
    TaskEndsPartition(stream, k);
  }

  lemma PublishedTimes(stream: seq<Event>, k: StageKey, g: Stage)
    requires IsLastSighting(stream, g.submitted, Submits(k)) && IsLastSighting(stream, g.completed, Completes(k))
    ensures TimeFacts(stream, Publish(Item(k, g)))
  {
  }

  lemma PublishedTotals(stream: seq<Event>, k: StageKey)
    ensures TotalsFacts(stream, Publish(Item(k, Describe(ReadAll(stream), k))))
  {
    ValuesAreMeasured(stream, k, true);
    ValuesAreMeasured(stream, k, false);
  }

  /** Every published field of a stage attempt is what its raw events say. */
  lemma PublishedMetricsAreFacts(stream: seq<Event>, k: StageKey)
    ensures StageFacts(stream, Publish(Item(k, Describe(ReadAll(stream), k))))
  {
    PublishedCounts(stream, k);
    SubmissionIsLast(stream, k);
    CompletionIsLast(stream, k);
    PublishedTimes(stream, k, Describe(ReadAll(stream), k));
    PublishedTotals(stream, k);
  }

  lemma PublishedStagesAreFacts(stream: seq<Event>, filter: Option<StageKey>, limit: nat)
    ensures var stages := PublishAll(Take(limit, Ordered(ReadAll(stream), filter)));
            forall i :: 0 <= i < |stages| ==> Wanted(filter, stages[i].key) && StageFacts(stream, stages[i])
  {
    var rs := ReadAll(stream);
    var items := Take(limit, Ordered(rs, filter));
    KeysAreMentioned(rs, filter);
    forall i | 0 <= i < |items| ensures Wanted(filter, items[i].key) && StageFacts(stream, Publish(items[i])) {
      OrderedItems(rs, filter, items[i]);
      PublishedMetricsAreFacts(stream, items[i].key);
    }
  }

  /** A stage attempt has a group exactly if it is wanted and some task end, submission or completion
      names it. */
  lemma GroupsAreNamed(stream: seq<Event>, filter: Option<StageKey>, k: StageKey)
    ensures k in KeysOf(ReadAll(stream), filter) <==>
            Wanted(filter, k) && exists i :: 0 <= i < |stream| && Names(stream[i], k)
  {
    KeysAreMentioned(ReadAll(stream), filter);
    forall i | 0 <= i < |stream| ensures About(ReadAll(stream)[i], k) <==> Names(stream[i], k) {
      TaskEndReads(stream[i], k);
      StageEventReads(stream[i], k);
    }
  }

  predicate Names(e: Event, k: StageKey) {
    TaskEndOf(e, k.stageId, k.attemptId) || Submits(k)(e) || Completes(k)(e)
  }

  /** `scan_stage_metrics` */
  method ScanStageMetrics(stream: seq<Event>, filter: Option<StageKey>, limit: nat) returns (r: Result)
    requires 1 <= limit <= 20
    ensures var rs := ReadAll(stream);
            && r.matched == |KeysOf(rs, filter)|
            && r.unassigned == UnassignedOf(rs)
            && r.stages == PublishAll(Take(limit, Ordered(rs, filter)))
            && r.omitted == r.matched - |r.stages|
    ensures r.unassigned == |Positions(stream, Unassignable())|
    ensures forall i :: 0 <= i < |r.stages| ==> Wanted(filter, r.stages[i].key) && StageFacts(stream, r.stages[i])
  {
    var scan := ScanStream(stream, filter);
    ghost var rs := ReadAll(stream);
    UnassignedAreCounted(stream);
    PublishedStagesAreFacts(stream, filter, limit);
    var items := scan.Entries(rs);
    var stages := PublishAll(Take(limit, Sort(StageOrder(), items)));
    r := Result(|scan.keys|, scan.unassigned, stages, |scan.keys| - |stages|);
  }

  // ---------------------------------------------------------------------------------------------
  // Conservation, filtering and order

  function TaskEndsOf(rs: seq<Reading>): nat {
    if rs == [] then 0
    else TaskEndsOf(rs[..|rs| - 1]) + if rs[|rs| - 1].TaskEnd? || rs[|rs| - 1].Unassigned? then 1 else 0
  }

  function SumOverKeys(rs: seq<Reading>, keys: seq<StageKey>): nat {
    if keys == [] then 0 else Describe(rs, keys[0]).TaskEnds() + SumOverKeys(rs, keys[1..])
  }

  lemma {:induction false} SumStep(rs: seq<Reading>, r: Reading, keys: seq<StageKey>)
    requires forall i, j :: 0 <= i < j < |keys| ==> keys[i] != keys[j]
    ensures SumOverKeys(rs + [r], keys) ==
            SumOverKeys(rs, keys) + if r.TaskEnd? && r.key in keys then 1 else 0
  {
    if keys != [] {
      DescribeStep(rs, r, keys[0]);
      SumStep(rs, r, keys[1..]);
    }
  }

  /** Conservation over any duplicate-free list of keys that misses no task end. */
  lemma {:induction false} TaskEndsAreConservedOver(rs: seq<Reading>, keys: seq<StageKey>)
    requires forall i, j :: 0 <= i < j < |keys| ==> keys[i] != keys[j]
    requires forall i :: 0 <= i < |rs| && rs[i].TaskEnd? ==> rs[i].key in keys
    ensures TaskEndsOf(rs) == UnassignedOf(rs) + SumOverKeys(rs, keys)
  {
    if rs == [] {
      EmptySum(keys);
    } else {
      var before, r := rs[..|rs| - 1], rs[|rs| - 1];
      assert forall i :: 0 <= i < |before| ==> before[i] == rs[i];
      TaskEndsAreConservedOver(before, keys);
      SumStep(before, r, keys);
      assert before + [r] == rs;
      TaskEndStep(rs);
      assert r.TaskEnd? ==> rs[|rs| - 1].key in keys;
    }
  }

  lemma TaskEndStep(rs: seq<Reading>)
    requires rs != []
    ensures var before, r := rs[..|rs| - 1], rs[|rs| - 1];
            && TaskEndsOf(rs) == TaskEndsOf(before) + (if r.TaskEnd? || r.Unassigned? then 1 else 0)
            && UnassignedOf(rs) == UnassignedOf(before) + if r.Unassigned? then 1 else 0
  {
  }

  lemma {:induction false} EmptySum(keys: seq<StageKey>)
    ensures SumOverKeys([], keys) == 0
  {
    if keys != [] {
      EmptySum(keys[1..]);
    }
  }

  /** Without a filter, every task end is counted once: in a group or as unassigned. */
  lemma TaskEndsAreConserved(rs: seq<Reading>)
    ensures TaskEndsOf(rs) == UnassignedOf(rs) + SumOverKeys(rs, KeysOf(rs, None))
  {
    KeysAreMentioned(rs, None);
    forall i | 0 <= i < |rs| && rs[i].TaskEnd? ensures rs[i].key in KeysOf(rs, None) {
      assert About(rs[i], rs[i].key);
    }
    TaskEndsAreConservedOver(rs, KeysOf(rs, None));
  }

  lemma {:induction false} ValuesAreFewer(rs: seq<Reading>, k: StageKey, input: bool)
    ensures |ValuesOf(rs, k, input)| <= TasksOf(rs, k, Success)
  {
    if rs != [] {
      ValuesAreFewer(rs[..|rs| - 1], k, input);
    }
  }

  /** Of each total, the valid and the missing tasks make up the successes, none negative. */
  lemma TotalsAreComplete(rs: seq<Reading>, k: StageKey, input: bool)
    ensures var g := Describe(rs, k);
            var t := TotalResult(if input then g.inputs else g.shuffle, g.successful);
            t.valid + t.missing == g.successful && 0 <= t.missing
  {
    ValuesAreFewer(rs, k, input);
  }

  /** Filtering to one stage attempt yields that attempt's group of the unfiltered run, and
      nothing when the unfiltered run has no such group; the unassigned count is the same. */
  lemma FilterSelectsOneGroup(rs: seq<Reading>, k: StageKey)
    ensures Ordered(rs, Some(k)) ==
            if k in KeysOf(rs, None) then [Item(k, Describe(rs, k))] else []
    ensures k in KeysOf(rs, None) ==> Item(k, Describe(rs, k)) in Ordered(rs, None)
  {
    KeysAreMentioned(rs, None);
    KeysAreMentioned(rs, Some(k));
    var keys := KeysOf(rs, Some(k));
    assert keys == if k in KeysOf(rs, None) then [k] else [] by {
      assert k in keys <==> k in KeysOf(rs, None);
      assert forall i :: 0 <= i < |keys| ==> keys[i] in keys;
    }
    var items := Items(rs, keys);
    if keys != [] {
      assert items == [Item(k, Describe(rs, k))];
      assert items[..0] == [];
      assert Sort(StageOrder(), items[..0]) == [];
    }
    var all := KeysOf(rs, None);
    SortSorted(StageOrder(), Items(rs, all));
    if k in all {
      var i :| 0 <= i < |all| && all[i] == k;
      assert Items(rs, all)[i] in multiset(Items(rs, all));
    }
  }

  /** An attempt is listed before another: a known duration before an unknown one, a longer one
      before a shorter one, and equals by their IDs. */
  predicate Before(a: Item, b: Item) {
    var d, e := a.stage.Duration(), b.stage.Duration();
    || (d.Some? && (e.None? || d.value > e.value))
    || (d == e && (a.key.stageId < b.key.stageId
                   || (a.key.stageId == b.key.stageId && a.key.attemptId < b.key.attemptId)))
  }

  lemma OrderIsBefore(a: Item, b: Item)
    ensures Less(StageOrder()(a), StageOrder()(b)) <==> Before(a, b)
  {
    var k, l := StageOrder()(a), StageOrder()(b);
    assert |k| == |l| == 4;
    assert k[1..][1..] == k[2..] && l[1..][1..] == l[2..];
    assert k[2..][1..] == k[3..] && l[2..][1..] == l[3..];
    assert Less(k[3..], l[3..]) <==> k[3] < l[3];
    assert Less(k[2..], l[2..]) <==> k[2] < l[2] || (k[2] == l[2] && k[3] < l[3]);
    assert Less(k[1..], l[1..]) <==> k[1] < l[1] || (k[1] == l[1] && Less(k[2..], l[2..]));
  }

  lemma OrderedItems(rs: seq<Reading>, filter: Option<StageKey>, x: Item)
    ensures x in Ordered(rs, filter) <==> x.key in KeysOf(rs, filter) && x.stage == Describe(rs, x.key)
  {
    var keys := KeysOf(rs, filter);
    var items := Items(rs, keys);
    SortSorted(StageOrder(), items);
    assert x in Ordered(rs, filter) <==> x in multiset(items);
    if x.key in keys {
      var i :| 0 <= i < |keys| && keys[i] == x.key;
      assert items[i] == Item(x.key, Describe(rs, x.key));
    }
  }

  lemma ItemsAreDistinct(rs: seq<Reading>, filter: Option<StageKey>, x: Item)
    ensures multiset(Items(rs, KeysOf(rs, filter)))[x] <= 1
  {
    KeysAreMentioned(rs, filter);
    DistinctItems(rs, KeysOf(rs, filter), x);
  }

  lemma {:induction false} DistinctItems(rs: seq<Reading>, keys: seq<StageKey>, x: Item)
    requires forall i, j :: 0 <= i < j < |keys| ==> keys[i] != keys[j]
    ensures multiset(Items(rs, keys))[x] <= 1
  {
    if keys != [] {
      var n := |keys| - 1;
      DistinctItems(rs, keys[..n], x);
      assert Items(rs, keys) == Items(rs, keys[..n]) + [Item(keys[n], Describe(rs, keys[n]))];
      if x.key == keys[n] {
        assert x !in Items(rs, keys[..n]);
      }
    }
  }

  /** The published order is strict and total: equal durations never tie. */
  lemma PublishedOrderIsStrict(rs: seq<Reading>, filter: Option<StageKey>, i: nat, j: nat)
    requires i < j < |Ordered(rs, filter)|
    ensures Before(Ordered(rs, filter)[i], Ordered(rs, filter)[j])
  {
    var items := Items(rs, KeysOf(rs, filter));
    var sorted := Ordered(rs, filter);
    SortSorted(StageOrder(), items);
    var a, b := sorted[i], sorted[j];
    assert AtMost(StageOrder()(a), StageOrder()(b));
    OrderIsBefore(b, a);
    OrderedItems(rs, filter, a);
    OrderedItems(rs, filter, b);
    if a == b {
      ItemsAreDistinct(rs, filter, a);
      OccursTwice(sorted, i, j);
    }
  }

  /** The published groups are the first `limit` of the wanted ones: each omitted group comes
      after every published one. */
  lemma PublishedGroupsAreTheFirst(rs: seq<Reading>, filter: Option<StageKey>, limit: nat, k: StageKey, i: nat)
    requires k in KeysOf(rs, filter) && i < |Take(limit, Ordered(rs, filter))|
    requires Item(k, Describe(rs, k)) !in Take(limit, Ordered(rs, filter))
    ensures Before(Take(limit, Ordered(rs, filter))[i], Item(k, Describe(rs, k)))
  {
    var sorted := Ordered(rs, filter);
    OrderedItems(rs, filter, Item(k, Describe(rs, k)));
    var j :| 0 <= j < |sorted| && sorted[j] == Item(k, Describe(rs, k));
    assert j >= |Take(limit, sorted)|;
    PublishedOrderIsStrict(rs, filter, i, j);
  }
}
