/** The full-file overview: counters, failure signals and the best twenty pieces of evidence. */
module EventInspection {
  import opened Ordering
  import opened Counters
  import opened EventFields
  import opened SparkEvents
  import opened Wrappers

  const EVIDENCE_LIMIT: nat := 20

  const ENDINGS: seq<string> := [
    "SparkListenerJobEnd",
    "org.apache.spark.sql.execution.ui.SparkListenerSQLExecutionEnd",
    "SparkListenerApplicationEnd"]

  /** The priority of a failure event; zero is the most urgent of the four signals. */
  function Priority(e: Event): (p: Option<nat>)
    ensures p.Some? ==> p.value < 4
  {
    var name := Name(e);
    if name == "SparkListenerJobEnd" then
      var result := Get(e, "Job Result");
      if result.JObject? && Get(result.fields, "Result") == JString("JobFailed") then Some(0) else None
    else if name == STAGE_COMPLETED then
      var reason := Get(Nested(e, "Stage Info"), "Failure Reason");
      if reason.JString? && reason.text != "" then Some(1) else None
    else if name == TASK_END then
      var (reason, valid) := TaskReason(e);
      if valid && reason != "Success" then Some(2) else None
    else if name == "SparkListenerExecutorRemoved" then Some(3)
    else None
  }

  /** What the visitor makes of one event. */
  datatype Reading = Reading(name: string, reason: Option<string>, priority: Option<nat>, ending: bool, event: Event)

  function Read(e: Event): (r: Reading)
    ensures r.priority.Some? ==> r.priority.value < 4 && !r.ending
  {
    var priority := Priority(e);
    Reading(Name(e), if Name(e) == TASK_END then Some(TaskReason(e).0) else None, priority,
            priority.None? && Name(e) in ENDINGS, e)
  }

  function ReadAll(stream: seq<Event>): (r: seq<Reading>)
    ensures |r| == |stream|
    ensures forall i :: 0 <= i < |r| ==> r[i] == Read(stream[i])
  {
    seq(|stream|, i requires 0 <= i < |stream| => Read(stream[i]))
  }

  datatype Evidence = Evidence(priority: nat, line: nat, event: Event)

  function ByUrgency(): Evidence -> Key {
    (x: Evidence) => [x.priority as int, x.line as int]
  }

  // ---------------------------------------------------------------------------------------------
  // The specification: collect everything, sort, take twenty

  function Failures(rs: seq<Reading>): seq<Evidence> {
    if rs == [] then []
    else
      var before, r := Failures(rs[..|rs| - 1]), rs[|rs| - 1];
      if r.priority.Some? then before + [Evidence(r.priority.value, |rs|, r.event)] else before
  }

  function Endings(rs: seq<Reading>): seq<Evidence> {
    if rs == [] then []
    else
      var before, r := Endings(rs[..|rs| - 1]), rs[|rs| - 1];
      if r.ending && r.priority.None? then before + [Evidence(0, |rs|, r.event)] else before
  }

  function Names(rs: seq<Reading>): seq<string> {
    if rs == [] then [] else Names(rs[..|rs| - 1]) + [rs[|rs| - 1].name]
  }

  function TaskReasons(rs: seq<Reading>): seq<string> {
    if rs == [] then []
    else
      var before, r := TaskReasons(rs[..|rs| - 1]), rs[|rs| - 1];
      if r.reason.Some? then before + [r.reason.value] else before
  }

  /** The number of failures with one priority. */
  function SignalCount(fs: seq<Evidence>, p: nat): nat {
    if fs == [] then 0 else SignalCount(fs[..|fs| - 1], p) + if fs[|fs| - 1].priority == p then 1 else 0
  }

  function MostUrgent(fs: seq<Evidence>): seq<Evidence> {
    Take(EVIDENCE_LIMIT, Sort(ByUrgency(), fs))
  }

  datatype Overview = Overview(
    types: Counter,
    reasons: Counter,
    signals: seq<nat>,
    failureCount: nat,
    endingCount: nat,
    failures: seq<Evidence>,
    endings: seq<Evidence>)

  function Signals(fs: seq<Evidence>): seq<nat> {
    [SignalCount(fs, 0), SignalCount(fs, 1), SignalCount(fs, 2), SignalCount(fs, 3)]
  }

  function OverviewOf(rs: seq<Reading>): Overview {
    Overview(CounterOf(Names(rs)), CounterOf(TaskReasons(rs)), Signals(Failures(rs)),
             |Failures(rs)|, |Endings(rs)|, MostUrgent(Failures(rs)), Take(EVIDENCE_LIMIT, Endings(rs)))
  }

  // ---------------------------------------------------------------------------------------------
  // The bounded buffer

  lemma {:induction false} SortOfSorted<T>(key: T -> Key, xs: seq<T>)
    requires SortedBy(key, xs)
    ensures Sort(key, xs) == xs
  {
    if xs != [] {
      var n := |xs| - 1;
      SortOfSorted(key, xs[..n]);
      assert n > 0 ==> AtMost(key(xs[n - 1]), key(xs[n]));
      assert xs == xs[..n] + [xs[n]];
    }
  }

  lemma MostUrgentAppend(all: seq<Evidence>, x: Evidence)
    ensures MostUrgent(all + [x]) == Take(EVIDENCE_LIMIT, Insert(ByUrgency(), x, MostUrgent(all)))
    ensures Sort(ByUrgency(), MostUrgent(all) + [x]) == Insert(ByUrgency(), x, MostUrgent(all))
  {
    SortSorted(ByUrgency(), all);
    SortAppend(ByUrgency(), all, x);
    TakeInsert(ByUrgency(), EVIDENCE_LIMIT, x, Sort(ByUrgency(), all));
    SortAppend(ByUrgency(), MostUrgent(all), x);
    SortOfSorted(ByUrgency(), MostUrgent(all));
  }

  /** `failures.append`, `failures.sort` and `failures.pop`, and the test in front of them. */
  method Admit(failures: seq<Evidence>, ghost all: seq<Evidence>, x: Evidence) returns (r: seq<Evidence>)
    requires failures == MostUrgent(all)
    ensures r == MostUrgent(all + [x])
  {
    MostUrgentAppend(all, x);
    r := failures;
    if |r| < EVIDENCE_LIMIT || Less(ByUrgency()(x), ByUrgency()(r[|r| - 1])) {
      r := Sort(ByUrgency(), r + [x]);
      if |r| > EVIDENCE_LIMIT {
        r := r[..|r| - 1];
      }
    }
  }

  /** What the visitor of `_inspect` keeps from line to line. */
  class InspectScan {
    var types: Counter
    var reasons: Counter
    var signals: seq<nat>
    var failures: seq<Evidence>
    var endings: seq<Evidence>
    var failureCount: nat
    var endingCount: nat

    ghost predicate CountsValid(seen: seq<Reading>)
      reads this`types, this`reasons
    {
      types == CounterOf(Names(seen)) && reasons == CounterOf(TaskReasons(seen))
    }

    ghost predicate EvidenceValid(seen: seq<Reading>)
      reads this`signals, this`failures, this`endings, this`failureCount, this`endingCount
    {
      && signals == Signals(Failures(seen))
      && failureCount == |Failures(seen)| && failures == MostUrgent(Failures(seen))
      && endingCount == |Endings(seen)| && endings == Take(EVIDENCE_LIMIT, Endings(seen))
    }

    ghost predicate Valid(seen: seq<Reading>)
      reads this
    {
      CountsValid(seen) && EvidenceValid(seen)
    }

    constructor ()
      ensures Valid([])
    {
      types, reasons, failures, endings := [], [], [], [];
      signals := [0, 0, 0, 0];
      failureCount, endingCount := 0, 0;
    }

    /** `visit` on the line after those seen. */
    method VisitEvent(ghost rs: seq<Reading>, i: nat, e: Event)
      requires i < |rs| && Valid(rs[..i]) && Read(e) == rs[i]
      modifies this
      ensures Valid(rs[..i + 1])
    {
      assert rs[..i] + [rs[i]] == rs[..i + 1];
      Visit(rs[..i], i + 1, Read(e));
    }

    method Visit(ghost seen: seq<Reading>, line: nat, r: Reading)
      requires Valid(seen) && line == |seen| + 1 && (r.priority.Some? ==> r.priority.value < 4)
      modifies this
      ensures Valid(seen + [r])
    {
      VisitCounts(seen, r);
      VisitEvidence(seen, line, r);
    }

    /** The counting half of `visit`. */
    method VisitCounts(ghost seen: seq<Reading>, r: Reading)
      requires CountsValid(seen)
      modifies this`types, this`reasons
      ensures CountsValid(seen + [r])
    {
      AppendNames(seen, r);
      types := Bump(types, r.name);
      if r.reason.Some? {
        reasons := Bump(reasons, r.reason.value);
      }
    }

    /** The evidence half of `visit`. */
    method VisitEvidence(ghost seen: seq<Reading>, line: nat, r: Reading)
      requires EvidenceValid(seen) && line == |seen| + 1 && (r.priority.Some? ==> r.priority.value < 4)
      modifies this`signals, this`failures, this`endings, this`failureCount, this`endingCount
      ensures EvidenceValid(seen + [r])
    {
      AppendEvidence(seen, r);
      if r.priority.Some? {
        var x := Evidence(r.priority.value, line, r.event);
        SignalsStep(Failures(seen), x);
        signals := signals[x.priority := signals[x.priority] + 1];
        failureCount := failureCount + 1;
        failures := Admit(failures, Failures(seen), x);
      } else if r.ending {
        endingCount := endingCount + 1;
        if |endings| < EVIDENCE_LIMIT {
          endings := endings + [Evidence(0, line, r.event)];
        }
      }
    }
  }

  lemma AppendNames(seen: seq<Reading>, r: Reading)
    ensures CounterOf(Names(seen + [r])) == Bump(CounterOf(Names(seen)), r.name)
    ensures CounterOf(TaskReasons(seen + [r])) ==
            if r.reason.Some? then Bump(CounterOf(TaskReasons(seen)), r.reason.value) else CounterOf(TaskReasons(seen))
  {
    assert (seen + [r])[..|seen|] == seen;
    var names := Names(seen);
    assert (names + [r.name])[..|names|] == names;
    if r.reason.Some? {
      var reasons := TaskReasons(seen);
      assert (reasons + [r.reason.value])[..|reasons|] == reasons;
    }
  }

  lemma AppendEvidence(seen: seq<Reading>, r: Reading)
    ensures Failures(seen + [r]) ==
            if r.priority.Some? then Failures(seen) + [Evidence(r.priority.value, |seen| + 1, r.event)] else Failures(seen)
    ensures Endings(seen + [r]) ==
            if r.ending && r.priority.None? then Endings(seen) + [Evidence(0, |seen| + 1, r.event)] else Endings(seen)
  {
    assert (seen + [r])[..|seen|] == seen;
  }

  lemma SignalsStep(fs: seq<Evidence>, x: Evidence)
    requires x.priority < 4
    ensures Signals(fs + [x]) == Signals(fs)[x.priority := Signals(fs)[x.priority] + 1]
  {
    assert (fs + [x])[..|fs|] == fs;
  }

  datatype Result = Result(
    eventCount: nat,
    types: seq<Count>,
    typesOmitted: nat,
    signals: seq<nat>,
    taskEnds: nat,
    reasons: seq<Count>,
    reasonsOmitted: nat,
    evidence: seq<Evidence>,
    evidenceOmitted: int)

  /** `_inspect` */
  method Inspect(stream: seq<Event>) returns (r: Result)
    ensures var o := OverviewOf(ReadAll(stream));
            var chosen := if o.failureCount > 0 then o.failures else o.endings;
            r == Result(|stream|, MostFrequent(o.types), if |o.types| > 32 then |o.types| - 32 else 0, o.signals,
                        SumOf(o.reasons), MostFrequent(o.reasons), if |o.reasons| > 32 then |o.reasons| - 32 else 0, chosen,
                        (if o.failureCount > 0 then o.failureCount else o.endingCount) - |chosen|)
    ensures CountsTheEvents(stream, r)
  {
    r := Summarize(stream);
    InspectionCounts(stream);
  }

  method Summarize(stream: seq<Event>) returns (r: Result)
    ensures var o := OverviewOf(ReadAll(stream));
            var chosen := if o.failureCount > 0 then o.failures else o.endings;
            r == Result(|stream|, MostFrequent(o.types), if |o.types| > 32 then |o.types| - 32 else 0, o.signals,
                        SumOf(o.reasons), MostFrequent(o.reasons), if |o.reasons| > 32 then |o.reasons| - 32 else 0, chosen,
                        (if o.failureCount > 0 then o.failureCount else o.endingCount) - |chosen|)
  {
    var scan := ScanStream(stream);
    var evidence := if scan.failureCount != 0 then scan.failures else scan.endings;
    r := Result(|stream|, MostFrequent(scan.types), if |scan.types| > 32 then |scan.types| - 32 else 0, scan.signals,
                SumOf(scan.reasons), MostFrequent(scan.reasons),
                if |scan.reasons| > 32 then |scan.reasons| - 32 else 0, evidence,
                (if scan.failureCount != 0 then scan.failureCount else scan.endingCount) - |evidence|);
  }

  /** The reader's loop around the visitor. */
  method ScanStream(stream: seq<Event>) returns (scan: InspectScan)
    ensures fresh(scan) && scan.Valid(ReadAll(stream))
  {
    scan := new InspectScan();
    ghost var rs := ReadAll(stream);
    var i := 0;
    while i < |stream|
      invariant i <= |stream| && scan.Valid(rs[..i]) && fresh(scan)
    {
      scan.VisitEvent(rs, i, stream[i]);
      i := i + 1;
    }
    assert rs[..i] == rs;
  }

  // ---------------------------------------------------------------------------------------------
  // What the overview means

  /** The failures are the readings with a priority, each at its line. */
  lemma {:induction false} FailureReadings(rs: seq<Reading>, x: Evidence)
    ensures x in Failures(rs) <==>
            1 <= x.line <= |rs| && rs[x.line - 1].priority == Some(x.priority) && rs[x.line - 1].event == x.event
    ensures multiset(Failures(rs))[x] <= 1
  {
    if rs != [] {
      FailureReadings(rs[..|rs| - 1], x);
    }
  }

  /** More urgent: a smaller priority number, or the same on an earlier line. */
  predicate Before(x: Evidence, y: Evidence) {
    x.priority < y.priority || (x.priority == y.priority && x.line < y.line)
  }

  lemma UrgencyIsBefore(x: Evidence, y: Evidence)
    ensures Less(ByUrgency()(x), ByUrgency()(y)) <==> Before(x, y)
  {
    assert ByUrgency()(x)[1..] == [x.line as int] && ByUrgency()(y)[1..] == [y.line as int];
    assert Less([x.line as int], [y.line as int]) <==> x.line < y.line;
  }

  lemma SortedFailuresAreStrict(rs: seq<Reading>, i: nat, j: nat)
    requires i < j < |Failures(rs)|
    ensures Before(Sort(ByUrgency(), Failures(rs))[i], Sort(ByUrgency(), Failures(rs))[j])
  {
    var fs := Failures(rs);
    var sorted := Sort(ByUrgency(), fs);
    SortSorted(ByUrgency(), fs);
    var x, y := sorted[i], sorted[j];
    assert AtMost(ByUrgency()(x), ByUrgency()(y));
    UrgencyIsBefore(y, x);
    assert x in multiset(sorted) && y in multiset(sorted);
    FailureLinesDiffer(rs, x, y);
    if x == y {
      OccursTwice(sorted, i, j);
    }
  }

  lemma FailureLinesDiffer(rs: seq<Reading>, x: Evidence, y: Evidence)
    requires x in Failures(rs) && y in Failures(rs)
    ensures x.line == y.line ==> x == y
    ensures multiset(Failures(rs))[x] <= 1
  {
    FailureReadings(rs, x);
    FailureReadings(rs, y);
  }

  /** The kept failures are the twenty most urgent ones in order: every other failure comes after
      all of them. */
  lemma KeptFailuresAreTheMostUrgent(rs: seq<Reading>, x: Evidence, i: nat)
    requires x in Failures(rs) && x !in MostUrgent(Failures(rs)) && i < |MostUrgent(Failures(rs))|
    ensures |MostUrgent(Failures(rs))| == 20
    ensures MostUrgent(Failures(rs))[i] in Failures(rs) && Before(MostUrgent(Failures(rs))[i], x)
  {
    var fs := Failures(rs);
    var sorted := Sort(ByUrgency(), fs);
    SortSorted(ByUrgency(), fs);
    assert x in multiset(sorted) && sorted[i] in multiset(fs);
    var j :| 0 <= j < |sorted| && sorted[j] == x;
    assert j >= |MostUrgent(fs)|;
    SortedFailuresAreStrict(rs, i, j);
  }

  lemma {:induction false} SignalsAddUp(fs: seq<Evidence>)
    requires forall i :: 0 <= i < |fs| ==> fs[i].priority < 4
    ensures SignalCount(fs, 0) + SignalCount(fs, 1) + SignalCount(fs, 2) + SignalCount(fs, 3) == |fs|
  {
    if fs != [] {
      assert fs[|fs| - 1].priority < 4;
      SignalsAddUp(fs[..|fs| - 1]);
    }
  }

  lemma {:induction false} NamesCoverTheStream(rs: seq<Reading>)
    ensures |Names(rs)| == |rs|
  {
    if rs != [] {
      NamesCoverTheStream(rs[..|rs| - 1]);
    }
  }

  // ---------------------------------------------------------------------------------------------
  // The overview, read off the raw events

  predicate IsText(j: Json) {
    j.JString? && j.text != ""
  }

  /** The event is a failure of this urgency: a failed job, a stage with a failure reason, a task
      with a readable reason other than "Success", or a removed executor. */
  predicate FailsWith(e: Event, priority: nat) {
    || (priority == 0 && NamedAs(e, "SparkListenerJobEnd") && At(e, ["Job Result", "Result"]) == JString("JobFailed"))
    || (priority == 1 && NamedAs(e, "SparkListenerStageCompleted") && IsText(At(e, ["Stage Info", "Failure Reason"])))
    || (priority == 2 && NamedAs(e, "SparkListenerTaskEnd") && OutcomeIs(e, NonSuccess))
    || (priority == 3 && NamedAs(e, "SparkListenerExecutorRemoved"))
  }

  /** The event ends a job, an SQL execution or the application, and is no failure. */
  predicate EndsWell(e: Event) {
    || (NamedAs(e, "SparkListenerJobEnd") && At(e, ["Job Result", "Result"]) != JString("JobFailed"))
    || NamedAs(e, "org.apache.spark.sql.execution.ui.SparkListenerSQLExecutionEnd")
    || NamedAs(e, "SparkListenerApplicationEnd")
  }

  lemma JobResults(e: Event)
    ensures At(e, ["Job Result", "Result"]) == JString("JobFailed") <==>
            Get(e, "Job Result").JObject? && Get(Get(e, "Job Result").fields, "Result") == JString("JobFailed")
  {
    PathUnfolds(e, "Job Result", "Result");
  }

  lemma PrioritiesMean(e: Event, p: nat)
    ensures Priority(e) == Some(p) <==> FailsWith(e, p)
  {
    NamesMean(e, "SparkListenerJobEnd");
    NamesMean(e, STAGE_COMPLETED);
    NamesMean(e, TASK_END);
    NamesMean(e, "SparkListenerExecutorRemoved");
    JobResults(e);
    PathUnfolds(e, "Stage Info", "Failure Reason");
    ReasonsMean(e);
    OutcomesMean(e);
  }

  lemma EndingsMean(e: Event)
    ensures Read(e).ending <==> EndsWell(e)
  {
    NamesMean(e, "SparkListenerJobEnd");
    NamesMean(e, "org.apache.spark.sql.execution.ui.SparkListenerSQLExecutionEnd");
    NamesMean(e, "SparkListenerApplicationEnd");
    JobResults(e);
    assert Name(e) in ENDINGS <==> Name(e) == ENDINGS[0] || Name(e) == ENDINGS[1] || Name(e) == ENDINGS[2];
  }

  /** The failures are exactly the raw events that fail, each once, at its line and with its urgency. */
  lemma FailuresAreThePrioritized(stream: seq<Event>, x: Evidence)
    ensures x in Failures(ReadAll(stream)) <==>
            1 <= x.line <= |stream| && x.event == stream[x.line - 1] && FailsWith(stream[x.line - 1], x.priority)
    ensures multiset(Failures(ReadAll(stream)))[x] <= 1
  {
    FailureReadings(ReadAll(stream), x);
    if 1 <= x.line <= |stream| {
      PrioritiesMean(stream[x.line - 1], x.priority);
    }
  }

  lemma {:induction false} EndingReadings(rs: seq<Reading>, x: Evidence)
    ensures x in Endings(rs) <==>
            && x.priority == 0 && 1 <= x.line <= |rs| && x.event == rs[x.line - 1].event
            && rs[x.line - 1].ending && rs[x.line - 1].priority.None?
    ensures forall i :: 0 <= i < |Endings(rs)| ==> Endings(rs)[i].line <= |rs|
    ensures forall i, j :: 0 <= i < j < |Endings(rs)| ==> Endings(rs)[i].line < Endings(rs)[j].line
  {
    if rs != [] {
      EndingReadings(rs[..|rs| - 1], x);
    }
  }

  /** The endings are exactly the raw events that end something well, in order. */
  lemma EndingsAreTheRest(stream: seq<Event>, x: Evidence)
    ensures x in Endings(ReadAll(stream)) <==>
            x.priority == 0 && 1 <= x.line <= |stream| && x.event == stream[x.line - 1] && EndsWell(stream[x.line - 1])
    ensures var es := Endings(ReadAll(stream)); forall i, j :: 0 <= i < j < |es| ==> es[i].line < es[j].line
    ensures OverviewOf(ReadAll(stream)).endings == Take(20, Endings(ReadAll(stream)))
  {
    EndingReadings(ReadAll(stream), x);
    if 1 <= x.line <= |stream| {
      EndingsMean(stream[x.line - 1]);
    }
  }

  function Fails(p: nat): Event -> bool {
    (e: Event) => FailsWith(e, p)
  }

  function Named(name: string): Event -> bool {
    (e: Event) => EventName(e) == name
  }

  lemma {:induction false} SignalsCount(rs: seq<Reading>, stream: seq<Event>, p: nat, f: Event -> bool)
    requires |rs| == |stream| && forall i :: 0 <= i < |rs| ==> (rs[i].priority == Some(p) <==> f(stream[i]))
    ensures SignalCount(Failures(rs), p) == |Positions(stream, f)|
  {
    if stream != [] {
      var n := |stream| - 1;
      SignalsCount(rs[..n], stream[..n], p, f);
      assert stream == stream[..n] + [stream[n]];
      PositionsAppend(stream[..n], stream[n], f);
      if rs[n].priority.Some? {
        var before := Failures(rs[..n]);
        assert Failures(rs)[..|before|] == before;
      }
    }
  }

  /** Each signal counts the raw failures of one urgency. */
  lemma SignalsAreCounts(stream: seq<Event>, p: nat)
    ensures SignalCount(Failures(ReadAll(stream)), p) == |Positions(stream, Fails(p))|
  {
    forall i | 0 <= i < |stream| ensures ReadAll(stream)[i].priority == Some(p) <==> Fails(p)(stream[i]) {
      PrioritiesMean(stream[i], p);
    }
    SignalsCount(ReadAll(stream), stream, p, Fails(p));
  }

  lemma {:induction false} NamesCount(rs: seq<Reading>, stream: seq<Event>, name: string, p: Event -> bool)
    requires |rs| == |stream| && forall i :: 0 <= i < |rs| ==> (rs[i].name == name <==> p(stream[i]))
    ensures multiset(Names(rs))[name] == |Positions(stream, p)|
  {
    if stream != [] {
      var n := |stream| - 1;
      NamesCount(rs[..n], stream[..n], name, p);
      assert stream == stream[..n] + [stream[n]];
      PositionsAppend(stream[..n], stream[n], p);
    }
  }

  lemma {:induction false} ReasonsCount(rs: seq<Reading>, stream: seq<Event>, reason: string, p: Event -> bool)
    requires |rs| == |stream| && forall i :: 0 <= i < |rs| ==> (rs[i].reason == Some(reason) <==> p(stream[i]))
    ensures multiset(TaskReasons(rs))[reason] == |Positions(stream, p)|
  {
    if stream != [] {
      var n := |stream| - 1;
      ReasonsCount(rs[..n], stream[..n], reason, p);
      assert stream == stream[..n] + [stream[n]];
      PositionsAppend(stream[..n], stream[n], p);
    }
  }

  /** A name is counted once for each raw event that bears it. */
  lemma NamesAreCounted(stream: seq<Event>, name: string)
    ensures multiset(Names(ReadAll(stream)))[name] == |Positions(stream, Named(name))|
  {
    forall i | 0 <= i < |stream| ensures ReadAll(stream)[i].name == name <==> Named(name)(stream[i]) {
      EventNames(stream[i]);
    }
    NamesCount(ReadAll(stream), stream, name, Named(name));
  }

  /** A reason is counted once for each raw task end that reports it. */
  lemma ReasonsAreCounted(stream: seq<Event>, reason: string)
    ensures multiset(TaskReasons(ReadAll(stream)))[reason] == |Positions(stream, Reports(reason))|
  {
    forall i | 0 <= i < |stream| ensures ReadAll(stream)[i].reason == Some(reason) <==> Reports(reason)(stream[i]) {
      ReasonTextsMean(stream[i]);
    }
    ReasonsCount(ReadAll(stream), stream, reason, Reports(reason));
  }

  /** Every count of the overview is that of the raw events. */
  lemma OverviewCountsTheEvents(stream: seq<Event>)
    ensures var o := OverviewOf(ReadAll(stream));
            && o.signals == [|Positions(stream, Fails(0))|, |Positions(stream, Fails(1))|,
                             |Positions(stream, Fails(2))|, |Positions(stream, Fails(3))|]
            && (forall name :: CountFor(o.types, name) == |Positions(stream, Named(name))|)
            && (forall reason :: CountFor(o.reasons, reason) == |Positions(stream, Reports(reason))|)
  {
    SignalsAreCounts(stream, 0);
    SignalsAreCounts(stream, 1);
    SignalsAreCounts(stream, 2);
    SignalsAreCounts(stream, 3);
    CountsAreMultiplicities(Names(ReadAll(stream)));
    CountsAreMultiplicities(TaskReasons(ReadAll(stream)));
    forall name ensures CountFor(OverviewOf(ReadAll(stream)).types, name) == |Positions(stream, Named(name))| {
      NamesAreCounted(stream, name);
    }
    forall reason ensures CountFor(OverviewOf(ReadAll(stream)).reasons, reason) == |Positions(stream, Reports(reason))| {
      ReasonsAreCounted(stream, reason);
    }
  }

  /** The four signals add up to the failures and the type counts to the events. */
  lemma OverviewAddsUp(stream: seq<Event>)
    ensures var o := OverviewOf(ReadAll(stream));
            && o.signals[0] + o.signals[1] + o.signals[2] + o.signals[3] == o.failureCount
            && SumOf(o.types) == |stream|
  {
    var rs := ReadAll(stream);
    var fs := Failures(rs);
    forall i | 0 <= i < |fs| ensures fs[i].priority < 4 {
      FailureReadings(rs, fs[i]);
    }
    SignalsAddUp(fs);
    NamesCoverTheStream(rs);
    CountsAreMultiplicities(Names(rs));
  }

  /** The published counts are those of the raw events. */
  ghost predicate CountsTheEvents(stream: seq<Event>, r: Result) {
    && r.eventCount == |stream|
    && r.signals == [|Positions(stream, Fails(0))|, |Positions(stream, Fails(1))|,
                     |Positions(stream, Fails(2))|, |Positions(stream, Fails(3))|]
    && r.taskEnds == |Positions(stream, ReportsReason())|
    && (forall x :: x in r.types ==> x.n == |Positions(stream, Named(x.name))|)
    && (forall x :: x in r.reasons ==> x.n == |Positions(stream, Reports(x.name))|)
  }

  lemma {:induction false} ReasonsFill(rs: seq<Reading>, stream: seq<Event>, p: Event -> bool)
    requires |rs| == |stream| && forall i :: 0 <= i < |rs| ==> (rs[i].reason.Some? <==> p(stream[i]))
    ensures |TaskReasons(rs)| == |Positions(stream, p)|
  {
    if stream != [] {
      var n := |stream| - 1;
      ReasonsFill(rs[..n], stream[..n], p);
      assert stream == stream[..n] + [stream[n]];
      PositionsAppend(stream[..n], stream[n], p);
    }
  }

  lemma InspectionCounts(stream: seq<Event>)
    ensures var o := OverviewOf(ReadAll(stream));
            && o.signals == [|Positions(stream, Fails(0))|, |Positions(stream, Fails(1))|,
                             |Positions(stream, Fails(2))|, |Positions(stream, Fails(3))|]
            && SumOf(o.reasons) == |Positions(stream, ReportsReason())|
            && (forall x :: x in MostFrequent(o.types) ==> x.n == |Positions(stream, Named(x.name))|)
            && (forall x :: x in MostFrequent(o.reasons) ==> x.n == |Positions(stream, Reports(x.name))|)
  {
    var rs := ReadAll(stream);
    OverviewCountsTheEvents(stream);
    MostFrequentAreCounts(Names(rs));
    MostFrequentAreCounts(TaskReasons(rs));
    CountsAreMultiplicities(TaskReasons(rs));
    forall x | x in MostFrequent(CounterOf(Names(rs))) ensures x.n == |Positions(stream, Named(x.name))| {
      NamesAreCounted(stream, x.name);
    }
    forall x | x in MostFrequent(CounterOf(TaskReasons(rs))) ensures x.n == |Positions(stream, Reports(x.name))| {
      ReasonsAreCounted(stream, x.name);
    }
    forall i | 0 <= i < |stream| ensures rs[i].reason.Some? <==> ReportsReason()(stream[i]) {
      ReasonTextsMean(stream[i]);
    }
    ReasonsFill(rs, stream, ReportsReason());
  }
}
