/** What the fields of a raw event mean, spelled out on its JSON keys.

    The plugin's extractors check and combine fields step by step; here every field is named by the
    path of keys that leads to it, and the two agree. */
module EventFields {
  import opened SparkEvents
  import opened Wrappers

  // ---------------------------------------------------------------------------------------------
  // Values under a path of keys

  /** The value under nested keys; null when a key is missing or leads through something else than
      an object. */
  function At(e: Event, path: seq<string>): Json
    decreases |path|
  {
    if path == [] then JObject(e)
    else if path[0] !in e then JNull
    else if |path| == 1 then e[path[0]]
    else match e[path[0]]
      case JObject(inner) => At(inner, path[1..])
      case _ => JNull
  }

  predicate Present(e: Event, path: seq<string>)
    decreases |path|
  {
    path != [] && path[0] in e &&
    (|path| == 1 || (e[path[0]].JObject? && Present(e[path[0]].fields, path[1..])))
  }

  /** The value under the first path if that is present, and otherwise under the second. */
  function EitherAt(e: Event, path: seq<string>, other: seq<string>): Json {
    if Present(e, path) then At(e, path) else At(e, other)
  }

  /** An exact integer from zero to the largest Java long; a boolean or a float is none. */
  function Long(j: Json): Option<int> {
    match j
    case JInt(n) => if 0 <= n < 0x8000_0000_0000_0000 then Some(n) else None
    case _ => None
  }

  function LongAt(e: Event, path: seq<string>): Option<int> {
    Long(At(e, path))
  }

  /** No control characters, and not too long. */
  predicate Printable(s: string, limit: nat) {
    s != "" && |s| <= limit && forall c :: c in s ==> ' ' <= c && c != 127 as char
  }

  predicate NamedAs(e: Event, name: string) {
    At(e, ["Event"]) == JString(name)
  }

  /** The readable reason of a task end. */
  function Reason(e: Event): Option<string> {
    match At(e, ["Task End Reason", "Reason"])
    case JString(text) => if Printable(text, 128) then Some(text) else None
    case _ => None
  }

  /** The event's name, and "" for an event without one. */
  function EventName(e: Event): string {
    match At(e, ["Event"]) case JString(text) => text case _ => ""
  }

  /** What a task end is counted under; other events are not. */
  function ReasonText(e: Event): Option<string> {
    if !NamedAs(e, "SparkListenerTaskEnd") then None
    else if Reason(e).Some? then Reason(e)
    else Some("UNKNOWN")
  }

  /** Each measurement under its own key. */
  function Measurement(e: Event, m: Metric): Option<int> {
    match m
    case Duration =>
      (match (LongAt(e, ["Task Info", "Launch Time"]), LongAt(e, ["Task Info", "Finish Time"]))
       case (Some(launch), Some(finish)) => if 0 < finish && launch <= finish then Some(finish - launch) else None
       case _ => None)
    case RunTime => LongAt(e, ["Task Metrics", "Executor Run Time"])
    case GcTime => LongAt(e, ["Task Metrics", "JVM GC Time"])
    case InputBytes => LongAt(e, ["Task Metrics", "Input Metrics", "Bytes Read"])
    case ShuffleRead =>
      (match (LongAt(e, ["Task Metrics", "Shuffle Read Metrics", "Remote Bytes Read"]),
              LongAt(e, ["Task Metrics", "Shuffle Read Metrics", "Local Bytes Read"]))
       case (Some(remote), Some(local)) => Some(remote + local)
       case _ => None)
    case FetchWait => LongAt(e, ["Task Metrics", "Shuffle Read Metrics", "Fetch Wait Time"])
  }

  /** Between one and `limit` ASCII letters, digits and other characters. */
  predicate Spelled(s: string, others: string, limit: nat) {
    0 < |s| <= limit && forall i :: 0 <= i < |s| ==>
      'a' <= s[i] <= 'z' || 'A' <= s[i] <= 'Z' || '0' <= s[i] <= '9' || s[i] in others
  }

  function Identifier(j: Json): Option<string> {
    match j case JString(text) => if Spelled(text, "_-", 128) then Some(text) else None case _ => None
  }

  // ---------------------------------------------------------------------------------------------
  // The extractors read these fields

  lemma KeyUnfolds(e: Event, a: string)
    ensures At(e, [a]) == Get(e, a)
    ensures Present(e, [a]) <==> a in e
  {
  }

  lemma PathUnfolds(e: Event, a: string, b: string)
    ensures At(e, [a, b]) == Get(Nested(e, a), b)
    ensures Present(e, [a, b]) <==> b in Nested(e, a)
  {
    assert [a, b][1..] == [b];
    KeyUnfolds(Nested(e, a), b);
  }

  lemma DeepPathUnfolds(e: Event, a: string, b: string, c: string)
    ensures At(e, [a, b, c]) == Get(Nested(Nested(e, a), b), c)
  {
    assert [a, b, c][1..] == [b, c];
    PathUnfolds(Nested(e, a), b, c);
  }

  lemma PlainTextIsPrintable(s: string, limit: nat)
    ensures PlainText(s, limit) <==> Printable(s, limit)
  {
    if PlainText(s, limit) {
      forall c | c in s ensures ' ' <= c && c != 127 as char {
        var i :| 0 <= i < |s| && s[i] == c;
      }
    } else if Printable(s, limit) {
      forall i | 0 <= i < |s| ensures s[i] as int >= 32 && s[i] as int != 127 {
        assert s[i] in s;
      }
    }
  }

  lemma EventNames(e: Event)
    ensures Name(e) == EventName(e)
  {
    KeyUnfolds(e, "Event");
  }

  lemma NamesMean(e: Event, name: string)
    requires name != ""
    ensures Name(e) == name <==> NamedAs(e, name)
  {
    KeyUnfolds(e, "Event");
  }

  lemma ReasonsMean(e: Event)
    ensures TaskReason(e) == if Reason(e).Some? then (Reason(e).value, true) else ("UNKNOWN", false)
  {
    PathUnfolds(e, "Task End Reason", "Reason");
    var value := Get(Nested(e, "Task End Reason"), "Reason");
    if value.JString? {
      PlainTextIsPrintable(value.text, 128);
    }
  }

  lemma ReasonTextsMean(e: Event)
    ensures ReasonText(e) == if Name(e) == TASK_END then Some(TaskReason(e).0) else None
  {
    NamesMean(e, TASK_END);
    ReasonsMean(e);
  }

  /** A task succeeded exactly if its readable reason is "Success", and its outcome is unknown
      exactly if it has no readable reason. */
  lemma OutcomesMean(e: Event)
    ensures TaskOutcome(e) == Success <==> At(e, ["Task End Reason", "Reason"]) == JString("Success")
    ensures TaskOutcome(e) == Unknown <==> Reason(e).None?
    ensures TaskOutcome(e) == NonSuccess <==> Reason(e).Some? && Reason(e).value != "Success"
  {
    ReasonsMean(e);
    assert Printable("Success", 128);
  }

  lemma DurationMeans(e: Event)
    ensures TaskMetricValues(e).duration == Measurement(e, Duration)
  {
    PathUnfolds(e, "Task Info", "Launch Time");
    PathUnfolds(e, "Task Info", "Finish Time");
  }

  lemma ShuffleReadMeans(e: Event)
    ensures TaskMetricValues(e).shuffleRead == Measurement(e, ShuffleRead)
  {
    DeepPathUnfolds(e, "Task Metrics", "Shuffle Read Metrics", "Remote Bytes Read");
    DeepPathUnfolds(e, "Task Metrics", "Shuffle Read Metrics", "Local Bytes Read");
  }

  /** Every measurement is the range-checked integer under its own key, or the difference or sum of
      the two under theirs. */
  lemma MeasurementsMean(e: Event, m: Metric)
    ensures Value(TaskMetricValues(e), m) == Measurement(e, m)
  {
    match m
    case Duration => DurationMeans(e);
    case RunTime => PathUnfolds(e, "Task Metrics", "Executor Run Time");
    case GcTime => PathUnfolds(e, "Task Metrics", "JVM GC Time");
    case InputBytes => DeepPathUnfolds(e, "Task Metrics", "Input Metrics", "Bytes Read");
    case ShuffleRead => ShuffleReadMeans(e);
    case FetchWait => DeepPathUnfolds(e, "Task Metrics", "Shuffle Read Metrics", "Fetch Wait Time");
  }

  lemma IdentifierTextIsSpelled(s: string, limit: nat)
    ensures IdentifierText(s, limit) <==> Spelled(s, "_-", limit)
  {
    assert forall c :: c in "_-" <==> c == '_' || c == '-';
    if IdentifierText(s, limit) {
      assert forall i :: 0 <= i < |s| ==> s[i] in s;
    }
  }

  lemma IdentifiersAgree(j: Json)
    ensures ExecutorId(j) == Identifier(j)
  {
    if j.JString? {
      IdentifierTextIsSpelled(j.text, 128);
    }
  }

  /** The decimal text of a number, without leading zeros. */
  function Decimal(n: nat): string {
    if n < 10 then [('0' as int + n) as char] else Decimal(n / 10) + Decimal(n % 10)
  }

  lemma {:induction false} DecimalsRead(n: nat)
    ensures Digits(Decimal(n)) && DecimalValue(Decimal(n)) == n
  {
    if n < 10 {
      assert Decimal(n)[..0] == "";
    } else {
      DecimalsRead(n / 10);
      var s := Decimal(n / 10) + Decimal(n % 10);
      assert s[..|s| - 1] == Decimal(n / 10);
    }
  }

  lemma {:induction false} LeadingZeroReads(s: string)
    requires Digits(s)
    ensures Digits("0" + s) && DecimalValue("0" + s) == DecimalValue(s)
  {
    if s == "" {
      assert "0" + s == "0" && "0"[..0] == "";
    } else {
      LeadingZeroReads(s[..|s| - 1]);
      assert ("0" + s)[..|s|] == "0" + s[..|s| - 1];
    }
  }

  /** The ID that the text of a Spark property spells. */
  function SpelledLong(j: Json): Option<int> {
    match j
    case JString(text) =>
      if 1 <= |text| <= 19 && Digits(text) && DecimalValue(text) < 0x8000_0000_0000_0000
      then Some(DecimalValue(text))
      else None
    case _ => None
  }

  lemma {:induction false} DecimalsAreNatural(s: string)
    requires Digits(s)
    ensures 0 <= DecimalValue(s)
  {
    if s != "" {
      DecimalsAreNatural(s[..|s| - 1]);
    }
  }

  /** The direct identifiers, each under its own keys. */
  function IdsAt(e: Event): Ids {
    Ids(
      if Long(At(e, ["executionId"])).None? && NamedAs(e, "SparkListenerJobStart")
      then SpelledLong(At(e, ["Properties", "spark.sql.execution.id"]))
      else LongAt(e, ["executionId"]),
      LongAt(e, ["Job ID"]),
      Long(EitherAt(e, ["Stage ID"], ["Stage Info", "Stage ID"])),
      Long(EitherAt(e, ["Stage Attempt ID"], ["Stage Info", "Stage Attempt ID"])),
      LongAt(e, ["Task Info", "Task ID"]),
      Identifier(
        if Present(e, ["Executor ID"]) then At(e, ["Executor ID"])
        else EitherAt(e, ["Task Info", "Executor ID"], ["Block Manager ID", "Executor ID"])))
  }

  lemma ExecutionMeans(e: Event)
    ensures DirectIds(e).executionId == IdsAt(e).executionId
  {
    KeyUnfolds(e, "executionId");
    KeyUnfolds(e, "Event");
    PathUnfolds(e, "Properties", "spark.sql.execution.id");
    var j := Get(Nested(e, "Properties"), "spark.sql.execution.id");
    if j.JString? && Digits(j.text) {
      DecimalsAreNatural(j.text);
    }
  }

  lemma IdsMean(e: Event)
    ensures DirectIds(e) == IdsAt(e)
  {
    ExecutionMeans(e);
    KeyUnfolds(e, "Job ID");
    KeyUnfolds(e, "Stage ID");
    KeyUnfolds(e, "Stage Attempt ID");
    PathUnfolds(e, "Stage Info", "Stage ID");
    PathUnfolds(e, "Stage Info", "Stage Attempt ID");
    PathUnfolds(e, "Task Info", "Task ID");
    KeyUnfolds(e, "Executor ID");
    PathUnfolds(e, "Task Info", "Executor ID");
    PathUnfolds(e, "Block Manager ID", "Executor ID");
    IdentifiersAgree(At(e, ["Executor ID"]));
    IdentifiersAgree(EitherAt(e, ["Task Info", "Executor ID"], ["Block Manager ID", "Executor ID"]));
  }

  // ---------------------------------------------------------------------------------------------
  // Where in a stream something holds

  function Positions(stream: seq<Event>, p: Event -> bool): set<nat> {
    set i: nat | i < |stream| && p(stream[i])
  }

  lemma PositionsAppend(stream: seq<Event>, e: Event, p: Event -> bool)
    ensures |Positions(stream + [e], p)| == |Positions(stream, p)| + if p(e) then 1 else 0
  {
    var before := Positions(stream, p);
    assert forall i :: 0 <= i < |stream| ==> (stream + [e])[i] == stream[i];
    if p(e) {
      assert Positions(stream + [e], p) == before + {|stream|};
      assert |stream| !in before;
    } else {
      assert Positions(stream + [e], p) == before;
    }
  }

  /** An end of a task of this stage attempt. */
  predicate TaskEndOf(e: Event, stageId: int, attemptId: int) {
    NamedAs(e, "SparkListenerTaskEnd") && LongAt(e, ["Stage ID"]) == Some(stageId) &&
    LongAt(e, ["Stage Attempt ID"]) == Some(attemptId)
  }

  predicate Succeeded(e: Event) {
    At(e, ["Task End Reason", "Reason"]) == JString("Success")
  }

  /** The raw outcome of a task end. */
  predicate OutcomeIs(e: Event, o: Outcome) {
    match o
    case Success => Succeeded(e)
    case NonSuccess => Reason(e).Some? && Reason(e).value != "Success"
    case Unknown => Reason(e).None?
  }

  /** The measurements of the attempt's successful tasks that have one, in stream order. */
  function Measured(stream: seq<Event>, stageId: int, attemptId: int, m: Metric): seq<int> {
    if stream == [] then []
    else
      var before, e := Measured(stream[..|stream| - 1], stageId, attemptId, m), stream[|stream| - 1];
      if TaskEndOf(e, stageId, attemptId) && Succeeded(e) && Measurement(e, m).Some?
      then before + [Measurement(e, m).value]
      else before
  }

  function ReportsReason(): Event -> bool {
    (e: Event) => ReasonText(e).Some?
  }

  function Reports(reason: string): Event -> bool {
    (e: Event) => ReasonText(e) == Some(reason)
  }

  /** The line of the last event that satisfies `p`, if there is one; lines count from one. */
  predicate LastAt(stream: seq<Event>, p: Event -> bool, line: Option<nat>) {
    match line
    case None => forall i :: 0 <= i < |stream| ==> !p(stream[i])
    case Some(n) => 1 <= n <= |stream| && p(stream[n - 1]) && forall i :: n <= i < |stream| ==> !p(stream[i])
  }
}
