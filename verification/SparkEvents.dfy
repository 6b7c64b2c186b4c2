/** Decoded Spark listener events and the fixed fields the plugin projects from them. */
module SparkEvents {
  import opened Wrappers

  /** A decoded JSON value. */
  datatype Json =
    | JNull
    | JBool(flag: bool)
    | JInt(number: int)
    | JFloat(approximate: real)
    | JString(text: string)
    | JList(items: seq<Json>)
    | JObject(fields: map<string, Json>)

  type Event = map<string, Json>

  const MAX_LONG: int := 0x7FFF_FFFF_FFFF_FFFF
  const WORD_LIMIT: int := 0x1_0000_0000_0000_0000

  const TASK_END := "SparkListenerTaskEnd"
  const STAGE_SUBMITTED := "SparkListenerStageSubmitted"
  const STAGE_COMPLETED := "SparkListenerStageCompleted"

  /** An element of `array("Q")`. */
  newtype Word = x: int | 0 <= x < 0x1_0000_0000_0000_0000

  /** `event.get(key)` */
  function Get(o: Event, key: string): Json {
    if key in o then o[key] else JNull
  }

  /** `_object` */
  function AsObject(j: Json): Event {
    if j.JObject? then j.fields else map[]
  }

  function Nested(o: Event, key: string): Event {
    AsObject(Get(o, key))
  }

  /** `metric_integer`: exactly an int, in the range of a Java long. */
  function MetricInteger(j: Json): (r: Option<int>)
    ensures r.Some? ==> 0 <= r.value <= MAX_LONG
  {
    if j.JInt? && 0 <= j.number <= MAX_LONG then Some(j.number) else None
  }

  predicate PlainText(s: string, limit: nat) {
    1 <= |s| <= limit && forall i :: 0 <= i < |s| ==> s[i] as int >= 32 && s[i] as int != 127
  }

  /** `task_reason` */
  function TaskReason(e: Event): (string, bool) {
    var value := Get(Nested(e, "Task End Reason"), "Reason");
    if value.JString? && PlainText(value.text, 128) then (value.text, true) else ("UNKNOWN", false)
  }

  datatype Outcome = Success | NonSuccess | Unknown

  /** `task_outcome` */
  function TaskOutcome(e: Event): Outcome {
    var (reason, valid) := TaskReason(e);
    if !valid then Unknown else if reason == "Success" then Success else NonSuccess
  }

  datatype Metric = Duration | RunTime | GcTime | InputBytes | ShuffleRead | FetchWait

  /** `TaskMetricValues` */
  datatype TaskValues = TaskValues(
    duration: Option<int>,
    runTime: Option<int>,
    gcTime: Option<int>,
    inputBytes: Option<int>,
    shuffleRead: Option<int>,
    fetchWait: Option<int>)

  /** `getattr(values, name)` */
  function Value(v: TaskValues, m: Metric): Option<int> {
    match m
    case Duration => v.duration
    case RunTime => v.runTime
    case GcTime => v.gcTime
    case InputBytes => v.inputBytes
    case ShuffleRead => v.shuffleRead
    case FetchWait => v.fetchWait
  }

  function Elapsed(launch: Option<int>, finish: Option<int>): Option<int> {
    if launch.Some? && finish.Some? && finish.value > 0 && finish.value >= launch.value
    then Some(finish.value - launch.value)
    else None
  }

  function Sum(a: Option<int>, b: Option<int>): Option<int> {
    if a.Some? && b.Some? then Some(a.value + b.value) else None
  }

  /** `task_metric_values` */
  function TaskMetricValues(e: Event): TaskValues {
    var info, metrics := Nested(e, "Task Info"), Nested(e, "Task Metrics");
    var inputs, shuffle := Nested(metrics, "Input Metrics"), Nested(metrics, "Shuffle Read Metrics");
    TaskValues(
      Elapsed(MetricInteger(Get(info, "Launch Time")), MetricInteger(Get(info, "Finish Time"))),
      MetricInteger(Get(metrics, "Executor Run Time")),
      MetricInteger(Get(metrics, "JVM GC Time")),
      MetricInteger(Get(inputs, "Bytes Read")),
      Sum(MetricInteger(Get(shuffle, "Remote Bytes Read")), MetricInteger(Get(shuffle, "Local Bytes Read"))),
      MetricInteger(Get(shuffle, "Fetch Wait Time")))
  }

  predicate FitsWord(v: Option<int>) {
    v.Some? ==> 0 <= v.value < WORD_LIMIT
  }

  predicate Fits(v: TaskValues) {
    FitsWord(v.duration) && FitsWord(v.runTime) && FitsWord(v.gcTime) &&
    FitsWord(v.inputBytes) && FitsWord(v.shuffleRead) && FitsWord(v.fetchWait)
  }

  /** Every projected value, also the sum of two longs, fits an unsigned 64-bit array. */
  lemma TaskValuesFit(e: Event)
    ensures Fits(TaskMetricValues(e))
  {
  }

  predicate IdentifierText(s: string, limit: nat) {
    1 <= |s| <= limit && forall c :: c in s ==>
      'A' <= c <= 'Z' || 'a' <= c <= 'z' || '0' <= c <= '9' || c == '_' || c == '-'
  }

  function ExecutorId(j: Json): Option<string> {
    if j.JString? && IdentifierText(j.text, 128) then Some(j.text) else None
  }

  predicate Digits(s: string) {
    forall i :: 0 <= i < |s| ==> '0' <= s[i] <= '9'
  }

  /** The value of a string of ASCII digits, if it is one of at most `limit` characters. */
  function DecimalText(s: string, limit: nat): Option<int> {
    if 1 <= |s| <= limit && Digits(s) then Some(DecimalValue(s)) else None
  }

  function DecimalValue(s: string): int
    requires Digits(s)
  {
    if s == [] then 0 else DecimalValue(s[..|s| - 1]) * 10 + (s[|s| - 1] as int - '0' as int)
  }

  datatype Ids = Ids(
    executionId: Option<int>,
    jobId: Option<int>,
    stageId: Option<int>,
    stageAttemptId: Option<int>,
    taskId: Option<int>,
    executorId: Option<string>)

  function IdText(j: Json): Json {
    if j.JString? && DecimalText(j.text, 19).Some? then JInt(DecimalText(j.text, 19).value) else JNull
  }

  /** `direct_ids` */
  function DirectIds(e: Event): Ids {
    var stage, task, block := Nested(e, "Stage Info"), Nested(e, "Task Info"), Nested(e, "Block Manager ID");
    var direct := MetricInteger(Get(e, "executionId"));
    var execution :=
      if direct.None? && Get(e, "Event") == JString("SparkListenerJobStart")
      then MetricInteger(IdText(Get(Nested(e, "Properties"), "spark.sql.execution.id")))
      else direct;
    Ids(
      execution,
      MetricInteger(Get(e, "Job ID")),
      MetricInteger(if "Stage ID" in e then e["Stage ID"] else Get(stage, "Stage ID")),
      MetricInteger(if "Stage Attempt ID" in e then e["Stage Attempt ID"] else Get(stage, "Stage Attempt ID")),
      MetricInteger(Get(task, "Task ID")),
      ExecutorId(if "Executor ID" in e then e["Executor ID"]
                 else if "Executor ID" in task then task["Executor ID"]
                 else Get(block, "Executor ID")))
  }

  /** The event's name, as the verified reader guarantees it: a string. */
  function Name(e: Event): string {
    var name := Get(e, "Event");
    if name.JString? then name.text else ""
  }
}
