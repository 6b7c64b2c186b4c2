/** The serialized discovery and restart protocol of the Zeppelin HTTP adapter.

    One asyncio lock serializes interpreter discovery and notebook-scoped restart.  Every call runs
    as its own task, and so does its lock acquisition; callers may be cancelled any number of
    times, timers may fire, and `close` may arrive at any suspension point.  One `Event` is one
    scheduling step: it takes one task from one suspension point to the next, and between the two
    nothing else runs.  A run is any sequence of enabled events, so a fact about all runs is a fact
    about all interleavings. */
module DiscoveryProtocol {
  import opened Wrappers

  datatype Binding = Binding(settingId: string, selected: bool)

  /** The future one lock waiter suspends on.  `Revoked` was woken and cancelled before it ran. */
  datatype Waiter = Pending | Woken | Revoked | Abandoned

  /** The task that runs `lock.acquire()`. */
  datatype Acquisition = Unborn | Scheduled(cancelled: bool) | Waiting(waiter: Waiter) | Acquired | Refused

  /** An awaited task that the adapter owns but does not step itself. */
  datatype Job<+T> = Idle | Running | Succeeded(value: T) | Failed {
    predicate Settled() {
      Succeeded? || Failed?
    }
  }

  /** The task that runs `_BindingQuery._close`. */
  datatype Closer = Unopened | Opened | Joining | Forcing | Closed

  datatype Exit = Normal | Expired | Cancelled | Error

  /** The suspension point of a call's task.  The `Join` and `Releasing` points sit inside
      `await_cleanup`; their argument is how the interrupted body will be left. */
  datatype Pc =
    | Created
    | AwaitLock
    | AwaitPreparation
    | JoinPreparation(exit: Exit)
    | AwaitQuery
    | JoinQuery(exit: Exit)
    | AwaitPut
    | JoinPut(exit: Exit)
    | Releasing(exit: Exit)
    | Finished(exit: Exit)

  datatype Kind = Discovery | Restart(settingId: string)

  datatype Caller = Attending | Abandoning | Left

  datatype Call = Call(
    kind: Kind,
    deadline: int,
    pc: Pc,
    caller: Caller,
    cancelSet: bool,
    acquisition: Acquisition,
    preparation: Job<()>,
    query: Job<seq<Binding>>,
    closer: Closer,
    cleanup: Job<()>,
    put: Job<()>,
    puts: nat,
    releases: nat)

  datatype Shutdown = Open | Requested | Sweeping(joined: set<nat>) | Complete

  /** `fault` records the RuntimeError that `Lock.release` raises on an unlocked lock. */
  datatype State = State(
    now: int,
    closed: bool,
    shutdown: Shutdown,
    locked: bool,
    waiters: seq<nat>,
    calls: seq<Call>,
    fault: bool)

  /** What one call, or a task it owns, can do on its own. */
  datatype Move =
    | CancelCaller
    | Leave
    | Begin
    | Interrupt
    | Expire
    | LockObserved
    | PreparationObserved
    | PreparationJoined(refused: bool)
    | QueryObserved
    | QueryJoined(refused: bool)
    | PutObserved
    | PutJoined(refused: bool)
    | RunCloser(forced: bool)
    | SettlePreparation(ok: bool)
    | SettleQuery(bindings: Option<seq<Binding>>)
    | SettleCleanup(ok: bool)
    | SettlePut(ok: bool)

  datatype Event =
    | Tick(later: int)
    | Invoke(kind: Kind, deadline: int)
    | At(c: nat, move: Move)
    | RunAcquisition(c: nat)
    | LockReleased(c: nat)
    | RequestClose
    | Sweep
    | CloseJoined

  const INITIAL := State(0, false, Open, false, [], [], false)

  /** What `_serialized_restart` demands of the bindings its own discovery returned. */
  predicate Selects(settingId: string, bindings: seq<Binding>) {
    exists i :: 0 <= i < |bindings| && bindings[i].settingId == settingId && bindings[i].selected
  }

  // ---------------------------------------------------------------------------------------------
  // Steps of one call

  function NewCall(kind: Kind, deadline: int): Call {
    Call(kind, deadline, Created, Attending, false, Unborn, Idle, Idle, Unopened, Idle, Idle, 0, 0)
  }

  /** `Task.cancel` on the acquisition: a pending waiter's future is cancelled at once, a woken or
      not yet started task finds the cancellation when it next runs. */
  function CancelAcquisition(a: Acquisition): Acquisition {
    match a
    case Scheduled(_) => Scheduled(true)
    case Waiting(Pending) => Waiting(Abandoned)
    case Waiting(Woken) => Waiting(Revoked)
    case _ => a
  }

  /** Leaves the body of the `try`: `_release_discovery_lock` cancels an unfinished acquisition
      and then joins it. */
  function StartRelease(k: Call, exit: Exit): Call {
    k.(pc := Releasing(exit), acquisition := CancelAcquisition(k.acquisition))
  }

  /** A timeout or a cancellation delivered at the current suspension point. */
  function Disturb(k: Call, exit: Exit): Option<Call>
  {
    match k.pc
    case AwaitLock => Some(StartRelease(k, exit))
    case AwaitPreparation => Some(k.(pc := JoinPreparation(exit)))
    case AwaitQuery => Some(k.(pc := JoinQuery(exit), closer := Opened))
    case AwaitPut => Some(k.(pc := JoinPut(exit)))
    case _ => None
  }

  /** `await_cleanup` swallows a cancellation, keeps joining, and raises it afterwards. */
  function InterruptCall(k: Call): Option<Call> {
    match k.pc
    case Created => Some(k.(pc := Finished(Cancelled)))
    case JoinPreparation(_) => Some(k.(pc := JoinPreparation(Cancelled)))
    case JoinQuery(_) => Some(k.(pc := JoinQuery(Cancelled)))
    case JoinPut(_) => Some(k.(pc := JoinPut(Cancelled)))
    case Releasing(_) => Some(k.(pc := Releasing(Cancelled)))
    case _ => Disturb(k, Cancelled)
  }

  /** From the joined preparation to the query: the checks of `_discover_locked` and the
      deadline check that opens `query_bindings`. */
  function AfterPreparation(closed: bool, now: int, k: Call, refused: bool): Call
    requires k.pc.JoinPreparation?
  {
    if k.pc.exit != Normal then StartRelease(k, k.pc.exit)
    else if closed || k.cancelSet then StartRelease(k, Cancelled)
    else if refused then StartRelease(k, Error)
    else if k.deadline - now <= 0 then StartRelease(k, Expired)
    else k.(pc := AwaitQuery, query := Running)
  }

  /** From the joined query to the end of a discovery or to the PUT of a restart.  `refused`
      stands for the failures in between: secret staging and an unusable session cookie. */
  function AfterQuery(closed: bool, now: int, k: Call, refused: bool): Call
    requires k.pc.JoinQuery?
  {
    if k.pc.exit != Normal then StartRelease(k, k.pc.exit)
    else if closed || k.cancelSet then StartRelease(k, Cancelled)
    else if k.kind.Discovery? then StartRelease(k, Normal)
    else if !(k.query.Succeeded? && Selects(k.kind.settingId, k.query.value)) then StartRelease(k, Error)
    else if k.deadline - now <= 0 then StartRelease(k, Expired)
    else if refused then StartRelease(k, Error)
    else k.(pc := AwaitPut, put := Running, puts := k.puts + 1)
  }

  function AfterPut(closed: bool, k: Call, refused: bool): Call
    requires k.pc.JoinPut?
  {
    if k.pc.exit != Normal then StartRelease(k, k.pc.exit)
    else if closed || k.cancelSet then StartRelease(k, Cancelled)
    else StartRelease(k, if refused then Error else Normal)
  }

  function StepCloser(k: Call, forced: bool): Option<Call> {
    match k.closer
    case Opened => Some(k.(closer := Joining, cleanup := Running))
    case Joining =>
      if forced then Some(k.(closer := Forcing))
      else if k.cleanup.Succeeded? then Some(k.(closer := Closed))
      else None
    case Forcing => if k.query.Settled() && k.cleanup.Settled() then Some(k.(closer := Closed)) else None
    case _ => None
  }

  function Settle(ok: bool): Job<()> {
    if ok then Succeeded(()) else Failed
  }

  /** The steps that touch nothing but one call. */
  function StepCall(closed: bool, now: int, k: Call, m: Move): Option<Call> {
    match m
    case CancelCaller =>
      if k.caller.Left? then None else Some(k.(caller := Abandoning, cancelSet := true))
    case Leave =>
      if k.pc.Finished? && !k.caller.Left? then Some(k.(caller := Left)) else None
    case Begin =>
      if k.pc.Created? then Some(k.(pc := AwaitLock, acquisition := Scheduled(false))) else None
    case Interrupt => InterruptCall(k)
    case Expire => Disturb(k, Expired)
    case LockObserved =>
      if !(k.pc.AwaitLock? && k.acquisition.Acquired?) then None
      else if closed || k.cancelSet then Some(StartRelease(k, Cancelled))
      else Some(k.(pc := AwaitPreparation, preparation := Running))
    case PreparationObserved =>
      if !(k.pc.AwaitPreparation? && k.preparation.Settled()) then None
      else Some(k.(pc := JoinPreparation(if k.preparation.Succeeded? then Normal else Error)))
    case PreparationJoined(refused) =>
      if !(k.pc.JoinPreparation? && k.preparation.Settled()) then None
      else Some(AfterPreparation(closed, now, k, refused))
    case QueryObserved =>
      if !(k.pc.AwaitQuery? && k.query.Settled()) then None
      else Some(k.(pc := JoinQuery(if k.query.Succeeded? then Normal else Error), closer := Opened))
    case QueryJoined(refused) =>
      if !(k.pc.JoinQuery? && k.closer.Closed?) then None
      else Some(AfterQuery(closed, now, k, refused))
    case PutObserved =>
      if !(k.pc.AwaitPut? && k.put.Settled()) then None
      else Some(k.(pc := JoinPut(if k.put.Succeeded? then Normal else Error)))
    case PutJoined(refused) =>
      if k.pc.JoinPut? then Some(AfterPut(closed, k, refused)) else None
    case RunCloser(forced) => StepCloser(k, forced)
    case SettlePreparation(ok) =>
      if k.preparation.Running? then Some(k.(preparation := Settle(ok))) else None
    case SettleQuery(bindings) =>
      if !k.query.Running? then None
      else Some(k.(query := if bindings.Some? then Succeeded(bindings.value) else Failed))
    case SettleCleanup(ok) =>
      if k.cleanup.Running? && (ok ==> k.query.Settled()) then Some(k.(cleanup := Settle(ok))) else None
    case SettlePut(ok) =>
      if k.put.Running? then Some(k.(put := Settle(ok))) else None
  }

  // ---------------------------------------------------------------------------------------------
  // The lock

  function Without(ws: seq<nat>, c: nat): seq<nat> {
    if ws == [] then [] else if ws[0] == c then ws[1..] else [ws[0]] + Without(ws[1..], c)
  }

  function SetAcquisition(calls: seq<Call>, c: nat, a: Acquisition): (r: seq<Call>)
    requires c < |calls|
  {
    calls[c := calls[c].(acquisition := a)]
  }

  /** `Lock._wake_up_first`: only the first waiter, and only if its future is still pending. */
  function WakeFirst(ws: seq<nat>, calls: seq<Call>): (r: seq<Call>)
    ensures |r| == |calls|
  {
    if ws != [] && ws[0] < |calls| && calls[ws[0]].acquisition == Waiting(Pending)
    then SetAcquisition(calls, ws[0], Waiting(Woken))
    else calls
  }

  predicate AllAbandoned(ws: seq<nat>, calls: seq<Call>) {
    forall i :: 0 <= i < |ws| ==> ws[i] < |calls| && calls[ws[i]].acquisition == Waiting(Abandoned)
  }

  /** One step of `lock.acquire()`. */
  function StepAcquisition(s: State, c: nat): Option<State>
    requires c < |s.calls|
  {
    match s.calls[c].acquisition
    case Scheduled(true) => Some(s.(calls := SetAcquisition(s.calls, c, Refused)))
    case Scheduled(false) =>
      if !s.locked && AllAbandoned(s.waiters, s.calls)
      then Some(s.(locked := true, calls := SetAcquisition(s.calls, c, Acquired)))
      else Some(s.(waiters := s.waiters + [c], calls := SetAcquisition(s.calls, c, Waiting(Pending))))
    case Waiting(Woken) =>
      Some(s.(locked := true, waiters := Without(s.waiters, c), calls := SetAcquisition(s.calls, c, Acquired)))
    case Waiting(Pending) => None
    case Waiting(_) =>
      var rest := Without(s.waiters, c);
      var calls := SetAcquisition(s.calls, c, Refused);
      Some(s.(waiters := rest, calls := if s.locked then calls else WakeFirst(rest, calls)))
    case _ => None
  }

  /** The end of `_release_discovery_lock`, once the acquisition task is done. */
  function StepRelease(s: State, c: nat): Option<State>
    requires c < |s.calls|
  {
    var k := s.calls[c];
    if !(k.pc.Releasing? && (k.acquisition.Acquired? || k.acquisition.Refused?)) then None
    else if k.acquisition.Refused? then Some(s.(calls := s.calls[c := k.(pc := Finished(k.pc.exit))]))
    else if !s.locked then Some(s.(fault := true, calls := s.calls[c := k.(pc := Finished(Error))]))
    else
      var calls := s.calls[c := k.(pc := Finished(k.pc.exit), releases := k.releases + 1)];
      Some(s.(locked := false, calls := WakeFirst(s.waiters, calls)))
  }

  // ---------------------------------------------------------------------------------------------
  // Steps of the whole adapter and its runs

  predicate Attended(s: State, c: nat) {
    c < |s.calls| && !s.calls[c].caller.Left?
  }

  function Step(s: State, e: Event): Option<State> {
    match e
    case Tick(later) => if s.now <= later then Some(s.(now := later)) else None
    case Invoke(kind, deadline) =>
      if s.closed then None else Some(s.(calls := s.calls + [NewCall(kind, deadline)]))
    case RequestClose =>
      Some(s.(closed := true, shutdown := if s.shutdown.Open? then Requested else s.shutdown))
    case Sweep =>
      if !s.shutdown.Requested? then None
      else Some(s.(shutdown := Sweeping(set c | 0 <= c < |s.calls| && Attended(s, c))))
    case CloseJoined =>
      if s.shutdown.Sweeping? && forall c | c in s.shutdown.joined :: c < |s.calls| && s.calls[c].pc.Finished?
      then Some(s.(shutdown := Complete))
      else None
    case RunAcquisition(c) => if c < |s.calls| then StepAcquisition(s, c) else None
    case LockReleased(c) => if c < |s.calls| then StepRelease(s, c) else None
    case At(c, move) =>
      if c >= |s.calls| then None
      else match StepCall(s.closed, s.now, s.calls[c], move)
        case None => None
        case Some(k) => Some(s.(calls := s.calls[c := k]))
  }

  /** The state a schedule leads to, or `None` when one of its events was not enabled. */
  function After(run: seq<Event>): Option<State> {
    if run == [] then Some(INITIAL)
    else match After(run[..|run| - 1])
      case None => None
      case Some(s) => Step(s, run[|run| - 1])
  }

  // ---------------------------------------------------------------------------------------------
  // What every step keeps

  predicate Fresh(k: Call) {
    k.preparation.Idle? && NoQuery(k)
  }

  predicate NoQuery(k: Call) {
    k.query.Idle? && k.closer.Unopened? && k.cleanup.Idle? && k.put.Idle?
  }

  predicate QuerySettled(k: Call) {
    k.query.Settled() && k.closer.Closed? && k.cleanup.Settled()
  }

  /** Nothing the call started under the lock, other than the PUT, is still running. */
  predicate WorkSettled(k: Call) {
    !k.preparation.Running? && (NoQuery(k) || QuerySettled(k))
  }

  predicate InCritical(k: Call) {
    k.pc.AwaitPreparation? || k.pc.JoinPreparation? || k.pc.AwaitQuery? || k.pc.JoinQuery? ||
    k.pc.AwaitPut? || k.pc.JoinPut?
  }

  predicate Holds(k: Call) {
    k.acquisition.Acquired? && k.releases == 0
  }

  /** An acquisition that still wants the lock. */
  predicate Live(a: Acquisition) {
    a == Scheduled(false) || a == Waiting(Pending) || a == Waiting(Woken)
  }

  /** An acquisition that was cancelled and has not run since. */
  predicate Doomed(a: Acquisition) {
    a == Scheduled(true) || a == Waiting(Revoked) || a == Waiting(Abandoned)
  }

  /** The restart is entitled to its PUT by the discovery of its own tenure. */
  predicate Entitled(k: Call) {
    k.kind.Restart? && k.preparation.Succeeded? && QuerySettled(k) &&
    k.query.Succeeded? && Selects(k.kind.settingId, k.query.value)
  }

  predicate PcOk(k: Call) {
    match k.pc
    case Created => k.acquisition.Unborn? && Fresh(k)
    case AwaitLock =>
      Fresh(k) && (Live(k.acquisition) || k.acquisition.Acquired?)
    case AwaitPreparation => k.acquisition.Acquired? && !k.preparation.Idle? && NoQuery(k)
    case JoinPreparation(exit) =>
      k.acquisition.Acquired? && !k.preparation.Idle? && NoQuery(k) &&
      (exit.Normal? ==> k.preparation.Succeeded?)
    case AwaitQuery =>
      k.acquisition.Acquired? && k.preparation.Succeeded? && !k.query.Idle? &&
      k.closer.Unopened? && k.cleanup.Idle? && k.put.Idle?
    case JoinQuery(exit) =>
      k.acquisition.Acquired? && k.preparation.Succeeded? && !k.query.Idle? &&
      !k.closer.Unopened? && k.put.Idle? && (exit.Normal? ==> k.query.Succeeded?)
    case AwaitPut => k.acquisition.Acquired? && !k.put.Idle?
    case JoinPut(_) => k.acquisition.Acquired? && !k.put.Idle?
    case Releasing(_) =>
      WorkSettled(k) &&
      (Doomed(k.acquisition) || k.acquisition.Acquired? || k.acquisition.Refused?)
    case Finished(_) =>
      WorkSettled(k) && (k.acquisition.Unborn? || k.acquisition.Acquired? || k.acquisition.Refused?)
  }

  predicate CallOk(k: Call) {
    && PcOk(k)
    && k.releases == (if k.pc.Finished? && k.acquisition.Acquired? then 1 else 0)
    && k.puts == (if k.put.Idle? then 0 else 1)
    && (!k.put.Idle? ==> Entitled(k))
    && (k.caller.Left? ==> k.pc.Finished?)
    && (k.closer.Unopened? || k.closer.Opened? <==> k.cleanup.Idle?)
    && (k.cleanup.Succeeded? ==> k.query.Settled())
    && (k.closer.Closed? ==> k.query.Settled() && k.cleanup.Settled())
  }

  predicate Queued(s: State, c: nat) {
    c < |s.calls| && s.calls[c].acquisition.Waiting?
  }

  predicate Asleep(w: Waiter) {
    w.Pending? || w.Abandoned?
  }

  /** The queue lists exactly the waiting acquisitions, once each, and only its head may have
      been woken. */
  predicate QueueOk(s: State) {
    && (forall i, j :: 0 <= i < j < |s.waiters| ==> s.waiters[i] != s.waiters[j])
    && (forall i :: 0 <= i < |s.waiters| ==> Queued(s, s.waiters[i]))
    && (forall c :: 0 <= c < |s.calls| && Queued(s, c) ==> c in s.waiters)
    && (forall i :: 0 < i < |s.waiters| ==>
      Asleep(s.calls[s.waiters[i]].acquisition.waiter))
  }

  /** A head that was woken finds the lock free, and a free lock has no sleeping head. */
  predicate HeadOk(s: State)
    requires QueueOk(s)
  {
    s.waiters != [] ==>
      var w := s.calls[s.waiters[0]].acquisition.waiter;
      && (s.locked ==> Asleep(w))
      && (!s.locked ==> w != Pending)
  }

  predicate LockOk(s: State) {
    && QueueOk(s)
    && HeadOk(s)
    && (forall c, d :: 0 <= c < |s.calls| && 0 <= d < |s.calls| && Holds(s.calls[c]) && Holds(s.calls[d]) ==> c == d)
    && (s.locked <==> exists c :: 0 <= c < |s.calls| && Holds(s.calls[c]))
  }

  predicate ShutdownOk(s: State) {
    && (s.closed <==> !s.shutdown.Open?)
    && (s.shutdown.Sweeping? ==>
      forall c :: 0 <= c < |s.calls| ==> c in s.shutdown.joined || s.calls[c].pc.Finished?)
    && (s.shutdown.Complete? ==> forall c :: 0 <= c < |s.calls| ==> s.calls[c].pc.Finished?)
  }

  predicate Inv(s: State) {
    && (forall c :: 0 <= c < |s.calls| ==> CallOk(s.calls[c]))
    && LockOk(s)
    && ShutdownOk(s)
    && !s.fault
  }

  lemma StartReleaseKeepsCall(k: Call, exit: Exit)
    requires CallOk(k) && !k.pc.Releasing? && !k.pc.Finished? && !k.pc.Created? && WorkSettled(k)
    ensures CallOk(StartRelease(k, exit))
  {
  }

  lemma InterruptKeepsCall(k: Call)
    requires CallOk(k) && InterruptCall(k).Some?
    ensures CallOk(InterruptCall(k).value)
  {
    if k.pc.AwaitLock? {
      StartReleaseKeepsCall(k, Cancelled);
    }
  }

  lemma AfterPreparationKeepsCall(closed: bool, now: int, k: Call, refused: bool)
    requires CallOk(k) && k.pc.JoinPreparation? && k.preparation.Settled()
    ensures CallOk(AfterPreparation(closed, now, k, refused))
  {
  }

  lemma AfterQueryKeepsCall(closed: bool, now: int, k: Call, refused: bool)
    requires CallOk(k) && k.pc.JoinQuery? && k.closer.Closed?
    ensures CallOk(AfterQuery(closed, now, k, refused))
  {
  }

  lemma StepCallKeepsCall(closed: bool, now: int, k: Call, m: Move)
    requires CallOk(k) && StepCall(closed, now, k, m).Some?
    ensures CallOk(StepCall(closed, now, k, m).value)
    ensures k.pc.Finished? ==> StepCall(closed, now, k, m).value.pc.Finished?
  {
    match m
    case Interrupt => InterruptKeepsCall(k);
    case PreparationJoined(refused) => AfterPreparationKeepsCall(closed, now, k, refused);
    case QueryJoined(refused) => AfterQueryKeepsCall(closed, now, k, refused);
    case _ =>
  }

  lemma StepCallPut(closed: bool, now: int, k: Call, m: Move)
    requires CallOk(k) && StepCall(closed, now, k, m).Some?
    requires StepCall(closed, now, k, m).value.puts != k.puts
    ensures k.puts == 0 && StepCall(closed, now, k, m).value.puts == 1
    ensures Holds(k) && Entitled(k) && Entitled(StepCall(closed, now, k, m).value)
    ensures now < k.deadline && !closed && !k.cancelSet && StepCall(closed, now, k, m).value.kind == k.kind
  {
    assert m == QueryJoined(false);
  }

  /** A call's own steps create its acquisition or cancel it, and leave the lock alone. */
  predicate QuietUpdate(k: Call, k': Call) {
    && k'.releases == k.releases
    && (k'.acquisition == k.acquisition
        || (k.acquisition.Unborn? && k'.acquisition == Scheduled(false))
        || k'.acquisition == CancelAcquisition(k.acquisition))
  }

  lemma StepCallIsQuiet(closed: bool, now: int, k: Call, m: Move)
    requires CallOk(k) && StepCall(closed, now, k, m).Some?
    ensures QuietUpdate(k, StepCall(closed, now, k, m).value)
  {
  }

  lemma QuietUpdateKeepsLock(s: State, c: nat, k: Call)
    requires LockOk(s) && c < |s.calls| && QuietUpdate(s.calls[c], k)
    ensures LockOk(s.(calls := s.calls[c := k]))
  {
    var s' := s.(calls := s.calls[c := k]);
    assert Holds(k) <==> Holds(s.calls[c]);
    assert forall d :: 0 <= d < |s.calls| ==> (Holds(s'.calls[d]) <==> Holds(s.calls[d]));
    if s.locked {
      var h :| 0 <= h < |s.calls| && Holds(s.calls[h]);
      assert Holds(s'.calls[h]);
    }
    assert forall d :: 0 <= d < |s.calls| ==> (Queued(s', d) <==> Queued(s, d));
    assert QueueOk(s');
  }

  lemma {:induction false} WithoutFacts(ws: seq<nat>, c: nat)
    requires c in ws
    requires forall i, j :: 0 <= i < j < |ws| ==> ws[i] != ws[j]
    ensures |Without(ws, c)| == |ws| - 1
    ensures forall d :: d in Without(ws, c) <==> d in ws && d != c
    ensures forall i, j :: 0 <= i < j < |Without(ws, c)| ==> Without(ws, c)[i] != Without(ws, c)[j]
    ensures ws[0] == c ==> Without(ws, c) == ws[1..]
    ensures ws[0] != c ==> Without(ws, c) != [] && Without(ws, c)[0] == ws[0]
    ensures forall i :: 0 < i < |Without(ws, c)| ==> Without(ws, c)[i] in ws[1..]
  {
    if ws[0] != c {
      assert c in ws[1..];
      WithoutFacts(ws[1..], c);
    }
  }

  /** What remains of the lock's invariant while the head of the queue may be a sleeper that the
      current step still has to wake. */
  predicate LockMinusHead(s: State) {
    && QueueOk(s)
    && (forall c, d :: 0 <= c < |s.calls| && 0 <= d < |s.calls| && Holds(s.calls[c]) && Holds(s.calls[d]) ==> c == d)
    && (s.locked <==> exists c :: 0 <= c < |s.calls| && Holds(s.calls[c]))
  }

  lemma WakeFirstRestoresHead(s: State)
    requires LockMinusHead(s) && !s.locked
    ensures LockOk(s.(calls := WakeFirst(s.waiters, s.calls)))
  {
    var s' := s.(calls := WakeFirst(s.waiters, s.calls));
    assert forall d :: 0 <= d < |s.calls| ==> (Holds(s'.calls[d]) <==> Holds(s.calls[d]));
    assert forall d :: 0 <= d < |s.calls| ==> (Queued(s', d) <==> Queued(s, d));
    assert QueueOk(s');
  }

  /** A waiting acquisition leaves the queue without taking the lock. */
  lemma RefusalKeepsQueue(s: State, c: nat)
    requires LockOk(s) && Queued(s, c)
    ensures LockMinusHead(s.(waiters := Without(s.waiters, c), calls := SetAcquisition(s.calls, c, Refused)))
  {
    var s' := s.(waiters := Without(s.waiters, c), calls := SetAcquisition(s.calls, c, Refused));
    WithoutFacts(s.waiters, c);
    assert forall d :: 0 <= d < |s.calls| ==> (Holds(s'.calls[d]) <==> Holds(s.calls[d]));
    assert forall d :: 0 <= d < |s.calls| ==> (Queued(s', d) <==> Queued(s, d) && d != c);
    assert forall i :: 0 <= i < |s'.waiters| ==> s'.waiters[i] in Without(s.waiters, c);
    if s.locked {
      var h :| 0 <= h < |s.calls| && Holds(s.calls[h]);
      assert Holds(s'.calls[h]);
    }
  }

  lemma RefusalKeepsLock(s: State, c: nat)
    requires LockOk(s) && Queued(s, c) && StepAcquisition(s, c).Some?
    requires !s.calls[c].acquisition.waiter.Woken?
    ensures LockOk(StepAcquisition(s, c).value)
  {
    RefusalKeepsQueue(s, c);
    WithoutFacts(s.waiters, c);
    var rest, calls := Without(s.waiters, c), SetAcquisition(s.calls, c, Refused);
    var t := s.(waiters := rest, calls := calls);
    if s.locked {
      if s.waiters[0] == c && rest != [] {
        assert rest[0] == s.waiters[1];
      }
    } else {
      WakeFirstRestoresHead(t);
    }
  }

  /** The woken head takes the lock it was promised. */
  lemma PromotionKeepsLock(s: State, c: nat)
    requires LockOk(s) && c < |s.calls| && s.calls[c].acquisition == Waiting(Woken) && s.calls[c].releases == 0
    ensures !s.locked && s.waiters != [] && s.waiters[0] == c
    ensures LockOk(StepAcquisition(s, c).value)
  {
    assert Queued(s, c);
    WithoutFacts(s.waiters, c);
    var i :| 0 <= i < |s.waiters| && s.waiters[i] == c;
    assert i == 0;
    var s' := StepAcquisition(s, c).value;
    assert Holds(s'.calls[c]);
    assert forall d :: 0 <= d < |s.calls| && d != c ==> (Holds(s'.calls[d]) <==> Holds(s.calls[d]));
    assert forall d :: 0 <= d < |s.calls| ==> (Queued(s', d) <==> Queued(s, d) && d != c);
    assert forall j :: 0 <= j < |s'.waiters| ==> s'.waiters[j] == s.waiters[j + 1];
  }

  /** A new acquisition takes a free lock past abandoned waiters. */
  lemma BargingKeepsLock(s: State, c: nat)
    requires LockOk(s) && c < |s.calls| && s.calls[c].acquisition == Scheduled(false)
    requires s.calls[c].releases == 0 && !s.locked && AllAbandoned(s.waiters, s.calls)
    ensures LockOk(s.(locked := true, calls := SetAcquisition(s.calls, c, Acquired)))
  {
    var s' := s.(locked := true, calls := SetAcquisition(s.calls, c, Acquired));
    assert Holds(s'.calls[c]);
    assert forall d :: 0 <= d < |s.calls| && d != c ==> s'.calls[d] == s.calls[d];
    assert QueueOk(s') by {
      assert forall d :: 0 <= d < |s.calls| ==> (Queued(s', d) <==> Queued(s, d));
    }
  }

  /** Otherwise it joins the end of the queue. */
  lemma QueueingKeepsLock(s: State, c: nat)
    requires LockOk(s) && c < |s.calls| && s.calls[c].acquisition == Scheduled(false)
    requires s.locked || !AllAbandoned(s.waiters, s.calls)
    ensures LockOk(s.(waiters := s.waiters + [c], calls := SetAcquisition(s.calls, c, Waiting(Pending))))
  {
    var s' := s.(waiters := s.waiters + [c], calls := SetAcquisition(s.calls, c, Waiting(Pending)));
    assert forall d :: 0 <= d < |s.calls| && d != c ==> s'.calls[d] == s.calls[d];
    assert QueueOk(s') by {
      assert !Queued(s, c) && c !in s.waiters;
      assert forall d :: 0 <= d < |s.calls| ==> (Queued(s', d) <==> Queued(s, d) || d == c);
    }
    if s.locked {
      var h :| 0 <= h < |s.calls| && Holds(s.calls[h]);
      assert h != c && Holds(s'.calls[h]);
    }
  }

  lemma WithdrawalKeepsLock(s: State, c: nat)
    requires LockOk(s) && c < |s.calls| && s.calls[c].acquisition == Scheduled(true)
    ensures LockOk(s.(calls := SetAcquisition(s.calls, c, Refused)))
  {
    var s' := s.(calls := SetAcquisition(s.calls, c, Refused));
    assert forall d :: 0 <= d < |s.calls| ==> (Holds(s'.calls[d]) <==> Holds(s.calls[d]));
    assert forall d :: 0 <= d < |s.calls| ==> (Queued(s', d) <==> Queued(s, d));
    assert QueueOk(s');
    if s.locked {
      var h :| 0 <= h < |s.calls| && Holds(s.calls[h]);
      assert Holds(s'.calls[h]);
    }
  }

  lemma StepAcquisitionKeepsLock(s: State, c: nat)
    requires LockOk(s) && c < |s.calls| && s.calls[c].releases == 0 && StepAcquisition(s, c).Some?
    ensures LockOk(StepAcquisition(s, c).value)
  {
    match s.calls[c].acquisition
    case Scheduled(true) => WithdrawalKeepsLock(s, c);
    case Scheduled(false) =>
      if !s.locked && AllAbandoned(s.waiters, s.calls) {
        BargingKeepsLock(s, c);
      } else {
        QueueingKeepsLock(s, c);
      }
    case Waiting(Woken) => PromotionKeepsLock(s, c);
    case Waiting(_) => RefusalKeepsLock(s, c);
    case _ =>
  }

  lemma HandoverKeepsQueue(s: State, c: nat, k: Call)
    requires LockOk(s) && c < |s.calls| && Holds(s.calls[c])
    requires k.acquisition.Acquired? && k.releases > 0
    ensures s.locked && LockMinusHead(s.(locked := false, calls := s.calls[c := k]))
  {
    var t := s.(locked := false, calls := s.calls[c := k]);
    forall d | 0 <= d < |s.calls|
      ensures !Holds(t.calls[d]) && (Queued(t, d) <==> Queued(s, d))
    {
      assert d != c ==> !Holds(s.calls[d]);
    }
    assert QueueOk(t);
  }

  lemma StepReleaseKeepsLock(s: State, c: nat)
    requires LockOk(s) && c < |s.calls| && CallOk(s.calls[c]) && StepRelease(s, c).Some?
    ensures LockOk(StepRelease(s, c).value)
    ensures StepRelease(s, c).value.fault == s.fault
  {
    var k := s.calls[c];
    if k.acquisition.Refused? {
      QuietUpdateKeepsLock(s, c, k.(pc := Finished(k.pc.exit)));
    } else {
      var k' := k.(pc := Finished(k.pc.exit), releases := k.releases + 1);
      var t := s.(locked := false, calls := s.calls[c := k']);
      HandoverKeepsQueue(s, c, k');
      WakeFirstRestoresHead(t);
      assert StepRelease(s, c).value == t.(calls := WakeFirst(t.waiters, t.calls));
    }
  }

  /** The ways in which running acquisitions and waking waiters move one acquisition. */
  predicate Progress(a: Acquisition, b: Acquisition) {
    || b == a
    || (a == Scheduled(false) && (b == Acquired || b == Waiting(Pending)))
    || (a == Waiting(Pending) && b == Waiting(Woken))
    || (a == Waiting(Woken) && b == Acquired)
    || (Doomed(a) && b == Refused)
  }

  /** The lock's steps leave everything but the acquisition as it was. */
  predicate LockUpdate(k: Call, k': Call) {
    k' == k.(acquisition := k'.acquisition) && Progress(k.acquisition, k'.acquisition)
  }

  lemma LockUpdateKeepsCall(k: Call, k': Call)
    requires CallOk(k) && LockUpdate(k, k')
    ensures CallOk(k')
  {
  }

  lemma WakeFirstUpdates(ws: seq<nat>, calls: seq<Call>, c: nat)
    requires c < |calls|
    ensures LockUpdate(calls[c], WakeFirst(ws, calls)[c])
    ensures !calls[c].acquisition.Waiting? ==> WakeFirst(ws, calls)[c] == calls[c]
  {
  }

  lemma StepAcquisitionUpdates(s: State, c: nat, d: nat)
    requires c < |s.calls| && d < |s.calls| && StepAcquisition(s, c).Some?
    ensures |StepAcquisition(s, c).value.calls| == |s.calls|
    ensures LockUpdate(s.calls[d], StepAcquisition(s, c).value.calls[d])
    ensures Doomed(s.calls[c].acquisition) ==> StepAcquisition(s, c).value.calls[c].acquisition == Refused
  {
    var calls := SetAcquisition(s.calls, c, Refused);
    WakeFirstUpdates(Without(s.waiters, c), calls, d);
    WakeFirstUpdates(Without(s.waiters, c), calls, c);
  }

  lemma StepReleaseUpdates(s: State, c: nat, d: nat)
    requires c < |s.calls| && d < |s.calls| && CallOk(s.calls[c]) && StepRelease(s, c).Some?
    requires s.locked || !s.calls[c].acquisition.Acquired?
    ensures |StepRelease(s, c).value.calls| == |s.calls|
    ensures d != c ==> LockUpdate(s.calls[d], StepRelease(s, c).value.calls[d])
    ensures CallOk(StepRelease(s, c).value.calls[c]) && StepRelease(s, c).value.calls[c].pc.Finished?
    ensures StepRelease(s, c).value.calls[c].puts == s.calls[c].puts
  {
    var k := s.calls[c];
    if k.acquisition.Acquired? {
      var calls := s.calls[c := k.(pc := Finished(k.pc.exit), releases := k.releases + 1)];
      WakeFirstUpdates(s.waiters, calls, d);
      WakeFirstUpdates(s.waiters, calls, c);
    }
  }

  /** The steps of a lock keep each call's own invariant, its progress and its PUT count. */
  lemma LockStepsKeepCalls(s: State, e: Event, d: nat)
    requires Inv(s) && Step(s, e).Some? && d < |s.calls| && (e.RunAcquisition? || e.LockReleased?)
    ensures |Step(s, e).value.calls| == |s.calls|
    ensures CallOk(Step(s, e).value.calls[d]) && Step(s, e).value.calls[d].puts == s.calls[d].puts
    ensures s.calls[d].pc.Finished? ==> Step(s, e).value.calls[d].pc.Finished?
  {
    assert CallOk(s.calls[d]) && CallOk(s.calls[e.c]);
    if e.RunAcquisition? {
      StepAcquisitionUpdates(s, e.c, d);
      LockUpdateKeepsCall(s.calls[d], Step(s, e).value.calls[d]);
    } else {
      assert s.calls[e.c].acquisition.Acquired? ==> Holds(s.calls[e.c]);
      StepReleaseUpdates(s, e.c, d);
      if d != e.c {
        LockUpdateKeepsCall(s.calls[d], Step(s, e).value.calls[d]);
      }
    }
  }

  lemma StepKeepsCalls(s: State, e: Event, c: nat)
    requires Inv(s) && Step(s, e).Some? && c < |s.calls|
    ensures |s.calls| <= |Step(s, e).value.calls|
    ensures CallOk(Step(s, e).value.calls[c])
    ensures s.calls[c].pc.Finished? ==> Step(s, e).value.calls[c].pc.Finished?
  {
    assert CallOk(s.calls[c]);
    match e
    case RunAcquisition(_) => LockStepsKeepCalls(s, e, c);
    case LockReleased(_) => LockStepsKeepCalls(s, e, c);
    case At(d, move) =>
      assert CallOk(s.calls[d]);
      StepCallKeepsCall(s.closed, s.now, s.calls[d], move);
    case _ =>
  }

  lemma InvokeKeepsLock(s: State, k: Call)
    requires LockOk(s) && k.acquisition.Unborn?
    ensures LockOk(s.(calls := s.calls + [k]))
  {
    var s' := s.(calls := s.calls + [k]);
    assert forall d :: 0 <= d < |s.calls| ==> s'.calls[d] == s.calls[d];
    assert QueueOk(s');
    if s.locked {
      var h :| 0 <= h < |s.calls| && Holds(s.calls[h]);
      assert Holds(s'.calls[h]);
    }
  }

  lemma MoveKeepsLock(s: State, c: nat, move: Move)
    requires LockOk(s) && c < |s.calls| && CallOk(s.calls[c]) && !s.fault && Step(s, At(c, move)).Some?
    ensures LockOk(Step(s, At(c, move)).value) && !Step(s, At(c, move)).value.fault
  {
    StepCallIsQuiet(s.closed, s.now, s.calls[c], move);
    QuietUpdateKeepsLock(s, c, StepCall(s.closed, s.now, s.calls[c], move).value);
  }

  lemma RunKeepsLock(s: State, c: nat)
    requires LockOk(s) && c < |s.calls| && CallOk(s.calls[c]) && !s.fault && Step(s, RunAcquisition(c)).Some?
    ensures LockOk(Step(s, RunAcquisition(c)).value) && !Step(s, RunAcquisition(c)).value.fault
  {
    StepAcquisitionKeepsLock(s, c);
  }

  lemma ReleaseKeepsLock(s: State, c: nat)
    requires LockOk(s) && c < |s.calls| && CallOk(s.calls[c]) && !s.fault && Step(s, LockReleased(c)).Some?
    ensures LockOk(Step(s, LockReleased(c)).value) && !Step(s, LockReleased(c)).value.fault
  {
    StepReleaseKeepsLock(s, c);
  }

  lemma StepKeepsLock(s: State, e: Event)
    requires Inv(s) && Step(s, e).Some?
    ensures LockOk(Step(s, e).value) && !Step(s, e).value.fault
  {
    match e
    case Invoke(kind, deadline) => InvokeKeepsLock(s, NewCall(kind, deadline));
    case RunAcquisition(c) => RunKeepsLock(s, c);
    case LockReleased(c) => ReleaseKeepsLock(s, c);
    case At(c, move) => MoveKeepsLock(s, c, move);
    case _ =>
  }

  lemma StepKeepsShutdown(s: State, e: Event)
    requires Inv(s) && Step(s, e).Some?
    ensures ShutdownOk(Step(s, e).value)
  {
    var s' := Step(s, e).value;
    if e.Sweep? {
      forall c | 0 <= c < |s.calls| && !Attended(s, c) ensures s.calls[c].pc.Finished? {
        assert CallOk(s.calls[c]);
      }
    } else if !e.RequestClose? && !e.CloseJoined? {
      forall c | 0 <= c < |s.calls| && s.calls[c].pc.Finished? ensures s'.calls[c].pc.Finished? {
        StepKeepsCalls(s, e, c);
      }
      StepKeepsSize(s, e);
    }
  }

  lemma StepKeepsSize(s: State, e: Event)
    requires Step(s, e).Some?
    ensures |Step(s, e).value.calls| == if e.Invoke? then |s.calls| + 1 else |s.calls|
    ensures !e.RequestClose? ==> Step(s, e).value.closed == s.closed
    ensures !e.RequestClose? && !e.Sweep? && !e.CloseJoined? ==> Step(s, e).value.shutdown == s.shutdown
  {
  }

  lemma StepKeepsInv(s: State, e: Event)
    requires Inv(s) && Step(s, e).Some?
    ensures Inv(Step(s, e).value)
  {
    var s' := Step(s, e).value;
    forall c | 0 <= c < |s'.calls| ensures CallOk(s'.calls[c]) {
      StepKeepsSize(s, e);
      if c < |s.calls| {
        StepKeepsCalls(s, e, c);
      }
    }
    StepKeepsLock(s, e);
    StepKeepsShutdown(s, e);
  }

  lemma {:induction false} RunsKeepInv(run: seq<Event>)
    requires After(run).Some?
    ensures Inv(After(run).value)
  {
    if run != [] {
      RunsKeepInv(run[..|run| - 1]);
      StepKeepsInv(After(run[..|run| - 1]).value, run[|run| - 1]);
    }
  }

  // ---------------------------------------------------------------------------------------------
  // What the adapter promises over every run

  /** At most one call is inside the critical section, and it holds the lock. */
  lemma MutualExclusion(run: seq<Event>, c: nat, d: nat)
    requires After(run).Some?
    requires c < |After(run).value.calls| && d < |After(run).value.calls|
    requires InCritical(After(run).value.calls[c]) && InCritical(After(run).value.calls[d])
    ensures c == d && After(run).value.locked && Holds(After(run).value.calls[c])
  {
    RunsKeepInv(run);
    var s := After(run).value;
    assert CallOk(s.calls[c]) && CallOk(s.calls[d]);
    assert Holds(s.calls[c]) && Holds(s.calls[d]);
  }

  /** A call releases the lock once if its acquisition succeeded and it has ended, and never
      otherwise; no release finds the lock free. */
  lemma ReleaseExactlyOnce(run: seq<Event>, c: nat)
    requires After(run).Some? && c < |After(run).value.calls|
    ensures var k := After(run).value.calls[c];
            k.releases == (if k.pc.Finished? && k.acquisition.Acquired? then 1 else 0)
    ensures !After(run).value.fault
  {
    RunsKeepInv(run);
    assert CallOk(After(run).value.calls[c]);
  }

  /** When every call has ended, the lock is free and nobody is queued for it. */
  lemma FinishedRunsLeaveTheLockFree(run: seq<Event>)
    requires After(run).Some?
    requires forall c :: 0 <= c < |After(run).value.calls| ==> After(run).value.calls[c].pc.Finished?
    ensures !After(run).value.locked && After(run).value.waiters == []
  {
    RunsKeepInv(run);
    var s := After(run).value;
    assert forall c :: 0 <= c < |s.calls| ==> CallOk(s.calls[c]);
    assert s.waiters != [] ==> Queued(s, s.waiters[0]);
  }

  /** A step that starts a PUT is taken by the lock holder, for its first and only PUT, before
      its deadline, with neither `close` nor cancellation requested; its own discovery selected
      exactly this setting, and its preparation and query are settled. */
  lemma PutIsEntitled(run: seq<Event>, e: Event, c: nat)
    requires After(run).Some? && Step(After(run).value, e).Some?
    requires c < |After(run).value.calls|
    requires Step(After(run).value, e).value.calls[c].puts != After(run).value.calls[c].puts
    ensures var s, k, k' := After(run).value, After(run).value.calls[c], Step(After(run).value, e).value.calls[c];
            && k.puts == 0 && k'.puts == 1
            && Holds(k) && s.locked
            && s.now < k.deadline && !s.closed && !k.cancelSet
            && Entitled(k) && Entitled(k') && k'.kind == k.kind
  {
    RunsKeepInv(run);
    var s := After(run).value;
    assert CallOk(s.calls[c]);
    if e.RunAcquisition? || e.LockReleased? {
      LockStepsKeepCalls(s, e, c);
    } else {
      assert e.At? && e.c == c;
      StepCallPut(s.closed, s.now, s.calls[c], e.move);
    }
  }

  lemma AtMostOnePut(run: seq<Event>, c: nat)
    requires After(run).Some? && c < |After(run).value.calls|
    ensures var k := After(run).value.calls[c];
            k.puts <= 1 && (k.puts == 1 ==> Entitled(k))
  {
    RunsKeepInv(run);
    assert CallOk(After(run).value.calls[c]);
  }

  /** Whatever freed the lock, the holder's preparation and binding query had settled before. */
  lemma SettledBeforeRelease(run: seq<Event>, e: Event)
    requires After(run).Some? && Step(After(run).value, e).Some?
    requires After(run).value.locked && !Step(After(run).value, e).value.locked
    ensures e.LockReleased? && Holds(After(run).value.calls[e.c]) && WorkSettled(After(run).value.calls[e.c])
  {
    RunsKeepInv(run);
    assert e.LockReleased?;
    assert CallOk(After(run).value.calls[e.c]);
  }

  /** No lost wakeup: while the lock is free, an unfinished acquisition is never stuck. */
  lemma FreeLockIsTaken(run: seq<Event>, c: nat)
    requires After(run).Some? && !After(run).value.locked
    requires c < |After(run).value.calls|
    requires Live(After(run).value.calls[c].acquisition) || Doomed(After(run).value.calls[c].acquisition)
    ensures exists d :: Step(After(run).value, RunAcquisition(d)).Some?
  {
    RunsKeepInv(run);
    var s := After(run).value;
    if s.calls[c].acquisition == Waiting(Pending) {
      assert Queued(s, c);
      var w := s.waiters[0];
      assert Queued(s, w);
      assert Step(s, RunAcquisition(w)).Some?;
    } else {
      assert Step(s, RunAcquisition(c)).Some?;
    }
  }

  /** `_release_discovery_lock` never waits for the lock it may be about to give back: it can
      finish at once, or after one step of its own cancelled acquisition. */
  lemma ReleaseNeverBlocks(run: seq<Event>, c: nat)
    requires After(run).Some? && c < |After(run).value.calls| && After(run).value.calls[c].pc.Releasing?
    ensures var s := After(run).value;
            || Step(s, LockReleased(c)).Some?
            || (Step(s, RunAcquisition(c)).Some? && Step(Step(s, RunAcquisition(c)).value, LockReleased(c)).Some?)
  {
    RunsKeepInv(run);
    var s := After(run).value;
    assert CallOk(s.calls[c]);
    if Doomed(s.calls[c].acquisition) {
      StepAcquisitionUpdates(s, c, c);
    }
  }

  /** Once `close` has joined, every call ever made has ended, the lock is free, and neither a
      call nor a PUT can start again. */
  lemma CloseJoinsEverything(run: seq<Event>)
    requires After(run).Some? && After(run).value.shutdown.Complete?
    ensures var s := After(run).value;
            && (forall c :: 0 <= c < |s.calls| ==> s.calls[c].pc.Finished?)
            && !s.locked && s.waiters == []
    ensures forall kind, deadline :: Step(After(run).value, Invoke(kind, deadline)).None?
  {
    RunsKeepInv(run);
    FinishedRunsLeaveTheLockFree(run);
  }

  /** The caller's `await_cleanup` gives control back only after the call's task has ended. */
  lemma CallersOutliveTheirCalls(run: seq<Event>, c: nat)
    requires After(run).Some? && c < |After(run).value.calls| && After(run).value.calls[c].caller.Left?
    ensures After(run).value.calls[c].pc.Finished? && !Holds(After(run).value.calls[c])
  {
    RunsKeepInv(run);
    assert CallOk(After(run).value.calls[c]);
  }
}
