/** Progress of the discovery and restart protocol: no deadlock, and no run works for ever. */
module DiscoveryProgress {
  import opened DiscoveryProtocol
  import opened Wrappers

  // ---------------------------------------------------------------------------------------------
  // How much a call still has to do

  function JobWork<T>(j: Job<T>): nat {
    match j case Idle => 2 case Running => 1 case _ => 0
  }

  function CloserWork(c: Closer): nat {
    match c case Unopened => 4 case Opened => 3 case Joining => 2 case Forcing => 1 case Closed => 0
  }

  function AcquisitionWork(a: Acquisition): nat {
    match a
    case Unborn => 4
    case Scheduled(_) => 3
    case Waiting(Pending) => 2
    case Waiting(_) => 1
    case _ => 0
  }

  function PcWork(pc: Pc): nat {
    match pc
    case Created => 9
    case AwaitLock => 8
    case AwaitPreparation => 7
    case JoinPreparation(_) => 6
    case AwaitQuery => 5
    case JoinQuery(_) => 4
    case AwaitPut => 3
    case JoinPut(_) => 2
    case Releasing(_) => 1
    case Finished(_) => 0
  }

  function CallWork(k: Call): nat {
    PcWork(k.pc) + AcquisitionWork(k.acquisition) + JobWork(k.preparation) + JobWork(k.query)
    + CloserWork(k.closer) + JobWork(k.cleanup) + JobWork(k.put)
  }

  /** The work of a new call. */
  const CALL_WORK: nat := 25

  function Work(calls: seq<Call>): nat {
    if calls == [] then 0 else Work(calls[..|calls| - 1]) + CallWork(calls[|calls| - 1])
  }

  /** The steps of the adapter's own tasks and of the work they await, as opposed to cancellations,
      timeouts, the clock, new calls and `close`. */
  predicate Productive(e: Event) {
    match e
    case RunAcquisition(_) => true
    case LockReleased(_) => true
    case At(_, move) => !move.CancelCaller? && !move.Leave? && !move.Interrupt? && !move.Expire?
    case _ => false
  }

  function ProductiveSteps(run: seq<Event>): nat {
    if run == [] then 0
    else ProductiveSteps(run[..|run| - 1]) + if Productive(run[|run| - 1]) then 1 else 0
  }

  // ---------------------------------------------------------------------------------------------
  // Every step leaves less work, or as much

  lemma ReleasingWorks(k: Call, exit: Exit)
    requires PcWork(k.pc) > 1
    ensures CallWork(StartRelease(k, exit)) < CallWork(k)
  {
  }

  lemma InterruptWorks(k: Call)
    requires CallOk(k) && InterruptCall(k).Some?
    ensures CallWork(InterruptCall(k).value) <= CallWork(k)
  {
    if k.pc.AwaitLock? {
      ReleasingWorks(k, Cancelled);
    }
  }

  lemma AfterPreparationWorks(closed: bool, now: int, k: Call, refused: bool)
    requires CallOk(k) && k.pc.JoinPreparation?
    ensures CallWork(AfterPreparation(closed, now, k, refused)) < CallWork(k)
  {
    forall exit ensures CallWork(StartRelease(k, exit)) < CallWork(k) {
      ReleasingWorks(k, exit);
    }
  }

  lemma AfterQueryWorks(closed: bool, now: int, k: Call, refused: bool)
    requires CallOk(k) && k.pc.JoinQuery?
    ensures CallWork(AfterQuery(closed, now, k, refused)) < CallWork(k)
  {
    forall exit ensures CallWork(StartRelease(k, exit)) < CallWork(k) {
      ReleasingWorks(k, exit);
    }
  }

  lemma StepCallWorks(closed: bool, now: int, k: Call, m: Move)
    requires CallOk(k) && StepCall(closed, now, k, m).Some?
    ensures CallWork(StepCall(closed, now, k, m).value) <= CallWork(k)
    ensures !m.CancelCaller? && !m.Leave? && !m.Interrupt? ==> CallWork(StepCall(closed, now, k, m).value) < CallWork(k)
  {
    match m
    case Interrupt => InterruptWorks(k);
    case PreparationJoined(refused) => AfterPreparationWorks(closed, now, k, refused);
    case QueryJoined(refused) => AfterQueryWorks(closed, now, k, refused);
    case _ =>
  }

  lemma {:induction false} WorkOfUpdate(calls: seq<Call>, later: seq<Call>, c: nat)
    requires |later| == |calls| && c < |calls|
    requires forall d :: 0 <= d < |calls| ==> CallWork(later[d]) <= CallWork(calls[d])
    ensures Work(later) <= Work(calls)
    ensures CallWork(later[c]) < CallWork(calls[c]) ==> Work(later) < Work(calls)
  {
    var n := |calls| - 1;
    assert Work(later) == Work(later[..n]) + CallWork(later[n]);
    assert Work(calls) == Work(calls[..n]) + CallWork(calls[n]);
    if n > 0 {
      WorkOfUpdate(calls[..n], later[..n], if c < n then c else 0);
    }
  }

  lemma LockUpdateWorks(k: Call, k': Call)
    requires LockUpdate(k, k')
    ensures CallWork(k') <= CallWork(k)
    ensures k.acquisition != k'.acquisition ==> CallWork(k') < CallWork(k)
  {
  }

  lemma AcquisitionStepWorks(s: State, c: nat)
    requires Inv(s) && c < |s.calls| && StepAcquisition(s, c).Some?
    ensures Work(StepAcquisition(s, c).value.calls) < Work(s.calls)
  {
    var s' := StepAcquisition(s, c).value;
    StepAcquisitionUpdates(s, c, c);
    forall d | 0 <= d < |s.calls| ensures CallWork(s'.calls[d]) <= CallWork(s.calls[d]) {
      StepAcquisitionUpdates(s, c, d);
      LockUpdateWorks(s.calls[d], s'.calls[d]);
    }
    LockUpdateWorks(s.calls[c], s'.calls[c]);
    AcquisitionMoves(s, c);
    WorkOfUpdate(s.calls, s'.calls, c);
  }

  lemma AcquisitionMoves(s: State, c: nat)
    requires c < |s.calls| && StepAcquisition(s, c).Some? && LockOk(s)
    ensures StepAcquisition(s, c).value.calls[c].acquisition != s.calls[c].acquisition
  {
    var calls := SetAcquisition(s.calls, c, Refused);
    WakeFirstUpdates(Without(s.waiters, c), calls, c);
  }

  lemma ReleaseStepWorks(s: State, c: nat)
    requires Inv(s) && c < |s.calls| && StepRelease(s, c).Some?
    ensures Work(StepRelease(s, c).value.calls) < Work(s.calls)
  {
    var s', k := StepRelease(s, c).value, s.calls[c];
    assert CallOk(k);
    assert k.acquisition.Acquired? ==> Holds(k);
    StepReleaseUpdates(s, c, c);
    forall d | 0 <= d < |s.calls| && d != c ensures CallWork(s'.calls[d]) <= CallWork(s.calls[d]) {
      StepReleaseUpdates(s, c, d);
      LockUpdateWorks(s.calls[d], s'.calls[d]);
    }
    ReleasedCallWorks(s, c);
    WorkOfUpdate(s.calls, s'.calls, c);
  }

  lemma ReleasedCallWorks(s: State, c: nat)
    requires c < |s.calls| && StepRelease(s, c).Some?
    ensures |StepRelease(s, c).value.calls| == |s.calls|
    ensures CallWork(StepRelease(s, c).value.calls[c]) < CallWork(s.calls[c])
  {
    var k := s.calls[c];
    if k.acquisition.Acquired? && s.locked {
      var calls := s.calls[c := k.(pc := Finished(k.pc.exit), releases := k.releases + 1)];
      WakeFirstUpdates(s.waiters, calls, c);
    }
  }

  lemma MoveStepWorks(s: State, c: nat, move: Move)
    requires Inv(s) && Step(s, At(c, move)).Some?
    ensures Work(Step(s, At(c, move)).value.calls) <= Work(s.calls)
    ensures Productive(At(c, move)) ==> Work(Step(s, At(c, move)).value.calls) < Work(s.calls)
  {
    assert CallOk(s.calls[c]);
    StepCallWorks(s.closed, s.now, s.calls[c], move);
    WorkOfUpdate(s.calls, Step(s, At(c, move)).value.calls, c);
  }

  /** A productive step leaves strictly less work, and only a new call adds any. */
  lemma StepsShrinkWork(s: State, e: Event)
    requires Inv(s) && Step(s, e).Some?
    ensures Work(Step(s, e).value.calls) <= Work(s.calls) + if e.Invoke? then CALL_WORK else 0
    ensures Productive(e) ==> Work(Step(s, e).value.calls) < Work(s.calls)
  {
    match e
    case Invoke(kind, deadline) =>
      var calls := s.calls + [NewCall(kind, deadline)];
      assert calls[..|calls| - 1] == s.calls;
    case RunAcquisition(c) => AcquisitionStepWorks(s, c);
    case LockReleased(c) => ReleaseStepWorks(s, c);
    case At(c, move) => MoveStepWorks(s, c, move);
    case _ =>
  }

  /** No livelock: whatever the schedule, the calls of a run take at most 25 productive steps each,
      and what they have not taken yet is at least the work that is left. */
  lemma {:induction false} RunsAreBounded(run: seq<Event>)
    requires After(run).Some?
    ensures ProductiveSteps(run) + Work(After(run).value.calls) <= CALL_WORK * |After(run).value.calls|
  {
    if run != [] {
      var before, e := run[..|run| - 1], run[|run| - 1];
      RunsAreBounded(before);
      RunsKeepInv(before);
      StepsShrinkWork(After(before).value, e);
      StepKeepsSize(After(before).value, e);
    }
  }

  // ---------------------------------------------------------------------------------------------
  // Some step is always possible

  /** What a call that is not waiting for the lock can do next. */
  function NextEvent(c: nat, k: Call): Event {
    match k.pc
    case Created => At(c, Begin)
    case AwaitLock => if k.acquisition.Acquired? then At(c, LockObserved) else RunAcquisition(c)
    case AwaitPreparation => At(c, if k.preparation.Running? then SettlePreparation(true) else PreparationObserved)
    case JoinPreparation(_) =>
      At(c, if k.preparation.Running? then SettlePreparation(true) else PreparationJoined(false))
    case AwaitQuery => At(c, if k.query.Running? then SettleQuery(Some([])) else QueryObserved)
    case JoinQuery(_) =>
      At(c, if k.query.Running? then SettleQuery(None)
            else if k.cleanup.Running? then SettleCleanup(true)
            else if k.closer.Closed? then QueryJoined(false)
            else RunCloser(k.cleanup.Failed?))
    case AwaitPut => At(c, if k.put.Running? then SettlePut(true) else PutObserved)
    case JoinPut(_) => At(c, PutJoined(false))
    case Releasing(_) => if Doomed(k.acquisition) then RunAcquisition(c) else LockReleased(c)
    case Finished(_) => At(c, Begin)
  }

  lemma NextEventIsEnabled(s: State, c: nat)
    requires Inv(s) && c < |s.calls| && !s.calls[c].pc.Finished? && s.calls[c].acquisition != Waiting(Pending)
    ensures Productive(NextEvent(c, s.calls[c])) && Step(s, NextEvent(c, s.calls[c])).Some?
  {
    assert CallOk(s.calls[c]);
  }

  /** No deadlock: while a call has not ended, some productive step is enabled; whoever waits for
      the lock waits for a call that can move. */
  lemma UnfinishedCallsGoOn(s: State, c: nat) returns (e: Event)
    requires Inv(s) && c < |s.calls| && !s.calls[c].pc.Finished?
    ensures Productive(e) && Step(s, e).Some?
  {
    assert CallOk(s.calls[c]);
    if s.calls[c].acquisition != Waiting(Pending) {
      NextEventIsEnabled(s, c);
      e := NextEvent(c, s.calls[c]);
    } else if s.locked {
      var h :| 0 <= h < |s.calls| && Holds(s.calls[h]);
      assert CallOk(s.calls[h]);
      NextEventIsEnabled(s, h);
      e := NextEvent(h, s.calls[h]);
    } else {
      assert Queued(s, c);
      var w := s.waiters[0];
      assert Queued(s, w);
      e := RunAcquisition(w);
    }
  }

  predicate AllFinished(s: State) {
    forall c :: 0 <= c < |s.calls| ==> s.calls[c].pc.Finished?
  }

  predicate AllProductive(run: seq<Event>) {
    forall i :: 0 <= i < |run| ==> Productive(run[i])
  }

  lemma RunsGoOn(run: seq<Event>) returns (e: Event)
    requires After(run).Some? && !AllFinished(After(run).value)
    ensures Productive(e) && After(run + [e]).Some?
    ensures Work(After(run + [e]).value.calls) < Work(After(run).value.calls)
  {
    RunsKeepInv(run);
    var s := After(run).value;
    var c :| 0 <= c < |s.calls| && !s.calls[c].pc.Finished?;
    e := UnfinishedCallsGoOn(s, c);
    StepsShrinkWork(s, e);
    assert (run + [e])[..|run|] == run;
  }

  /** The run, continued like this, leaves every call ended and the lock free. */
  predicate FinishedBy(run: seq<Event>, rest: seq<Event>) {
    && After(run + rest).Some? && AllFinished(After(run + rest).value)
    && !After(run + rest).value.locked && After(run + rest).value.waiters == []
  }

  lemma FinishedNow(run: seq<Event>)
    requires After(run).Some? && AllFinished(After(run).value)
    ensures FinishedBy(run, [])
  {
    assert run + [] == run;
    FinishedRunsLeaveTheLockFree(run);
  }

  lemma FinishedLater(run: seq<Event>, e: Event, more: seq<Event>)
    requires FinishedBy(run + [e], more)
    ensures FinishedBy(run, [e] + more)
  {
    assert run + ([e] + more) == (run + [e]) + more;
  }

  /** Every run can be completed by productive steps alone, at most as many as the work that is
      left: then all its calls have ended and the lock is free. */
  lemma {:induction false} RunsCanFinish(run: seq<Event>) returns (rest: seq<Event>)
    requires After(run).Some?
    ensures AllProductive(rest) && |rest| <= Work(After(run).value.calls) && FinishedBy(run, rest)
    decreases Work(After(run).value.calls)
  {
    if AllFinished(After(run).value) {
      FinishedNow(run);
      rest := [];
    } else {
      var e := RunsGoOn(run);
      var more := RunsCanFinish(run + [e]);
      FinishedLater(run, e, more);
      rest := [e] + more;
    }
  }
}
