/** What the outcome of a discovery or restart call says about its run. */
module DiscoveryResults {
  import opened DiscoveryProtocol
  import opened Wrappers

  /** The call's own work is complete: a discovery has its bindings, a restart its PUT. */
  predicate Complete(k: Call) {
    && k.acquisition.Acquired? && k.preparation.Succeeded? && k.query.Succeeded?
    && if k.kind.Discovery? then k.puts == 0 else k.puts == 1 && k.put.Succeeded?
  }

  predicate EndsNormally(pc: Pc) {
    pc == Releasing(Normal) || pc == Finished(Normal)
  }

  predicate Earned(k: Call) {
    && (k.pc.JoinPut? ==> k.kind.Restart? && k.puts == 1 && (k.pc.exit.Normal? ==> k.put.Succeeded?))
    && (k.pc.AwaitPut? ==> k.kind.Restart? && k.puts == 1)
    && (!k.pc.AwaitPut? && !k.pc.JoinPut? && k.kind.Discovery? ==> k.puts == 0)
    && (EndsNormally(k.pc) ==> Complete(k))
  }

  /** A step of a call's task into a normal end is taken with its work complete and neither `close`
      nor cancellation requested. */
  lemma NormalEndIsEarned(closed: bool, now: int, k: Call, m: Move)
    requires CallOk(k) && Earned(k) && StepCall(closed, now, k, m).Some?
    ensures Earned(StepCall(closed, now, k, m).value)
    ensures !EndsNormally(k.pc) && EndsNormally(StepCall(closed, now, k, m).value.pc) ==> !closed && !k.cancelSet
  {
  }

  lemma LockUpdateKeepsEarned(k: Call, k': Call)
    requires Earned(k) && LockUpdate(k, k')
    ensures Earned(k')
  {
  }

  lemma ReleasedIsEarned(s: State, c: nat)
    requires c < |s.calls| && Earned(s.calls[c]) && StepRelease(s, c).Some?
    requires s.locked || !s.calls[c].acquisition.Acquired?
    ensures |StepRelease(s, c).value.calls| == |s.calls|
    ensures Earned(StepRelease(s, c).value.calls[c])
    ensures EndsNormally(StepRelease(s, c).value.calls[c].pc) ==> EndsNormally(s.calls[c].pc)
  {
    var k := s.calls[c];
    if k.acquisition.Acquired? {
      WakeFirstUpdates(s.waiters, s.calls[c := k.(pc := Finished(k.pc.exit), releases := k.releases + 1)], c);
    }
  }

  predicate AllEarned(s: State) {
    forall c :: 0 <= c < |s.calls| ==> Earned(s.calls[c])
  }

  lemma LockStepKeepsEarned(s: State, e: Event, d: nat)
    requires Inv(s) && AllEarned(s) && Step(s, e).Some? && d < |s.calls| && (e.RunAcquisition? || e.LockReleased?)
    ensures |Step(s, e).value.calls| == |s.calls| && Earned(Step(s, e).value.calls[d])
    ensures EndsNormally(Step(s, e).value.calls[d].pc) ==> EndsNormally(s.calls[d].pc)
  {
    assert CallOk(s.calls[e.c]);
    if e.RunAcquisition? {
      StepAcquisitionUpdates(s, e.c, d);
      LockUpdateKeepsEarned(s.calls[d], Step(s, e).value.calls[d]);
    } else {
      assert s.calls[e.c].acquisition.Acquired? ==> Holds(s.calls[e.c]);
      StepReleaseUpdates(s, e.c, d);
      ReleasedIsEarned(s, e.c);
      if d != e.c {
        LockUpdateKeepsEarned(s.calls[d], Step(s, e).value.calls[d]);
      }
    }
  }

  lemma StepKeepsEarned(s: State, e: Event, c: nat)
    requires Inv(s) && AllEarned(s) && Step(s, e).Some? && c < |Step(s, e).value.calls|
    ensures Earned(Step(s, e).value.calls[c])
    ensures c < |s.calls| && !EndsNormally(s.calls[c].pc) && EndsNormally(Step(s, e).value.calls[c].pc) ==>
      !s.closed && !s.calls[c].cancelSet
  {
    StepKeepsSize(s, e);
    if c < |s.calls| {
      assert CallOk(s.calls[c]);
      match e
      case RunAcquisition(_) => LockStepKeepsEarned(s, e, c);
      case LockReleased(_) => LockStepKeepsEarned(s, e, c);
      case At(d, move) =>
        if d == c {
          NormalEndIsEarned(s.closed, s.now, s.calls[c], move);
        }
      case _ =>
    }
  }

  lemma {:induction false} RunsAreEarned(run: seq<Event>)
    requires After(run).Some?
    ensures AllEarned(After(run).value)
  {
    if run != [] {
      var before := run[..|run| - 1];
      RunsAreEarned(before);
      RunsKeepInv(before);
      forall c | 0 <= c < |After(run).value.calls| ensures Earned(After(run).value.calls[c]) {
        StepKeepsEarned(After(before).value, run[|run| - 1], c);
      }
    }
  }

  /** Over every run, a call that ended normally held the lock, prepared and queried successfully,
      and then did exactly its own kind of work: a discovery no PUT, a restart one PUT that
      succeeded, for a setting its own discovery had selected. */
  lemma NormalResultsAreEarned(run: seq<Event>, c: nat)
    requires After(run).Some? && c < |After(run).value.calls|
    requires After(run).value.calls[c].pc == Finished(Normal)
    ensures var k := After(run).value.calls[c];
            && Complete(k) && k.releases == 1
            && (k.kind.Restart? ==> Selects(k.kind.settingId, k.query.value))
  {
    RunsAreEarned(run);
    RunsKeepInv(run);
    assert CallOk(After(run).value.calls[c]) && Earned(After(run).value.calls[c]);
  }

  /** The step with which a call turns to a normal end finds neither `close` nor its own
      cancellation requested: what was asked for before is never answered with a result. */
  lemma DisturbedCallsReturnNoResult(run: seq<Event>, e: Event, c: nat)
    requires After(run).Some? && Step(After(run).value, e).Some? && c < |After(run).value.calls|
    requires !EndsNormally(After(run).value.calls[c].pc) && EndsNormally(Step(After(run).value, e).value.calls[c].pc)
    ensures !After(run).value.closed && !After(run).value.calls[c].cancelSet
  {
    RunsAreEarned(run);
    RunsKeepInv(run);
    StepKeepsSize(After(run).value, e);
    StepKeepsEarned(After(run).value, e, c);
  }
}
