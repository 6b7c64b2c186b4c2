/** `await_cleanup`: joining an owned task through any number of cancellations. */
module AwaitCleanup {

  /** How the joined task ends. */
  datatype End = Returned | Raised | TaskCancelled

  /** How one `await shield(task)` comes back. */
  datatype Signal = Result | Failure | Cancellation

  /** One wake-up of the joining coroutine, and whether the task is done at that moment. */
  datatype Wake = Wake(signal: Signal, done: bool)

  /** `shield` hands a result or an exception on only from a task that ended with it; a
      cancellation may come from the task or from the caller, at any time. */
  predicate Possible(end: End, w: Wake) {
    match w.signal
    case Result => w.done && end.Returned?
    case Failure => w.done && end.Raised?
    case Cancellation => true
  }

  predicate AnyCancellation(wakes: seq<Wake>) {
    exists i :: 0 <= i < |wakes| && wakes[i].signal.Cancellation?
  }

  /** `done` says whether the task was done before the first wait, and the wake-ups are those of a
      run in which the task ends.  The call leaves only when the task is done, after as few waits
      as possible; it raises the cancellation exactly if one arrived, and otherwise ends the way
      the task did. */
  method Join(done: bool, end: End, wakes: seq<Wake>) returns (outcome: End, used: nat)
    requires forall i :: 0 <= i < |wakes| ==> Possible(end, wakes[i])
    requires done || (wakes != [] && wakes[|wakes| - 1].done)
    ensures used <= |wakes|
    ensures if done then used == 0 else used > 0 && wakes[used - 1].done
    ensures forall i :: 0 <= i < used - 1 ==> !wakes[i].done
    ensures outcome == if AnyCancellation(wakes[..used]) then TaskCancelled else end
  {
    var cancelled, taskDone := false, done;
    used := 0;
    while !taskDone
      invariant used <= |wakes|
      invariant taskDone == if used == 0 then done else wakes[used - 1].done
      invariant used > 0 ==> !done
      invariant forall i :: 0 <= i < used - 1 ==> !wakes[i].done
      invariant cancelled == AnyCancellation(wakes[..used])
      invariant !done && used == |wakes| ==> taskDone
      decreases |wakes| - used
    {
      var wake := wakes[used];
      ghost var before := wakes[..used];
      used := used + 1;
      taskDone := wake.done;
      assert wakes[..used] == before + [wake];
      CancellationAppend(before, wake);
      match wake.signal {
        case Result =>
        case Failure => break;
        case Cancellation => cancelled := true;
      }
    }
    outcome := if cancelled then TaskCancelled else end;
  }

  lemma CancellationAppend(wakes: seq<Wake>, w: Wake)
    ensures AnyCancellation(wakes + [w]) == (AnyCancellation(wakes) || w.signal.Cancellation?)
  {
    var all := wakes + [w];
    if AnyCancellation(wakes) {
      var i :| 0 <= i < |wakes| && wakes[i].signal.Cancellation?;
      assert all[i].signal.Cancellation?;
    }
    if w.signal.Cancellation? {
      assert all[|wakes|].signal.Cancellation?;
    }
  }
}
