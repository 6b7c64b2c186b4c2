/** How every call ends, read off the events of its run alone. */
module DiscoveryVerdicts {
  import opened DiscoveryProgress
  import opened DiscoveryProtocol
  import opened DiscoveryResults
  import opened Wrappers

  // ---------------------------------------------------------------------------------------------
  // What a run says about the clock, `close` and one call

  /** The last time the clock was moved to. */
  function Clock(run: seq<Event>): int {
    if run == [] then 0
    else if run[|run| - 1].Tick? then run[|run| - 1].later
    else Clock(run[..|run| - 1])
  }

  /** The calls made, in order. */
  function Asked(run: seq<Event>): seq<(Kind, int)> {
    if run == [] then []
    else
      var before, e := Asked(run[..|run| - 1]), run[|run| - 1];
      if e.Invoke? then before + [(e.kind, e.deadline)] else before
  }

  /** `close` was requested, or the caller of `c` was cancelled. */
  predicate Stopped(run: seq<Event>, c: nat) {
    RequestClose in run || At(c, CancelCaller) in run
  }

  /** The bindings that the query of `c` came back with. */
  predicate Answered(run: seq<Event>, c: nat, bindings: seq<Binding>) {
    At(c, SettleQuery(Some(bindings))) in run
  }

  predicate Late(run: seq<Event>, c: nat) {
    c < |Asked(run)| && Asked(run)[c].1 <= Clock(run)
  }

  /** The query of `c` came back with its setting, selected. */
  predicate Chosen(run: seq<Event>, c: nat) {
    && c < |Asked(run)| && Asked(run)[c].0.Restart?
    && exists i :: 0 <= i < |run| && Answers(run[i], c, Binding(Asked(run)[c].0.settingId, true))
  }

  predicate Answers(e: Event, c: nat, b: Binding) {
    e.At? && e.c == c && e.move.SettleQuery? && e.move.bindings.Some? && b in e.move.bindings.value
  }

  predicate IsRestart(run: seq<Event>, c: nat) {
    c < |Asked(run)| && Asked(run)[c].0.Restart?
  }

  /** The exit that one event inflicts on `c`, if any, after the events before it.  A cancellation
      and a timeout speak for themselves, awaited work may have failed, and each check in between
      looks at `close` and cancellation first. */
  function Setback(run: seq<Event>, c: nat, move: Move): Option<Exit> {
    match move
    case Interrupt => Some(Cancelled)
    case Expire => Some(Expired)
    case PreparationObserved => if At(c, SettlePreparation(false)) in run then Some(Error) else None
    case QueryObserved => if At(c, SettleQuery(None)) in run then Some(Error) else None
    case PutObserved => if At(c, SettlePut(false)) in run then Some(Error) else None
    case LockObserved => if Stopped(run, c) then Some(Cancelled) else None
    case PreparationJoined(refused) =>
      if Stopped(run, c) then Some(Cancelled)
      else if refused then Some(Error)
      else if Late(run, c) then Some(Expired)
      else None
    case QueryJoined(refused) =>
      if Stopped(run, c) then Some(Cancelled)
      else if !IsRestart(run, c) then None
      else if !Chosen(run, c) then Some(Error)
      else if Late(run, c) then Some(Expired)
      else if refused then Some(Error)
      else None
    case PutJoined(refused) =>
      if Stopped(run, c) then Some(Cancelled) else if refused then Some(Error) else None
    case _ => None
  }

  /** The first setback of `c` decides, except that a later cancellation takes over. */
  function Fate(run: seq<Event>, c: nat): Option<Exit> {
    if run == [] then None
    else
      var before, e := run[..|run| - 1], run[|run| - 1];
      if !(e.At? && e.c == c) then Fate(before, c)
      else if Fate(before, c).Some? && !e.move.Interrupt? then Fate(before, c)
      else Setback(before, c, e.move)
  }

  function Verdict(run: seq<Event>, c: nat): Exit {
    if Fate(run, c).Some? then Fate(run, c).value else Normal
  }

  // ---------------------------------------------------------------------------------------------
  // The state agrees with the events

  ghost predicate CallAgrees(run: seq<Event>, c: nat, k: Call) {
    && c < |Asked(run)| && Asked(run)[c] == (k.kind, k.deadline)
    && (k.cancelSet <==> At(c, CancelCaller) in run)
    && JobsAgree(run, c, k)
  }

  /** The outcome of an awaited job is the one that its settling event brought. */
  ghost predicate JobsAgree(run: seq<Event>, c: nat, k: Call) {
    && (k.preparation.Failed? <==> At(c, SettlePreparation(false)) in run)
    && (k.put.Failed? <==> At(c, SettlePut(false)) in run)
    && (k.query.Failed? <==> At(c, SettleQuery(None)) in run)
    && forall bindings :: k.query == Succeeded(bindings) <==> Answered(run, c, bindings)
  }

  /** The suspension point carries the exit that the events have earned so far. */
  predicate PcFits(pc: Pc, fate: Option<Exit>) {
    match pc
    case JoinPreparation(exit) => exit == ExitOf(fate)
    case JoinQuery(exit) => exit == ExitOf(fate)
    case JoinPut(exit) => exit == ExitOf(fate)
    case Releasing(exit) => exit == ExitOf(fate)
    case Finished(exit) => exit == ExitOf(fate)
    case _ => fate.None?
  }

  function ExitOf(fate: Option<Exit>): Exit {
    if fate.Some? then fate.value else Normal
  }

  lemma InAppend(run: seq<Event>, e: Event, x: Event)
    ensures x in run + [e] <==> x in run || x == e
  {
  }

  /** What an event that is not a move of `c` leaves as it was. */
  lemma OtherEvents(run: seq<Event>, e: Event, c: nat)
    requires !(e.At? && e.c == c)
    ensures Fate(run + [e], c) == Fate(run, c)
    ensures forall move :: At(c, move) in run + [e] <==> At(c, move) in run
  {
    assert (run + [e])[..|run|] == run;
  }

  lemma CallStaysAgreed(run: seq<Event>, e: Event, c: nat, k: Call, k': Call)
    requires CallAgrees(run, c, k) && !(e.At? && e.c == c)
    requires k'.kind == k.kind && k'.deadline == k.deadline && k'.cancelSet == k.cancelSet
    requires k'.preparation == k.preparation && k'.query == k.query && k'.put == k.put
    ensures CallAgrees(run + [e], c, k')
  {
    OtherEvents(run, e, c);
    AskedGrows(run, e);
    forall bindings ensures k'.query == Succeeded(bindings) <==> Answered(run + [e], c, bindings) {
      assert Answered(run + [e], c, bindings) <==> Answered(run, c, bindings);
    }
  }

  lemma AskedGrows(run: seq<Event>, e: Event)
    ensures Asked(run + [e]) == if e.Invoke? then Asked(run) + [(e.kind, e.deadline)] else Asked(run)
    ensures Clock(run + [e]) == if e.Tick? then e.later else Clock(run)
  {
    assert (run + [e])[..|run|] == run;
  }

  lemma JobsStay(run: seq<Event>, c: nat, k: Call, k': Call, move: Move)
    requires JobsAgree(run, c, k)
    requires k'.preparation.Failed? <==> k.preparation.Failed? || move == SettlePreparation(false)
    requires k'.put.Failed? <==> k.put.Failed? || move == SettlePut(false)
    requires k'.query.Failed? <==> k.query.Failed? || move == SettleQuery(None)
    requires forall bs :: k'.query == Succeeded(bs) <==> k.query == Succeeded(bs) || move == SettleQuery(Some(bs))
    ensures JobsAgree(run + [At(c, move)], c, k')
  {
    var e := At(c, move);
    InAppend(run, e, At(c, SettlePreparation(false)));
    InAppend(run, e, At(c, SettlePut(false)));
    InAppend(run, e, At(c, SettleQuery(None)));
    forall bs ensures k'.query == Succeeded(bs) <==> Answered(run + [e], c, bs) {
      InAppend(run, e, At(c, SettleQuery(Some(bs))));
      assert k.query == Succeeded(bs) <==> Answered(run, c, bs);
    }
  }

  /** A move settles what it says it settles, and nothing else. */
  lemma MoveSettles(closed: bool, now: int, k: Call, move: Move)
    requires CallOk(k) && StepCall(closed, now, k, move).Some?
    ensures var k' := StepCall(closed, now, k, move).value;
            && k'.kind == k.kind && k'.deadline == k.deadline
            && (k'.cancelSet <==> k.cancelSet || move == CancelCaller)
            && (k'.preparation.Failed? <==> k.preparation.Failed? || move == SettlePreparation(false))
            && (k'.put.Failed? <==> k.put.Failed? || move == SettlePut(false))
            && (k'.query.Failed? <==> k.query.Failed? || move == SettleQuery(None))
            && forall bs :: k'.query == Succeeded(bs) <==> k.query == Succeeded(bs) || move == SettleQuery(Some(bs))
  {
  }

  lemma MoveAgrees(run: seq<Event>, closed: bool, now: int, c: nat, k: Call, move: Move)
    requires CallAgrees(run, c, k) && CallOk(k) && StepCall(closed, now, k, move).Some?
    ensures CallAgrees(run + [At(c, move)], c, StepCall(closed, now, k, move).value)
  {
    AskedGrows(run, At(c, move));
    InAppend(run, At(c, move), At(c, CancelCaller));
    MoveSettles(closed, now, k, move);
    JobsStay(run, c, k, StepCall(closed, now, k, move).value, move);
  }

  lemma ChosenIsSelected(run: seq<Event>, c: nat, k: Call)
    requires CallAgrees(run, c, k) && k.kind.Restart? && k.query.Succeeded?
    ensures Chosen(run, c) <==> Selects(k.kind.settingId, k.query.value)
  {
    var wanted, bs := Binding(k.kind.settingId, true), k.query.value;
    assert Answered(run, c, bs);
    if Selects(k.kind.settingId, bs) {
      var i :| 0 <= i < |run| && run[i] == At(c, SettleQuery(Some(bs)));
      var j :| 0 <= j < |bs| && bs[j].settingId == k.kind.settingId && bs[j].selected;
      assert bs[j] == wanted;
      assert Answers(run[i], c, wanted);
    }
    if Chosen(run, c) {
      var i :| 0 <= i < |run| && Answers(run[i], c, wanted);
      assert Answered(run, c, run[i].move.bindings.value);
    }
  }

  function NextFate(run: seq<Event>, c: nat, fate: Option<Exit>, move: Move): Option<Exit> {
    if fate.Some? && !move.Interrupt? then fate else Setback(run, c, move)
  }

  lemma FateStep(run: seq<Event>, c: nat, move: Move)
    ensures Fate(run + [At(c, move)], c) == NextFate(run, c, Fate(run, c), move)
  {
    var longer := run + [At(c, move)];
    assert longer[..|run|] == run && longer[|run|] == At(c, move);
  }

  /** What the events say about the guards of the checks. */
  predicate GuardsAgree(run: seq<Event>, c: nat, closed: bool, now: int, k: Call) {
    && (Stopped(run, c) <==> closed || k.cancelSet)
    && (Late(run, c) <==> k.deadline <= now)
    && (IsRestart(run, c) <==> k.kind.Restart?)
    && (k.kind.Restart? && k.query.Succeeded? ==> (Chosen(run, c) <==> Selects(k.kind.settingId, k.query.value)))
  }

  lemma PreparationFits(run: seq<Event>, c: nat, closed: bool, now: int, k: Call, fate: Option<Exit>, refused: bool)
    requires GuardsAgree(run, c, closed, now, k) && PcFits(k.pc, fate)
    requires k.pc.JoinPreparation? && fate != Some(Normal)
    ensures PcFits(AfterPreparation(closed, now, k, refused).pc, NextFate(run, c, fate, PreparationJoined(refused)))
  {
  }

  lemma QueryFits(run: seq<Event>, c: nat, closed: bool, now: int, k: Call, fate: Option<Exit>, refused: bool)
    requires GuardsAgree(run, c, closed, now, k) && PcFits(k.pc, fate)
    requires k.pc.JoinQuery? && (k.pc.exit.Normal? ==> k.query.Succeeded?) && fate != Some(Normal)
    ensures PcFits(AfterQuery(closed, now, k, refused).pc, NextFate(run, c, fate, QueryJoined(refused)))
  {
  }

  lemma PutFits(run: seq<Event>, c: nat, closed: bool, now: int, k: Call, fate: Option<Exit>, refused: bool)
    requires GuardsAgree(run, c, closed, now, k) && PcFits(k.pc, fate) && k.pc.JoinPut? && fate != Some(Normal)
    ensures PcFits(AfterPut(closed, k, refused).pc, NextFate(run, c, fate, PutJoined(refused)))
  {
  }

  /** A move of `c` leads where its setback says. */
  lemma MoveFits(run: seq<Event>, closed: bool, now: int, c: nat, k: Call, move: Move, fate: Option<Exit>)
    requires GuardsAgree(run, c, closed, now, k) && JobsAgree(run, c, k) && CallOk(k)
    requires PcFits(k.pc, fate) && fate != Some(Normal) && StepCall(closed, now, k, move).Some?
    ensures PcFits(StepCall(closed, now, k, move).value.pc, NextFate(run, c, fate, move))
    ensures NextFate(run, c, fate, move) != Some(Normal)
  {
    match move
    case PreparationJoined(refused) => PreparationFits(run, c, closed, now, k, fate, refused);
    case QueryJoined(refused) => QueryFits(run, c, closed, now, k, fate, refused);
    case PutJoined(refused) => PutFits(run, c, closed, now, k, fate, refused);
    case _ =>
  }

  lemma GuardsFollow(run: seq<Event>, c: nat, closed: bool, k: Call)
    requires CallAgrees(run, c, k) && closed == (RequestClose in run)
    ensures GuardsAgree(run, c, closed, Clock(run), k)
  {
    if k.kind.Restart? && k.query.Succeeded? {
      ChosenIsSelected(run, c, k);
    }
  }

  ghost predicate Agrees(run: seq<Event>, s: State) {
    && s.now == Clock(run) && (s.closed <==> RequestClose in run)
    && |s.calls| == |Asked(run)|
    && (forall c :: 0 <= c < |s.calls| ==> CallAgrees(run, c, s.calls[c]) && PcFits(s.calls[c].pc, Fate(run, c)))
    && forall i :: 0 <= i < |run| && run[i].At? ==> run[i].c < |s.calls|
  }

  lemma {:induction false} UntouchedHasNoFate(run: seq<Event>, c: nat)
    requires forall i :: 0 <= i < |run| && run[i].At? ==> run[i].c != c
    ensures Fate(run, c).None?
  {
    if run != [] {
      UntouchedHasNoFate(run[..|run| - 1], c);
    }
  }

  lemma {:induction false} FateIsASetback(run: seq<Event>, c: nat)
    ensures Fate(run, c) != Some(Normal)
  {
    if run != [] {
      FateIsASetback(run[..|run| - 1], c);
    }
  }

  /** What a release does to the releasing call and to the others. */
  lemma ReleaseFrame(s: State, c: nat, d: nat)
    requires Inv(s) && c < |s.calls| && d < |s.calls| && StepRelease(s, c).Some?
    ensures |StepRelease(s, c).value.calls| == |s.calls|
    ensures var k, k' := s.calls[d], StepRelease(s, c).value.calls[d];
            && k' == k.(pc := k'.pc, acquisition := k'.acquisition, releases := k'.releases)
            && k'.pc == if d == c then Finished(s.calls[c].pc.exit) else k.pc
  {
    var k := s.calls[c];
    assert CallOk(k);
    assert k.acquisition.Acquired? ==> Holds(k);
    if k.acquisition.Acquired? {
      var calls := s.calls[c := k.(pc := Finished(k.pc.exit), releases := k.releases + 1)];
      WakeFirstUpdates(s.waiters, calls, d);
      WakeFirstUpdates(s.waiters, calls, c);
    }
  }

  lemma LockStepAgrees(run: seq<Event>, s: State, e: Event, d: nat)
    requires Inv(s) && Agrees(run, s) && Step(s, e).Some? && d < |s.calls| && (e.RunAcquisition? || e.LockReleased?)
    ensures |Step(s, e).value.calls| == |s.calls|
    ensures var k' := Step(s, e).value.calls[d]; CallAgrees(run + [e], d, k') && PcFits(k'.pc, Fate(run + [e], d))
  {
    if e.RunAcquisition? {
      StepAcquisitionUpdates(s, e.c, d);
    } else {
      ReleaseFrame(s, e.c, d);
    }
    CallStaysAgreed(run, e, d, s.calls[d], Step(s, e).value.calls[d]);
    OtherEvents(run, e, d);
  }

  lemma MoveStepAgrees(run: seq<Event>, s: State, c: nat, move: Move, d: nat)
    requires Inv(s) && Agrees(run, s) && Step(s, At(c, move)).Some? && d < |s.calls|
    ensures var k' := Step(s, At(c, move)).value.calls[d];
            CallAgrees(run + [At(c, move)], d, k') && PcFits(k'.pc, Fate(run + [At(c, move)], d))
  {
    assert CallOk(s.calls[c]);
    if d == c {
      MoveAgrees(run, s.closed, s.now, c, s.calls[c], move);
      GuardsFollow(run, c, s.closed, s.calls[c]);
      FateIsASetback(run, c);
      MoveFits(run, s.closed, s.now, c, s.calls[c], move, Fate(run, c));
      FateStep(run, c, move);
    } else {
      CallStaysAgreed(run, At(c, move), d, s.calls[d], s.calls[d]);
      OtherEvents(run, At(c, move), d);
    }
  }

  lemma InvokedAgrees(run: seq<Event>, s: State, e: Event)
    requires Agrees(run, s) && e.Invoke?
    ensures var c := |s.calls|;
            CallAgrees(run + [e], c, NewCall(e.kind, e.deadline)) && PcFits(Created, Fate(run + [e], c))
  {
    var c := |s.calls|;
    AskedGrows(run, e);
    forall move ensures At(c, move) !in run + [e] {
      InAppend(run, e, At(c, move));
    }
    UntouchedHasNoFate(run + [e], c);
  }

  lemma StepAgrees(run: seq<Event>, s: State, e: Event, d: nat)
    requires Inv(s) && Agrees(run, s) && Step(s, e).Some? && d < |Step(s, e).value.calls|
    ensures var k' := Step(s, e).value.calls[d]; CallAgrees(run + [e], d, k') && PcFits(k'.pc, Fate(run + [e], d))
  {
    StepKeepsSize(s, e);
    match e
    case Invoke(_, _) =>
      if d == |s.calls| {
        InvokedAgrees(run, s, e);
      } else {
        CallStaysAgreed(run, e, d, s.calls[d], s.calls[d]);
        OtherEvents(run, e, d);
      }
    case RunAcquisition(_) => LockStepAgrees(run, s, e, d);
    case LockReleased(_) => LockStepAgrees(run, s, e, d);
    case At(c, move) => MoveStepAgrees(run, s, c, move, d);
    case _ =>
      CallStaysAgreed(run, e, d, s.calls[d], s.calls[d]);
      OtherEvents(run, e, d);
  }

  lemma StepKeepsAgreement(run: seq<Event>, s: State, e: Event)
    requires Inv(s) && Agrees(run, s) && Step(s, e).Some?
    ensures Agrees(run + [e], Step(s, e).value)
  {
    var s' := Step(s, e).value;
    StepKeepsSize(s, e);
    AskedGrows(run, e);
    InAppend(run, e, RequestClose);
    forall c | 0 <= c < |s'.calls|
      ensures CallAgrees(run + [e], c, s'.calls[c]) && PcFits(s'.calls[c].pc, Fate(run + [e], c))
    {
      StepAgrees(run, s, e, c);
    }
    StepKeepsClock(s, e);
  }

  lemma StepKeepsClock(s: State, e: Event)
    requires Step(s, e).Some?
    ensures Step(s, e).value.now == if e.Tick? then e.later else s.now
    ensures Step(s, e).value.closed <==> s.closed || e.RequestClose?
    ensures e.At? ==> e.c < |s.calls|
  {
  }

  lemma {:induction false} RunsAgree(run: seq<Event>)
    requires After(run).Some?
    ensures Agrees(run, After(run).value)
  {
    if run != [] {
      var before, e := run[..|run| - 1], run[|run| - 1];
      RunsAgree(before);
      RunsKeepInv(before);
      StepKeepsAgreement(before, After(before).value, e);
      assert run == before + [e];
    }
  }

  // ---------------------------------------------------------------------------------------------
  // How calls end

  /** Over every run, a call ends with exactly the exit that its events have earned: cancelled by a
      cancellation of its task or by a check that found `close` or its caller's cancellation, expired
      by a timer or a deadline check, in error by failed work, a refusal or an unselected setting,
      and normally if none of these came first. */
  lemma ExitsAreEarned(run: seq<Event>, c: nat, exit: Exit)
    requires After(run).Some? && c < |After(run).value.calls|
    requires After(run).value.calls[c].pc == Finished(exit)
    ensures exit == Verdict(run, c)
  {
    RunsAgree(run);
    assert PcFits(After(run).value.calls[c].pc, Fate(run, c));
  }

  /** A cancellation of the task is final. */
  lemma {:induction false} InterruptsDecide(run: seq<Event>, c: nat)
    requires At(c, Interrupt) in run
    ensures Verdict(run, c) == Cancelled
  {
    var before, e := run[..|run| - 1], run[|run| - 1];
    if e != At(c, Interrupt) {
      assert run == before + [e];
      InAppend(before, e, At(c, Interrupt));
      InterruptsDecide(before, c);
    }
  }

  /** The event at `i` sets `c` back. */
  predicate SetBackAt(run: seq<Event>, c: nat, i: nat)
    requires i < |run|
  {
    run[i].At? && run[i].c == c && Setback(run[..i], c, run[i].move).Some?
  }

  /** Without a cancellation of the task, the first setback is final. */
  lemma {:induction false} FirstSetbackDecides(run: seq<Event>, c: nat, i: nat)
    requires i < |run| && SetBackAt(run, c, i) && forall j :: 0 <= j < i ==> !SetBackAt(run, c, j)
    requires At(c, Interrupt) !in run
    ensures Some(Verdict(run, c)) == Setback(run[..i], c, run[i].move)
  {
    var n := |run| - 1;
    assert forall j :: 0 <= j <= n ==> run[..n][..j] == run[..j];
    if i == n {
      forall j | 0 <= j < n ensures !SetBackAt(run[..n], c, j) {
        assert !SetBackAt(run, c, j);
      }
      NoSetbackNoFate(run[..n], c);
    } else {
      assert SetBackAt(run[..n], c, i);
      forall j | 0 <= j < i ensures !SetBackAt(run[..n], c, j) {
        assert !SetBackAt(run, c, j);
      }
      FirstSetbackDecides(run[..n], c, i);
      FateIsASetback(run[..n], c);
      assert run[n] in run;
    }
  }

  lemma {:induction false} NoSetbackNoFate(run: seq<Event>, c: nat)
    ensures Fate(run, c).None? <==> forall i :: 0 <= i < |run| ==> !SetBackAt(run, c, i)
  {
    if run != [] {
      var n := |run| - 1;
      NoSetbackNoFate(run[..n], c);
      assert forall j :: 0 <= j < n ==> run[..n][..j] == run[..j];
      assert forall j :: 0 <= j < n ==> (SetBackAt(run[..n], c, j) <==> SetBackAt(run, c, j));
      if Fate(run, c).None? {
        assert !SetBackAt(run, c, n);
        forall i | 0 <= i < |run| ensures !SetBackAt(run, c, i) {
          assert i < n ==> !SetBackAt(run[..n], c, i);
        }
      } else if Fate(run[..n], c).None? {
        assert SetBackAt(run, c, n);
      }
    }
  }

  /** A call that has ended ended normally exactly if no event set it back. */
  lemma NormalExactlyWithoutSetback(run: seq<Event>, c: nat)
    requires After(run).Some? && c < |After(run).value.calls| && After(run).value.calls[c].pc.Finished?
    ensures After(run).value.calls[c].pc == Finished(Normal) <==> forall i :: 0 <= i < |run| ==> !SetBackAt(run, c, i)
  {
    ExitsAreEarned(run, c, After(run).value.calls[c].pc.exit);
    NoSetbackNoFate(run, c);
    FateIsASetback(run, c);
  }

  /** Nothing got in the way of `c`: no cancellation, no timeout, no `close`, no failed work, no
      refusal, and its deadline never came. */
  ghost predicate Undisturbed(run: seq<Event>, c: nat) {
    && c < |Asked(run)| && 0 < Asked(run)[c].1 && RequestClose !in run
    && (forall e :: e in run && e.Tick? ==> e.later < Asked(run)[c].1)
    && forall move :: At(c, move) in run ==>
         && !move.Interrupt? && !move.Expire? && !move.CancelCaller?
         && move != SettlePreparation(false) && move != SettleQuery(None) && move != SettlePut(false)
         && move != PreparationJoined(true) && move != QueryJoined(true) && move != PutJoined(true)
  }

  lemma {:induction false} ClockStaysBefore(run: seq<Event>, deadline: int)
    requires 0 < deadline && forall e :: e in run && e.Tick? ==> e.later < deadline
    ensures Clock(run) < deadline
  {
    if run != [] {
      assert run[|run| - 1] in run;
      assert forall e :: e in run[..|run| - 1] ==> e in run;
      ClockStaysBefore(run[..|run| - 1], deadline);
    }
  }

  lemma {:induction false} AskedIsStable(run: seq<Event>, n: nat)
    requires n <= |run|
    ensures Asked(run[..n]) <= Asked(run)
  {
    if n < |run| {
      assert run[..|run| - 1][..n] == run[..n];
      AskedIsStable(run[..|run| - 1], n);
    } else {
      assert run[..n] == run;
    }
  }

  lemma PrefixIsUndisturbed(run: seq<Event>, c: nat, n: nat)
    requires Undisturbed(run, c) && n <= |run|
    ensures !Stopped(run[..n], c) && !Late(run[..n], c)
    ensures forall move :: At(c, move) in run[..n] ==> At(c, move) in run
    ensures IsRestart(run[..n], c) ==> Asked(run)[c].0.Restart? && Asked(run[..n])[c] == Asked(run)[c]
  {
    AskedIsStable(run, n);
    assert forall e :: e in run[..n] ==> e in run;
    ClockStaysBefore(run[..n], Asked(run)[c].1);
  }

  /** The answer of the query is there before the query is joined without a setback. */
  lemma JoinedQueryIsAnswered(run: seq<Event>, c: nat, n: nat)
    requires After(run).Some? && n < |run| && run[n].At? && run[n].c == c && run[n].move.QueryJoined?
    requires Fate(run[..n], c).None?
    ensures exists bs :: Answered(run[..n], c, bs)
  {
    PrefixRuns(run, n);
    RunsAgree(run[..n]);
    RunsKeepInv(run[..n]);
    var k := After(run[..n]).value.calls[c];
    assert CallOk(k) && PcFits(k.pc, Fate(run[..n], c));
    assert Answered(run[..n], c, k.query.value);
  }

  lemma {:induction false} PrefixRuns(run: seq<Event>, n: nat)
    requires After(run).Some? && n < |run|
    ensures After(run[..n]).Some? && Step(After(run[..n]).value, run[n]).Some?
  {
    if n < |run| - 1 {
      assert run[..|run| - 1][..n] == run[..n];
      PrefixRuns(run[..|run| - 1], n);
    }
  }

  /** The bindings that a query came back with, if it did, hold what a restart wants. */
  ghost predicate Fulfilled(run: seq<Event>, c: nat) {
    c < |Asked(run)| && Asked(run)[c].0.Restart? ==>
      forall bs :: Answered(run, c, bs) ==> Binding(Asked(run)[c].0.settingId, true) in bs
  }

  lemma {:induction false} UndisturbedHasNoFate(run: seq<Event>, c: nat, n: nat)
    requires After(run).Some? && Undisturbed(run, c) && Fulfilled(run, c) && n <= |run|
    ensures Fate(run[..n], c).None?
    decreases n
  {
    if n > 0 {
      UndisturbedHasNoFate(run, c, n - 1);
      var before, e := run[..n - 1], run[n - 1];
      assert run[..n] == before + [e];
      if e.At? && e.c == c {
        assert e in run;
        PrefixIsUndisturbed(run, c, n - 1);
        FateStep(before, c, e.move);
        if e.move.QueryJoined? && IsRestart(before, c) {
          JoinedQueryIsAnswered(run, c, n - 1);
          WantedIsChosen(run, c, n - 1);
        }
      } else {
        OtherEvents(before, e, c);
      }
    }
  }

  lemma WantedIsChosen(run: seq<Event>, c: nat, n: nat)
    requires n <= |run| && Fulfilled(run, c) && IsRestart(run[..n], c) && exists bs :: Answered(run[..n], c, bs)
    ensures Chosen(run[..n], c)
  {
    AskedIsStable(run, n);
    var bs :| Answered(run[..n], c, bs);
    var i :| 0 <= i < n && run[..n][i] == At(c, SettleQuery(Some(bs)));
    assert run[i] == At(c, SettleQuery(Some(bs)));
    assert Answered(run, c, bs);
    assert Answers(run[..n][i], c, Binding(Asked(run)[c].0.settingId, true));
  }

  /** An undisturbed discovery that has ended returned exactly the bindings its query came back
      with, and sent no PUT. */
  lemma UndisturbedDiscoverySucceeds(run: seq<Event>, c: nat)
    requires After(run).Some? && c < |After(run).value.calls| && After(run).value.calls[c].pc.Finished?
    requires Undisturbed(run, c) && Asked(run)[c].0.Discovery?
    ensures var k := After(run).value.calls[c];
            && k.pc == Finished(Normal) && k.kind.Discovery? && k.puts == 0 && k.releases == 1
            && k.query.Succeeded? && Answered(run, c, k.query.value)
            && forall bs :: Answered(run, c, bs) ==> bs == k.query.value
  {
    UndisturbedEndsNormally(run, c);
  }

  /** An undisturbed restart whose setting the query came back with as selected, and which has
      ended, sent one PUT, which succeeded. */
  lemma UndisturbedRestartSucceeds(run: seq<Event>, c: nat)
    requires After(run).Some? && c < |After(run).value.calls| && After(run).value.calls[c].pc.Finished?
    requires Undisturbed(run, c) && Asked(run)[c].0.Restart? && Fulfilled(run, c)
    ensures var k := After(run).value.calls[c];
            && k.pc == Finished(Normal) && k.kind == Asked(run)[c].0 && k.puts == 1 && k.put.Succeeded?
            && k.releases == 1
  {
    UndisturbedEndsNormally(run, c);
  }

  lemma UndisturbedEndsNormally(run: seq<Event>, c: nat)
    requires After(run).Some? && c < |After(run).value.calls| && After(run).value.calls[c].pc.Finished?
    requires Undisturbed(run, c) && Fulfilled(run, c)
    ensures After(run).value.calls[c].pc == Finished(Normal) && CallAgrees(run, c, After(run).value.calls[c])
    ensures DiscoveryResults.Complete(After(run).value.calls[c]) && After(run).value.calls[c].releases == 1
  {
    assert run[..|run|] == run;
    UndisturbedHasNoFate(run, c, |run|);
    RunsAgree(run);
    assert PcFits(After(run).value.calls[c].pc, Fate(run, c));
    NormalResultsAreEarned(run, c);
  }

  /** A restart whose setting its query did not come back with as selected, but which nothing else
      disturbed, ends in error without a PUT. */
  lemma UnselectedRestartFails(run: seq<Event>, c: nat)
    requires After(run).Some? && c < |After(run).value.calls| && After(run).value.calls[c].pc.Finished?
    requires Undisturbed(run, c) && Asked(run)[c].0.Restart? && !Chosen(run, c)
    ensures After(run).value.calls[c].pc == Finished(Error) && After(run).value.calls[c].puts == 0
  {
    var k := After(run).value.calls[c];
    RunsAgree(run);
    RunsKeepInv(run);
    assert CallOk(k) && PcFits(k.pc, Fate(run, c));
    assert run[..|run|] == run;
    UndisturbedFate(run, c, |run|);
    if k.pc == Finished(Normal) {
      NormalResultsAreEarned(run, c);
    }
    if k.query.Succeeded? {
      ChosenIsSelected(run, c, k);
    }
  }

  lemma {:induction false} UndisturbedFate(run: seq<Event>, c: nat, n: nat)
    requires After(run).Some? && Undisturbed(run, c) && n <= |run|
    ensures Fate(run[..n], c).None? || Fate(run[..n], c) == Some(Error)
    decreases n
  {
    if n > 0 {
      UndisturbedFate(run, c, n - 1);
      var before, e := run[..n - 1], run[n - 1];
      assert run[..n] == before + [e];
      if e.At? && e.c == c {
        assert e in run;
        PrefixIsUndisturbed(run, c, n - 1);
        FateStep(before, c, e.move);
      } else {
        OtherEvents(before, e, c);
      }
    }
  }

  /** Cancellation can strike a call until it has ended, and a timeout strikes the waits that have
      one; a new call is possible exactly until `close`. */
  lemma DisturbancesArrive(run: seq<Event>, c: nat, kind: Kind, deadline: int)
    requires After(run).Some? && c < |After(run).value.calls|
    ensures var s, pc := After(run).value, After(run).value.calls[c].pc;
            && (Step(s, At(c, Interrupt)).Some? <==> !pc.Finished?)
            && (Step(s, At(c, Expire)).Some? <==> pc.AwaitLock? || pc.AwaitPreparation? || pc.AwaitQuery? || pc.AwaitPut?)
            && (Step(s, Invoke(kind, deadline)).Some? <==> RequestClose !in run)
  {
    RunsAgree(run);
  }

  // ---------------------------------------------------------------------------------------------
  // Success is always within reach

  /** A productive event that leaves `c` undisturbed, its query coming back with these bindings. */
  predicate Helpful(e: Event, c: nat, bs: seq<Binding>) {
    && Productive(e)
    && (e.At? && e.c == c ==>
         && e.move != SettlePreparation(false) && e.move != SettlePut(false) && e.move != PreparationJoined(true)
         && e.move != QueryJoined(true) && e.move != PutJoined(true)
         && (e.move.SettleQuery? ==> e.move.bindings == Some(bs)))
  }

  lemma CallCanGoOn(s: State, c: nat, bs: seq<Binding>) returns (e: Event)
    requires Inv(s) && c < |s.calls| && !s.calls[c].pc.Finished? && s.calls[c].acquisition != Waiting(Pending)
    requires s.calls[c].pc.JoinQuery? ==> s.calls[c].pc.exit.Normal?
    ensures Helpful(e, c, bs) && Step(s, e).Some?
  {
    assert CallOk(s.calls[c]);
    NextEventIsEnabled(s, c);
    e := if s.calls[c].pc.AwaitQuery? && s.calls[c].query.Running? then At(c, SettleQuery(Some(bs)))
         else NextEvent(c, s.calls[c]);
  }

  /** The call, or whoever it waits for, can go on without disturbing it. */
  lemma HelpIsEnabled(s: State, c: nat, bs: seq<Binding>) returns (e: Event)
    requires Inv(s) && c < |s.calls| && !s.calls[c].pc.Finished?
    requires s.calls[c].pc.JoinQuery? ==> s.calls[c].pc.exit.Normal?
    ensures Helpful(e, c, bs) && Step(s, e).Some?
  {
    assert CallOk(s.calls[c]);
    if s.calls[c].acquisition != Waiting(Pending) {
      e := CallCanGoOn(s, c, bs);
    } else if s.locked {
      var h :| 0 <= h < |s.calls| && Holds(s.calls[h]);
      assert CallOk(s.calls[h]);
      NextEventIsEnabled(s, h);
      e := NextEvent(h, s.calls[h]);
    } else {
      assert Queued(s, c);
      var w := s.waiters[0];
      assert Queued(s, w);
      e := RunAcquisition(w);
    }
  }

  lemma HelpKeepsUndisturbed(run: seq<Event>, e: Event, c: nat, bs: seq<Binding>)
    requires Undisturbed(run, c) && Fulfilled(run, c) && Helpful(e, c, bs)
    requires Asked(run)[c].0.Restart? ==> Binding(Asked(run)[c].0.settingId, true) in bs
    ensures Undisturbed(run + [e], c) && Fulfilled(run + [e], c)
    ensures Asked(run + [e])[c] == Asked(run)[c]
  {
    AskedGrows(run, e);
    assert forall x :: x in run + [e] ==> x in run || x == e;
  }

  lemma HelpfulStep(run: seq<Event>, c: nat, bs: seq<Binding>) returns (e: Event)
    requires After(run).Some? && c < |After(run).value.calls| && !After(run).value.calls[c].pc.Finished?
    requires Undisturbed(run, c) && Fulfilled(run, c)
    requires Asked(run)[c].0.Restart? ==> Binding(Asked(run)[c].0.settingId, true) in bs
    ensures Helpful(e, c, bs) && After(run + [e]).Some? && c < |After(run + [e]).value.calls|
    ensures Work(After(run + [e]).value.calls) < Work(After(run).value.calls)
  {
    RunsAgree(run);
    RunsKeepInv(run);
    var s := After(run).value;
    assert run[..|run|] == run;
    UndisturbedHasNoFate(run, c, |run|);
    assert PcFits(s.calls[c].pc, Fate(run, c));
    e := HelpIsEnabled(s, c, bs);
    StepsShrinkWork(s, e);
    StepKeepsSize(s, e);
    assert (run + [e])[..|run|] == run;
  }

  /** From every run that has left a call undisturbed so far, productive events alone lead to its
      normal end: a discovery's whatever its query comes back with, a restart's with its setting
      selected. */
  lemma {:induction false} UndisturbedCallsCanSucceed(run: seq<Event>, c: nat, bs: seq<Binding>) returns (rest: seq<Event>)
    requires After(run).Some? && c < |After(run).value.calls| && Undisturbed(run, c) && Fulfilled(run, c)
    requires Asked(run)[c].0.Restart? ==> Binding(Asked(run)[c].0.settingId, true) in bs
    ensures AllProductive(rest) && SucceedsBy(run, c, rest)
    decreases Work(After(run).value.calls)
  {
    if After(run).value.calls[c].pc.Finished? {
      UndisturbedEndsNormally(run, c);
      rest := [];
      assert run + rest == run;
    } else {
      var e := HelpfulStep(run, c, bs);
      HelpKeepsUndisturbed(run, e, c, bs);
      var more := UndisturbedCallsCanSucceed(run + [e], c, bs);
      SucceedsLater(run, c, e, more);
      rest := [e] + more;
    }
  }

  predicate SucceedsBy(run: seq<Event>, c: nat, rest: seq<Event>) {
    && After(run + rest).Some? && c < |After(run + rest).value.calls|
    && After(run + rest).value.calls[c].pc == Finished(Normal)
  }

  lemma SucceedsLater(run: seq<Event>, c: nat, e: Event, more: seq<Event>)
    requires SucceedsBy(run + [e], c, more)
    ensures SucceedsBy(run, c, [e] + more)
  {
    assert run + ([e] + more) == (run + [e]) + more;
  }
}
