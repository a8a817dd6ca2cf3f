/** When a stop request can lose an event: exactly when, at the moment admission closes, some
    submission can still claim a queue cell. */
module StopLeaks {
  import opened Protocol
  import opened Accounting
  import opened Spacing
  import opened Wakeup
  import opened Stop

  // ---- driving the dispatcher -----------------------------------------------------------

  /** From s to z only the dispatcher took steps, and it filled no cell. */
  ghost predicate OnlyDispatched(s: State, z: State) {
    && z.subs == s.subs && z.writing == s.writing && z.ready <= s.ready
    && z.closed == s.closed && z.stop == s.stop && z.stopper == s.stopper
  }

  lemma DispatchOnce(c: Config, s: State, m: Move)
    requires Reachable(c, s)
    ensures var z := Step(c, s, Dispatch(m)); Reachable(c, z) && OnlyDispatched(s, z)
  {
    ReachableFrom(c, s, [Dispatch(m)]);
    assert RunFrom(c, s, [Dispatch(m)]) == Step(c, s, Dispatch(m));
    DispMoves(c, s, m);
  }

  /** Cells a scan has still to read. */
  function Left(c: Config, k: nat): nat {
    if k < c.cells then c.cells - k else 0
  }

  /** An upper bound on the steps that a stopped dispatcher takes before it takes an event from a
      cell or reaches the last read of its guard. */
  function DrainRank(c: Config, d: DispPc, empty: bool): nat {
    match d
    case Free(f) => (
      match f
      case DrainIdle => 0
      case Returned => 0
      case DrainBatch => if empty then c.cells + 3 else 1
      case DrainScan(k) => 2 + Left(c, k)
      case DrainWait => c.cells + 4
      case Loop => c.cells + 10
      case IdleWait => c.cells + 11
      case IdleScan(k) => c.cells + 12 + Left(c, k)
      case IdleArm => 2 * c.cells + 13
      case EndBatch(_) => 2 * c.cells + 14
      case Dequeue(_) => 2 * c.cells + 15)
    case Holds(_, h) =>
      2 * c.cells + 20 + (
        match h
        case DrainReclaim => 0
        case DrainDecrement => 1
        case DropReclaim => 0
        case DropDeferred => 1
        case Reclaim(_) => 0
        case Decrement(_) => 1
        case Running(_) => 2
        case LoopKept => 3
        case EndBatchKept => 3
        case WaitDeferred => 4
        case TryFirst => 5
        case TryLast => 5
        case TrySlot => 5
        case ArmFirst => 6
        case ArmLast => 6)
  }

  ghost predicate NoneReady(s: State) {
    forall e: Id :: e !in s.ready
  }

  /** Drain whatever there is. */
  ghost function DrainMove(s: State): Move {
    if e :| e in s.ready then Take(e) else Empty
  }

  /** The step either takes an event from a cell or comes closer to the guard. */
  predicate Descends(c: Config, s: State, d: DispMove, empty: bool) {
    && d.pc != Free(Returned)
    && if d.effect.Taken? then d.effect.id in s.ready else DrainRank(c, d.pc, empty) < DrainRank(c, s.disp, empty)
  }

  lemma HoldDescends(c: Config, s: State, id: Id, h: HoldPc, empty: bool)
    requires s.stop && s.disp == Holds(id, h)
    ensures Descends(c, s, HoldNext(s, id, h), empty)
  {}

  lemma FreeDescends(c: Config, s: State, f: FreePc, empty: bool)
    requires s.stop && s.disp == Free(f) && !f.DrainIdle? && !f.Returned?
    requires empty == NoneReady(s)
    requires forall e: Id :: e !in s.writing
    ensures Descends(c, s, FreeNext(c, s, f, DrainMove(s)), empty)
  {
    if f.DrainBatch? {
      if e :| e in s.ready {
      } else {
      }
    }
  }

  lemma DrainDescends(c: Config, s: State)
    requires s.stop && s.disp != Free(DrainIdle) && s.disp != Free(Returned) && forall e: Id :: e !in s.writing
    ensures var z := Step(c, s, Dispatch(DrainMove(s)));
            && z.disp != Free(Returned)
            && (z.ready < s.ready ||
                (z.ready == s.ready && DrainRank(c, z.disp, NoneReady(s)) < DrainRank(c, s.disp, NoneReady(s))))
  {
    var m := DrainMove(s);
    match s.disp
    case Holds(id, h) => HoldDescends(c, s, id, h, NoneReady(s));
    case Free(f) => FreeDescends(c, s, f, NoneReady(s));
    DispMoves(c, s, m);
  }

  /** A stopped dispatcher drains on its own until it stands at the last read of its guard, and
      the one submission still on its way then leaks. */
  lemma {:induction false} GuardReached(c: Config, s: State, id: Id) returns (run: seq<Label>)
    requires Reachable(c, s) && s.stop && s.disp != Free(Returned) && !c.atomicGuard && c.cells > 0
    requires id in s.subs && TowardsCell(s.subs[id].pc) && OthersEnded(s, id)
    ensures Leaks(c, s, run)
    decreases s.ready, DrainRank(c, s.disp, NoneReady(s))
  {
    if s.disp == Free(DrainIdle) {
      assert !CannotPublish(s, id);
      run := AtRiskLeaks(c, s);
    } else {
      forall e: Id ensures e !in s.writing {
        assert Owned(s, e);
      }
      var m := DrainMove(s);
      DrainDescends(c, s);
      DispatchOnce(c, s, m);
      var rest := GuardReached(c, Step(c, s, Dispatch(m)), id);
      run := [Dispatch(m)] + rest;
      LeaksAfterOne(c, s, Dispatch(m), rest);
    }
  }

  // ---- a submission on its way to a cell ------------------------------------------------

  /** The second step of the stop request raises the flag and nothing else. */
  lemma RaisesFlag(c: Config, s: State)
    requires Reachable(c, s) && s.stopper.StopStore?
    ensures var z := Step(c, s, RequestStop);
            Reachable(c, z) && z.stop && z.subs == s.subs && z.disp == s.disp
  {
    ReachableFrom(c, s, [RequestStop]);
    assert RunFrom(c, s, [RequestStop]) == Step(c, s, RequestStop);
  }

  lemma LastOneLeaks(c: Config, s: State, id: Id) returns (run: seq<Label>)
    requires Reachable(c, s) && s.stopper.StopStore? && !c.atomicGuard && c.cells > 0
    requires id in s.subs && TowardsCell(s.subs[id].pc) && OthersEnded(s, id)
    ensures Leaks(c, s, run)
  {
    RaisesFlag(c, s);
    var rest := GuardReached(c, Step(c, s, RequestStop), id);
    run := [RequestStop] + rest;
    LeaksAfterOne(c, s, RequestStop, rest);
  }

  lemma ClaimantLeaks(c: Config, s: State, id: Id) returns (run: seq<Label>)
    requires Reachable(c, s) && s.stopper.StopStore? && !c.atomicGuard && c.cells > 0
    requires id in s.subs && TowardsCell(s.subs[id].pc)
    ensures Leaks(c, s, run)
  {
    var others := DriveAll(c, s, s.subs.Keys - {id});
    var rest := LastOneLeaks(c, RunFrom(c, s, others), id);
    run := others + rest;
    LeaksAfter(c, s, others, rest);
  }

  // ---- a submission at the lease CAS ----------------------------------------------------

  /** With everybody else done, a lease is taken only by the dispatcher. */
  lemma LeasesIdle(c: Config, s: State, id: Id, t: Target)
    requires Reachable(c, s) && id in s.subs && s.subs[id].pc == Entering(TryDirect) && OthersEnded(s, id)
    requires !DispatcherRuns(s, t)
    ensures LeaseOf(s, t).Idle?
  {
    assert LeaseRow(s, t);
    assert forall i :: i !in DirectOf(s, t);
    assert DirectOf(s, t) == {};
  }

  /** An upper bound on the steps that the dispatcher, not stopped, takes before it runs an event
      of the wanted target. */
  function RunRank(c: Config, d: DispPc, wanted: bool): nat {
    match d
    case Free(f) => (
      match f
      case Dequeue(_) => 10
      case Loop => 11
      case IdleWait => 12
      case IdleScan(k) => 13 + Left(c, k)
      case IdleArm => 14 + c.cells
      case EndBatch(_) => 15 + c.cells
      case _ => 0)
    case Holds(_, h) =>
      (if wanted then 0 else 30 + c.cells) + (
        match h
        case Reclaim(_) => 0
        case Decrement(_) => 1
        case Running(_) => 2
        case TryFirst => 3
        case TryLast => 3
        case TrySlot => 3
        case ArmFirst => 4
        case ArmLast => 4
        case LoopKept => 5
        case EndBatchKept => 5
        case WaitDeferred => 6
        case _ => 0)
  }

  /** The dispatcher is about to run an event of target t. */
  predicate Wanted(s: State, t: Target) {
    s.disp.Holds? && TargetOf(s, s.disp.id) == t && Runnable(s.disp.hold)
  }

  /** One step towards running event e of target t. */
  lemma RunStep(c: Config, s: State, t: Target, e: Id)
    requires Reachable(c, s) && !s.stop && MayRun(s, t, e) && e !in s.writing
    requires s.disp.Holds? && !s.disp.hold.Running? ==> LeaseOf(s, TargetOf(s, s.disp.id)).Idle?
    requires !DispatcherRuns(s, t)
    ensures var z := Step(c, s, Dispatch(Take(e)));
            && (DispatcherRuns(z, t) || MayRun(z, t, e))
            && (!DispatcherRuns(z, t) ==> RunRank(c, z.disp, Wanted(z, t)) < RunRank(c, s.disp, Wanted(s, t)))
  {
    assert !Draining(s.disp);
    assert Owned(s, e);
  }

  lemma {:induction false} DispatcherRunsTarget(c: Config, s: State, id: Id, e: Id) returns (run: seq<Label>)
    requires Reachable(c, s) && !s.stop
    requires id in s.subs && s.subs[id].pc == Entering(TryDirect) && OthersEnded(s, id)
    requires MayRun(s, s.subs[id].target, e) && !DispatcherRuns(s, s.subs[id].target)
    ensures var z := RunFrom(c, s, run);
            Reachable(c, z) && OnlyDispatched(s, z) && DispatcherRuns(z, s.subs[id].target)
    decreases RunRank(c, s.disp, Wanted(s, s.subs[id].target))
  {
    var t := s.subs[id].target;
    assert Owned(s, e);
    if s.disp.Holds? && !s.disp.hold.Running? {
      LeasesIdle(c, s, id, TargetOf(s, s.disp.id));
    }
    RunStep(c, s, t, e);
    DispatchOnce(c, s, Take(e));
    var z := Step(c, s, Dispatch(Take(e)));
    var rest;
    if DispatcherRuns(z, t) {
      rest := [];
    } else {
      rest := DispatcherRunsTarget(c, z, id, e);
    }
    run := [Dispatch(Take(e))] + rest;
    assert run[0] == Dispatch(Take(e)) && run[1..] == rest;
  }

  /** The last submission, at the lease CAS of a target whose lease the dispatcher holds, falls
      back to the queue. */
  lemma BeatenLeaks(c: Config, s: State, id: Id) returns (run: seq<Label>)
    requires Reachable(c, s) && s.stopper.StopStore? && !c.atomicGuard && c.cells > 0
    requires id in s.subs && s.subs[id].pc == Entering(TryDirect) && OthersEnded(s, id)
    requires DispatcherRuns(s, s.subs[id].target)
    ensures Leaks(c, s, run)
  {
    assert LeaseRow(s, s.subs[id].target);
    OneStep(c, s, id, Go);
    var rest := LastOneLeaks(c, Step(c, s, Submit(id, Go)), id);
    run := [Submit(id, Go)] + rest;
    LeaksAfterOne(c, s, Submit(id, Go), rest);
  }

  /** A submission at the lease CAS whose target the dispatcher can still run loses the race to
      it. */
  lemma OvertakenLeaks(c: Config, s: State, id: Id) returns (run: seq<Label>)
    requires Reachable(c, s) && s.stopper.StopStore? && !c.atomicGuard && c.cells > 0
    requires id in s.subs && s.subs[id].pc == Entering(TryDirect)
    requires LeaseOf(s, s.subs[id].target).Idle? && CanRunFor(s, s.subs[id].target)
    ensures Leaks(c, s, run)
  {
    var t := s.subs[id].target;
    var e :| MayRun(s, t, e);
    assert LeaseRow(s, t);
    var others := DriveAll(c, s, s.subs.Keys - {id});
    var s1 := RunFrom(c, s, others);
    assert Owned(s, e) && Owned(s1, e) && MayRun(s1, t, e);
    var ahead := DispatcherRunsTarget(c, s1, id, e);
    var rest := BeatenLeaks(c, RunFrom(c, s1, ahead), id);
    LeaksAfter(c, s1, ahead, rest);
    run := others + (ahead + rest);
    LeaksAfter(c, s, others, ahead + rest);
  }

  /** One that finds the lease taken, or lets a rival take it first, falls back to the queue. */
  lemma TakenLeaks(c: Config, s: State, id: Id) returns (run: seq<Label>)
    requires Reachable(c, s) && s.stopper.StopStore? && !c.atomicGuard && c.cells > 0
    requires id in s.subs && s.subs[id].pc == Entering(TryDirect) && !LeaseOf(s, s.subs[id].target).Idle?
    ensures Leaks(c, s, run)
  {
    OneStep(c, s, id, Go);
    var rest := ClaimantLeaks(c, Step(c, s, Submit(id, Go)), id);
    run := [Submit(id, Go)] + rest;
    LeaksAfterOne(c, s, Submit(id, Go), rest);
  }

  lemma CanClaimLeaks(c: Config, s: State, id: Id) returns (run: seq<Label>)
    requires Reachable(c, s) && s.stopper.StopStore? && !c.atomicGuard && c.cells > 0 && CanClaim(s, id)
    ensures Leaks(c, s, run)
  {
    var t := s.subs[id].target;
    if TowardsCell(s.subs[id].pc) {
      run := ClaimantLeaks(c, s, id);
    } else if !LeaseOf(s, t).Idle? {
      run := TakenLeaks(c, s, id);
    } else if CanRunFor(s, t) {
      run := OvertakenLeaks(c, s, id);
    } else {
      var j :| j in s.subs && j != id && s.subs[j].target == t && s.subs[j].pc == Entering(TryDirect);
      OneStep(c, s, j, Go);
      var rest := TakenLeaks(c, Step(c, s, Submit(j, Go)), id);
      run := [Submit(j, Go)] + rest;
      LeaksAfterOne(c, s, Submit(j, Go), rest);
    }
  }

  // ---- the stop request -----------------------------------------------------------------

  /** At every point of every run: closing admission now can lose an event under the guard of the
      source if and only if some submission can still claim a queue cell. */
  lemma StopLeaksIffClaimable(c: Config, before: seq<Label>)
    requires !c.atomicGuard && c.cells > 0 && Run(c, before).stopper.StopNotCalled?
    ensures (exists after :: Leaks(c, StopStep(Run(c, before)), after)) <==> exists id :: CanClaim(Run(c, before), id)
  {
    var s := Run(c, before);
    var s' := StopStep(s);
    RunReachable(c, before);
    Closes(c, s);
    if id :| CanClaim(s, id) {
      StillClaims(s, id);
      var after := CanClaimLeaks(c, s', id);
      assert Leaks(c, s', after);
    } else {
      forall after ensures !Leaks(c, s', after) {
        CalmFrom(c, s', after);
      }
    }
  }

  lemma StillClaims(s: State, id: Id)
    requires CanClaim(s, id)
    ensures CanClaim(StopStep(s), id)
  {
    var t := s.subs[id].target;
    if SureWin(StopStep(s), id) {
      forall e ensures !MayRun(s, t, e) {
        assert !MayRun(StopStep(s), t, e);
      }
    }
  }
}
