/** Stop conservation. The drain guard of the source reads the queue cells first and the
    submission count afterwards, so a submission that publishes and departs in between is
    left behind. This module gives such a run, says exactly in which states one is still
    possible, and proves conservation everywhere else. */
module Stop {
  import opened Gate
  import opened Protocol
  import opened Accounting
  import opened Spacing
  import opened Wakeup

  // ---- stop order -----------------------------------------------------------------------

  /** The dispatcher has left its main loop. */
  predicate Draining(d: DispPc) {
    match d
    case Holds(_, h) => h.DropDeferred? || h.DropReclaim? || h.DrainDecrement? || h.DrainReclaim?
    case Free(f) => f.DrainScan? || f.DrainIdle? || f.DrainBatch? || f.DrainWait? || f.Returned?
  }

  ghost predicate StopOrder(s: State) {
    && (s.closed <==> !s.stopper.StopNotCalled?)
    && (s.stop ==> s.closed)
    && (Draining(s.disp) ==> s.stop)
  }

  /** Everything proved about every reachable state. */
  ghost predicate Reachable(c: Config, s: State) {
    Sound(c, s) && GatesExact(c, s) && Covered(c, s) && StopOrder(s)
  }

  lemma StopOrderStep(c: Config, s: State, l: Label)
    requires StopOrder(s) && StopCovered(s)
    ensures StopOrder(Step(c, s, l))
  {}

  lemma {:induction false} ReachableFrom(c: Config, s: State, schedule: seq<Label>)
    requires Reachable(c, s)
    ensures Reachable(c, RunFrom(c, s, schedule))
    decreases |schedule|
  {
    if schedule != [] {
      SoundStep(c, s, schedule[0]);
      GatesStep(c, s, schedule[0]);
      CoveredStep(c, s, schedule[0]);
      StopOrderStep(c, s, schedule[0]);
      ReachableFrom(c, Step(c, s, schedule[0]), schedule[1..]);
    }
  }

  lemma RunReachable(c: Config, schedule: seq<Label>)
    ensures Reachable(c, Run(c, schedule))
  {
    SoundInitially(c);
    GatesInitially(c);
    ReachableFrom(c, INITIAL, schedule);
  }

  // ---- conservation ---------------------------------------------------------------------

  /** No queue cell holds an event. */
  ghost predicate NoCells(s: State) {
    forall id: Id :: id !in s.ready && id !in s.writing
  }

  /** The submission has not been admitted; once admission is closed it can only be refused. */
  predicate NotAdmitted(pc: SubPc) {
    pc == Entering(Lookup) || pc == Entering(AcquireSubmission)
  }

  /** No queue holds an event, nothing is pending, no submission is in flight, and every event
      handed to an admitted or finished submission has been released exactly once. */
  ghost predicate Conserved(s: State) {
    && NoCells(s)
    && s.inflight == 0
    && (forall t: Target :: PendingOf(s, t) == 0)
    && (forall id :: id in s.subs ==> ReleasedOf(s, id) == if NotAdmitted(s.subs[id].pc) then 0 else 1)
  }

  /** After the return of `run`, empty cells and no flight are all that conservation needs. */
  lemma EmptyIsConserved(c: Config, s: State)
    requires Reachable(c, s) && s.disp.Free? && NoCells(s) && s.inflight == 0
    ensures Conserved(s)
  {
    assert FlightsOf(s) == {};
    forall id | id in s.subs
      ensures ReleasedOf(s, id) == (if NotAdmitted(s.subs[id].pc) then 0 else 1) && !TookPending(s.subs[id].pc)
    {
      assert Owned(s, id) && id !in FlightsOf(s);
    }
    forall t: Target ensures PendingOf(s, t) == 0 {
      assert CountedOf(s, t) == {};
    }
  }

  /** Only a submission in flight touches the cells, and none takes off after the close. */
  predicate SubStopMove(s: State, u: Sub, v: SubMove) {
    && (v.effect.Claimed? || v.effect.MadeReady? || v.effect.Departed? ==> InFlight(u.pc))
    && (v.effect.Admitted? ==> !s.closed)
    && !v.effect.Taken?
  }

  lemma SubStops(c: Config, s: State, id: Id, u: Sub, m: Move)
    ensures SubStopMove(s, u, SubNext(c, s, id, u, m))
  {
    SubMoves(c, s, id, u, m);
  }

  // ---- who can still claim a cell -------------------------------------------------------

  /** The dispatcher may yet try the lease for the event it holds. */
  predicate Runnable(h: HoldPc) {
    || h.LoopKept? || h.ArmFirst? || h.TryFirst? || h.TrySlot?
    || h.EndBatchKept? || h.ArmLast? || h.TryLast? || h.WaitDeferred?
  }

  /** Some event of target t is in a cell or in the dispatcher's hand and may yet be run. */
  ghost predicate CanRunFor(s: State, t: Target) {
    exists e :: MayRun(s, t, e)
  }

  predicate MayRun(s: State, t: Target, e: Id) {
    && e in s.subs && s.subs[e].target == t
    && (e in s.ready || e in s.writing || (HeldBy(s.disp, e) && Runnable(s.disp.hold)))
  }

  /** A submission at the lease CAS wins whatever happens: the lease is idle, it has no rival and
      the dispatcher has nothing to run for its target. */
  ghost predicate SureWin(s: State, id: Id) {
    id in s.subs &&
    var t := s.subs[id].target;
    && LeaseOf(s, t).Idle?
    && !CanRunFor(s, t)
    && forall j :: j in s.subs && j != id && s.subs[j].target == t ==> s.subs[j].pc != Entering(TryDirect)
  }

  /** The submission is past admission and short of a cell, on the way to one. */
  predicate TowardsCell(pc: SubPc) {
    match pc
    case Entering(e) => e.Guards? || e.ReserveArrival? || e.Eligible?
    case Staging(q) => !q.UndoPending?
    case _ => false
  }

  /** With admission closed, submission `id` can still claim a queue cell. */
  ghost predicate CanClaim(s: State, id: Id) {
    id in s.subs &&
    (TowardsCell(s.subs[id].pc) || (s.subs[id].pc == Entering(TryDirect) && !SureWin(s, id)))
  }

  ghost predicate NobodyClaims(s: State) {
    forall id :: !CanClaim(s, id)
  }

  /** Admission is closed, nobody can claim a cell any more, and the drain has missed nothing. */
  ghost predicate Calm(c: Config, s: State) {
    && s.closed && NobodyClaims(s)
    && (s.disp.Free? && s.disp.free.DrainScan? ==> forall k: nat :: k < s.disp.free.scanned ==> !CellUsed(s, k))
    && (s.disp.Free? && (s.disp.free.DrainIdle? || s.disp.free.Returned?) ==> NoCells(s))
  }

  /** A submission that cannot claim moves on to where it cannot either. */
  lemma CalmSelf(c: Config, s: State, id: Id, m: Move)
    requires s.closed && id in s.subs && !CanClaim(s, id)
    ensures var v := SubNext(c, s, id, s.subs[id], m);
            && !TowardsCell(v.next.pc) && v.next.pc != Entering(TryDirect) && !v.effect.Claimed?
            && (v.effect.LeaseTo? && v.effect.run.RunningDirect? ==> s.subs[id].pc == Entering(TryDirect))
  {}

  lemma CalmOther(c: Config, s: State, id: Id, v: SubMove, j: Id)
    requires Ownership(s) && SingleExecution(s) && id in s.subs && j in s.subs && j != id
    requires s.subs[j].pc == Entering(TryDirect) && SureWin(s, j)
    requires SubMoveOk(id, s.subs[id], v) && v.next.pc != Entering(TryDirect) && !v.effect.Claimed?
    requires v.effect.LeaseTo? && v.effect.run.RunningDirect? ==> s.subs[id].pc == Entering(TryDirect)
    ensures SureWin(SubMoved(s, id, v), j)
  {
    var s', t := SubMoved(s, id, v), s.subs[j].target;
    assert Owned(s, id) && LeaseRow(s, t);
    forall e ensures !MayRun(s', t, e) {
      assert !MayRun(s, t, e);
    }
  }

  lemma CalmSub(c: Config, s: State, id: Id, m: Move)
    requires Reachable(c, s) && Calm(c, s) && id in s.subs
    ensures Calm(c, SubMoved(s, id, SubNext(c, s, id, s.subs[id], m)))
  {
    var v := SubNext(c, s, id, s.subs[id], m);
    var s' := SubMoved(s, id, v);
    assert !CanClaim(s, id);
    CalmSelf(c, s, id, m);
    SubMoves(c, s, id, s.subs[id], m);
    SubWakes(c, s, id, s.subs[id], m);
    forall j ensures !CanClaim(s', j) {
      assert !CanClaim(s, j);
      if j != id && j in s.subs && s.subs[j].pc == Entering(TryDirect) {
        CalmOther(c, s, id, v, j);
      }
    }
    CellsUntouched(c, s, id, v);
  }

  /** Without a claim no free cell becomes used. */
  lemma CellsUntouched(c: Config, s: State, id: Id, v: SubMove)
    requires Ownership(s) && id in s.subs && SubMoveOk(id, s.subs[id], v) && SubWakeMove(c, s, id, s.subs[id], v)
    requires !v.effect.Claimed?
    ensures forall k: nat :: !CellUsed(s, k) ==> !CellUsed(SubMoved(s, id, v), k)
    ensures NoCells(s) ==> NoCells(SubMoved(s, id, v))
  {
    var s' := SubMoved(s, id, v);
    assert Owned(s, id);
    forall k: nat | !CellUsed(s, k) ensures !CellUsed(s', k) {
      assert forall i :: i in s.ready + s.writing && i in s.subs ==> s.subs[i].cell != k;
    }
  }

  lemma CalmSame(c: Config, s: State, s': State)
    requires Ownership(s) && Calm(c, s)
    requires s'.ready == s.ready && s'.writing == s.writing && s'.disp == s.disp && s'.lease == s.lease && s'.closed
    requires forall i :: i in s.subs ==> i in s'.subs && s'.subs[i] == s.subs[i]
    requires forall i :: i in s'.subs && i !in s.subs ==> s'.subs[i].pc == Entering(Lookup)
    ensures Calm(c, s')
  {
    forall j ensures !CanClaim(s', j) {
      assert !CanClaim(s, j);
      if j in s.subs && s.subs[j].pc == Entering(TryDirect) {
        var t := s.subs[j].target;
        forall e ensures !MayRun(s', t, e) {
          assert Owned(s, e) && !MayRun(s, t, e);
        }
      }
    }
    forall k: nat | !CellUsed(s, k) ensures !CellUsed(s', k) {
      forall i | i in s.ready + s.writing ensures i in s'.subs && s'.subs[i].cell != k {
        assert Owned(s, i);
      }
    }
  }

  lemma CalmDisp(c: Config, s: State, m: Move)
    requires Reachable(c, s) && Calm(c, s)
    ensures Calm(c, DispMoved(s, DispNext(c, s, m)))
  {
    var d := DispNext(c, s, m);
    var s' := DispMoved(s, d);
    DispMoves(c, s, m);
    forall j ensures !CanClaim(s', j) {
      assert !CanClaim(s, j);
      if j in s.subs && s.subs[j].pc == Entering(TryDirect) {
        DispKeepsWin(c, s, m, j);
      }
    }
    DrainKeeps(c, s, m);
  }

  lemma DispKeepsWin(c: Config, s: State, m: Move, j: Id)
    requires Sound(c, s) && j in s.subs && SureWin(s, j)
    ensures SureWin(DispMoved(s, DispNext(c, s, m)), j)
  {
    var d, t := DispNext(c, s, m), s.subs[j].target;
    var s' := DispMoved(s, d);
    DispMoves(c, s, m);
    assert LeaseRow(s, t);
    if s.disp.Holds? {
      assert Owned(s, s.disp.id);
      assert !MayRun(s, t, s.disp.id);
    }
    forall e ensures !MayRun(s', t, e) {
      assert !MayRun(s, t, e);
    }
  }

  /** The drain's scan reads every cell that is in use. */
  lemma DrainKeeps(c: Config, s: State, m: Move)
    requires Ownership(s) && CellsValid(c, s) && Calm(c, s)
    ensures var s' := DispMoved(s, DispNext(c, s, m));
            && (s'.disp.Free? && s'.disp.free.DrainScan? ==>
                  forall k: nat :: k < s'.disp.free.scanned ==> !CellUsed(s', k))
            && (s'.disp.Free? && (s'.disp.free.DrainIdle? || s'.disp.free.Returned?) ==> NoCells(s'))
  {
    var d := DispNext(c, s, m);
    var s' := DispMoved(s, d);
    DispMoves(c, s, m);
    if s.disp.Free? && s.disp.free.DrainScan? {
      assert d.effect.Nothing?;
      forall k: nat | !CellUsed(s, k) ensures !CellUsed(s', k) {
        assert forall i :: i in s.ready + s.writing && i in s.subs ==> s.subs[i].cell != k;
      }
      if d.pc == Free(DrainIdle) {
        forall id ensures id !in s.ready && id !in s.writing {
          assert Owned(s, id);
          if id in s.ready || id in s.writing {
            assert CellUsed(s, s.subs[id].cell);
          }
        }
      }
    }
  }

  lemma CalmStep(c: Config, s: State, l: Label)
    requires Reachable(c, s) && Calm(c, s)
    ensures Calm(c, Step(c, s, l))
  {
    if l.Submit? {
      if l.id in s.subs { CalmSub(c, s, l.id, l.move); }
    } else if l.Dispatch? {
      CalmDisp(c, s, l.move);
    } else if l.Spawn? {
      if l.id !in s.subs { CalmSame(c, s, Spawned(s, l.id, l.target)); }
    } else {
      CalmSame(c, s, StopStep(s));
    }
  }

  lemma {:induction false} CalmFrom(c: Config, s: State, schedule: seq<Label>)
    requires Reachable(c, s) && Calm(c, s)
    ensures Calm(c, RunFrom(c, s, schedule))
    decreases |schedule|
  {
    if schedule != [] {
      CalmStep(c, s, schedule[0]);
      ReachableFrom(c, s, [schedule[0]]);
      assert RunFrom(c, s, [schedule[0]]) == Step(c, s, schedule[0]);
      CalmFrom(c, Step(c, s, schedule[0]), schedule[1..]);
    }
  }

  /** The close leaves everything as it was. */
  lemma Closes(c: Config, s: State)
    requires Reachable(c, s) && s.stopper.StopNotCalled?
    ensures Reachable(c, StopStep(s))
    ensures NobodyClaims(s) ==> Calm(c, StopStep(s))
  {
    ReachableFrom(c, s, [RequestStop]);
    assert RunFrom(c, s, [RequestStop]) == StopStep(s);
    assert !Draining(s.disp);
    if NobodyClaims(s) {
      forall j ensures !CanClaim(StopStep(s), j) {
        assert !CanClaim(s, j);
        if j in s.subs {
          forall e ensures MayRun(StopStep(s), s.subs[j].target, e) == MayRun(s, s.subs[j].target, e) {
          }
        }
      }
    }
  }

  /** If nobody can still claim a cell when admission closes, `run` returns with everything
      released, for either guard. */
  lemma UnclaimableStopConserves(c: Config, before: seq<Label>, after: seq<Label>)
    requires Run(c, before).stopper.StopNotCalled? && NobodyClaims(Run(c, before))
    requires RunFrom(c, StopStep(Run(c, before)), after).disp == Free(Returned)
    ensures Conserved(RunFrom(c, StopStep(Run(c, before)), after))
  {
    var s := Run(c, before);
    RunReachable(c, before);
    Closes(c, s);
    CalmFrom(c, StopStep(s), after);
    ReachableFrom(c, StopStep(s), after);
    CleanFrom(c, StopStep(s), after);
    EmptyIsConserved(c, RunFrom(c, StopStep(s), after));
  }

  /** In particular a stop requested after every producer has left is safe. */
  lemma QuiescedStopConserves(c: Config, before: seq<Label>, after: seq<Label>)
    requires Run(c, before).stopper.StopNotCalled? && Run(c, before).inflight == 0
    requires RunFrom(c, StopStep(Run(c, before)), after).disp == Free(Returned)
    ensures Conserved(RunFrom(c, StopStep(Run(c, before)), after))
  {
    var s := Run(c, before);
    RunReachable(c, before);
    forall id ensures !CanClaim(s, id) {
      assert id !in FlightsOf(s);
    }
    UnclaimableStopConserves(c, before, after);
  }

  // ---- the guard taken atomically -------------------------------------------------------

  /** With the guard's last read atomic, the cells are empty when `run` returns. */
  ghost predicate CleanReturn(c: Config, s: State) {
    s.disp == Free(Returned) ==> s.inflight == 0 && (c.atomicGuard ==> NoCells(s))
  }

  lemma CleanStep(c: Config, s: State, l: Label)
    requires Reachable(c, s) && CleanReturn(c, s)
    ensures CleanReturn(c, Step(c, s, l))
  {
    if l.Submit? {
      if l.id in s.subs {
        SubStops(c, s, l.id, s.subs[l.id], l.move);
        if s.disp == Free(Returned) {
          assert l.id !in FlightsOf(s);
        }
      }
    }
  }

  lemma {:induction false} CleanFrom(c: Config, s: State, schedule: seq<Label>)
    requires Reachable(c, s) && CleanReturn(c, s)
    ensures CleanReturn(c, RunFrom(c, s, schedule))
    decreases |schedule|
  {
    if schedule != [] {
      CleanStep(c, s, schedule[0]);
      ReachableFrom(c, s, [schedule[0]]);
      assert RunFrom(c, s, [schedule[0]]) == Step(c, s, schedule[0]);
      CleanFrom(c, Step(c, s, schedule[0]), schedule[1..]);
    }
  }

  /** With the drain guard taken atomically, `run` returns with every admitted event released
      exactly once, no event queued, and every pending counter at zero, for every schedule. */
  lemma AtomicGuardConserves(c: Config, schedule: seq<Label>)
    requires c.atomicGuard && Run(c, schedule).disp == Free(Returned)
    ensures Conserved(Run(c, schedule))
  {
    SoundInitially(c);
    GatesInitially(c);
    CleanFrom(c, INITIAL, schedule);
    RunReachable(c, schedule);
    EmptyIsConserved(c, Run(c, schedule));
  }

  // ---- the guard of the source: where it leaks and where it cannot ----------------------

  /** Submission `id` waits at the lease CAS, the lease is idle, and it has no rival. */
  ghost predicate WinsLease(s: State, id: Id)
    requires id in s.subs
  {
    && LeaseOf(s, s.subs[id].target).Idle?
    && (forall j :: j in s.subs && j != id && s.subs[j].target == s.subs[id].target ==>
          s.subs[j].pc != Entering(TryDirect))
  }

  /** With admission closed, submission `id` can no longer publish its event: it will be
      refused, or runs in place, or has already parted with it. */
  ghost predicate CannotPublish(s: State, id: Id)
    requires id in s.subs
  {
    match s.subs[id].pc
    case Entering(e) => e.Lookup? || e.AcquireSubmission? || (e.TryDirect? && WinsLease(s, id))
    case Staging(q) => q.UndoPending?
    case Writing => false
    case _ => true
  }

  /** Some event sits in a cell or some submission can still put one there. */
  ghost predicate AtRisk(s: State) {
    !NoCells(s) || exists id :: id in s.subs && !CannotPublish(s, id)
  }

  /** The dispatcher drains with nothing in hand. */
  predicate DrainsEmptyHanded(d: DispPc) {
    d.Free? && Draining(d)
  }

  lemma SafeSub(c: Config, s: State, id: Id, m: Move)
    requires s.closed && !AtRisk(s) && id in s.subs
    ensures !AtRisk(SubMoved(s, id, SubNext(c, s, id, s.subs[id], m)))
  {
    var v := SubNext(c, s, id, s.subs[id], m);
    var s' := SubMoved(s, id, v);
    assert CannotPublish(s, id);
    SafeSelf(c, s, id, m);
    forall j | j in s'.subs && j != id ensures CannotPublish(s', j) {
      assert CannotPublish(s, j);
    }
  }

  lemma SafeSelf(c: Config, s: State, id: Id, m: Move)
    requires s.closed && id in s.subs && CannotPublish(s, id) && NoCells(s)
    ensures var s' := SubMoved(s, id, SubNext(c, s, id, s.subs[id], m)); NoCells(s') && CannotPublish(s', id)
  {}

  lemma SafeSpawn(s: State, id: Id, t: Target)
    requires !AtRisk(s) && id !in s.subs
    ensures !AtRisk(Spawned(s, id, t))
  {
    forall j | j in Spawned(s, id, t).subs ensures CannotPublish(Spawned(s, id, t), j) {
      assert j in s.subs ==> CannotPublish(s, j);
    }
  }

  lemma SafeStop(s: State)
    requires !AtRisk(s)
    ensures !AtRisk(StopStep(s))
  {
    forall j | j in s.subs ensures CannotPublish(StopStep(s), j) {
      assert CannotPublish(s, j);
    }
  }

  lemma SafeDisp(c: Config, s: State, m: Move)
    requires DrainsEmptyHanded(s.disp) && !AtRisk(s)
    ensures var s' := DispMoved(s, DispNext(c, s, m)); DrainsEmptyHanded(s'.disp) && !AtRisk(s')
  {
    var s' := DispMoved(s, DispNext(c, s, m));
    forall j | j in s.subs ensures CannotPublish(s', j) {
      assert CannotPublish(s, j);
    }
  }

  lemma SafeStep(c: Config, s: State, l: Label)
    requires s.closed && DrainsEmptyHanded(s.disp) && !AtRisk(s)
    ensures var s' := Step(c, s, l); s'.closed && DrainsEmptyHanded(s'.disp) && !AtRisk(s')
  {
    if l.Spawn? {
      if l.id !in s.subs { SafeSpawn(s, l.id, l.target); }
    } else if l.Submit? {
      if l.id in s.subs { SafeSub(c, s, l.id, l.move); }
    } else if l.Dispatch? {
      SafeDisp(c, s, l.move);
    } else {
      SafeStop(s);
    }
  }

  lemma {:induction false} SafeFrom(c: Config, s: State, schedule: seq<Label>)
    requires s.closed && DrainsEmptyHanded(s.disp) && !AtRisk(s)
    ensures NoCells(RunFrom(c, s, schedule))
    decreases |schedule|
  {
    if schedule != [] {
      SafeStep(c, s, schedule[0]);
      SafeFrom(c, Step(c, s, schedule[0]), schedule[1..]);
    }
  }

  // ---- driving submissions to their end -------------------------------------------------

  predicate Ended(pc: SubPc) {
    (pc.Published? || pc.Over?) && pc.tail.Finished?
  }

  function TailRank(t: TailPc): nat {
    match t
    case CommitArrival => 6
    case Wake => 5
    case Signal => 4
    case ReleaseSubmission => 3
    case ReleaseSignal => 2
    case EndArrival => 1
    case Finished => 0
  }

  /** An upper bound on the steps a submission still takes. */
  function Rank(pc: SubPc): nat {
    match pc
    case Entering(Lookup) => 18
    case Entering(AcquireSubmission) => 17
    case Entering(Guards) => 16
    case Entering(ReserveArrival) => 15
    case Entering(Eligible) => 14
    case Entering(TryDirect) => 13
    case Executing(InHsm) => 12
    case Executing(PendingLoad) => 11
    case Executing(DirectWake) => 10
    case Executing(DirectSignal) => 9
    case Executing(DirectGc) => 8
    case Staging(TakePending) => 12
    case Staging(Enqueue) => 11
    case Staging(UndoPending) => 9
    case Writing => 8
    case Rejecting(_) => 7
    case Published(t) => TailRank(t)
    case Over(_, t) => TailRank(t)
  }

  /** A free cell, if there is one. */
  ghost function FreeCell(c: Config, s: State): nat {
    if k: nat :| k < c.cells && !CellUsed(s, k) then k else 0
  }

  /** A move that the gate, the queues and the target allow and that brings the submission closer
      to its end; with `publish` one that keeps it out of the direct path. */
  ghost function Steer(c: Config, s: State, u: Sub, publish: bool): Move {
    match u.pc
    case Entering(ReserveArrival) => Stamp(Barrier(GateOf(s, u.target)) + c.minArrival(u.target))
    case Entering(Eligible) => if publish then NoDirect else Go
    case Staging(Enqueue) => Claim(FreeCell(c, s))
    case _ => Go
  }

  lemma SteerDescends(c: Config, s: State, id: Id, u: Sub, publish: bool)
    ensures var v := SubNext(c, s, id, u, Steer(c, s, u, publish));
            Ended(u.pc) || Rank(v.next.pc) < Rank(u.pc)
  {}

  /** From s to z only the submissions in `moved` took steps, and no cell was emptied. */
  ghost predicate OnlyMoved(s: State, z: State, moved: set<Id>) {
    && z.disp == s.disp && z.closed == s.closed && z.stop == s.stop && z.stopper == s.stopper
    && SameTargets(s, z)
    && (forall i :: i in s.subs && i !in moved ==> z.subs[i] == s.subs[i])
    && (forall i :: i in s.ready || i in s.writing ==> i in z.ready || i in z.writing)
  }

  lemma OneStep(c: Config, s: State, id: Id, m: Move)
    requires Reachable(c, s) && id in s.subs
    ensures var z := Step(c, s, Submit(id, m)); Reachable(c, z) && OnlyMoved(s, z, {id})
  {
    ReachableFrom(c, s, [Submit(id, m)]);
    assert RunFrom(c, s, [Submit(id, m)]) == Step(c, s, Submit(id, m));
    SubMoves(c, s, id, s.subs[id], m);
  }

  lemma {:induction false} RunOfConcat(c: Config, s: State, a: seq<Label>, b: seq<Label>)
    ensures RunFrom(c, s, a + b) == RunFrom(c, RunFrom(c, s, a), b)
    decreases |a|
  {
    if a == [] {
      assert a + b == b;
    } else {
      assert (a + b)[0] == a[0] && (a + b)[1..] == a[1..] + b;
      RunOfConcat(c, Step(c, s, a[0]), a[1..], b);
    }
  }

  /** Every submission can run to its end on its own. */
  lemma {:induction false} Drive(c: Config, s: State, id: Id) returns (run: seq<Label>)
    requires Reachable(c, s) && id in s.subs
    ensures var z := RunFrom(c, s, run);
            Reachable(c, z) && OnlyMoved(s, z, {id}) && Ended(z.subs[id].pc)
    decreases Rank(s.subs[id].pc)
  {
    if Ended(s.subs[id].pc) {
      run := [];
    } else {
      var m := Steer(c, s, s.subs[id], false);
      var l := Submit(id, m);
      SteerDescends(c, s, id, s.subs[id], false);
      OneStep(c, s, id, m);
      var rest := Drive(c, Step(c, s, l), id);
      run := [l] + rest;
      assert run[0] == l && run[1..] == rest;
    }
  }

  /** Any set of submissions can run to its end. */
  lemma {:induction false} DriveAll(c: Config, s: State, todo: set<Id>) returns (run: seq<Label>)
    requires Reachable(c, s) && todo <= s.subs.Keys
    ensures var z := RunFrom(c, s, run);
            Reachable(c, z) && OnlyMoved(s, z, todo) && forall i :: i in todo ==> Ended(z.subs[i].pc)
    decreases todo
  {
    if id :| id in todo {
      var first := Drive(c, s, id);
      var mid := RunFrom(c, s, first);
      var rest := DriveAll(c, mid, todo - {id});
      run := first + rest;
      RunOfConcat(c, s, first, rest);
    } else {
      run := [];
    }
  }

  lemma NobodyInFlight(c: Config, s: State)
    requires Reachable(c, s) && forall i :: i in s.subs ==> Ended(s.subs[i].pc)
    ensures s.inflight == 0
  {
    assert forall i :: i !in FlightsOf(s);
    assert FlightsOf(s) == {};
  }

  /** A schedule from s that lets `run` return with an event left in a cell. */
  ghost predicate Leaks(c: Config, s: State, run: seq<Label>) {
    var z := RunFrom(c, s, run);
    z.disp == Free(Returned) && exists id :: id in z.ready
  }

  /** At the guard's last read, an event in a cell is enough for a leak. */
  lemma CellLeaks(c: Config, s: State) returns (run: seq<Label>)
    requires Reachable(c, s) && s.disp == Free(DrainIdle) && !c.atomicGuard && !NoCells(s)
    ensures Leaks(c, s, run)
  {
    var all := DriveAll(c, s, s.subs.Keys);
    var z := RunFrom(c, s, all);
    var last := [Dispatch(Go)];
    run := all + last;
    RunOfConcat(c, s, all, last);
    assert RunFrom(c, z, last) == Step(c, z, Dispatch(Go));
    NobodyInFlight(c, z);
    var id :| id in s.ready || id in s.writing;
    assert Owned(s, id) && Owned(z, id);
    assert id in z.ready;
  }

  /** A leak after a first part of a schedule is a leak. */
  lemma LeaksAfter(c: Config, s: State, first: seq<Label>, rest: seq<Label>)
    requires Leaks(c, RunFrom(c, s, first), rest)
    ensures Leaks(c, s, first + rest)
  {
    RunOfConcat(c, s, first, rest);
  }

  lemma LeaksAfterOne(c: Config, s: State, l: Label, rest: seq<Label>)
    requires Leaks(c, Step(c, s, l), rest)
    ensures Leaks(c, s, [l] + rest)
  {
    assert ([l] + rest)[0] == l && ([l] + rest)[1..] == rest;
  }

  /** The submission is on its way into a cell and nobody else can turn it aside. */
  predicate OnPath(pc: SubPc) {
    match pc
    case Entering(e) => e.Guards? || e.ReserveArrival? || e.Eligible?
    case Staging(q) => !q.UndoPending?
    case Writing => true
    case _ => false
  }

  ghost predicate OthersEnded(s: State, id: Id) {
    forall i :: i in s.subs && i != id ==> Ended(s.subs[i].pc)
  }

  /** With all others done and the cells empty, neither the gate nor the backlog cap refuses. */
  lemma NothingRefuses(c: Config, s: State, id: Id)
    requires Reachable(c, s) && s.disp.Free? && NoCells(s)
    requires id in s.subs && OthersEnded(s, id)
    ensures s.subs[id].pc == Entering(ReserveArrival) ==> GateOf(s, s.subs[id].target).holds == 0
    ensures s.subs[id].pc == Staging(TakePending) ==> PendingOf(s, s.subs[id].target) == 0
  {
    var t := s.subs[id].target;
    if s.subs[id].pc == Entering(ReserveArrival) {
      var ledger := LedgerOf(s, t);
      forall i ensures i !in Holders(ledger) {
        assert i in s.subs ==> ArrivalOk(c, s.subs[i]);
      }
      assert Holders(ledger) == {};
      assert GateExact(GateOf(s, t), ledger);
    }
    if s.subs[id].pc == Staging(TakePending) {
      assert forall i :: i !in CountedOf(s, t);
      assert CountedOf(s, t) == {};
    }
  }

  lemma PathStep(c: Config, s: State, id: Id, u: Sub)
    requires c.cells > 0 && OnPath(u.pc) && !u.pc.Writing?
    requires u.pc == Entering(ReserveArrival) ==> GateOf(s, u.target).holds == 0
    requires u.pc == Staging(TakePending) ==> PendingOf(s, u.target) == 0
    requires u.pc == Staging(Enqueue) ==> !CellUsed(s, 0)
    ensures OnPath(SubNext(c, s, id, u, Steer(c, s, u, true)).next.pc)
  {}

  lemma {:induction false} PathLeaks(c: Config, s: State, id: Id) returns (run: seq<Label>)
    requires Reachable(c, s) && s.disp == Free(DrainIdle) && !c.atomicGuard && c.cells > 0
    requires id in s.subs && OnPath(s.subs[id].pc) && OthersEnded(s, id)
    ensures Leaks(c, s, run)
    decreases Rank(s.subs[id].pc)
  {
    if !NoCells(s) {
      run := CellLeaks(c, s);
    } else {
      assert Owned(s, id);
      var m := Steer(c, s, s.subs[id], true);
      NothingRefuses(c, s, id);
      PathStep(c, s, id, s.subs[id]);
      SteerDescends(c, s, id, s.subs[id], true);
      OneStep(c, s, id, m);
      var rest := PathLeaks(c, Step(c, s, Submit(id, m)), id);
      run := [Submit(id, m)] + rest;
      LeaksAfterOne(c, s, Submit(id, m), rest);
    }
  }

  /** Let everybody else finish, then publish. */
  lemma PublisherLeaks(c: Config, s: State, id: Id) returns (run: seq<Label>)
    requires Reachable(c, s) && s.disp == Free(DrainIdle) && !c.atomicGuard && c.cells > 0
    requires id in s.subs && OnPath(s.subs[id].pc)
    ensures Leaks(c, s, run)
  {
    var others := DriveAll(c, s, s.subs.Keys - {id});
    var z := RunFrom(c, s, others);
    var rest := PathLeaks(c, z, id);
    run := others + rest;
    LeaksAfter(c, s, others, rest);
  }

  /** A submission at the lease CAS that finds the lease taken, or a rival ahead of it, falls
      back to the queue. */
  lemma LoserLeaks(c: Config, s: State, id: Id) returns (run: seq<Label>)
    requires Reachable(c, s) && s.disp == Free(DrainIdle) && !c.atomicGuard && c.cells > 0
    requires id in s.subs && s.subs[id].pc == Entering(TryDirect) && !LeaseOf(s, s.subs[id].target).Idle?
    ensures Leaks(c, s, run)
  {
    OneStep(c, s, id, Go);
    var rest := PublisherLeaks(c, Step(c, s, Submit(id, Go)), id);
    run := [Submit(id, Go)] + rest;
    LeaksAfterOne(c, s, Submit(id, Go), rest);
  }

  lemma RivalLeaks(c: Config, s: State, id: Id, j: Id) returns (run: seq<Label>)
    requires Reachable(c, s) && s.disp == Free(DrainIdle) && !c.atomicGuard && c.cells > 0
    requires id in s.subs && j in s.subs && j != id && s.subs[j].target == s.subs[id].target
    requires s.subs[id].pc == Entering(TryDirect) && s.subs[j].pc == Entering(TryDirect)
    requires LeaseOf(s, s.subs[id].target).Idle?
    ensures Leaks(c, s, run)
  {
    OneStep(c, s, j, Go);
    var rest := LoserLeaks(c, Step(c, s, Submit(j, Go)), id);
    run := [Submit(j, Go)] + rest;
    LeaksAfterOne(c, s, Submit(j, Go), rest);
  }

  lemma AtRiskLeaks(c: Config, s: State) returns (run: seq<Label>)
    requires Reachable(c, s) && s.disp == Free(DrainIdle) && !c.atomicGuard && c.cells > 0
    requires AtRisk(s)
    ensures Leaks(c, s, run)
  {
    if !NoCells(s) {
      run := CellLeaks(c, s);
    } else {
      var id :| id in s.subs && !CannotPublish(s, id);
      if s.subs[id].pc != Entering(TryDirect) {
        run := PublisherLeaks(c, s, id);
      } else if !LeaseOf(s, s.subs[id].target).Idle? {
        run := LoserLeaks(c, s, id);
      } else {
        var j :| j in s.subs && j != id && s.subs[j].target == s.subs[id].target && s.subs[j].pc == Entering(TryDirect);
        run := RivalLeaks(c, s, id, j);
      }
    }
  }

  /** The exact reach of the source's drain guard. In any reachable state in which the cells
      have all been read as free and the submission count is read next, a continuation
      returns from `run` with an event left behind if and only if some event is in a cell or
      some submission can still put one there. */
  lemma GuardLeaksIffAtRisk(c: Config, schedule: seq<Label>)
    requires !c.atomicGuard && c.cells > 0 && Run(c, schedule).disp == Free(DrainIdle)
    ensures (exists more :: Leaks(c, Run(c, schedule), more)) <==> AtRisk(Run(c, schedule))
  {
    var s := Run(c, schedule);
    RunReachable(c, schedule);
    if AtRisk(s) {
      var more := AtRiskLeaks(c, s);
      assert Leaks(c, s, more);
    } else {
      forall more ensures !Leaks(c, s, more) {
        SafeFrom(c, s, more);
      }
    }
  }

  // ---- one leaking run ------------------------------------------------------------------

  /** A board with one queue cell, no admission policy, and the source's drain guard. */
  const SMALL_BOARD: Config := Config(false, t => 0, t => 0, 1, false)

  /** One submission takes its lease, a stop request closes admission and raises the flag, and
      the drain reads the only cell as free. */
  const TAKE_OFF: seq<Label> := [Spawn(7, 1), Submit(7, Go), Submit(7, Go)]
  const STOP: seq<Label> := [RequestStop, RequestStop, RequestStop]
  const TO_GUARD: seq<Label> := [Dispatch(Go), Dispatch(Go)]

  /** The submission then queues its event and departs, and the guard reads a zero count. */
  const TO_QUEUE: seq<Label> := [Submit(7, Go), Submit(7, NoDirect), Submit(7, Go)]
  const PUBLISH: seq<Label> := [Submit(7, Claim(0)), Submit(7, Go), Submit(7, Go)]
  const DEPART: seq<Label> := [Submit(7, Go), Submit(7, Go), Dispatch(Go)]

  const LEAKING_RUN: seq<Label> := TAKE_OFF + STOP + TO_GUARD + TO_QUEUE + PUBLISH + DEPART

  /** The states of that run: one submission on target 1 at `pc`. */
  function With(pc: SubPc, disp: DispPc, closed: bool): State {
    INITIAL.(subs := map[7 := Sub(1, pc, NoArrival, 0)], inflight := 1, disp := disp, closed := closed, stop := closed,
             signal := closed, stopper := if closed then StopDone else StopNotCalled)
  }

  lemma RunTwo(c: Config, s: State, a: Label, b: Label)
    ensures RunFrom(c, s, [a, b]) == Step(c, Step(c, s, a), b)
  {
    assert [a, b] == [a] + [b];
    RunOfConcat(c, s, [a], [b]);
  }

  lemma RunThree(c: Config, s: State, a: Label, b: Label, d: Label)
    ensures RunFrom(c, s, [a, b, d]) == Step(c, Step(c, Step(c, s, a), b), d)
  {
    assert [a, b, d] == [a, b] + [d];
    RunOfConcat(c, s, [a, b], [d]);
    RunTwo(c, s, a, b);
  }

  lemma TakesOff()
    ensures Run(SMALL_BOARD, TAKE_OFF) == With(Entering(Guards), Free(Loop), false)
  {
    RunThree(SMALL_BOARD, INITIAL, TAKE_OFF[0], TAKE_OFF[1], TAKE_OFF[2]);
  }

  lemma Stops(pc: SubPc)
    ensures RunFrom(SMALL_BOARD, With(pc, Free(Loop), false), STOP) == With(pc, Free(Loop), true)
  {
    RunThree(SMALL_BOARD, With(pc, Free(Loop), false), RequestStop, RequestStop, RequestStop);
  }

  lemma ReachesGuard(pc: SubPc)
    ensures RunFrom(SMALL_BOARD, With(pc, Free(Loop), true), TO_GUARD) ==
            With(pc, Free(DrainIdle), true)
  {
    RunTwo(SMALL_BOARD, With(pc, Free(Loop), true), Dispatch(Go), Dispatch(Go));
    assert !CellUsed(With(pc, Free(DrainScan(0)), true), 0);
  }

  lemma GoesToQueue()
    ensures RunFrom(SMALL_BOARD, With(Entering(Guards), Free(DrainIdle), true), TO_QUEUE) ==
            With(Staging(Enqueue), Free(DrainIdle), true).(pending := map[1 := 1])
  {
    RunThree(SMALL_BOARD, With(Entering(Guards), Free(DrainIdle), true), TO_QUEUE[0], TO_QUEUE[1], TO_QUEUE[2]);
  }

  lemma Publishes()
    ensures RunFrom(SMALL_BOARD, With(Staging(Enqueue), Free(DrainIdle), true).(pending := map[1 := 1]), PUBLISH) ==
            With(Published(Wake), Free(DrainIdle), true).(pending := map[1 := 1], ready := {7})
  {
    var s := With(Staging(Enqueue), Free(DrainIdle), true).(pending := map[1 := 1]);
    RunThree(SMALL_BOARD, s, PUBLISH[0], PUBLISH[1], PUBLISH[2]);
  }

  lemma Departs()
    ensures var s := With(Published(Wake), Free(DrainIdle), true).(pending := map[1 := 1], ready := {7});
            RunFrom(SMALL_BOARD, s, DEPART) ==
            With(Published(ReleaseSignal), Free(Returned), true).(pending := map[1 := 1], ready := {7}, inflight := 0)
  {
    var s := With(Published(Wake), Free(DrainIdle), true).(pending := map[1 := 1], ready := {7});
    RunThree(SMALL_BOARD, s, DEPART[0], DEPART[1], DEPART[2]);
  }

  /** The source's drain guard is not safe: this run returns from `run` with event 7 still in
      its cell, never released, and its target's pending counter at one. */
  lemma SourceGuardLeaks()
    ensures var s := Run(SMALL_BOARD, LEAKING_RUN);
            s.disp == Free(Returned) && 7 in s.ready && ReleasedOf(s, 7) == 0 && PendingOf(s, 1) == 1
  {
    var c := SMALL_BOARD;
    TakesOff();
    Stops(Entering(Guards));
    RunOfConcat(c, INITIAL, TAKE_OFF, STOP);
    ReachesGuard(Entering(Guards));
    RunOfConcat(c, INITIAL, TAKE_OFF + STOP, TO_GUARD);
    GoesToQueue();
    RunOfConcat(c, INITIAL, TAKE_OFF + STOP + TO_GUARD, TO_QUEUE);
    Publishes();
    RunOfConcat(c, INITIAL, TAKE_OFF + STOP + TO_GUARD + TO_QUEUE, PUBLISH);
    Departs();
    RunOfConcat(c, INITIAL, TAKE_OFF + STOP + TO_GUARD + TO_QUEUE + PUBLISH, DEPART);
  }
}
