/** No lost wakeup: whenever the dispatcher is blocked, whatever it should wake for is
    already covered by a pending signal, by a thread on its way to signal, or by a producer
    that has not yet made its wake request. */
module Wakeup {
  import opened Protocol
  import opened Accounting

  // ---- who is about to do what ----------------------------------------------------------

  /** The submission's next step signals the dispatcher. */
  predicate AboutToSignal(pc: SubPc) {
    match pc
    case Executing(d) => d.DirectSignal?
    case Published(t) => t.Signal? || t.ReleaseSignal?
    case Over(_, t) => t.Signal? || t.ReleaseSignal?
    case _ => false
  }

  /** The submission has published its event and not yet made its wake request. */
  predicate WakeAhead(pc: SubPc) {
    pc.Published? && (pc.tail.CommitArrival? || pc.tail.Wake?)
  }

  /** The submission finished a direct run and is on its way to the wake request. */
  predicate Finishing(pc: SubPc) {
    pc.Executing? && (pc.direct.PendingLoad? || pc.direct.DirectWake?)
  }

  ghost predicate SignalComing(s: State) {
    || s.signal
    || s.stopper.StopSignal?
    || exists id :: id in s.subs && AboutToSignal(s.subs[id].pc)
  }

  /** A direct run still owns t's lease, or its finisher is before its wake request. */
  ghost predicate FinisherComing(s: State, t: Target) {
    || !LeaseOf(s, t).Idle?
    || exists id :: id in s.subs && s.subs[id].target == t && Finishing(s.subs[id].pc)
  }

  /** The dispatcher armed the latch and has not been woken since. */
  predicate Armed(d: DispPc) {
    match d
    case Holds(_, h) => h.TryFirst? || h.TryLast? || h.WaitDeferred?
    case Free(f) => f.IdleScan? || f.IdleWait?
  }

  /** The number of cells read as not ready since arming. */
  function Scanned(c: Config, f: FreePc): nat {
    match f
    case IdleScan(k) => k
    case IdleWait => c.cells
    case _ => 0
  }

  /** The dispatcher loaded a false stop flag and has consumed no signal since. */
  predicate PastStopLoad(d: DispPc) {
    match d
    case Holds(_, h) => h.ArmFirst? || h.TryFirst? || h.ArmLast? || h.TryLast? || h.WaitDeferred?
    case Free(f) => f.IdleArm? || f.IdleScan? || f.IdleWait?
  }

  // ---- invariants -----------------------------------------------------------------------

  /** A latch found set after arming was set by somebody who signals. */
  ghost predicate LatchCovered(s: State) {
    Armed(s.disp) && s.wakePending ==> SignalComing(s)
  }

  /** While the latch stays armed, every ready event the scan could miss has its producer's
      wake request still ahead. */
  ghost predicate ScanCovered(c: Config, s: State) {
    s.disp.Free? && !s.wakePending ==>
      forall id :: id in s.ready && id in s.subs && s.subs[id].cell < Scanned(c, s.disp.free) ==>
        WakeAhead(s.subs[id].pc)
  }

  /** While the latch stays armed, the slot the dispatcher waits with is covered by the run
      that beat it to the lease. */
  ghost predicate DeferredCovered(s: State) {
    s.disp.Holds? && s.disp.hold.WaitDeferred? && !s.wakePending ==> FinisherComing(s, TargetOf(s, s.disp.id))
  }

  ghost predicate StopCovered(s: State) {
    && (s.stop <==> s.stopper.StopSignal? || s.stopper.StopDone?)
    && (s.stop && PastStopLoad(s.disp) ==> s.signal || s.stopper.StopSignal?)
  }

  /** The submission's event has a queue cell. */
  predicate Placed(pc: SubPc) {
    pc.Writing? || pc.Published?
  }

  ghost predicate CellsValid(c: Config, s: State) {
    forall id :: id in s.subs && Placed(s.subs[id].pc) ==> s.subs[id].cell < c.cells
  }

  ghost predicate Covered(c: Config, s: State) {
    LatchCovered(s) && ScanCovered(c, s) && DeferredCovered(s) && StopCovered(s) && CellsValid(c, s)
  }

  // ---- submission steps -----------------------------------------------------------------

  /** How a submission step may move its wake duties. */
  predicate SubWakeMove(c: Config, s: State, id: Id, u: Sub, v: SubMove) {
    var pc, pc', e := u.pc, v.next.pc, v.effect;
    && v.next.target == u.target
    && (AboutToSignal(pc) ==> e == SignalTo(true))
    && (e.LatchTo? ==> e.on && (s.wakePending || AboutToSignal(pc')))
    && (e.SignalTo? ==> e.on)
    && (WakeAhead(pc) && !WakeAhead(pc') ==> e.LatchTo?)
    && (e.MadeReady? ==> e.id == id && WakeAhead(pc'))
    && !e.Taken?
    && (Finishing(pc) && !Finishing(pc') ==> e.LatchTo? || PendingOf(s, u.target) <= 0)
    && (e.LeaseTo? ==> e.target == u.target && (e.run.Idle? ==> Finishing(pc')))
    && (if e.Claimed? then Carries(pc) && v.next.cell < c.cells else v.next.cell == u.cell && (Placed(pc') ==> Placed(pc)))
  }

  lemma EntryWakes(c: Config, s: State, id: Id, u: Sub, m: Move)
    requires u.pc.Entering?
    ensures SubWakeMove(c, s, id, u, EntryNext(c, s, id, u, u.pc.entry, m))
  {}

  lemma DirectWakes(c: Config, s: State, id: Id, u: Sub)
    requires u.pc.Executing?
    ensures SubWakeMove(c, s, id, u, DirectNext(s, id, u, u.pc.direct))
  {}

  lemma StagingWakes(c: Config, s: State, id: Id, u: Sub, m: Move)
    requires u.pc.Staging?
    ensures SubWakeMove(c, s, id, u, StagingNext(c, s, id, u, u.pc.staging, m))
  {}

  lemma TailWakes(c: Config, s: State, id: Id, u: Sub, tail: TailPc)
    requires (u.pc.Published? || u.pc.Over?) && u.pc.tail == tail
    ensures SubWakeMove(c, s, id, u, TailNext(s, u, tail))
  {}

  lemma SubWakes(c: Config, s: State, id: Id, u: Sub, m: Move)
    ensures SubWakeMove(c, s, id, u, SubNext(c, s, id, u, m))
  {
    match u.pc
    case Entering(_) => EntryWakes(c, s, id, u, m);
    case Executing(_) => DirectWakes(c, s, id, u);
    case Staging(_) => StagingWakes(c, s, id, u, m);
    case Published(tail) => TailWakes(c, s, id, u, tail);
    case Over(_, tail) => TailWakes(c, s, id, u, tail);
    case _ =>
  }

  lemma SignalStays(c: Config, s: State, id: Id, v: SubMove)
    requires id in s.subs && SubWakeMove(c, s, id, s.subs[id], v) && SignalComing(s)
    ensures SignalComing(SubMoved(s, id, v))
  {
    var s' := SubMoved(s, id, v);
    if !s.signal && !s.stopper.StopSignal? {
      var w :| w in s.subs && AboutToSignal(s.subs[w].pc);
      assert w == id || (w in s'.subs && AboutToSignal(s'.subs[w].pc));
    }
  }

  lemma LatchSub(c: Config, s: State, id: Id, v: SubMove)
    requires id in s.subs && SubWakeMove(c, s, id, s.subs[id], v) && LatchCovered(s)
    ensures LatchCovered(SubMoved(s, id, v))
  {
    var s' := SubMoved(s, id, v);
    if Armed(s.disp) && s'.wakePending {
      if s.wakePending {
        SignalStays(c, s, id, v);
      } else {
        assert AboutToSignal(s'.subs[id].pc);
      }
    }
  }

  lemma ScanSub(c: Config, s: State, id: Id, v: SubMove)
    requires Ownership(s) && id in s.subs && SubWakeMove(c, s, id, s.subs[id], v) && ScanCovered(c, s)
    ensures ScanCovered(c, SubMoved(s, id, v))
  {
    assert Owned(s, id);
  }

  lemma CellsSub(c: Config, s: State, id: Id, v: SubMove)
    requires id in s.subs && SubWakeMove(c, s, id, s.subs[id], v) && CellsValid(c, s)
    ensures CellsValid(c, SubMoved(s, id, v))
  {}

  /** While the dispatcher waits with a slot, that slot keeps its target's pending counter
      positive, so a finisher always goes on to its wake request. */
  lemma DeferredSub(c: Config, s: State, id: Id, v: SubMove)
    requires Ownership(s) && PendingExact(s) && DeferredCovered(s)
    requires id in s.subs && SubWakeMove(c, s, id, s.subs[id], v)
    ensures DeferredCovered(SubMoved(s, id, v))
  {
    var s' := SubMoved(s, id, v);
    if s.disp.Holds? && s.disp.hold.WaitDeferred? && !s'.wakePending {
      var t := TargetOf(s, s.disp.id);
      assert Owned(s, s.disp.id);
      CountedPositive(s, s.disp.id);
      assert TargetOf(s', s.disp.id) == t;
      if LeaseOf(s, t).Idle? {
        var w :| w in s.subs && s.subs[w].target == t && Finishing(s.subs[w].pc);
        assert w in s'.subs && s'.subs[w].target == t && Finishing(s'.subs[w].pc);
      } else if LeaseOf(s', t).Idle? {
        assert Finishing(s'.subs[id].pc);
      }
    }
  }

  lemma StopSub(c: Config, s: State, id: Id, v: SubMove)
    requires id in s.subs && SubWakeMove(c, s, id, s.subs[id], v) && StopCovered(s)
    ensures StopCovered(SubMoved(s, id, v))
  {}

  lemma CoveredSub(c: Config, s: State, id: Id, m: Move)
    requires Ownership(s) && PendingExact(s) && Covered(c, s) && id in s.subs
    ensures Covered(c, SubMoved(s, id, SubNext(c, s, id, s.subs[id], m)))
  {
    var v := SubNext(c, s, id, s.subs[id], m);
    SubWakes(c, s, id, s.subs[id], m);
    LatchSub(c, s, id, v);
    ScanSub(c, s, id, v);
    DeferredSub(c, s, id, v);
    StopSub(c, s, id, v);
    CellsSub(c, s, id, v);
  }

  // ---- dispatcher steps -----------------------------------------------------------------

  /** How a dispatcher step may arm, scan and wait. */
  ghost predicate DispWakeMove(c: Config, s: State, d: DispMove) {
    var e := d.effect;
    && (Armed(d.pc) ==> e == LatchTo(false) || (Armed(s.disp) && !e.LatchTo? && !e.SignalTo?))
    && (PastStopLoad(d.pc) ==> (PastStopLoad(s.disp) || !s.stop) && !e.SignalTo?)
    && (d.pc.Free? && Scanned(c, d.pc.free) > 0 ==>
          && s.disp.Free? && Scanned(c, s.disp.free) + 1 >= Scanned(c, d.pc.free) && e.Nothing?
          && !CellReady(s, Scanned(c, s.disp.free)))
    && (d.pc.Holds? && d.pc.hold.WaitDeferred? ==>
          s.disp.Holds? && s.disp.id == d.pc.id && e.Nothing? &&
          (s.disp.hold.WaitDeferred? || !LeaseOf(s, TargetOf(s, d.pc.id)).Idle?))
  }

  lemma HoldWakes(c: Config, s: State, id: Id, h: HoldPc)
    requires s.disp == Holds(id, h)
    ensures DispWakeMove(c, s, HoldNext(s, id, h))
  {}

  lemma FreeWakes(c: Config, s: State, f: FreePc, m: Move)
    requires s.disp == Free(f)
    ensures DispWakeMove(c, s, FreeNext(c, s, f, m))
  {}

  lemma CoveredDisp(c: Config, s: State, d: DispMove)
    requires Covered(c, s) && DispWakeMove(c, s, d)
    ensures Covered(c, DispMoved(s, d))
  {
    var s' := DispMoved(s, d);
    if Armed(d.pc) && s'.wakePending && !s.signal && !s.stopper.StopSignal? {
      var w :| w in s.subs && AboutToSignal(s.subs[w].pc);
      assert w in s'.subs && AboutToSignal(s'.subs[w].pc);
    }
  }

  // ---- whole runs -----------------------------------------------------------------------

  lemma CoveredStop(c: Config, s: State)
    requires Covered(c, s)
    ensures Covered(c, StopStep(s))
  {
    var s' := StopStep(s);
    if Armed(s.disp) && s.wakePending && !s.signal && !s.stopper.StopSignal? {
      var w :| w in s.subs && AboutToSignal(s.subs[w].pc);
      assert w in s'.subs && AboutToSignal(s'.subs[w].pc);
    }
  }

  lemma CoveredSpawn(c: Config, s: State, id: Id, t: Target)
    requires Covered(c, s) && Ownership(s) && id !in s.subs
    ensures Covered(c, Spawned(s, id, t))
  {
    var s' := Spawned(s, id, t);
    assert Owned(s, id);
    if Armed(s.disp) && s.wakePending && !s.signal && !s.stopper.StopSignal? {
      var w :| w in s.subs && AboutToSignal(s.subs[w].pc);
      assert w in s'.subs && AboutToSignal(s'.subs[w].pc);
    }
    if s.disp.Holds? {
      assert Owned(s, s.disp.id) && s.disp.id in s.subs;
      var k := TargetOf(s, s.disp.id);
      if s.disp.hold.WaitDeferred? && !s.wakePending && LeaseOf(s, k).Idle? {
        var w :| w in s.subs && s.subs[w].target == k && Finishing(s.subs[w].pc);
        assert w in s'.subs && s'.subs[w].target == k && Finishing(s'.subs[w].pc);
      }
    }
  }

  lemma CoveredStep(c: Config, s: State, l: Label)
    requires Sound(c, s) && Covered(c, s)
    ensures Covered(c, Step(c, s, l))
  {
    if l.Spawn? {
      if l.id !in s.subs { CoveredSpawn(c, s, l.id, l.target); }
    } else if l.Submit? {
      if l.id in s.subs { CoveredSub(c, s, l.id, l.move); }
    } else if l.Dispatch? {
      if s.disp.Holds? {
        HoldWakes(c, s, s.disp.id, s.disp.hold);
      } else {
        FreeWakes(c, s, s.disp.free, l.move);
      }
      CoveredDisp(c, s, DispNext(c, s, l.move));
    } else {
      CoveredStop(c, s);
    }
  }

  lemma {:induction false} CoveredFrom(c: Config, s: State, schedule: seq<Label>)
    requires Sound(c, s) && Covered(c, s)
    ensures Sound(c, RunFrom(c, s, schedule)) && Covered(c, RunFrom(c, s, schedule))
    decreases |schedule|
  {
    if schedule != [] {
      SoundStep(c, s, schedule[0]);
      CoveredStep(c, s, schedule[0]);
      CoveredFrom(c, Step(c, s, schedule[0]), schedule[1..]);
    }
  }

  lemma RunCovered(c: Config, schedule: seq<Label>)
    ensures Sound(c, Run(c, schedule)) && Covered(c, Run(c, schedule))
  {
    SoundInitially(c);
    CoveredFrom(c, INITIAL, schedule);
  }

  /** Whenever the dispatcher is blocked in the unbounded wait, every ready event still has its
      producer's wake request ahead, or a signal is pending or about to be raised; and a
      stop that has been requested has its signal pending or about to be raised. */
  lemma NoLostWakeup(c: Config, schedule: seq<Label>)
    requires Run(c, schedule).disp == Free(IdleWait)
    ensures var s := Run(c, schedule);
            && (forall id :: id in s.ready ==> id in s.subs && (WakeAhead(s.subs[id].pc) || SignalComing(s)))
            && (s.stop ==> s.signal || s.stopper.StopSignal?)
  {
    RunCovered(c, schedule);
    var s := Run(c, schedule);
    forall id | id in s.ready ensures id in s.subs && (WakeAhead(s.subs[id].pc) || SignalComing(s)) {
      assert Owned(s, id);
    }
  }

  /** Whenever the dispatcher waits with a slot that lost the lease race, a direct run still
      owns that target's lease, or its finisher is before its wake request, or a signal is
      pending or about to be raised: the bounded wait never relies on its timeout. */
  lemma DeferredNeedsNoTimeout(c: Config, schedule: seq<Label>, id: Id)
    requires Run(c, schedule).disp == Holds(id, WaitDeferred)
    ensures var s := Run(c, schedule);
            && id in s.subs
            && var t := s.subs[id].target;
               || LeaseOf(s, t).RunningDirect?
               || (exists w :: w in s.subs && s.subs[w].target == t && Finishing(s.subs[w].pc))
               || SignalComing(s)
  {
    RunCovered(c, schedule);
    var s := Run(c, schedule);
    assert Owned(s, id);
    assert LeaseRow(s, s.subs[id].target);
  }
}
