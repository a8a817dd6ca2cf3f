/** Event ownership, pending accounting, submission counting and single execution along
    every schedule of the protocol. */
module Accounting {
  import opened Protocol

  // ---- what each part of a program counter stands for -----------------------------------

  /** The submission still carries its event reference. */
  predicate Carries(pc: SubPc) {
    pc.Entering? || pc.Executing? || pc.Staging? || pc.Rejecting?
  }

  /** The submission has taken a pending slot it has neither handed to a ready cell nor
      given back. */
  predicate TookPending(pc: SubPc) {
    pc.Writing? || (pc.Staging? && !pc.staging.TakePending?)
  }

  /** The submission is inside its target's state machine. */
  predicate RunsDirect(pc: SubPc) {
    pc.Executing? && pc.direct.InHsm?
  }

  /** The submission holds a submission lease. */
  predicate InFlight(pc: SubPc) {
    match pc
    case Entering(e) => !e.Lookup? && !e.AcquireSubmission?
    case Published(t) => t.CommitArrival? || t.Wake? || t.Signal? || t.ReleaseSubmission?
    case Over(_, t) => t.CommitArrival? || t.Wake? || t.Signal? || t.ReleaseSubmission?
    case _ => true
  }

  predicate HeldBy(d: DispPc, id: Id) {
    d.Holds? && d.id == id
  }

  /** The dispatcher has not yet given back the pending slot of the event it holds. */
  predicate OwesDecrement(h: HoldPc) {
    !h.Reclaim? && !h.DropReclaim? && !h.DrainReclaim?
  }

  // ---- invariants -----------------------------------------------------------------------

  /** Event `id` is in exactly one place: with its submitter, in a cell being written, in a
      ready cell, with the dispatcher, or released once. */
  predicate Owned(s: State, id: Id) {
    var w, q, h, n := id in s.writing, id in s.ready, HeldBy(s.disp, id), ReleasedOf(s, id);
    if id !in s.subs then !w && !q && !h && n == 0
    else match s.subs[id].pc
    case Writing => w && !q && !h && n == 0
    case Published(_) => !w && ((q && !h && n == 0) || (!q && h && n == 0) || (!q && !h && n == 1))
    case Over(_, _) => !w && !q && !h && n == 1
    case _ => !w && !q && !h && n == 0
  }

  ghost predicate Ownership(s: State) {
    forall id: Id :: Owned(s, id)
  }

  /** Event `id` still counts in its target's pending counter. */
  predicate Counted(s: State, id: Id) {
    && id in s.subs
    && (TookPending(s.subs[id].pc) || id in s.ready || (HeldBy(s.disp, id) && OwesDecrement(s.disp.hold)))
  }

  ghost function CountedOf(s: State, t: Target): set<Id> {
    set id | id in s.subs && s.subs[id].target == t && Counted(s, id)
  }

  /** Every pending counter is the number of its target's queued events, plus the slot the
      dispatcher holds, plus the submissions between their increment and enqueue or undo. */
  ghost predicate PendingExact(s: State) {
    forall t: Target :: PendingOf(s, t) == |CountedOf(s, t)|
  }

  ghost function FlightsOf(s: State): set<Id> {
    set id | id in s.subs && InFlight(s.subs[id].pc)
  }

  /** The admission word counts the submissions that hold a lease. */
  ghost predicate FlightsExact(s: State) {
    s.inflight == |FlightsOf(s)|
  }

  /** The dispatcher is inside target t's state machine. */
  predicate DispatcherRuns(s: State, t: Target) {
    s.disp.Holds? && s.disp.hold.Running? && TargetOf(s, s.disp.id) == t
  }

  ghost function DirectOf(s: State, t: Target): set<Id> {
    set id | id in s.subs && s.subs[id].target == t && RunsDirect(s.subs[id].pc)
  }

  /** The lease of t names the one thread inside t's state machine, or nobody is inside. */
  ghost predicate LeaseRow(s: State, t: Target) {
    match LeaseOf(s, t)
    case Idle => DirectOf(s, t) == {} && !DispatcherRuns(s, t)
    case RunningDirect => |DirectOf(s, t)| == 1 && !DispatcherRuns(s, t)
    case RunningDispatcher => DirectOf(s, t) == {} && DispatcherRuns(s, t)
  }

  ghost predicate SingleExecution(s: State) {
    forall t: Target :: LeaseRow(s, t)
  }

  // ---- submission steps -----------------------------------------------------------------

  predicate SamePlace(pc: SubPc, pc': SubPc) {
    Carries(pc) == Carries(pc') && pc.Writing? == pc'.Writing? && pc.Published? == pc'.Published?
  }

  /** How a submission step may move its event, its pending slot, its submission lease and
      its execution lease. */
  predicate SubMoveOk(id: Id, u: Sub, v: SubMove) {
    var pc, pc', e := u.pc, v.next.pc, v.effect;
    && v.next.target == u.target
    && (match e
        case Freed(i) => i == id && Carries(pc) && pc'.Over?
        case Claimed(i) => i == id && Carries(pc) && pc'.Writing?
        case MadeReady(i) => i == id && pc.Writing? && pc'.Published?
        case Taken(_) => false
        case _ => SamePlace(pc, pc'))
    && (match e
        case PendingUp(t) => t == u.target && Carries(pc) && !TookPending(pc) && TookPending(pc')
        case PendingDown(t) => t == u.target && Carries(pc) && TookPending(pc) && !TookPending(pc')
        case MadeReady(_) => true
        case _ => TookPending(pc) == TookPending(pc'))
    && (match e
        case Admitted => !InFlight(pc) && InFlight(pc')
        case Departed => InFlight(pc) && !InFlight(pc')
        case _ => InFlight(pc) == InFlight(pc'))
    && (match e
        case LeaseTo(t, r) =>
          && t == u.target
          && (r.RunningDirect? || r.Idle?)
          && RunsDirect(pc) == r.Idle? && RunsDirect(pc') == r.RunningDirect?
        case _ => RunsDirect(pc) == RunsDirect(pc'))
  }

  /** A submission takes a lease only when it finds it idle. */
  predicate TakesIdleLease(s: State, v: SubMove) {
    v.effect.LeaseTo? && v.effect.run.RunningDirect? ==> LeaseOf(s, v.effect.target).Idle?
  }

  lemma EntryMoves(c: Config, s: State, id: Id, u: Sub, m: Move)
    requires u.pc.Entering?
    ensures var v := EntryNext(c, s, id, u, u.pc.entry, m); SubMoveOk(id, u, v) && TakesIdleLease(s, v)
  {}

  lemma DirectMoves(s: State, id: Id, u: Sub)
    requires u.pc.Executing?
    ensures var v := DirectNext(s, id, u, u.pc.direct); SubMoveOk(id, u, v) && TakesIdleLease(s, v)
  {}

  lemma StagingMoves(c: Config, s: State, id: Id, u: Sub, m: Move)
    requires u.pc.Staging?
    ensures var v := StagingNext(c, s, id, u, u.pc.staging, m); SubMoveOk(id, u, v) && TakesIdleLease(s, v)
  {}

  lemma TailMoves(s: State, id: Id, u: Sub, tail: TailPc)
    requires (u.pc.Published? || u.pc.Over?) && u.pc.tail == tail
    ensures var v := TailNext(s, u, tail); SubMoveOk(id, u, v) && TakesIdleLease(s, v)
  {}

  lemma SubMoves(c: Config, s: State, id: Id, u: Sub, m: Move)
    ensures var v := SubNext(c, s, id, u, m); SubMoveOk(id, u, v) && TakesIdleLease(s, v)
  {
    match u.pc
    case Entering(_) => EntryMoves(c, s, id, u, m);
    case Executing(_) => DirectMoves(s, id, u);
    case Staging(_) => StagingMoves(c, s, id, u, m);
    case Published(tail) => TailMoves(s, id, u, tail);
    case Over(_, tail) => TailMoves(s, id, u, tail);
    case _ =>
  }

  lemma OwnershipSub(s: State, id: Id, v: SubMove)
    requires Ownership(s) && id in s.subs && SubMoveOk(id, s.subs[id], v)
    ensures Ownership(SubMoved(s, id, v))
  {
    forall i: Id ensures Owned(SubMoved(s, id, v), i) {
      assert Owned(s, i) && Owned(s, id);
    }
  }

  predicate SameTargets(s: State, s': State) {
    s'.subs.Keys == s.subs.Keys && forall i :: i in s.subs ==> s'.subs[i].target == s.subs[i].target
  }

  lemma PendingSame(s: State, s': State)
    requires PendingExact(s) && SameTargets(s, s') && s'.pending == s.pending
    requires forall i :: i in s.subs ==> Counted(s', i) == Counted(s, i)
    ensures PendingExact(s')
  {
    forall t: Target ensures PendingOf(s', t) == |CountedOf(s', t)| {
      assert CountedOf(s', t) == CountedOf(s, t);
    }
  }

  lemma PendingAdds(s: State, s': State, id: Id)
    requires PendingExact(s) && SameTargets(s, s') && id in s.subs
    requires s'.pending == s.pending[s.subs[id].target := PendingOf(s, s.subs[id].target) + 1]
    requires forall i :: i in s.subs && i != id ==> Counted(s', i) == Counted(s, i)
    requires !Counted(s, id) && Counted(s', id)
    ensures PendingExact(s')
  {
    forall t: Target ensures PendingOf(s', t) == |CountedOf(s', t)| {
      if t == s.subs[id].target {
        assert CountedOf(s', t) == CountedOf(s, t) + {id};
      } else {
        assert CountedOf(s', t) == CountedOf(s, t);
      }
    }
  }

  /** A decrement never meets an empty counter. */
  lemma PendingDrops(s: State, s': State, id: Id)
    requires PendingExact(s) && SameTargets(s, s') && id in s.subs
    requires PendingOf(s, s.subs[id].target) > 0 ==>
               s'.pending == s.pending[s.subs[id].target := PendingOf(s, s.subs[id].target) - 1]
    requires forall i :: i in s.subs && i != id ==> Counted(s', i) == Counted(s, i)
    requires Counted(s, id) && !Counted(s', id)
    ensures PendingExact(s')
    ensures PendingOf(s, s.subs[id].target) > 0
  {
    assert id in CountedOf(s, s.subs[id].target);
    forall t: Target ensures PendingOf(s', t) == |CountedOf(s', t)| {
      if t == s.subs[id].target {
        assert CountedOf(s', t) == CountedOf(s, t) - {id};
      } else {
        assert CountedOf(s', t) == CountedOf(s, t);
      }
    }
  }

  lemma PendingSub(s: State, id: Id, v: SubMove)
    requires Ownership(s) && PendingExact(s) && id in s.subs && SubMoveOk(id, s.subs[id], v)
    ensures PendingExact(SubMoved(s, id, v))
  {
    var s' := SubMoved(s, id, v);
    assert Owned(s, id);
    assert forall i :: i in s.subs && i != id ==> Counted(s', i) == Counted(s, i);
    if v.effect.PendingUp? {
      PendingAdds(s, s', id);
    } else if v.effect.PendingDown? {
      PendingDrops(s, s', id);
    } else {
      PendingSame(s, s');
    }
  }

  lemma FlightsSub(s: State, id: Id, v: SubMove)
    requires FlightsExact(s) && id in s.subs && SubMoveOk(id, s.subs[id], v)
    ensures FlightsExact(SubMoved(s, id, v))
  {
    var s' := SubMoved(s, id, v);
    if v.effect.Admitted? {
      assert FlightsOf(s') == FlightsOf(s) + {id};
    } else if v.effect.Departed? {
      assert FlightsOf(s') == FlightsOf(s) - {id} && id in FlightsOf(s);
    } else {
      assert FlightsOf(s') == FlightsOf(s);
    }
  }

  lemma LeaseSub(s: State, id: Id, v: SubMove)
    requires SingleExecution(s) && id in s.subs
    requires SubMoveOk(id, s.subs[id], v) && TakesIdleLease(s, v)
    ensures SingleExecution(SubMoved(s, id, v))
  {
    var s' := SubMoved(s, id, v);
    forall t: Target ensures LeaseRow(s', t) {
      assert LeaseRow(s, t);
      if v.effect.LeaseTo? && t == s.subs[id].target {
        if v.effect.run.Idle? {
          assert id in DirectOf(s, t) && DirectOf(s', t) == DirectOf(s, t) - {id};
        } else {
          assert DirectOf(s', t) == {id};
        }
      } else {
        assert DirectOf(s', t) == DirectOf(s, t);
      }
    }
  }

  // ---- dispatcher steps -----------------------------------------------------------------

  predicate SameHand(d: DispPc, d': DispPc) {
    d.Holds? == d'.Holds? && (d.Holds? ==> d.id == d'.id && OwesDecrement(d.hold) == OwesDecrement(d'.hold))
  }

  predicate Runs(d: DispPc) {
    d.Holds? && d.hold.Running?
  }

  /** How a dispatcher step may move events, pending slots and the execution lease. */
  predicate DispMoveOk(s: State, d: DispMove) {
    && (match d.effect
        case Freed(i) => HeldBy(s.disp, i) && !OwesDecrement(s.disp.hold) && d.pc.Free?
        case Taken(i) => i in s.ready && s.disp.Free? && HeldBy(d.pc, i) && OwesDecrement(d.pc.hold)
        case PendingDown(t) =>
          && s.disp.Holds? && OwesDecrement(s.disp.hold) && t == TargetOf(s, s.disp.id)
          && HeldBy(d.pc, s.disp.id) && !OwesDecrement(d.pc.hold)
        case PendingUp(_) => false
        case Claimed(_) => false
        case MadeReady(_) => false
        case _ => SameHand(s.disp, d.pc))
    && !d.effect.Admitted? && !d.effect.Departed? && !d.effect.GateTo?
    && (match d.effect
        case LeaseTo(t, r) =>
          && s.disp.Holds? && t == TargetOf(s, s.disp.id)
          && (r.RunningDispatcher? || r.Idle?)
          && Runs(s.disp) == r.Idle? && Runs(d.pc) == r.RunningDispatcher?
          && (r.RunningDispatcher? ==> LeaseOf(s, t).Idle?)
        case _ => !Runs(s.disp) && !Runs(d.pc))
  }

  lemma HoldMoves(s: State, id: Id, h: HoldPc)
    requires s.disp == Holds(id, h)
    ensures DispMoveOk(s, HoldNext(s, id, h))
  {}

  lemma FreeMoves(c: Config, s: State, f: FreePc, m: Move)
    requires s.disp == Free(f)
    ensures DispMoveOk(s, FreeNext(c, s, f, m))
  {}

  lemma DispMoves(c: Config, s: State, m: Move)
    ensures DispMoveOk(s, DispNext(c, s, m))
  {
    match s.disp
    case Holds(id, h) => HoldMoves(s, id, h);
    case Free(f) => FreeMoves(c, s, f, m);
  }

  lemma OwnershipDisp(s: State, d: DispMove)
    requires Ownership(s) && DispMoveOk(s, d)
    ensures Ownership(DispMoved(s, d))
  {
    forall i: Id ensures Owned(DispMoved(s, d), i) {
      assert Owned(s, i);
    }
  }

  lemma PendingDisp(s: State, d: DispMove)
    requires Ownership(s) && PendingExact(s) && DispMoveOk(s, d)
    ensures PendingExact(DispMoved(s, d))
  {
    var s' := DispMoved(s, d);
    if d.effect.PendingDown? {
      assert Owned(s, s.disp.id);
      PendingDrops(s, s', s.disp.id);
    } else {
      PendingSame(s, s');
    }
  }

  lemma LeaseDisp(s: State, d: DispMove)
    requires SingleExecution(s) && DispMoveOk(s, d)
    ensures SingleExecution(DispMoved(s, d))
  {
    var s' := DispMoved(s, d);
    forall t: Target ensures LeaseRow(s', t) {
      assert LeaseRow(s, t);
      assert DirectOf(s', t) == DirectOf(s, t);
    }
  }

  // ---- backlog caps ---------------------------------------------------------------------

  /** With an admission policy no pending counter passes its cap or the 16-bit ceiling. */
  ghost predicate BacklogBounded(c: Config, s: State) {
    c.admission ==>
      forall t: Target :: PendingOf(s, t) <= PENDING_MAX && (c.cap(t) != 0 ==> PendingOf(s, t) <= c.cap(t))
  }

  lemma IncrementsBelowCap(c: Config, s: State, id: Id, u: Sub, m: Move)
    ensures var v := SubNext(c, s, id, u, m);
            v.effect.PendingUp? ==> u.pc.Staging? && MayIncrement(c, s, u.target) && v.effect.target == u.target
  {
    SubMoves(c, s, id, u, m);
  }

  lemma CountedPositive(s: State, id: Id)
    requires PendingExact(s) && Counted(s, id)
    ensures PendingOf(s, s.subs[id].target) > 0
  {
    assert id in CountedOf(s, s.subs[id].target);
  }

  lemma BacklogMoved(c: Config, s: State, s': State, e: Effect)
    requires BacklogBounded(c, s)
    requires s'.pending == Apply(s, e).pending
    requires e.PendingUp? ==> MayIncrement(c, s, e.target)
    requires e.PendingDown? ==> PendingOf(s, e.target) > 0
    ensures BacklogBounded(c, s')
  {
    if c.admission {
      forall t: Target
        ensures PendingOf(s', t) <= PENDING_MAX && (c.cap(t) != 0 ==> PendingOf(s', t) <= c.cap(t))
      {
        assert PendingOf(s, t) <= PENDING_MAX && (c.cap(t) != 0 ==> PendingOf(s, t) <= c.cap(t));
      }
    }
  }

  lemma BacklogSub(c: Config, s: State, id: Id, m: Move)
    requires BacklogBounded(c, s) && PendingExact(s) && id in s.subs
    ensures BacklogBounded(c, SubMoved(s, id, SubNext(c, s, id, s.subs[id], m)))
  {
    var v := SubNext(c, s, id, s.subs[id], m);
    SubMoves(c, s, id, s.subs[id], m);
    IncrementsBelowCap(c, s, id, s.subs[id], m);
    if v.effect.PendingDown? {
      CountedPositive(s, id);
    }
    BacklogMoved(c, s, SubMoved(s, id, v), v.effect);
  }

  lemma BacklogDisp(c: Config, s: State, d: DispMove)
    requires BacklogBounded(c, s) && Ownership(s) && PendingExact(s) && DispMoveOk(s, d)
    ensures BacklogBounded(c, DispMoved(s, d))
  {
    if d.effect.PendingDown? {
      assert Owned(s, s.disp.id);
      CountedPositive(s, s.disp.id);
    }
    BacklogMoved(c, s, DispMoved(s, d), d.effect);
  }

  // ---- whole runs -----------------------------------------------------------------------

  ghost predicate Sound(c: Config, s: State) {
    Ownership(s) && PendingExact(s) && FlightsExact(s) && SingleExecution(s) && BacklogBounded(c, s)
  }

  lemma SoundInitially(c: Config)
    ensures Sound(c, INITIAL)
  {
    assert FlightsOf(INITIAL) == {};
    forall t: Target ensures PendingOf(INITIAL, t) == |CountedOf(INITIAL, t)| && LeaseRow(INITIAL, t) {
      assert CountedOf(INITIAL, t) == {} && DirectOf(INITIAL, t) == {};
    }
  }

  lemma SoundSpawn(c: Config, s: State, id: Id, t: Target)
    requires Sound(c, s) && id !in s.subs
    ensures Sound(c, Spawned(s, id, t))
  {
    var s' := Spawned(s, id, t);
    assert Owned(s, id);
    forall i: Id ensures Owned(s', i) {
      assert Owned(s, i);
    }
    assert FlightsOf(s') == FlightsOf(s);
    forall k: Target ensures PendingOf(s', k) == |CountedOf(s', k)| && LeaseRow(s', k) {
      assert CountedOf(s', k) == CountedOf(s, k) && DirectOf(s', k) == DirectOf(s, k) && LeaseRow(s, k);
    }
  }

  lemma SoundStop(c: Config, s: State)
    requires Sound(c, s)
    ensures Sound(c, StopStep(s))
  {
    var s' := StopStep(s);
    forall i: Id ensures Owned(s', i) {
      assert Owned(s, i);
    }
    assert FlightsOf(s') == FlightsOf(s);
    forall k: Target ensures PendingOf(s', k) == |CountedOf(s', k)| && LeaseRow(s', k) {
      assert CountedOf(s', k) == CountedOf(s, k) && DirectOf(s', k) == DirectOf(s, k) && LeaseRow(s, k);
    }
  }

  lemma SoundSub(c: Config, s: State, id: Id, m: Move)
    requires Sound(c, s) && id in s.subs
    ensures Sound(c, SubMoved(s, id, SubNext(c, s, id, s.subs[id], m)))
  {
    var v := SubNext(c, s, id, s.subs[id], m);
    SubMoves(c, s, id, s.subs[id], m);
    OwnershipSub(s, id, v);
    PendingSub(s, id, v);
    FlightsSub(s, id, v);
    LeaseSub(s, id, v);
    BacklogSub(c, s, id, m);
  }

  lemma SoundDisp(c: Config, s: State, m: Move)
    requires Sound(c, s)
    ensures Sound(c, DispMoved(s, DispNext(c, s, m)))
  {
    var d := DispNext(c, s, m);
    DispMoves(c, s, m);
    OwnershipDisp(s, d);
    PendingDisp(s, d);
    assert FlightsOf(DispMoved(s, d)) == FlightsOf(s);
    LeaseDisp(s, d);
    BacklogDisp(c, s, d);
  }

  lemma SoundStep(c: Config, s: State, l: Label)
    requires Sound(c, s)
    ensures Sound(c, Step(c, s, l))
  {
    if l.Spawn? {
      if l.id !in s.subs { SoundSpawn(c, s, l.id, l.target); }
    } else if l.Submit? {
      if l.id in s.subs { SoundSub(c, s, l.id, l.move); }
    } else if l.Dispatch? {
      SoundDisp(c, s, l.move);
    } else {
      SoundStop(c, s);
    }
  }

  lemma {:induction false} SoundFrom(c: Config, s: State, schedule: seq<Label>)
    requires Sound(c, s)
    ensures Sound(c, RunFrom(c, s, schedule))
    decreases |schedule|
  {
    if schedule != [] {
      SoundStep(c, s, schedule[0]);
      SoundFrom(c, Step(c, s, schedule[0]), schedule[1..]);
    }
  }

  lemma RunSound(c: Config, schedule: seq<Label>)
    ensures Sound(c, Run(c, schedule))
  {
    SoundInitially(c);
    SoundFrom(c, INITIAL, schedule);
  }

  /** Along every schedule each event is in exactly one place, each pending counter counts
      exactly the events of its target that are queued, held by the dispatcher or on their
      way in, and with an admission policy it stays within its cap. */
  lemma PendingAccounting(c: Config, schedule: seq<Label>, t: Target)
    ensures var s := Run(c, schedule);
            && Ownership(s)
            && PendingOf(s, t) == |CountedOf(s, t)|
            && (c.admission ==> PendingOf(s, t) <= PENDING_MAX)
            && (c.admission && c.cap(t) != 0 ==> PendingOf(s, t) <= c.cap(t))
  {
    RunSound(c, schedule);
  }

  /** No decrement of a pending counter, by a submission or by the dispatcher, ever meets zero. */
  lemma DecrementsFindPending(c: Config, schedule: seq<Label>, id: Id, m: Move)
    ensures var s := Run(c, schedule);
            && (DispNext(c, s, m).effect.PendingDown? ==> PendingOf(s, DispNext(c, s, m).effect.target) > 0)
            && (id in s.subs && SubNext(c, s, id, s.subs[id], m).effect.PendingDown? ==>
                  PendingOf(s, SubNext(c, s, id, s.subs[id], m).effect.target) > 0)
  {
    var s := Run(c, schedule);
    RunSound(c, schedule);
    DispMoves(c, s, m);
    if DispNext(c, s, m).effect.PendingDown? {
      assert Owned(s, s.disp.id);
      CountedPositive(s, s.disp.id);
    }
    if id in s.subs {
      SubMoves(c, s, id, s.subs[id], m);
      if SubNext(c, s, id, s.subs[id], m).effect.PendingDown? {
        CountedPositive(s, id);
      }
    }
  }

  /** At most one thread is inside a target's state machine, and the lease names its path, so
      the release of a lease always finds the state it expects. */
  lemma OneThreadPerTarget(c: Config, schedule: seq<Label>, t: Target)
    ensures var s := Run(c, schedule);
            && |DirectOf(s, t)| + (if DispatcherRuns(s, t) then 1 else 0) <= 1
            && (forall id :: id in DirectOf(s, t) ==> LeaseOf(s, t).RunningDirect?)
            && (DispatcherRuns(s, t) ==> LeaseOf(s, t).RunningDispatcher?)
  {
    RunSound(c, schedule);
    assert LeaseRow(Run(c, schedule), t);
  }
}
