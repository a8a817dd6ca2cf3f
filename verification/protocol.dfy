/** The submit / dispatch / stop protocol of coact as an interleaving state machine:
    any number of submissions, one dispatcher thread and one stopper, sharing the staging
    cells, the wake latch, the sticky dispatcher signal, the per-target execution leases,
    pending counters and arrival gates, and the admission word.

    A label names the thread that moves and the outcome of whatever the source leaves to
    code outside this model. A schedule is a sequence of labels, and `Run` is the state it
    leads to; a label whose thread cannot move leaves the state as it is. */
module Protocol {
  import opened Gate

  type Id = int
  type Target = int

  const PENDING_MAX: nat := 0xFFFF
  const ADMISSION_MAX: nat := 0x7FFF_FFFF

  /** What a board fixes before the run: whether an admission policy is compiled in, its
      backlog cap (0 = none) and minimum arrival interval (0 = none) per target, and the
      number of queue cells over all partitions. `atomicGuard` selects the drain guard:
      false is the guard of the source, which reads the cells one by one and the submission
      count afterwards; true is the same guard whose last read is one atomic step. */
  datatype Config = Config(admission: bool, cap: Target -> nat, minArrival: Target -> nat,
                           cells: nat, atomicGuard: bool)

  datatype RunState = Idle | RunningDirect | RunningDispatcher

  datatype Reason = DroppedPolicy | DroppedRateLimit | DroppedOverload | RejectedFull | RejectedState

  /** How a submission whose event was not queued ended. */
  datatype Outcome = Direct | Refused(why: Reason)

  /** Next shared access of a submission before it runs in place or goes to staging. */
  datatype EntryPc =
    | Lookup                        // target bound, admission lane opened
    | AcquireSubmission
    | Guards                        // overload guard and policy
    | ReserveArrival
    | Eligible                      // direct eligibility and the lease state load
    | TryDirect                     // lease CAS Idle -> RunningDirect

  /** Next shared access of a submission that won the direct lease race. */
  datatype DirectPc = InHsm | PendingLoad | DirectWake | DirectSignal | DirectGc

  /** Next shared access of a submission on its way into a queue. */
  datatype StagingPc =
    | TakePending
    | Enqueue                       // claim a queue cell
    | UndoPending

  /** Next shared access of a submission that has parted with its event. */
  datatype TailPc =
    | CommitArrival
    | Wake
    | Signal
    | ReleaseSubmission
    | ReleaseSignal
    | EndArrival
    | Finished

  /** Program counter of a submission, by what it has done with its event. In the first four
      phases it still carries the reference; then it is writing it into a claimed cell, has
      published the cell, or has released the reference itself. */
  datatype SubPc =
    | Entering(entry: EntryPc)
    | Executing(direct: DirectPc)
    | Staging(staging: StagingPc)
    | Rejecting(why: Reason)
    | Writing
    | Published(tail: TailPc)
    | Over(outcome: Outcome, tail: TailPc)

  /** A submission's arrival reservation. */
  datatype Arrival = NoArrival | Holding(stamp: nat) | Committed(stamp: nat) | RolledBack(stamp: nat)

  /** One submission; its id also names the event it was handed. `cell` is the queue cell it
      claimed, if any. */
  datatype Sub = Sub(target: Target, pc: SubPc, arrival: Arrival, cell: nat)

  /** Where the dispatcher goes on after a successful dispatch. */
  datatype Resume = ToBatch | ToLoop

  /** Next shared access of the dispatcher while it holds an event, dequeued or retained
      after a lost lease race. */
  datatype HoldPc =
    | LoopKept                          // outer loop: stop load
    | ArmFirst | TryFirst
    | TrySlot
    | Running(resume: Resume)
    | Decrement(resume: Resume)
    | Reclaim(resume: Resume)
    | EndBatchKept                      // stop load after the batch
    | ArmLast | TryLast
    | WaitDeferred                      // bounded wait
    | DropDeferred
    | DropReclaim
    | DrainDecrement
    | DrainReclaim

  /** Next shared access of the dispatcher while it holds none. */
  datatype FreePc =
    | Loop
    | Dequeue(any: bool)
    | EndBatch(any: bool)
    | IdleArm
    | IdleScan(scanned: nat)             // cells below `scanned` were not ready
    | IdleWait                           // unbounded wait
    | DrainScan(scanned: nat)            // cells below `scanned` were free
    | DrainIdle                          // every cell was read as free; submission count load
    | DrainBatch
    | DrainWait
    | Returned

  datatype DispPc = Holds(id: Id, hold: HoldPc) | Free(free: FreePc)

  datatype StopPc = StopNotCalled | StopStore | StopSignal | StopDone

  datatype State = State(
    subs: map<Id, Sub>,
    writing: set<Id>,
    ready: set<Id>,
    released: map<Id, int>,
    pending: map<Target, int>,
    lease: map<Target, RunState>,
    gates: map<Target, GateState>,
    wakePending: bool,
    signal: bool,
    closed: bool,
    inflight: int,
    stop: bool,
    disp: DispPc,
    stopper: StopPc)

  const INITIAL: State :=
    State(map[], {}, {}, map[], map[], map[], map[], true, false, false, 0, false,
          Free(Loop), StopNotCalled)

  function ReleasedOf(s: State, id: Id): int {
    if id in s.released then s.released[id] else 0
  }

  function PendingOf(s: State, t: Target): int {
    if t in s.pending then s.pending[t] else 0
  }

  function LeaseOf(s: State, t: Target): RunState {
    if t in s.lease then s.lease[t] else Idle
  }

  function GateOf(s: State, t: Target): GateState {
    if t in s.gates then s.gates[t] else OPEN
  }

  /** Outcomes the source leaves to code outside this model. */
  datatype Move =
    | Go                            // the call site proceeds
    | Refuse(why: Reason)        // overload guard or policy drops; lookup fails
    | Stamp(now: nat)               // clock sample of the arrival gate
    | NoDirect                      // ISR path, target not eligible or breaker not Normal
    | Claim(cell: nat)              // the enqueue claims this cell if it is free; otherwise it finds none
    | Take(id: Id)                  // dequeue serves this ready cell
    | Empty                         // dequeue finds nothing, or the batch is full

  datatype Label =
    | Spawn(id: Id, target: Target)
    | Submit(id: Id, move: Move)
    | Dispatch(move: Move)
    | RequestStop

  // ---- shared accesses ------------------------------------------------------------------

  /** What one step does to the shared state; every step is at most one such access. */
  datatype Effect =
    | Nothing
    | Freed(id: Id)                          // the event's last reference is released
    | Admitted
    | Departed
    | LeaseTo(target: Target, run: RunState)
    | PendingUp(target: Target)
    | PendingDown(target: Target)
    | Claimed(id: Id)                        // a queue cell is claimed and being written
    | MadeReady(id: Id)                      // the cell is published
    | Taken(id: Id)                          // the dispatcher pops the cell
    | LatchTo(on: bool)
    | SignalTo(on: bool)
    | GateTo(target: Target, gate: GateState)

  function Apply(s: State, e: Effect): State {
    s.(released := if e.Freed? then s.released[e.id := ReleasedOf(s, e.id) + 1] else s.released,
       writing := if e.Claimed? then s.writing + {e.id} else if e.MadeReady? then s.writing - {e.id} else s.writing,
       ready := if e.MadeReady? then s.ready + {e.id} else if e.Taken? then s.ready - {e.id} else s.ready,
       pending := match e
                  case PendingUp(t) => s.pending[t := PendingOf(s, t) + 1]
                  case PendingDown(t) => s.pending[t := if PendingOf(s, t) == 0 then PENDING_MAX else PendingOf(s, t) - 1]
                  case _ => s.pending,
       lease := if e.LeaseTo? then s.lease[e.target := e.run] else s.lease,
       gates := if e.GateTo? then s.gates[e.target := e.gate] else s.gates,
       wakePending := if e.LatchTo? then e.on else s.wakePending,
       signal := if e.SignalTo? then e.on else s.signal,
       inflight := if e.Admitted? then s.inflight + 1
                   else if e.Departed? then (if s.inflight == 0 then ADMISSION_MAX else s.inflight - 1)
                   else s.inflight)
  }

  // ---- submissions (coordinator.hpp, ao.hpp, staging.hpp) -------------------------------

  /** With an admission policy the pending increment is refused at the cap and at the 16-bit
      ceiling; without one it is unconditional, and the event pool bounds the count. */
  predicate MayIncrement(c: Config, s: State, t: Target) {
    c.admission ==> PendingOf(s, t) < PENDING_MAX && (c.cap(t) != 0 ==> PendingOf(s, t) < c.cap(t))
  }

  /** Ending a reservation touches the gate only while one is held. */
  function CommitEffect(s: State, u: Sub): Effect {
    if u.arrival.Holding? then GateTo(u.target, Commit(GateOf(s, u.target), u.arrival.stamp)) else Nothing
  }

  function RollbackEffect(s: State, u: Sub): Effect {
    if u.arrival.Holding? then GateTo(u.target, Rollback(GateOf(s, u.target))) else Nothing
  }

  function Commits(a: Arrival): Arrival {
    if a.Holding? then Committed(a.stamp) else a
  }

  function RollsBack(a: Arrival): Arrival {
    if a.Holding? then RolledBack(a.stamp) else a
  }

  /** The outcome of one step of a submission: its next record and the shared access made. */
  datatype SubMove = SubMove(next: Sub, effect: Effect)

  /** A step that keeps the reservation as it is. */
  function To(u: Sub, pc: SubPc, e: Effect): SubMove {
    SubMove(u.(pc := pc), e)
  }

  function EntryNext(c: Config, s: State, id: Id, u: Sub, entry: EntryPc, m: Move): SubMove {
    var t := u.target;
    match entry
    case Lookup =>
      if m.Refuse? then To(u, Over(Refused(RejectedState), Finished), Freed(id))
      else To(u, Entering(AcquireSubmission), Nothing)
    case AcquireSubmission =>
      if s.closed || s.inflight == ADMISSION_MAX then To(u, Over(Refused(RejectedState), Finished), Freed(id))
      else To(u, Entering(Guards), Admitted)
    case Guards =>
      if m.Refuse? && (m.why.DroppedOverload? || m.why.DroppedPolicy? || m.why.DroppedRateLimit?) then
        To(u, Rejecting(m.why), Nothing)
      else To(u, Entering(if c.admission && c.minArrival(t) != 0 then ReserveArrival else Eligible), Nothing)
    case ReserveArrival =>
      if !m.Stamp? then To(u, u.pc, Nothing)
      else if Admits(GateOf(s, t), m.now, c.minArrival(t)) then
        SubMove(u.(pc := Entering(Eligible), arrival := Holding(m.now)), GateTo(t, Reserve(GateOf(s, t), m.now)))
      else To(u, Rejecting(DroppedRateLimit), Nothing)
    case Eligible =>
      To(u, if !m.NoDirect? && LeaseOf(s, t).Idle? then Entering(TryDirect) else Staging(TakePending), Nothing)
    case TryDirect =>
      if LeaseOf(s, t).Idle? then To(u, Executing(InHsm), LeaseTo(t, RunningDirect))
      else To(u, Staging(TakePending), Nothing)
  }

  function DirectNext(s: State, id: Id, u: Sub, direct: DirectPc): SubMove {
    var t := u.target;
    match direct
    case InHsm => To(u, Executing(PendingLoad), LeaseTo(t, Idle))
    case PendingLoad => To(u, Executing(if PendingOf(s, t) > 0 then DirectWake else DirectGc), Nothing)
    case DirectWake => To(u, Executing(if s.wakePending then DirectGc else DirectSignal), LatchTo(true))
    case DirectSignal => To(u, Executing(DirectGc), SignalTo(true))
    case DirectGc => To(u, Over(Direct, CommitArrival), Freed(id))
  }

  function StagingNext(c: Config, s: State, id: Id, u: Sub, staging: StagingPc, m: Move): SubMove {
    var t := u.target;
    match staging
    case TakePending =>
      if MayIncrement(c, s, t) then To(u, Staging(Enqueue), PendingUp(t))
      else To(u, Rejecting(RejectedFull), Nothing)
    case Enqueue =>
      if m.Claim? && m.cell < c.cells && !CellUsed(s, m.cell) then SubMove(u.(pc := Writing, cell := m.cell), Claimed(id))
      else To(u, Staging(UndoPending), Nothing)
    case UndoPending => To(u, Rejecting(RejectedFull), PendingDown(t))
  }

  /** The program counter of a submission with its tail moved on. */
  function Tail(pc: SubPc, tail: TailPc): SubPc {
    match pc
    case Published(_) => Published(tail)
    case Over(o, _) => Over(o, tail)
    case _ => pc
  }

  /** One step of a submission that has parted with its event. */
  function TailNext(s: State, u: Sub, tail: TailPc): SubMove {
    match tail
    case CommitArrival =>
      SubMove(u.(pc := Tail(u.pc, if u.pc.Published? then Wake else ReleaseSubmission), arrival := Commits(u.arrival)),
              CommitEffect(s, u))
    case Wake => To(u, Tail(u.pc, if s.wakePending then ReleaseSubmission else Signal), LatchTo(true))
    case Signal => To(u, Tail(u.pc, ReleaseSubmission), SignalTo(true))
    case ReleaseSubmission =>
      To(u, Tail(u.pc, if s.closed && s.inflight == 1 then ReleaseSignal else EndArrival), Departed)
    case ReleaseSignal => To(u, Tail(u.pc, EndArrival), SignalTo(true))
    case EndArrival => SubMove(u.(pc := Tail(u.pc, Finished), arrival := RollsBack(u.arrival)), RollbackEffect(s, u))
    case Finished => To(u, u.pc, Nothing)
  }

  /** One step of submission `id`; a submission that cannot move stays where it is. */
  function SubNext(c: Config, s: State, id: Id, u: Sub, m: Move): SubMove {
    match u.pc
    case Entering(entry) => EntryNext(c, s, id, u, entry, m)
    case Executing(direct) => DirectNext(s, id, u, direct)
    case Staging(staging) => StagingNext(c, s, id, u, staging, m)
    case Rejecting(why) => To(u, Over(Refused(why), ReleaseSubmission), Freed(id))
    case Writing => To(u, Published(CommitArrival), MadeReady(id))
    case Published(tail) => TailNext(s, u, tail)
    case Over(_, tail) => TailNext(s, u, tail)
  }

  function SubMoved(s: State, id: Id, v: SubMove): State {
    Apply(s.(subs := s.subs[id := v.next]), v.effect)
  }

  // ---- dispatcher (dispatcher.hpp) ------------------------------------------------------

  predicate CellReady(s: State, k: nat) {
    exists id :: id in s.ready && id in s.subs && s.subs[id].cell == k
  }

  predicate AnyCell(s: State) {
    (exists id :: id in s.ready) || (exists id :: id in s.writing)
  }

  predicate CellUsed(s: State, k: nat) {
    exists id :: id in s.ready + s.writing && id in s.subs && s.subs[id].cell == k
  }

  function TargetOf(s: State, id: Id): Target {
    if id in s.subs then s.subs[id].target else 0
  }

  datatype DispMove = DispMove(pc: DispPc, effect: Effect)

  /** The lease CAS of `try_dispatch_queued` for event `id`. */
  function TryLease(s: State, id: Id, resume: Resume, lost: HoldPc): DispMove {
    if LeaseOf(s, TargetOf(s, id)).Idle? then
      DispMove(Holds(id, Running(resume)), LeaseTo(TargetOf(s, id), RunningDispatcher))
    else DispMove(Holds(id, lost), Nothing)
  }

  /** One step of the dispatcher while it holds event `id`. */
  function HoldNext(s: State, id: Id, hold: HoldPc): DispMove {
    match hold
    case LoopKept => DispMove(Holds(id, if s.stop then DropDeferred else ArmFirst), Nothing)
    case ArmFirst => DispMove(Holds(id, TryFirst), LatchTo(false))
    case TryFirst => TryLease(s, id, ToBatch, WaitDeferred)
    case TrySlot => TryLease(s, id, ToBatch, EndBatchKept)
    case Running(resume) => DispMove(Holds(id, Decrement(resume)), LeaseTo(TargetOf(s, id), Idle))
    case Decrement(resume) => DispMove(Holds(id, Reclaim(resume)), PendingDown(TargetOf(s, id)))
    case Reclaim(resume) => DispMove(Free(if resume.ToLoop? then Loop else Dequeue(true)), Freed(id))
    case EndBatchKept => DispMove(Holds(id, if s.stop then DropDeferred else ArmLast), Nothing)
    case ArmLast => DispMove(Holds(id, TryLast), LatchTo(false))
    case TryLast => TryLease(s, id, ToLoop, WaitDeferred)
    case WaitDeferred => DispMove(Holds(id, LoopKept), SignalTo(false))
    case DropDeferred => DispMove(Holds(id, DropReclaim), PendingDown(TargetOf(s, id)))
    case DropReclaim => DispMove(Free(DrainScan(0)), Freed(id))
    case DrainDecrement => DispMove(Holds(id, DrainReclaim), PendingDown(TargetOf(s, id)))
    case DrainReclaim => DispMove(Free(DrainBatch), Freed(id))
  }

  /** One step of the dispatcher while it holds no event. */
  function FreeNext(c: Config, s: State, free: FreePc, m: Move): DispMove {
    match free
    case Loop => DispMove(Free(if s.stop then DrainScan(0) else Dequeue(false)), Nothing)
    case Dequeue(any) =>
      if s.stop || m.Empty? then DispMove(Free(EndBatch(any)), Nothing)
      else if m.Take? && m.id in s.ready then DispMove(Holds(m.id, TrySlot), Taken(m.id))
      else DispMove(Free(free), Nothing)
    case EndBatch(any) => DispMove(Free(if s.stop then DrainScan(0) else if any then Loop else IdleArm), Nothing)
    case IdleArm => DispMove(Free(IdleScan(0)), LatchTo(false))
    case IdleScan(k) =>
      DispMove(Free(if CellReady(s, k) then Loop else if k + 1 < c.cells then IdleScan(k + 1) else IdleWait),
               Nothing)
    case IdleWait => DispMove(Free(Loop), SignalTo(false))
    case DrainScan(k) =>
      DispMove(Free(if CellUsed(s, k) then DrainBatch else if k + 1 < c.cells then DrainScan(k + 1) else DrainIdle),
               Nothing)
    case DrainIdle =>
      DispMove(Free(if s.inflight != 0 || (c.atomicGuard && AnyCell(s)) then DrainBatch else Returned),
               Nothing)
    case DrainBatch =>
      if m.Take? && m.id in s.ready then DispMove(Holds(m.id, DrainDecrement), Taken(m.id))
      else DispMove(Free(if m.Empty? then DrainScan(0) else DrainWait), Nothing)
    case DrainWait => DispMove(Free(DrainScan(0)), SignalTo(false))
    case Returned => DispMove(Free(Returned), Nothing)
  }

  function DispNext(c: Config, s: State, m: Move): DispMove {
    match s.disp
    case Holds(id, hold) => HoldNext(s, id, hold)
    case Free(free) => FreeNext(c, s, free, m)
  }

  function DispMoved(s: State, d: DispMove): State {
    Apply(s.(disp := d.pc), d.effect)
  }

  // ---- stop request ---------------------------------------------------------------------

  function StopStep(s: State): State {
    s.(closed := s.closed || s.stopper.StopNotCalled?,
       stop := s.stop || s.stopper.StopStore?,
       signal := s.signal || s.stopper.StopSignal?,
       stopper := match s.stopper
                  case StopNotCalled => StopStore
                  case StopStore => StopSignal
                  case _ => StopDone)
  }

  // ---- runs -----------------------------------------------------------------------------

  /** A new submission is handed event `id` for target `t`. */
  function Spawned(s: State, id: Id, t: Target): State {
    s.(subs := s.subs[id := Sub(t, Entering(Lookup), NoArrival, 0)])
  }

  function Step(c: Config, s: State, l: Label): State {
    match l
    case Spawn(id, t) =>
      if id in s.subs then s else Spawned(s, id, t)
    case Submit(id, m) =>
      if id in s.subs then SubMoved(s, id, SubNext(c, s, id, s.subs[id], m)) else s
    case Dispatch(m) => DispMoved(s, DispNext(c, s, m))
    case RequestStop => StopStep(s)
  }

  function RunFrom(c: Config, s: State, schedule: seq<Label>): State
    decreases |schedule|
  {
    if schedule == [] then s
    else RunFrom(c, Step(c, s, schedule[0]), schedule[1..])
  }

  function Run(c: Config, schedule: seq<Label>): State {
    RunFrom(c, INITIAL, schedule)
  }
}
