/** The per-target minimum-arrival-interval gate as a value (include/coact/admission.hpp).
    Every gate operation runs inside one critical section, so each one is a single
    atomic step of the submit protocol. */
module Gate {
  const MAX_HOLDS: nat := 0xFFFF

  /** The four plain fields of the gate: the last committed arrival, the newest reservation
      in flight, the number of reservations in flight, and whether anything ever committed. */
  datatype GateState = GateState(lastAdmit: nat, hold: nat, holds: nat, ever: bool)

  const OPEN: GateState := GateState(0, 0, 0, false)

  /** The timestamp a new arrival is measured against. */
  function Barrier(g: GateState): nat {
    if g.holds != 0 then g.hold else g.lastAdmit
  }

  /** The interval rule refuses an arrival at `now`: it lies behind the barrier or less than
      `min` after it. */
  predicate TooSoon(g: GateState, now: nat, min: nat) {
    && min != 0
    && (g.holds != 0 || g.ever)
    && (now < Barrier(g) || now - Barrier(g) < min)
  }

  predicate Admits(g: GateState, now: nat, min: nat) {
    !TooSoon(g, now, min) && g.holds != MAX_HOLDS
  }

  function Reserve(g: GateState, now: nat): GateState {
    g.(hold := now, holds := g.holds + 1)
  }

  function ReleaseHold(g: GateState): GateState {
    if g.holds == 0 then g
    else if g.holds == 1 then g.(holds := 0, hold := 0)
    else g.(holds := g.holds - 1)
  }

  function Commit(g: GateState, now: nat): GateState {
    ReleaseHold(g.(ever := true, lastAdmit := if now > g.lastAdmit then now else g.lastAdmit))
  }

  function Rollback(g: GateState): GateState {
    ReleaseHold(g)
  }
}
