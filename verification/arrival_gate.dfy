/** The gate and reservation objects of include/coact/admission.hpp, proved against the gate
    values of module Gate. Each method is one critical section. */
module ArrivalGates {
  import opened Gate

  class ArrivalGate {
    var lastAdmit: nat
    var hold: nat
    var holds: nat
    var ever: bool

    ghost function View(): GateState
      reads this
    {
      GateState(lastAdmit, hold, holds, ever)
    }

    constructor ()
      ensures View() == OPEN
    {
      lastAdmit, hold, holds, ever := 0, 0, 0, false;
    }

    /** Record the arrival as in flight when the interval rule and the hold count allow it. */
    method TryReserve(now: nat, min: nat) returns (ok: bool)
      modifies this
      ensures ok == Admits(old(View()), now, min)
      ensures View() == if ok then Reserve(old(View()), now) else old(View())
    {
      var held := holds != 0;
      var barrier := if held then hold else lastAdmit;
      if min != 0 && (held || ever) {
        if now < barrier || now - barrier < min {
          return false;
        }
      }
      if holds == MAX_HOLDS {
        return false;
      }
      hold, holds := now, holds + 1;
      return true;
    }

    method Release()
      modifies this
      ensures View() == ReleaseHold(old(View()))
    {
      if holds != 0 {
        holds := holds - 1;
        if holds == 0 {
          hold := 0;
        }
      }
    }

    method CommitAt(now: nat)
      modifies this
      ensures View() == Commit(old(View()), now)
    {
      ever := true;
      if now > lastAdmit {
        lastAdmit := now;
      }
      Release();
    }

    method RollBack()
      modifies this
      ensures View() == Rollback(old(View()))
    {
      Release();
    }
  }

  /** The handle of one reservation; inert once it has ended. */
  class ArrivalReservation {
    var gate: ArrivalGate?
    var now: nat

    constructor ()
      ensures gate == null
    {
      gate, now := null, 0;
    }

    /** A handle ends its reservation at most once, whichever of the two comes first. */
    method Confirm()
      modifies this, gate
      ensures gate == null
      ensures old(gate) != null ==> old(gate).View() == Commit(old(gate.View()), old(now))
    {
      if gate != null {
        gate.CommitAt(now);
        gate := null;
      }
    }

    method Cancel()
      modifies this, gate
      ensures gate == null && now == old(now)
      ensures old(gate) != null ==> old(gate).View() == Rollback(old(gate.View()))
    {
      if gate != null {
        gate.RollBack();
        gate := null;
      }
    }

    /** Take over a fresh reservation; what was held before is handed back first. */
    method Hold(taken: ArrivalGate, at: nat)
      modifies this, gate
      ensures gate == taken && now == at
      ensures old(gate) != null ==> old(gate).View() == Rollback(old(gate.View()))
    {
      Cancel();
      gate, now := taken, at;
    }
  }

  /** Reserve a window: without an interval rule the handle is inert, a refusal leaves no handle
      behind, and otherwise the handle owns exactly the one new reservation. Whatever the handle
      held before is handed back. */
  method ReserveWindow(gate: ArrivalGate, min: nat, now: nat, handle: ArrivalReservation) returns (ok: bool)
    modifies gate, handle, handle.gate
    ensures ok == (min == 0 || Admits(old(gate.View()), now, min))
    ensures var g := if min != 0 && ok then Reserve(old(gate.View()), now) else old(gate.View());
            gate.View() == if old(handle.gate) == gate then Rollback(g) else g
    ensures handle.gate == if min != 0 && ok then gate else null
    ensures min != 0 && ok ==> handle.now == now
    ensures old(handle.gate) != null && old(handle.gate) != gate ==>
              old(handle.gate).View() == Rollback(old(handle.gate.View()))
  {
    if min == 0 {
      handle.Cancel();
      return true;
    }
    ok := gate.TryReserve(now, min);
    if !ok {
      handle.Cancel();
      return false;
    }
    handle.Hold(gate, now);
  }
}
