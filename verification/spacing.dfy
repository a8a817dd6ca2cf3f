/** Arrival spacing: the per-target gates under any interleaving of reservations, commits and
    rollbacks made by the submit protocol. */
module Spacing {
  import opened Gate
  import opened Protocol

  predicate Gated(c: Config, t: Target) {
    c.admission && c.minArrival(t) != 0
  }

  predicate Apart(min: nat, a: nat, b: nat) {
    a + min <= b || b + min <= a
  }

  // ---- reservation life cycle -----------------------------------------------------------

  /** What a reservation looks like at each program counter: taken once, and ended once, by a
      commit on the two admitted outcomes and by a rollback on every refusal. */
  predicate ArrivalOk(c: Config, u: Sub) {
    var a, gated := u.arrival, Gated(c, u.target);
    match u.pc
    case Entering(e) =>
      if e.Eligible? || e.TryDirect? then Took(gated, a) else a.NoArrival? && (e.ReserveArrival? ==> gated)
    case Rejecting(_) => Took(gated, a) || a.NoArrival?
    case Published(t) => if t.CommitArrival? then Took(gated, a) else Kept(gated, a)
    case Over(Direct, t) => if t.CommitArrival? then Took(gated, a) else Kept(gated, a)
    case Over(Refused(_), t) =>
      && !t.CommitArrival? && !t.Wake? && !t.Signal?
      && (a.NoArrival? || (gated && if t.Finished? then a.RolledBack? else a.Holding?))
    case _ => Took(gated, a)
  }

  /** A gated submission holds its reservation; any other has none. */
  predicate Took(gated: bool, a: Arrival) {
    if gated then a.Holding? else a.NoArrival?
  }

  predicate Kept(gated: bool, a: Arrival) {
    if gated then a.Committed? else a.NoArrival?
  }

  ghost predicate ArrivalsOk(c: Config, s: State) {
    forall id :: id in s.subs ==> ArrivalOk(c, s.subs[id])
  }

  /** How one submission step may touch its reservation and its target's gate. */
  ghost predicate ArrivalMove(c: Config, s: State, u: Sub, v: SubMove) {
    var g, a, a', e := GateOf(s, u.target), u.arrival, v.next.arrival, v.effect;
    && v.next.target == u.target
    && (|| (a' == a && !e.GateTo?)
        || (a.NoArrival? && a'.Holding? && Gated(c, u.target) && Admits(g, a'.stamp, c.minArrival(u.target))
            && e == GateTo(u.target, Reserve(g, a'.stamp)))
        || (a.Holding? && a' == Committed(a.stamp) && e == GateTo(u.target, Commit(g, a.stamp)))
        || (a.Holding? && a' == RolledBack(a.stamp) && e == GateTo(u.target, Rollback(g))))
  }

  lemma EntryArrival(c: Config, s: State, id: Id, u: Sub, m: Move)
    requires u.pc.Entering? && ArrivalOk(c, u)
    ensures var v := EntryNext(c, s, id, u, u.pc.entry, m); ArrivalMove(c, s, u, v) && ArrivalOk(c, v.next)
  {}

  lemma TailArrival(c: Config, s: State, u: Sub, tail: TailPc)
    requires (u.pc.Published? || u.pc.Over?) && u.pc.tail == tail && ArrivalOk(c, u)
    ensures var v := TailNext(s, u, tail); ArrivalMove(c, s, u, v) && ArrivalOk(c, v.next)
  {}

  lemma SubArrival(c: Config, s: State, id: Id, u: Sub, m: Move)
    requires ArrivalOk(c, u)
    ensures var v := SubNext(c, s, id, u, m); ArrivalMove(c, s, u, v) && ArrivalOk(c, v.next)
  {
    match u.pc
    case Entering(_) => EntryArrival(c, s, id, u, m);
    case Published(tail) => TailArrival(c, s, u, tail);
    case Over(_, tail) => TailArrival(c, s, u, tail);
    case _ =>
  }

  // ---- one gate and the arrivals it has seen --------------------------------------------

  /** The arrivals of one target, by submission. */
  type Ledger = map<Id, Arrival>

  /** The arrival is in flight or admitted. */
  predicate Live(a: Arrival) {
    a.Holding? || a.Committed?
  }

  predicate StampAt(ledger: Ledger, id: Id, b: nat) {
    id in ledger && !ledger[id].NoArrival? && ledger[id].stamp == b
  }

  ghost function Holders(ledger: Ledger): set<Id> {
    set id | id in ledger && ledger[id].Holding?
  }

  /** The gate describes the ledger: it counts the reservations in flight, remembers the
      latest committed arrival, and its hold is the newest reservation of the current
      overlap, which no arrival in the ledger is later than. */
  ghost predicate GateExact(g: GateState, ledger: Ledger) {
    && g.holds == |Holders(ledger)|
    && (if g.holds == 0 then g.hold == 0 else exists id :: StampAt(ledger, id, g.hold))
    && (if g.ever then exists id :: StampAt(ledger, id, g.lastAdmit) && ledger[id].Committed? else g.lastAdmit == 0)
    && (forall id :: id in ledger && ledger[id].Committed? ==> g.ever && ledger[id].stamp <= g.lastAdmit)
    && (forall id :: id in ledger && Live(ledger[id]) && g.holds != 0 ==> ledger[id].stamp <= g.hold)
  }

  /** All arrivals in flight or admitted are at least `min` apart. */
  ghost predicate SpacedOut(min: nat, ledger: Ledger) {
    forall i, j :: i in ledger && j in ledger && i != j && Live(ledger[i]) && Live(ledger[j]) ==>
      Apart(min, ledger[i].stamp, ledger[j].stamp)
  }

  lemma ReserveExact(g: GateState, ledger: Ledger, id: Id, now: nat, min: nat)
    requires GateExact(g, ledger) && SpacedOut(min, ledger) && id !in ledger
    requires min != 0 && Admits(g, now, min)
    ensures GateExact(Reserve(g, now), ledger[id := Holding(now)]) && SpacedOut(min, ledger[id := Holding(now)])
  {
    var ledger' := ledger[id := Holding(now)];
    assert Holders(ledger') == Holders(ledger) + {id};
    assert StampAt(ledger', id, now);
    if g.ever {
      var k :| StampAt(ledger, k, g.lastAdmit) && ledger[k].Committed?;
      assert StampAt(ledger', k, g.lastAdmit);
    }
    forall i | i in ledger && Live(ledger[i]) ensures ledger[i].stamp + min <= now {
      if g.holds == 0 {
        assert i !in Holders(ledger);
      }
    }
  }

  /** Releasing a hold that leaves others in flight keeps the hold timestamp. */
  lemma EndExact(g: GateState, ledger: Ledger, id: Id, a: Arrival)
    requires GateExact(g, ledger) && id in ledger && ledger[id].Holding?
    requires a == RolledBack(ledger[id].stamp) || a == Committed(ledger[id].stamp)
    ensures GateExact(if a.Committed? then Commit(g, a.stamp) else Rollback(g), ledger[id := a])
  {
    var ledger' := ledger[id := a];
    assert Holders(ledger') == Holders(ledger) - {id} && id in Holders(ledger);
    var h :| StampAt(ledger, h, g.hold);
    assert StampAt(ledger', h, g.hold);
    assert StampAt(ledger', id, a.stamp);
    if g.ever {
      var k :| StampAt(ledger, k, g.lastAdmit) && ledger[k].Committed?;
      assert StampAt(ledger', k, g.lastAdmit);
    }
  }

  lemma EndSpaced(min: nat, ledger: Ledger, id: Id, a: Arrival)
    requires SpacedOut(min, ledger) && id in ledger && ledger[id].Holding?
    requires a == RolledBack(ledger[id].stamp) || a == Committed(ledger[id].stamp)
    ensures SpacedOut(min, ledger[id := a])
  {}

  ghost function CommittedStamps(ledger: Ledger): set<nat> {
    set id | id in ledger && ledger[id].Committed? :: ledger[id].stamp
  }

  /** Once the last reservation has left, the gate is a function of the committed arrivals
      alone, whatever was reserved and rolled back in between. */
  lemma QuietGateIsItsCommits(g: GateState, ledger: Ledger, g': GateState, ledger': Ledger)
    requires GateExact(g, ledger) && GateExact(g', ledger')
    requires Holders(ledger) == {} && Holders(ledger') == {}
    requires CommittedStamps(ledger) == CommittedStamps(ledger')
    ensures g == g'
  {
    if g.ever {
      assert g.lastAdmit in CommittedStamps(ledger);
      var k :| k in ledger' && ledger'[k].Committed? && ledger'[k].stamp == g.lastAdmit;
    }
    if g'.ever {
      assert g'.lastAdmit in CommittedStamps(ledger');
      var k :| k in ledger && ledger[k].Committed? && ledger[k].stamp == g'.lastAdmit;
    }
  }

  // ---- all gates along a run ------------------------------------------------------------

  ghost function LedgerOf(s: State, t: Target): Ledger {
    map id | id in s.subs && s.subs[id].target == t && !s.subs[id].arrival.NoArrival? :: s.subs[id].arrival
  }

  ghost predicate GatesExact(c: Config, s: State) {
    && ArrivalsOk(c, s)
    && (forall t: Target :: GateExact(GateOf(s, t), LedgerOf(s, t)) && SpacedOut(c.minArrival(t), LedgerOf(s, t)))
  }

  lemma GatesSub(c: Config, s: State, id: Id, v: SubMove)
    requires GatesExact(c, s) && id in s.subs
    requires ArrivalMove(c, s, s.subs[id], v) && ArrivalOk(c, v.next)
    ensures GatesExact(c, SubMoved(s, id, v))
  {
    var s' := SubMoved(s, id, v);
    var u := s.subs[id];
    forall t: Target ensures GateExact(GateOf(s', t), LedgerOf(s', t)) && SpacedOut(c.minArrival(t), LedgerOf(s', t)) {
      assert GateExact(GateOf(s, t), LedgerOf(s, t)) && SpacedOut(c.minArrival(t), LedgerOf(s, t));
      if t == u.target && v.effect.GateTo? {
        assert LedgerOf(s', t) == LedgerOf(s, t)[id := v.next.arrival];
        if v.next.arrival.Holding? {
          ReserveExact(GateOf(s, t), LedgerOf(s, t), id, v.next.arrival.stamp, c.minArrival(t));
        } else {
          EndExact(GateOf(s, t), LedgerOf(s, t), id, v.next.arrival);
          EndSpaced(c.minArrival(t), LedgerOf(s, t), id, v.next.arrival);
        }
      } else {
        assert LedgerOf(s', t) == LedgerOf(s, t);
      }
    }
  }

  lemma GatesSame(c: Config, s: State, s': State)
    requires GatesExact(c, s) && s'.subs == s.subs && s'.gates == s.gates
    ensures GatesExact(c, s')
  {
    forall t: Target ensures GateExact(GateOf(s', t), LedgerOf(s', t)) && SpacedOut(c.minArrival(t), LedgerOf(s', t)) {
      assert LedgerOf(s', t) == LedgerOf(s, t) && GateExact(GateOf(s, t), LedgerOf(s, t));
    }
  }

  lemma GatesSpawn(c: Config, s: State, id: Id, k: Target)
    requires GatesExact(c, s) && id !in s.subs
    ensures GatesExact(c, Spawned(s, id, k))
  {
    var s' := Spawned(s, id, k);
    forall t: Target ensures GateExact(GateOf(s', t), LedgerOf(s', t)) && SpacedOut(c.minArrival(t), LedgerOf(s', t)) {
      assert LedgerOf(s', t) == LedgerOf(s, t) && GateExact(GateOf(s, t), LedgerOf(s, t));
    }
  }

  lemma DispKeepsGates(c: Config, s: State, m: Move)
    ensures !DispNext(c, s, m).effect.GateTo?
  {}

  lemma GatesStep(c: Config, s: State, l: Label)
    requires GatesExact(c, s)
    ensures GatesExact(c, Step(c, s, l))
  {
    if l.Spawn? {
      if l.id !in s.subs { GatesSpawn(c, s, l.id, l.target); }
    } else if l.Submit? {
      if l.id in s.subs {
        SubArrival(c, s, l.id, s.subs[l.id], l.move);
        GatesSub(c, s, l.id, SubNext(c, s, l.id, s.subs[l.id], l.move));
      }
    } else if l.Dispatch? {
      DispKeepsGates(c, s, l.move);
      GatesSame(c, s, DispMoved(s, DispNext(c, s, l.move)));
    } else {
      GatesSame(c, s, StopStep(s));
    }
  }

  lemma {:induction false} GatesFrom(c: Config, s: State, schedule: seq<Label>)
    requires GatesExact(c, s)
    ensures GatesExact(c, RunFrom(c, s, schedule))
    decreases |schedule|
  {
    if schedule != [] {
      GatesStep(c, s, schedule[0]);
      GatesFrom(c, Step(c, s, schedule[0]), schedule[1..]);
    }
  }

  lemma GatesInitially(c: Config)
    ensures GatesExact(c, INITIAL)
  {
    forall t: Target ensures GateExact(GateOf(INITIAL, t), LedgerOf(INITIAL, t)) {
      assert LedgerOf(INITIAL, t) == map[] && Holders(map[]) == {};
    }
  }

  /** The submission was executed in place or queued, and has returned. */
  predicate Accepted(u: Sub) {
    u.pc == Published(Finished) || u.pc == Over(Direct, Finished)
  }

  /** Along every schedule, any two submissions to a target with a nonzero minimum interval
      that returned Direct or Queued carry timestamps at least that interval apart. */
  lemma AcceptedArrivalsApart(c: Config, schedule: seq<Label>, i: Id, j: Id)
    requires var s := Run(c, schedule);
             && i in s.subs && j in s.subs && i != j
             && s.subs[i].target == s.subs[j].target && Gated(c, s.subs[i].target)
             && Accepted(s.subs[i]) && Accepted(s.subs[j])
    ensures var s := Run(c, schedule);
            && s.subs[i].arrival.Committed? && s.subs[j].arrival.Committed?
            && Apart(c.minArrival(s.subs[i].target), s.subs[i].arrival.stamp, s.subs[j].arrival.stamp)
  {
    GatesInitially(c);
    GatesFrom(c, INITIAL, schedule);
    var s := Run(c, schedule);
    var ledger := LedgerOf(s, s.subs[i].target);
    assert SpacedOut(c.minArrival(s.subs[i].target), ledger);
    assert ArrivalOk(c, s.subs[i]) && ArrivalOk(c, s.subs[j]);
    assert i in ledger && j in ledger;
  }
}
