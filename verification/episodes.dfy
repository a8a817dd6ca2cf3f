/** Overlap episodes of the arrival gate: exactly when an arrival is refused, and that every
    submission ends its reservation once. */
module Episodes {
  import opened Gate
  import opened Protocol
  import opened Spacing

  // ---- the current overlap episode ------------------------------------------------------

  /** The step from s to z reserves target t's window for submission `id`. */
  predicate Reserved(s: State, z: State, id: Id, t: Target) {
    && id in s.subs && s.subs[id].arrival.NoArrival?
    && id in z.subs && z.subs[id].target == t && z.subs[id].arrival.Holding?
  }

  /** An episode ends when the last hold leaves and grows with every reservation. */
  function EpisodeStep(s: State, l: Label, z: State, t: Target, ep: seq<Id>): seq<Id> {
    if GateOf(z, t).holds == 0 then []
    else if l.Submit? && Reserved(s, z, l.id, t) then ep + [l.id]
    else ep
  }

  function EpisodeFrom(c: Config, s: State, schedule: seq<Label>, t: Target, ep: seq<Id>): seq<Id>
    decreases |schedule|
  {
    if schedule == [] then ep
    else
      var z := Step(c, s, schedule[0]);
      EpisodeFrom(c, z, schedule[1..], t, EpisodeStep(s, schedule[0], z, t, ep))
  }

  /** The submissions that have reserved target t's window since its holds last left zero, oldest
      first. */
  function Episode(c: Config, schedule: seq<Label>, t: Target): seq<Id> {
    EpisodeFrom(c, INITIAL, schedule, t, [])
  }

  /** Submission `id` has an arrival at target t. */
  predicate Arrived(s: State, id: Id, t: Target) {
    id in s.subs && s.subs[id].target == t && !s.subs[id].arrival.NoArrival?
  }

  function StampOf(s: State, id: Id): nat
    requires id in s.subs && !s.subs[id].arrival.NoArrival?
  {
    s.subs[id].arrival.stamp
  }

  /** The episode is empty exactly when nothing is held, contains everybody who holds, is spaced
      out in order, and the gate's hold is the timestamp of its newest member. */
  ghost predicate EpisodeExact(c: Config, s: State, t: Target, ep: seq<Id>) {
    && (forall i :: 0 <= i < |ep| ==> Arrived(s, ep[i], t))
    && (ep == [] <==> GateOf(s, t).holds == 0)
    && (ep != [] ==> GateOf(s, t).hold == StampOf(s, ep[|ep| - 1]))
    && (forall id :: Arrived(s, id, t) && s.subs[id].arrival.Holding? ==> id in ep)
    && (forall i, j :: 0 <= i < j < |ep| ==> StampOf(s, ep[i]) + c.minArrival(t) <= StampOf(s, ep[j]))
  }

  /** Submission `id` takes a step that leaves its arrival as it was, or another target's. */
  lemma EpisodeKept(c: Config, s: State, z: State, t: Target, ep: seq<Id>)
    requires EpisodeExact(c, s, t, ep) && GateOf(z, t) == GateOf(s, t)
    requires forall i :: Arrived(s, i, t) ==> Arrived(z, i, t) && z.subs[i].arrival == s.subs[i].arrival
    requires forall i :: Arrived(z, i, t) ==> Arrived(s, i, t)
    ensures EpisodeExact(c, z, t, ep)
  {}

  lemma EpisodeReserve(c: Config, s: State, z: State, t: Target, ep: seq<Id>, id: Id, now: nat)
    requires EpisodeExact(c, s, t, ep) && id in s.subs && !Arrived(s, id, t)
    requires Admits(GateOf(s, t), now, c.minArrival(t)) && c.minArrival(t) != 0
    requires GateOf(z, t) == Reserve(GateOf(s, t), now)
    requires Arrived(z, id, t) && z.subs[id].arrival == Holding(now)
    requires forall i :: i != id && Arrived(s, i, t) ==> Arrived(z, i, t) && z.subs[i].arrival == s.subs[i].arrival
    requires forall i :: i != id && Arrived(z, i, t) ==> Arrived(s, i, t)
    ensures EpisodeExact(c, z, t, ep + [id])
  {
    var more := ep + [id];
    assert more[|ep|] == id;
    forall i | 0 <= i < |ep| ensures StampOf(s, ep[i]) + c.minArrival(t) <= now {
      assert StampOf(s, ep[i]) <= StampOf(s, ep[|ep| - 1]);
    }
    forall k | Arrived(z, k, t) && z.subs[k].arrival.Holding? ensures k in more {
      assert k != id ==> k in ep;
    }
  }

  lemma EpisodeEnd(c: Config, s: State, z: State, t: Target, ep: seq<Id>, id: Id)
    requires EpisodeExact(c, s, t, ep) && GateOf(s, t).holds != 0
    requires GateOf(z, t).holds == GateOf(s, t).holds - 1
    requires GateOf(z, t).holds != 0 ==> GateOf(z, t).hold == GateOf(s, t).hold
    requires GateExact(GateOf(z, t), LedgerOf(z, t))
    requires forall i :: Arrived(s, i, t) ==> Arrived(z, i, t) && StampOf(z, i) == StampOf(s, i)
    requires forall i :: Arrived(z, i, t) && z.subs[i].arrival.Holding? ==> Arrived(s, i, t) && s.subs[i].arrival.Holding?
    ensures EpisodeExact(c, z, t, if GateOf(z, t).holds == 0 then [] else ep)
  {
    if GateOf(z, t).holds == 0 {
      var hs := Holders(LedgerOf(z, t));
      assert hs == {};
      forall i | Arrived(z, i, t) ensures !z.subs[i].arrival.Holding? {
        assert i in LedgerOf(z, t) && i !in hs;
      }
    }
  }

  /** From s to z only submission `id` and the gate of its target changed. */
  ghost predicate OnlyMover(s: State, z: State, id: Id) {
    && id in s.subs && id in z.subs && z.subs[id].target == s.subs[id].target
    && (forall i :: i != id ==> (i in z.subs <==> i in s.subs))
    && (forall i :: i != id && i in s.subs ==> z.subs[i] == s.subs[i])
    && (forall t: Target :: t != s.subs[id].target ==> GateOf(z, t) == GateOf(s, t))
  }

  /** The mover's reservation and its gate, as ArrivalMove has it. */
  predicate Moved(min: nat, a: Arrival, g: GateState, a': Arrival, g': GateState) {
    || (a' == a && g' == g)
    || (a.NoArrival? && a'.Holding? && min != 0 && Admits(g, a'.stamp, min) && g' == Reserve(g, a'.stamp))
    || (a.Holding? && a' == Committed(a.stamp) && g' == Commit(g, a.stamp))
    || (a.Holding? && a' == RolledBack(a.stamp) && g' == Rollback(g))
  }

  lemma EpisodeMover(c: Config, s: State, z: State, id: Id, ep: seq<Id>)
    requires OnlyMover(s, z, id) && EpisodeExact(c, s, s.subs[id].target, ep)
    requires var t := s.subs[id].target;
             && GateExact(GateOf(s, t), LedgerOf(s, t)) && GateExact(GateOf(z, t), LedgerOf(z, t))
             && Moved(c.minArrival(t), s.subs[id].arrival, GateOf(s, t), z.subs[id].arrival, GateOf(z, t))
    ensures var t, a, a' := s.subs[id].target, s.subs[id].arrival, z.subs[id].arrival;
            EpisodeExact(c, z, t, if GateOf(z, t).holds == 0 then []
                                  else if a.NoArrival? && a'.Holding? then ep + [id] else ep)
  {
    var t, a, a' := s.subs[id].target, s.subs[id].arrival, z.subs[id].arrival;
    if a' == a {
      EpisodeKept(c, s, z, t, ep);
    } else if a'.Holding? {
      EpisodeReserve(c, s, z, t, ep, id, a'.stamp);
    } else {
      assert id in Holders(LedgerOf(s, t));
      EpisodeEnd(c, s, z, t, ep, id);
    }
  }

  lemma EpisodeSub(c: Config, s: State, z: State, id: Id, t: Target, ep: seq<Id>, m: Move)
    requires OnlyMover(s, z, id) && EpisodeExact(c, s, t, ep)
    requires var k := s.subs[id].target;
             && GateExact(GateOf(s, k), LedgerOf(s, k)) && GateExact(GateOf(z, k), LedgerOf(z, k))
             && Moved(c.minArrival(k), s.subs[id].arrival, GateOf(s, k), z.subs[id].arrival, GateOf(z, k))
    ensures EpisodeExact(c, z, t, EpisodeStep(s, Submit(id, m), z, t, ep))
  {
    if s.subs[id].target != t {
      EpisodeKept(c, s, z, t, ep);
    } else {
      EpisodeMover(c, s, z, id, ep);
    }
  }

  lemma MoverOf(c: Config, s: State, id: Id, v: SubMove)
    requires id in s.subs && ArrivalMove(c, s, s.subs[id], v)
    ensures var z, k := SubMoved(s, id, v), s.subs[id].target;
            && OnlyMover(s, z, id)
            && Moved(c.minArrival(k), s.subs[id].arrival, GateOf(s, k), z.subs[id].arrival, GateOf(z, k))
  {}

  lemma SameArrivals(c: Config, s: State, l: Label)
    requires !l.Submit? || l.id !in s.subs
    ensures var z := Step(c, s, l);
            && z.gates == s.gates
            && (forall i :: i in s.subs ==> i in z.subs && z.subs[i] == s.subs[i])
            && (forall i :: i in z.subs && i !in s.subs ==> z.subs[i].arrival.NoArrival?)
  {
    if l.Dispatch? {
      DispKeepsGates(c, s, l.move);
    }
  }

  lemma EpisodeOneStep(c: Config, s: State, l: Label, t: Target, ep: seq<Id>)
    requires GatesExact(c, s) && EpisodeExact(c, s, t, ep)
    ensures var z := Step(c, s, l); EpisodeExact(c, z, t, EpisodeStep(s, l, z, t, ep))
  {
    var z := Step(c, s, l);
    GatesStep(c, s, l);
    if l.Submit? && l.id in s.subs {
      var v := SubNext(c, s, l.id, s.subs[l.id], l.move);
      SubArrival(c, s, l.id, s.subs[l.id], l.move);
      MoverOf(c, s, l.id, v);
      var k := s.subs[l.id].target;
      assert GateExact(GateOf(s, k), LedgerOf(s, k)) && GateExact(GateOf(z, k), LedgerOf(z, k));
      EpisodeSub(c, s, z, l.id, t, ep, l.move);
    } else {
      SameArrivals(c, s, l);
      EpisodeKept(c, s, z, t, ep);
      assert !l.Submit? || !Reserved(s, z, l.id, t);
    }
  }

  lemma {:induction false} EpisodesFrom(c: Config, s: State, schedule: seq<Label>, t: Target, ep: seq<Id>)
    requires GatesExact(c, s) && EpisodeExact(c, s, t, ep)
    ensures EpisodeExact(c, RunFrom(c, s, schedule), t, EpisodeFrom(c, s, schedule, t, ep))
    decreases |schedule|
  {
    if schedule != [] {
      var z := Step(c, s, schedule[0]);
      GatesStep(c, s, schedule[0]);
      EpisodeOneStep(c, s, schedule[0], t, ep);
      EpisodesFrom(c, z, schedule[1..], t, EpisodeStep(s, schedule[0], z, t, ep));
    }
  }

  lemma RunEpisode(c: Config, schedule: seq<Label>, t: Target)
    ensures GatesExact(c, Run(c, schedule)) && EpisodeExact(c, Run(c, schedule), t, Episode(c, schedule, t))
  {
    GatesInitially(c);
    GatesFrom(c, INITIAL, schedule);
    EpisodesFrom(c, INITIAL, schedule, t, []);
  }

  // ---- exactly when an arrival is refused -----------------------------------------------

  /** The arrival that closes the window at `now`: the newest of the current episode while there
      is one, otherwise some committed arrival, lies less than `min` before it. */
  ghost predicate Closed(s: State, t: Target, ep: seq<Id>, now: nat, min: nat) {
    if ep != [] then Arrived(s, ep[|ep| - 1], t) && now < StampOf(s, ep[|ep| - 1]) + min
    else exists id :: Arrived(s, id, t) && s.subs[id].arrival.Committed? && now < StampOf(s, id) + min
  }

  lemma TooSoonExactly(c: Config, s: State, t: Target, ep: seq<Id>, now: nat)
    requires GatesExact(c, s) && EpisodeExact(c, s, t, ep) && c.minArrival(t) != 0
    ensures TooSoon(GateOf(s, t), now, c.minArrival(t)) <==> Closed(s, t, ep, now, c.minArrival(t))
  {
    var g, ledger, min := GateOf(s, t), LedgerOf(s, t), c.minArrival(t);
    assert GateExact(g, ledger);
    if ep == [] {
      if g.ever {
        var k :| StampAt(ledger, k, g.lastAdmit) && ledger[k].Committed?;
        assert Arrived(s, k, t) && StampOf(s, k) == g.lastAdmit;
      }
      forall id | Arrived(s, id, t) && s.subs[id].arrival.Committed?
        ensures g.ever && StampOf(s, id) <= g.lastAdmit
      {
        assert id in ledger;
      }
    }
  }

  /** At every point of every run a submission at a gated target is refused for its arrival at
      `now` exactly when the holds are saturated, or the newest reservation of the current overlap
      episode, or without one some committed arrival, lies less than the interval before. */
  lemma RefusedExactly(c: Config, schedule: seq<Label>, id: Id, now: nat)
    requires var s := Run(c, schedule); id in s.subs && s.subs[id].pc == Entering(ReserveArrival)
    ensures var s := Run(c, schedule);
            var t := s.subs[id].target;
            var ep := Episode(c, schedule, t);
            && (SubNext(c, s, id, s.subs[id], Stamp(now)).next.pc == Rejecting(DroppedRateLimit) <==>
                  GateOf(s, t).holds == MAX_HOLDS || Closed(s, t, ep, now, c.minArrival(t)))
  {
    var s := Run(c, schedule);
    var t := s.subs[id].target;
    RunEpisode(c, schedule, t);
    assert ArrivalOk(c, s.subs[id]);
    TooSoonExactly(c, s, t, Episode(c, schedule, t), now);
  }

  // ---- every reservation ends once ------------------------------------------------------

  /** What a step does to submission `id`'s reservation: take it, end it, or neither. */
  datatype Use = Takes | Ends | Neither

  function UseOf(c: Config, s: State, l: Label, id: Id): Use {
    if l.Submit? && l.id == id && id in s.subs then
      UseBy(SubNext(c, s, id, s.subs[id], l.move))
    else Neither
  }

  function UseBy(v: SubMove): Use {
    if !v.effect.GateTo? then Neither else if v.next.arrival.Holding? then Takes else Ends
  }

  /** How many steps of a run make the given use of the gate. */
  function Uses(c: Config, s: State, schedule: seq<Label>, id: Id, use: Use): nat
    decreases |schedule|
  {
    if schedule == [] then 0
    else
      (if UseOf(c, s, schedule[0], id) == use then 1 else 0)
      + Uses(c, Step(c, s, schedule[0]), schedule[1..], id, use)
  }

  predicate Has(s: State, id: Id) {
    id in s.subs && !s.subs[id].arrival.NoArrival?
  }

  predicate HasEnded(s: State, id: Id) {
    Has(s, id) && !s.subs[id].arrival.Holding?
  }

  function Number(b: bool): int {
    if b then 1 else 0
  }

  lemma UseMove(c: Config, s: State, u: Sub, v: SubMove)
    requires ArrivalMove(c, s, u, v)
    ensures Number(!v.next.arrival.NoArrival?) == Number(!u.arrival.NoArrival?) + Number(UseBy(v) == Takes)
    ensures Number(v.next.arrival.Committed? || v.next.arrival.RolledBack?)
            == Number(u.arrival.Committed? || u.arrival.RolledBack?) + Number(UseBy(v) == Ends)
  {}

  /** The two counts of submission `id` move by what the step uses. */
  predicate Counts(s: State, z: State, id: Id, use: Use) {
    && Number(Has(z, id)) == Number(Has(s, id)) + Number(use == Takes)
    && Number(HasEnded(z, id)) == Number(HasEnded(s, id)) + Number(use == Ends)
  }

  lemma UseSub(c: Config, s: State, mover: Id, v: SubMove, id: Id)
    requires mover in s.subs && ArrivalMove(c, s, s.subs[mover], v)
    ensures Counts(s, SubMoved(s, mover, v), id, if id == mover then UseBy(v) else Neither)
  {
    UseMove(c, s, s.subs[mover], v);
  }

  lemma UseStep(c: Config, s: State, l: Label, id: Id)
    requires GatesExact(c, s)
    ensures Counts(s, Step(c, s, l), id, UseOf(c, s, l, id))
  {
    if l.Submit? && l.id in s.subs {
      var v := SubNext(c, s, l.id, s.subs[l.id], l.move);
      assert ArrivalOk(c, s.subs[l.id]);
      SubArrival(c, s, l.id, s.subs[l.id], l.move);
      UseSub(c, s, l.id, v, id);
      assert Step(c, s, l) == SubMoved(s, l.id, v);
      assert UseOf(c, s, l, id) == if id == l.id then UseBy(v) else Neither;
    } else {
      SameArrivals(c, s, l);
    }
  }

  lemma {:induction false} UsesFrom(c: Config, s: State, schedule: seq<Label>, id: Id)
    requires GatesExact(c, s)
    ensures var z := RunFrom(c, s, schedule);
            && Number(Has(z, id)) == Number(Has(s, id)) + Uses(c, s, schedule, id, Takes)
            && Number(HasEnded(z, id)) == Number(HasEnded(s, id)) + Uses(c, s, schedule, id, Ends)
    decreases |schedule|
  {
    if schedule != [] {
      GatesStep(c, s, schedule[0]);
      UseStep(c, s, schedule[0], id);
      UsesFrom(c, Step(c, s, schedule[0]), schedule[1..], id);
    }
  }

  /** Along every run a submission reserves at most once, and one that has returned has ended what
      it reserved exactly once: by a commit if it was executed or queued, by a rollback if it was
      refused. */
  lemma ReservationEndsOnce(c: Config, schedule: seq<Label>, id: Id)
    requires var s := Run(c, schedule);
             id in s.subs && (s.subs[id].pc.Published? || s.subs[id].pc.Over?) && s.subs[id].pc.tail.Finished?
    ensures var s := Run(c, schedule);
            && Uses(c, INITIAL, schedule, id, Takes) == Uses(c, INITIAL, schedule, id, Ends) <= 1
            && (Uses(c, INITIAL, schedule, id, Takes) == 0 <==> s.subs[id].arrival.NoArrival?)
            && (Accepted(s.subs[id]) && Gated(c, s.subs[id].target) ==> s.subs[id].arrival.Committed?)
            && (!Accepted(s.subs[id]) ==> !s.subs[id].arrival.Committed?)
  {
    GatesInitially(c);
    GatesFrom(c, INITIAL, schedule);
    UsesFrom(c, INITIAL, schedule, id);
    assert ArrivalOk(c, Run(c, schedule).subs[id]);
  }
}
