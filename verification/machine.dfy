/** The state machine object itself: init and dispatch as the loops of include/coact/hsm.hpp,
    proved against the rules of module Hsm. */
module Machine {
  import opened Topology
  import opened Hsm

  datatype Outcome = Unhandled | Handled | Fault

  /** Which ancestor fired which row, and the boundary of the transition. */
  datatype How = How(k: nat, i: nat, b: int)

  /** The parent of x is not below x. */
  lemma NotParentOf(ns: Nodes, s: int, x: int)
    requires Forest(ns) && InRange(ns, s) && x in Chain(ns, s)
    ensures s != ns[x].parent
  {
    ChainWithin(ns, s, x);
    assert Chain(ns, x)[1..] == Chain(ns, ns[x].parent);
  }

  lemma BoundarySuffix(ns: Nodes, t: int, b: int)
    requires Forest(ns) && Maybe(ns, t) && Maybe(ns, b) && AtOrAbove(ns, t, b)
    ensures |Chain(ns, b)| <= |Chain(ns, t)|
    ensures Chain(ns, b) == Chain(ns, t)[|Chain(ns, t)| - |Chain(ns, b)|..]
  {
    if b != -1 {
      var i :| 0 <= i < |Chain(ns, t)| && Chain(ns, t)[i] == b;
      ChainSuffix(ns, t, i);
    }
  }

  lemma SameChain(ns: Nodes, a: int, b: int)
    requires Forest(ns) && Maybe(ns, a) && Maybe(ns, b) && Chain(ns, a) == Chain(ns, b)
    ensures a == b
  {
    assert a >= 0 ==> Chain(ns, a)[0] == a;
    assert b >= 0 ==> Chain(ns, b)[0] == b;
  }

  /** The ancestor of t one level below `at` is a child of `at`. */
  lemma ChildOnPath(ns: Nodes, t: int, level: nat, at: int, s: int, b: int)
    requires Forest(ns) && Maybe(ns, t) && Maybe(ns, at) && Maybe(ns, s) && Maybe(ns, b)
    requires |Chain(ns, b)| < level <= |Chain(ns, t)|
    requires Chain(ns, at) == Chain(ns, t)[|Chain(ns, t)| - (level - 1)..]
    requires Chain(ns, s) == Chain(ns, t)[|Chain(ns, t)| - level..]
    ensures InRange(ns, s) && ns[s].parent == at && s != b
  {
    assert Chain(ns, s)[1..] == Chain(ns, at);
    assert s >= 0;
    assert Chain(ns, s)[1..] == Chain(ns, ns[s].parent);
    SameChain(ns, ns[s].parent, at);
  }

  // ---- the loops of the transition path --------------------------------------------------

  lemma ExitsStep(ns: Nodes, s: int, b: int)
    requires Forest(ns) && InRange(ns, s) && s != b
    ensures Exits(UpTo(ns, s, b)) == [Exited(s)] + Exits(UpTo(ns, ns[s].parent, b))
  {
    assert UpTo(ns, s, b)[1..] == UpTo(ns, ns[s].parent, b);
  }

  lemma EntersStep(ns: Nodes, b: int, s: int)
    requires Forest(ns) && InRange(ns, s) && s != b
    ensures Enters(Path(ns, b, s)) == Enters(Path(ns, b, ns[s].parent)) + [Entered(s)]
  {
    assert Path(ns, b, s) == Path(ns, b, ns[s].parent) + [s];
  }

  lemma InitialStep(ns: Nodes, s: int)
    requires WellFormed(ns) && InRange(ns, s) && ns[s].child != -1
    ensures InRange(ns, ns[s].child)
    ensures InitialPath(ns, s) == [ns[s].child] + InitialPath(ns, ns[s].child)
  {
    assert ChildOk(ns, s);
  }

  lemma InitialEnd(ns: Nodes, s: int)
    requires WellFormed(ns) && InRange(ns, s) && ns[s].child < 0
    ensures InitialPath(ns, s) == []
  {
    assert ChildOk(ns, s);
  }

  lemma UpToStep(ns: Nodes, s: int, b: int)
    requires Forest(ns) && Maybe(ns, s) && AtOrAbove(ns, s, b) && s != b
    ensures InRange(ns, s) && AtOrAbove(ns, ns[s].parent, b)
    ensures UpTo(ns, s, b) == [s] + UpTo(ns, ns[s].parent, b)
  {
  }

  /** exit_to_lca: leave the active states below the boundary, innermost first. */
  method ExitTo(ns: Nodes, current: int, boundary: int) returns (calls: seq<Call>)
    requires Forest(ns) && Maybe(ns, current) && AtOrAbove(ns, current, boundary)
    ensures calls == Exits(UpTo(ns, current, boundary))
  {
    var state := current;
    calls := [];
    ghost var path := UpTo(ns, current, boundary);
    while state != boundary
      invariant Maybe(ns, state) && AtOrAbove(ns, state, boundary)
      invariant |calls| <= |path| && path[|calls|..] == UpTo(ns, state, boundary)
      invariant calls == Exits(path)[..|calls|]
      decreases |path| - |calls|
    {
      UpToStep(ns, state, boundary);
      assert path[|calls|] == state;
      calls := calls + [Exited(state)];
      state := ns[state].parent;
    }
    assert |calls| == |path|;
  }

  /** The exit loop of a self transition: leave up to and including the source. */
  method ExitThrough(ns: Nodes, current: int, source: int) returns (calls: seq<Call>)
    requires Forest(ns) && InRange(ns, current) && source in Chain(ns, current)
    ensures calls == Exits(UpTo(ns, current, ns[source].parent))
  {
    var state, done := current, false;
    calls := [];
    ghost var b := ns[source].parent;
    while !done
      invariant Maybe(ns, state)
      invariant if done then state == b else source in Chain(ns, state)
      invariant Exits(UpTo(ns, current, b)) == calls + Exits(UpTo(ns, state, b))
      decreases |Chain(ns, state)|
    {
      NotParentOf(ns, state, source);
      ExitsStep(ns, state, b);
      calls := calls + [Exited(state)];
      done := state == source;
      state := ns[state].parent;
    }
  }

  /** enter_path: enter the states below the boundary down to the target, outermost first. */
  method EnterPath(ns: Nodes, boundary: int, target: int) returns (calls: seq<Call>)
    requires Forest(ns) && InRange(ns, target)
    requires Maybe(ns, boundary) && AtOrAbove(ns, target, boundary)
    ensures calls == Enters(Path(ns, boundary, target))
  {
    calls := [];
    var low := ChainDepth(ns, boundary);
    var high := ChainDepth(ns, target);
    var level := low + 1;
    ghost var at := boundary;
    BoundarySuffix(ns, target, boundary);
    while level <= high
      invariant low < level <= high + 1 && Maybe(ns, at)
      invariant Chain(ns, at) == Chain(ns, target)[high - (level - 1)..]
      invariant calls == Enters(Path(ns, boundary, at))
    {
      var state := AncestorAtDepth(ns, target, level);
      ChildOnPath(ns, target, level, at, state, boundary);
      EntersStep(ns, boundary, state);
      calls := calls + [Entered(state)];
      at := state;
      level := level + 1;
    }
    SameChain(ns, at, target);
  }

  /** enter_initial_descendants: follow the initial children, at most maxDepth of them; one
      more is an assertion failure. */
  method EnterInitial(ns: Nodes, maxDepth: nat, s: int)
    returns (ok: bool, leaf: int, calls: seq<Call>)
    requires WellFormed(ns) && InRange(ns, s)
    ensures ok <==> |InitialPath(ns, s)| <= maxDepth
    ensures ok ==> leaf == Leaf(ns, s) && calls == Enters(InitialPath(ns, s))
    ensures !ok ==> calls == Enters(InitialPath(ns, s))[..maxDepth]
  {
    leaf, ok := s, true;
    calls := [];
    var hops := 0;
    ghost var path := InitialPath(ns, s);
    while ns[leaf].child >= 0
      invariant InRange(ns, leaf) && hops <= |path| && hops <= maxDepth
      invariant path[hops..] == InitialPath(ns, leaf)
      invariant leaf == if hops == 0 then s else path[hops - 1]
      invariant calls == Enters(path)[..hops]
      decreases |path| - hops
    {
      var child := ns[leaf].child;
      InitialStep(ns, leaf);
      assert path[hops] == child;
      if hops >= maxDepth {
        return false, leaf, calls;
      }
      calls := calls + [Entered(child)];
      leaf := child;
      hops := hops + 1;
    }
    InitialEnd(ns, leaf);
    assert hops == |path|;
  }

  // ---- the machine ----------------------------------------------------------------------

  /** find_transition: the first row of the state that matches the signal and whose guard
      passes, or -1. */
  method FindTransition<C>(t: Table<C>, ctx: C, evt: Event, source: int) returns (row: int)
    ensures -1 <= row < |t.rows|
    ensures row >= 0 ==> FirstCandidate(t, ctx, evt, source, row)
    ensures row == -1 ==> NoCandidate(t, ctx, evt, source)
  {
    var i := 0;
    while i < |t.rows|
      invariant 0 <= i <= |t.rows|
      invariant forall j :: 0 <= j < i ==> !Candidate(t, ctx, evt, source, j)
    {
      var r := t.rows[i];
      if r.source == source && r.signal == evt.signal && (r.guard.Guard? ==> r.guard.holds(ctx, evt)) {
        return i;
      }
      i := i + 1;
    }
    return -1;
  }

  /** The upward search of dispatch: from the leaf, at most maxDepth parent hops. */
  method FindFiring<C>(t: Table<C>, ctx: C, evt: Event, current: int) returns (source: int, row: int, ghost k: nat)
    requires ValidTable(t) && InRange(t.nodes, current)
    ensures -1 <= row < |t.rows|
    ensures row == -1 ==> Ignored(t, ctx, evt, current)
    ensures row >= 0 ==> Fires(t, ctx, evt, current, k, row) && source == Chain(t.nodes, current)[k]
  {
    source := current;
    var hops := 0;
    while true
      invariant 0 <= hops < |Chain(t.nodes, current)| && hops <= t.maxDepth
      invariant source == Chain(t.nodes, current)[hops]
      invariant forall j :: 0 <= j < hops ==> NoCandidate(t, ctx, evt, Chain(t.nodes, current)[j])
      decreases |Chain(t.nodes, current)| - hops
    {
      row := FindTransition(t, ctx, evt, source);
      if row >= 0 {
        return source, row, hops;
      }
      NextOnChain(t.nodes, current, hops);
      var parent := t.nodes[source].parent;
      if parent < 0 {
        return source, -1, 0;
      }
      if hops >= t.maxDepth {
        return source, -1, 0;
      }
      source := parent;
      hops := hops + 1;
    }
  }

  lemma NextOnChain(ns: Nodes, s: int, i: nat)
    requires Forest(ns) && Maybe(ns, s) && i < |Chain(ns, s)|
    ensures if i + 1 < |Chain(ns, s)| then ns[Chain(ns, s)[i]].parent == Chain(ns, s)[i + 1]
            else ns[Chain(ns, s)[i]].parent == -1
  {
    ChainSuffix(ns, s, i);
    var a := Chain(ns, s)[i];
    assert Chain(ns, a) == [a] + Chain(ns, ns[a].parent);
    assert i + 1 < |Chain(ns, s)| ==> Chain(ns, s)[i..][1] == Chain(ns, s)[i + 1];
  }

  /** The boundary of an external transition. */
  method FindBoundary(ns: Nodes, source: int, target: int) returns (b: int)
    requires Forest(ns) && InRange(ns, source) && InRange(ns, target)
    ensures IsBoundary(ns, source, External, target, b)
  {
    var lca := FindLca(ns, source, target);
    b := if lca == source || lca == target then ns[lca].parent else lca;
  }

  /** execute_transition, as the calls it makes and the state it leads to. */
  method Execute<C>(t: Table<C>, current: int, source: int, i: nat, ghost k: nat)
    returns (ok: bool, next: int, calls: seq<Call>, b: int)
    requires ValidTable(t) && InRange(t.nodes, current) && i < |t.rows|
    requires k < |Chain(t.nodes, current)| && source == Chain(t.nodes, current)[k]
    ensures ok ==> Transitions(t, current, k, i, b, calls, next)
    ensures !ok ==> Faults(t, current, k, i, b, calls)
  {
    var ns, row := t.nodes, t.rows[i];
    b := -1;
    if row.kind == Internal {
      return true, current, [Acted(i)], b;
    }
    var target := TargetOf(row, source);
    var out, down;
    if row.kind == Self {
      b := ns[source].parent;
      out := ExitThrough(ns, current, source);
      down := [Entered(source)];
      assert Path(ns, b, source) == [source] by {
        NotParentOf(ns, source, source);
      }
      assert down == Enters([source]);
    } else {
      if target < 0 || target >= |ns| {
        return false, current, [], b;
      }
      b := FindBoundary(ns, source, target);
      BoundaryAbove(ns, current, k, External, target, b);
      out := ExitTo(ns, current, b);
      down := EnterPath(ns, b, target);
    }
    var more;
    ok, next, more := EnterInitial(ns, t.maxDepth, target);
    calls := out + [Acted(i)] + down + more;
    assert CallsToTarget(ns, current, i, b, target) == out + [Acted(i)] + down;
    assert !ok ==> more == Enters(InitialPath(ns, target)[..t.maxDepth]);
  }

  /** The body of init. */
  method EnterFromRoot(ns: Nodes, maxDepth: nat, initial: int) returns (ok: bool, leaf: int, calls: seq<Call>)
    requires WellFormed(ns) && InRange(ns, initial)
    ensures ok <==> |InitialPath(ns, initial)| <= maxDepth
    ensures ok ==> leaf == Leaf(ns, initial) && calls == InitCalls(ns, initial)
  {
    var down := EnterPath(ns, -1, initial);
    var more;
    ok, leaf, more := EnterInitial(ns, maxDepth, initial);
    calls := down + more;
  }

  class StateMachine<C> {
    const table: Table<C>
    var current: int
    ghost var trace: seq<Call>

    /** Before init nothing has been done; afterwards the active states are the parent chain
        of the current one. */
    ghost predicate Valid()
      reads this
    {
      && ValidTable(table)
      && Maybe(table.nodes, current)
      && Configured(table.nodes, trace, current)
    }

    constructor (t: Table<C>)
      requires ValidTable(t)
      ensures Valid() && table == t && current == -1 && trace == []
    {
      table := t;
      current := -1;
      trace := [];
    }

    /** Enter the initial state from the root down and descend to its initial leaf. An initial
        state outside the table changes nothing. A second init leaves no state first, so only
        the first one is followed by a configured machine. */
    method Init() returns (ok: bool)
      requires Valid()
      modifies this
      ensures !InRange(table.nodes, table.initial) ==> ok && current == old(current) && trace == old(trace)
      ensures InRange(table.nodes, table.initial) ==>
                ok == (|InitialPath(table.nodes, table.initial)| <= table.maxDepth)
      ensures InRange(table.nodes, table.initial) && ok ==>
                && current == Leaf(table.nodes, table.initial)
                && trace == old(trace) + InitCalls(table.nodes, table.initial)
      ensures ok && old(current) == -1 ==> Valid()
    {
      if table.initial < 0 || table.initial >= |table.nodes| {
        return true;
      }
      var leaf, calls;
      ok, leaf, calls := EnterFromRoot(table.nodes, table.maxDepth, table.initial);
      trace := trace + calls;
      if ok {
        current := leaf;
        InitConfigures(table.nodes, table.initial);
        ReplayConcat(table.nodes, Active([]), old(trace), calls);
      }
    }

    /** Dispatch one event. */
    method Dispatch(ctx: C, evt: Event) returns (r: Outcome, ghost how: How, ghost calls: seq<Call>)
      requires Valid()
      modifies this
      ensures trace == old(trace) + calls
      ensures r.Unhandled? ==> current == old(current) && calls == []
      ensures r.Unhandled? && current >= 0 ==> Ignored(table, ctx, evt, current)
      ensures !r.Unhandled? ==> old(current) >= 0 && Fires(table, ctx, evt, old(current), how.k, how.i)
      ensures r.Handled? ==> Transitions(table, old(current), how.k, how.i, how.b, calls, current)
      ensures r.Fault? ==> Faults(table, old(current), how.k, how.i, how.b, calls) && current == old(current)
      ensures !r.Fault? ==> Valid()
    {
      how, calls := How(0, 0, -1), [];
      if current < 0 {
        return Unhandled, how, calls;
      }
      var source, row;
      ghost var k;
      source, row, k := FindFiring(table, ctx, evt, current);
      if row < 0 {
        return Unhandled, how, calls;
      }
      var ok, next, made, b := Execute(table, current, source, row, k);
      how, calls := How(k, row, b), made;
      trace := trace + made;
      if ok {
        TransitionKeepsConfiguration(table, current, k, row, b, made, next);
        ReplayConcat(table.nodes, Active([]), old(trace), made);
        current := next;
        return Handled, how, calls;
      }
      return Fault, how, calls;
    }
  }
}
