/** The hierarchical state machine: which transition an event fires, which states it leaves and
    enters in which order, and the active configuration (include/coact/hsm.hpp). */
module Hsm {
  import opened Topology

  datatype Kind = External | Internal | Self

  datatype Event = Event(signal: nat, payload: int)

  /** A guard reads the application's context and the event. */
  datatype Guard<!C> = NoGuard | Guard(holds: (C, Event) -> bool)

  datatype Row<!C> = Row(source: int, signal: nat, target: int, kind: Kind, guard: Guard<C>)

  /** The static tables. What the entry, exit and transition actions do to the application's
      context is theirs; the machine decides which of them run and in which order. */
  datatype Table<!C> = Table(nodes: Nodes, rows: seq<Row<C>>, initial: int, maxDepth: nat)

  ghost predicate ValidTable<C>(t: Table<C>) {
    WellFormed(t.nodes)
  }

  /** One call into the application: the exit action of a state, the action of a row, the entry
      action of a state. */
  datatype Call = Exited(state: int) | Acted(row: nat) | Entered(state: int)

  // ---- paths through the topology -------------------------------------------------------

  /** The states from s upward, stopping before `stop`. */
  ghost function UpTo(ns: Nodes, s: int, stop: int): (path: seq<int>)
    requires Forest(ns) && Maybe(ns, s)
    ensures forall i :: 0 <= i < |path| ==> InRange(ns, path[i])
    decreases |Chain(ns, s)|
  {
    if s == stop || s == -1 then [] else [s] + UpTo(ns, ns[s].parent, stop)
  }

  /** The states below `stop` down to t, outermost first. */
  ghost function Path(ns: Nodes, stop: int, t: int): (path: seq<int>)
    requires Forest(ns) && Maybe(ns, t)
    ensures forall i :: 0 <= i < |path| ==> InRange(ns, path[i])
    decreases |Chain(ns, t)|
  {
    if t == stop || t == -1 then [] else Path(ns, stop, ns[t].parent) + [t]
  }

  /** The initial descendants of s, outermost first. */
  ghost function InitialPath(ns: Nodes, s: int): (path: seq<int>)
    requires WellFormed(ns) && InRange(ns, s)
    ensures forall i :: 0 <= i < |path| ==> InRange(ns, path[i])
    decreases |ns| - |Chain(ns, s)|
  {
    var child := ns[s].child;
    if child == -1 then []
    else
      assert ChildOk(ns, s);
      ChainBounded(ns, child);
      [child] + InitialPath(ns, child)
  }

  /** Where the initial descent from s ends. */
  ghost function Leaf(ns: Nodes, s: int): (leaf: int)
    requires WellFormed(ns) && InRange(ns, s)
    ensures InRange(ns, leaf)
  {
    var path := InitialPath(ns, s);
    if path == [] then s else path[|path| - 1]
  }

  function Exits(path: seq<int>): (calls: seq<Call>)
    ensures |calls| == |path| && forall i :: 0 <= i < |path| ==> calls[i] == Exited(path[i])
  {
    seq(|path|, i requires 0 <= i < |path| => Exited(path[i]))
  }

  function Enters(path: seq<int>): (calls: seq<Call>)
    ensures |calls| == |path| && forall i :: 0 <= i < |path| ==> calls[i] == Entered(path[i])
  {
    seq(|path|, i requires 0 <= i < |path| => Entered(path[i]))
  }

  ghost predicate AtOrAbove(ns: Nodes, s: int, x: int)
    requires Forest(ns) && Maybe(ns, s)
  {
    x == -1 || x in Chain(ns, s)
  }

  // ---- the rules of one dispatch --------------------------------------------------------

  ghost predicate Candidate<C>(t: Table<C>, ctx: C, evt: Event, s: int, i: int) {
    && 0 <= i < |t.rows|
    && t.rows[i].source == s
    && t.rows[i].signal == evt.signal
    && (t.rows[i].guard.Guard? ==> t.rows[i].guard.holds(ctx, evt))
  }

  ghost predicate NoCandidate<C>(t: Table<C>, ctx: C, evt: Event, s: int) {
    forall i :: !Candidate(t, ctx, evt, s, i)
  }

  /** Row i is the first one of state s that accepts the event. */
  ghost predicate FirstCandidate<C>(t: Table<C>, ctx: C, evt: Event, s: int, i: int) {
    Candidate(t, ctx, evt, s, i) && forall j :: 0 <= j < i ==> !Candidate(t, ctx, evt, s, j)
  }

  /** The k-th ancestor of the leaf is the innermost one, within the depth bound, that has a
      row for the event, and i is its first such row. */
  ghost predicate Fires<C>(t: Table<C>, ctx: C, evt: Event, current: int, k: nat, i: nat)
    requires ValidTable(t) && InRange(t.nodes, current)
  {
    var chain := Chain(t.nodes, current);
    && k < |chain| && k <= t.maxDepth
    && FirstCandidate(t, ctx, evt, chain[k], i)
    && forall j :: 0 <= j < k ==> NoCandidate(t, ctx, evt, chain[j])
  }

  /** No ancestor within the depth bound accepts the event. */
  ghost predicate Ignored<C>(t: Table<C>, ctx: C, evt: Event, current: int)
    requires ValidTable(t) && InRange(t.nodes, current)
  {
    var chain := Chain(t.nodes, current);
    forall j :: 0 <= j < |chain| && j <= t.maxDepth ==> NoCandidate(t, ctx, evt, chain[j])
  }

  /** The innermost state that stays active across a transition: the parent of the source for a
      self transition; for an external one the least common ancestor, or its parent when that
      is the source or the target. */
  ghost predicate IsBoundary(ns: Nodes, source: int, kind: Kind, target: int, b: int)
    requires Forest(ns) && InRange(ns, source) && InRange(ns, target)
  {
    if kind.Self? then b == ns[source].parent
    else exists lca :: IsLca(ns, source, target, lca) &&
           b == if lca == source || lca == target then ns[lca].parent else lca
  }

  function TargetOf<C>(row: Row<C>, source: int): int {
    if row.kind.Self? then source else row.target
  }

  /** What an external or self transition does, up to the entry of its target. */
  ghost function CallsToTarget(ns: Nodes, current: int, i: nat, b: int, target: int): seq<Call>
    requires Forest(ns) && Maybe(ns, current) && InRange(ns, target)
  {
    Exits(UpTo(ns, current, b)) + [Acted(i)] + Enters(Path(ns, b, target))
  }

  /** Row i of the k-th ancestor, with boundary b, makes these calls and leads to `next`. */
  ghost predicate Transitions<C>(t: Table<C>, current: int, k: nat, i: nat, b: int, calls: seq<Call>, next: int)
    requires ValidTable(t) && InRange(t.nodes, current) && k < |Chain(t.nodes, current)| && i < |t.rows|
  {
    var ns, source, row := t.nodes, Chain(t.nodes, current)[k], t.rows[i];
    if row.kind.Internal? then calls == [Acted(i)] && next == current
    else
      var target := TargetOf(row, source);
      && InRange(ns, target)
      && IsBoundary(ns, source, row.kind, target, b)
      && |InitialPath(ns, target)| <= t.maxDepth
      && calls == CallsToTarget(ns, current, i, b, target) + Enters(InitialPath(ns, target))
      && next == Leaf(ns, target)
  }

  /** The assertions of the source: the row names no state, or the initial descent is deeper
      than the bound; the calls are those made before the assertion stops the machine. */
  ghost predicate Faults<C>(t: Table<C>, current: int, k: nat, i: nat, b: int, calls: seq<Call>)
    requires ValidTable(t) && InRange(t.nodes, current) && k < |Chain(t.nodes, current)| && i < |t.rows|
  {
    var ns, source, row := t.nodes, Chain(t.nodes, current)[k], t.rows[i];
    var target := TargetOf(row, source);
    && !row.kind.Internal?
    && if !InRange(ns, target) then calls == []
       else
         && IsBoundary(ns, source, row.kind, target, b)
         && |InitialPath(ns, target)| > t.maxDepth
         && calls == CallsToTarget(ns, current, i, b, target) + Enters(InitialPath(ns, target)[..t.maxDepth])
  }

  // ---- the rules leave no choice --------------------------------------------------------

  lemma LcaUnique(ns: Nodes, a: int, b: int, x: int, y: int)
    requires Forest(ns) && Maybe(ns, a) && Maybe(ns, b) && IsLca(ns, a, b, x) && IsLca(ns, a, b, y)
    ensures x == y
  {
    if x >= 0 && y >= 0 {
      assert x in Chain(ns, y) && y in Chain(ns, x);
      ChainWithin(ns, x, y);
      ChainWithin(ns, y, x);
    }
  }

  lemma FiresUnique<C>(t: Table<C>, ctx: C, evt: Event, current: int, k: nat, i: nat, k': nat, i': nat)
    requires ValidTable(t) && InRange(t.nodes, current)
    requires Fires(t, ctx, evt, current, k, i) && Fires(t, ctx, evt, current, k', i')
    ensures k == k' && i == i'
  {
    assert !NoCandidate(t, ctx, evt, Chain(t.nodes, current)[k]);
    assert !NoCandidate(t, ctx, evt, Chain(t.nodes, current)[k']);
  }

  /** An event has at most one outcome: two transitions that the rules allow are the same. */
  lemma OutcomeUnique<C>(t: Table<C>, ctx: C, evt: Event, current: int,
                         k: nat, i: nat, b: int, calls: seq<Call>, next: int,
                         k': nat, i': nat, b': int, calls': seq<Call>, next': int)
    requires ValidTable(t) && InRange(t.nodes, current)
    requires Fires(t, ctx, evt, current, k, i) && Transitions(t, current, k, i, b, calls, next)
    requires Fires(t, ctx, evt, current, k', i') && Transitions(t, current, k', i', b', calls', next')
    ensures calls == calls' && next == next'
  {
    FiresUnique(t, ctx, evt, current, k, i, k', i');
    var ns, source, row := t.nodes, Chain(t.nodes, current)[k], t.rows[i];
    if row.kind.External? {
      var l :| IsLca(ns, source, row.target, l) && b == if l == source || l == row.target then ns[l].parent else l;
      var l' :| IsLca(ns, source, row.target, l') && b' == if l' == source || l' == row.target then ns[l'].parent else l';
      LcaUnique(ns, source, row.target, l, l');
    }
  }

  // ---- the active configuration ---------------------------------------------------------

  /** The active states, innermost first, or Broken once a call breaks the nesting. */
  datatype Config = Broken | Active(stack: seq<int>)

  /** A state is entered only directly below the innermost active state, and only the innermost
      active state is left. */
  function Replayed(ns: Nodes, c: Config, call: Call): Config {
    if c.Broken? then Broken
    else match call
      case Acted(_) => c
      case Exited(s) => if c.stack != [] && c.stack[0] == s then Active(c.stack[1..]) else Broken
      case Entered(s) =>
        if InRange(ns, s) && ns[s].parent == (if c.stack == [] then -1 else c.stack[0]) then Active([s] + c.stack)
        else Broken
  }

  function Replay(ns: Nodes, c: Config, calls: seq<Call>): Config {
    if calls == [] then c
    else Replayed(ns, Replay(ns, c, calls[..|calls| - 1]), calls[|calls| - 1])
  }

  lemma {:induction false} ReplayConcat(ns: Nodes, c: Config, a: seq<Call>, b: seq<Call>)
    ensures Replay(ns, c, a + b) == Replay(ns, Replay(ns, c, a), b)
    decreases |b|
  {
    if b == [] {
      assert a + b == a;
    } else {
      var front := b[..|b| - 1];
      ReplayConcat(ns, c, a, front);
      assert (a + b)[..|a + b| - 1] == a + front;
    }
  }

  lemma ReplayOne(ns: Nodes, c: Config, call: Call)
    ensures Replay(ns, c, [call]) == Replayed(ns, c, call)
  {
    assert [call][..0] == [];
  }

  /** Leaving everything below an ancestor leaves exactly the ancestor's chain active. */
  lemma {:induction false} ReplayExits(ns: Nodes, s: int, b: int)
    requires Forest(ns) && Maybe(ns, s) && AtOrAbove(ns, s, b)
    ensures Replay(ns, Active(Chain(ns, s)), Exits(UpTo(ns, s, b))) == Active(Chain(ns, b))
    decreases |Chain(ns, s)|
  {
    if s != b && s != -1 {
      var p := ns[s].parent;
      var rest := UpTo(ns, p, b);
      assert Exits([s] + rest) == [Exited(s)] + Exits(rest);
      ReplayConcat(ns, Active(Chain(ns, s)), [Exited(s)], Exits(rest));
      ReplayOne(ns, Active(Chain(ns, s)), Exited(s));
      assert Chain(ns, s)[1..] == Chain(ns, p);
      ReplayExits(ns, p, b);
    }
  }

  lemma EntersConcat(a: seq<int>, b: seq<int>)
    ensures Enters(a + b) == Enters(a) + Enters(b)
  {
  }

  /** Entering the path down to t makes exactly the chain of t active. */
  lemma {:induction false} ReplayPath(ns: Nodes, b: int, t: int)
    requires Forest(ns) && Maybe(ns, t) && AtOrAbove(ns, t, b)
    ensures Replay(ns, Active(Chain(ns, b)), Enters(Path(ns, b, t))) == Active(Chain(ns, t))
    decreases |Chain(ns, t)|
  {
    if t != b && t != -1 {
      var p := ns[t].parent;
      ReplayPath(ns, b, p);
      EntersConcat(Path(ns, b, p), [t]);
      assert Enters([t]) == [Entered(t)];
      ReplayConcat(ns, Active(Chain(ns, b)), Enters(Path(ns, b, p)), [Entered(t)]);
      ReplayOne(ns, Active(Chain(ns, p)), Entered(t));
    }
  }

  lemma {:induction false} ReplayInitial(ns: Nodes, s: int)
    requires WellFormed(ns) && InRange(ns, s)
    ensures Replay(ns, Active(Chain(ns, s)), Enters(InitialPath(ns, s))) == Active(Chain(ns, Leaf(ns, s)))
    decreases |ns| - |Chain(ns, s)|
  {
    var child := ns[s].child;
    if child != -1 {
      assert ChildOk(ns, s);
      ChainBounded(ns, child);
      var rest := InitialPath(ns, child);
      assert Enters([child] + rest) == [Entered(child)] + Enters(rest);
      ReplayConcat(ns, Active(Chain(ns, s)), [Entered(child)], Enters(rest));
      ReplayOne(ns, Active(Chain(ns, s)), Entered(child));
      ReplayInitial(ns, child);
      assert Leaf(ns, s) == Leaf(ns, child);
    }
  }

  /** A boundary is an ancestor of the source and of the target, so of the leaf as well. */
  lemma BoundaryAbove(ns: Nodes, current: int, k: nat, kind: Kind, target: int, b: int)
    requires Forest(ns) && InRange(ns, current) && k < |Chain(ns, current)| && InRange(ns, target)
    requires IsBoundary(ns, Chain(ns, current)[k], kind, target, b)
    requires kind.Self? ==> target == Chain(ns, current)[k]
    ensures Maybe(ns, b) && AtOrAbove(ns, current, b) && AtOrAbove(ns, target, b)
  {
    var source := Chain(ns, current)[k];
    ChainWithin(ns, current, source);
    if kind.Self? {
      assert b == -1 || Chain(ns, source)[1] == b;
    } else {
      var l :| IsLca(ns, source, target, l) && b == if l == source || l == target then ns[l].parent else l;
      if l >= 0 {
        ChainWithin(ns, source, l);
        ChainWithin(ns, target, l);
        assert b == -1 || b in Chain(ns, l) by {
          assert b != l && b != -1 ==> Chain(ns, l)[1] == b;
        }
      }
    }
  }

  /** Every transition turns the parent chain of the old leaf into the parent chain of the new
      one, leaving and entering states strictly from the inside. */
  lemma TransitionKeepsConfiguration<C>(
      t: Table<C>, current: int, k: nat, i: nat, b: int, calls: seq<Call>, next: int)
    requires ValidTable(t) && InRange(t.nodes, current) && k < |Chain(t.nodes, current)| && i < |t.rows|
    requires Transitions(t, current, k, i, b, calls, next)
    ensures InRange(t.nodes, next)
    ensures Replay(t.nodes, Active(Chain(t.nodes, current)), calls) == Active(Chain(t.nodes, next))
  {
    var ns, source, row := t.nodes, Chain(t.nodes, current)[k], t.rows[i];
    var start := Active(Chain(ns, current));
    if row.kind.Internal? {
      ReplayOne(ns, start, Acted(i));
    } else {
      var target := TargetOf(row, source);
      BoundaryAbove(ns, current, k, row.kind, target, b);
      var out, down, more := Exits(UpTo(ns, current, b)), Enters(Path(ns, b, target)), Enters(InitialPath(ns, target));
      ReplayExits(ns, current, b);
      ReplayConcat(ns, start, out, [Acted(i)]);
      ReplayOne(ns, Active(Chain(ns, b)), Acted(i));
      ReplayPath(ns, b, target);
      ReplayConcat(ns, start, out + [Acted(i)], down);
      ReplayInitial(ns, target);
      ReplayConcat(ns, start, out + [Acted(i)] + down, more);
    }
  }

  // ---- entries minus exits --------------------------------------------------------------

  /** How often state x was entered, less how often it was left. */
  function Net(calls: seq<Call>, x: int): int {
    if calls == [] then 0
    else
      var last := calls[|calls| - 1];
      Net(calls[..|calls| - 1], x) + if last == Entered(x) then 1 else if last == Exited(x) then -1 else 0
  }

  lemma {:induction false} NetOfReplay(ns: Nodes, calls: seq<Call>, x: int)
    requires Replay(ns, Active([]), calls).Active?
    ensures Net(calls, x) == multiset(Replay(ns, Active([]), calls).stack)[x]
    decreases |calls|
  {
    if calls != [] {
      var front, last := calls[..|calls| - 1], calls[|calls| - 1];
      var before := Replay(ns, Active([]), front);
      NetOfReplay(ns, front, x);
      if last.Exited? {
        assert before.stack == [last.state] + before.stack[1..];
      }
    }
  }

  /** On a parent chain every ancestor occurs once and nothing else occurs. */
  lemma {:induction false} ChainOnce(ns: Nodes, s: int, x: int)
    requires Forest(ns) && Maybe(ns, s)
    ensures multiset(Chain(ns, s))[x] == if x in Chain(ns, s) then 1 else 0
    decreases |Chain(ns, s)|
  {
    if s != -1 {
      var rest := Chain(ns, ns[s].parent);
      ChainOnce(ns, ns[s].parent, x);
      assert Chain(ns, s) == [s] + rest;
      if s in rest {
        ChainWithin(ns, ns[s].parent, s);
      }
    }
  }

  /** The calls made so far have made exactly the parent chain of `current` active. */
  ghost predicate Configured(ns: Nodes, trace: seq<Call>, current: int)
    requires Forest(ns) && Maybe(ns, current)
  {
    Replay(ns, Active([]), trace) == Active(Chain(ns, current))
  }

  /** In a configured machine entries exceed exits by one on the parent chain of the current
      state, and balance everywhere else. */
  lemma ConfiguredBalance(ns: Nodes, trace: seq<Call>, current: int, x: int)
    requires Forest(ns) && Maybe(ns, current) && Configured(ns, trace, current)
    ensures Net(trace, x) == if x in Chain(ns, current) then 1 else 0
  {
    NetOfReplay(ns, trace, x);
    ChainOnce(ns, current, x);
  }

  /** What init does when it does not fault. */
  ghost function InitCalls(ns: Nodes, initial: int): seq<Call>
    requires WellFormed(ns) && InRange(ns, initial)
  {
    Enters(Path(ns, -1, initial)) + Enters(InitialPath(ns, initial))
  }

  lemma InitConfigures(ns: Nodes, initial: int)
    requires WellFormed(ns) && InRange(ns, initial)
    ensures Configured(ns, InitCalls(ns, initial), Leaf(ns, initial))
  {
    ReplayPath(ns, -1, initial);
    ReplayInitial(ns, initial);
    ReplayConcat(ns, Active([]), Enters(Path(ns, -1, initial)), Enters(InitialPath(ns, initial)));
  }

  // ---- whole runs -----------------------------------------------------------------------

  /** One dispatch that did not fault: either ignored or the transition of some row. */
  ghost predicate Turn<C>(t: Table<C>, current: int, calls: seq<Call>, next: int)
    requires ValidTable(t) && InRange(t.nodes, current)
  {
    || (calls == [] && next == current)
    || exists k: nat, i: nat, b ::
         k < |Chain(t.nodes, current)| && i < |t.rows| && Transitions(t, current, k, i, b, calls, next)
  }

  /** `states[j]` is the current state after init and j dispatches, of which dispatch j makes
      `calls[j]`. */
  ghost predicate History<C>(t: Table<C>, states: seq<int>, calls: seq<seq<Call>>) {
    && ValidTable(t)
    && InRange(t.nodes, t.initial)
    && |states| == |calls| + 1
    && (forall j :: 0 <= j < |states| ==> InRange(t.nodes, states[j]))
    && states[0] == Leaf(t.nodes, t.initial)
    && forall j :: 0 <= j < |calls| ==> Turn(t, states[j], calls[j], states[j + 1])
  }

  /** Everything done by init and the first n dispatches. */
  ghost function TraceOf<C>(t: Table<C>, calls: seq<seq<Call>>, n: nat): seq<Call>
    requires WellFormed(t.nodes) && InRange(t.nodes, t.initial) && n <= |calls|
  {
    if n == 0 then InitCalls(t.nodes, t.initial) else TraceOf(t, calls, n - 1) + calls[n - 1]
  }

  lemma TurnKeepsConfiguration<C>(t: Table<C>, trace: seq<Call>, current: int, calls: seq<Call>, next: int)
    requires ValidTable(t) && InRange(t.nodes, current) && InRange(t.nodes, next)
    requires Configured(t.nodes, trace, current) && Turn(t, current, calls, next)
    ensures Configured(t.nodes, trace + calls, next)
  {
    ReplayConcat(t.nodes, Active([]), trace, calls);
    if calls == [] && next == current {
    } else {
      var k: nat, i: nat, b :|
        k < |Chain(t.nodes, current)| && i < |t.rows| && Transitions(t, current, k, i, b, calls, next);
      TransitionKeepsConfiguration(t, current, k, i, b, calls, next);
    }
  }

  lemma {:induction false} HistoryConfigured<C>(t: Table<C>, states: seq<int>, calls: seq<seq<Call>>, n: nat)
    requires History(t, states, calls) && n <= |calls|
    ensures Configured(t.nodes, TraceOf(t, calls, n), states[n])
    decreases n
  {
    if n == 0 {
      InitConfigures(t.nodes, t.initial);
    } else {
      HistoryConfigured(t, states, calls, n - 1);
      assert Turn(t, states[n - 1], calls[n - 1], states[n - 1 + 1]);
      TurnKeepsConfiguration(t, TraceOf(t, calls, n - 1), states[n - 1], calls[n - 1], states[n]);
    }
  }

  /** After init and any dispatches the configuration is the parent chain of the current state:
      each of its states has been entered once more than it has been left, every other state
      exactly as often. */
  lemma RunsStayBalanced<C>(t: Table<C>, states: seq<int>, calls: seq<seq<Call>>, n: nat, x: int)
    requires History(t, states, calls) && n <= |calls|
    ensures Net(TraceOf(t, calls, n), x) == if x in Chain(t.nodes, states[n]) then 1 else 0
  {
    HistoryConfigured(t, states, calls, n);
    ConfiguredBalance(t.nodes, TraceOf(t, calls, n), states[n], x);
  }
}
