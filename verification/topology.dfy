/** The state topology of a hierarchical state machine: validation, parent chains and the
    least common ancestor (include/coact/hsm.hpp). */
module Topology {
  const MAX_STATES: nat := 128

  /** The parent (-1 for a root) and the initial child (-1 for a leaf) of one state. */
  datatype Node = Node(parent: int, child: int)

  type Nodes = seq<Node>

  predicate InRange(ns: Nodes, s: int) {
    0 <= s < |ns|
  }

  /** `rank` witnesses that no parent walk can return to a state. */
  ghost predicate Ranked(ns: Nodes, rank: seq<nat>) {
    && |rank| == |ns|
    && forall s {:trigger ns[s]} :: InRange(ns, s) ==>
         ns[s].parent == -1 || (InRange(ns, ns[s].parent) && rank[ns[s].parent] < rank[s])
  }

  /** The parent relation is a forest. */
  ghost predicate Forest(ns: Nodes) {
    exists rank :: Ranked(ns, rank)
  }

  /** The initial child of s, if it has one, is a direct child of s. */
  predicate ChildOk(ns: Nodes, s: int) {
    InRange(ns, s) ==>
      ns[s].child == -1 || (InRange(ns, ns[s].child) && ns[ns[s].child].parent == s)
  }

  ghost predicate ChildrenOk(ns: Nodes) {
    forall s :: ChildOk(ns, s)
  }

  ghost predicate WellFormed(ns: Nodes) {
    |ns| <= MAX_STATES && Forest(ns) && ChildrenOk(ns)
  }

  // ---- validation -----------------------------------------------------------------------

  /** The k-th state of the parent walk from s. */
  function Up(ns: Nodes, s: int, k: nat): int {
    if k == 0 then s
    else
      var p := Up(ns, s, k - 1);
      if InRange(ns, p) then ns[p].parent else p
  }

  /** The walk from s leaves the table through a root after exactly h states. */
  predicate WalksOut(ns: Nodes, s: int, h: nat) {
    Up(ns, s, h) == -1 && forall j :: 0 <= j < h ==> InRange(ns, Up(ns, s, j))
  }

  lemma {:induction false} UpShift(ns: Nodes, s: int, k: nat)
    requires InRange(ns, s)
    ensures Up(ns, s, k + 1) == Up(ns, ns[s].parent, k)
  {
    if k != 0 {
      UpShift(ns, s, k - 1);
    }
  }

  /** Walk lengths that are right for every state rank the table. */
  lemma WalksRank(ns: Nodes, hops: seq<nat>)
    requires |hops| == |ns| && forall s :: InRange(ns, s) ==> WalksOut(ns, s, hops[s])
    ensures Ranked(ns, hops)
  {
    forall s | InRange(ns, s)
      ensures ns[s].parent == -1 || (InRange(ns, ns[s].parent) && hops[ns[s].parent] < hops[s])
    {
      var p, h := ns[s].parent, hops[s];
      assert WalksOut(ns, s, h) && Up(ns, s, 0) == s && Up(ns, s, 1) == p;
      if h > 1 {
        assert InRange(ns, Up(ns, s, 1));
        UpShift(ns, s, h - 1);
        assert !InRange(ns, Up(ns, p, h - 1));
        assert WalksOut(ns, p, hops[p]);
      }
    }
  }

  function Below(n: nat): (r: set<int>)
    ensures |r| == n
    ensures forall x :: x in r <==> 0 <= x < n
  {
    if n == 0 then {} else Below(n - 1) + {n - 1}
  }

  lemma {:induction false} SubsetSize(a: set<int>, b: set<int>)
    requires a <= b
    ensures |a| <= |b|
  {
    if x :| x in a {
      SubsetSize(a - {x}, b - {x});
    } else {
      assert forall x :: x !in a;
      assert a == {};
    }
  }

  /** Distinct states of a table are no more than its size. */
  lemma Pigeonhole(seen: set<int>, n: nat)
    requires forall x :: x in seen ==> 0 <= x < n
    ensures |seen| <= n
  {
    SubsetSize(seen, Below(n));
  }

  ghost function RankOf(ns: Nodes): (rank: seq<nat>)
    requires Forest(ns)
    ensures Ranked(ns, rank)
  {
    var rank :| Ranked(ns, rank);
    rank
  }

  /** The walk of one index: it must stay in the table and reach a root within |ns| hops. */
  method WalkToRoot(ns: Nodes, index: nat) returns (ok: bool, ghost hops: nat)
    requires index < |ns|
    ensures ok ==> WalksOut(ns, index, hops)
    ensures !ok ==> !Forest(ns)
  {
    var state, count := index as int, 0;
    ghost var seen: set<int> := {};
    ghost var rank := if Forest(ns) then RankOf(ns) else [];
    hops := 0;
    while state >= 0
      invariant 0 <= count == hops <= |ns| && state == Up(ns, index, count)
      invariant forall j :: 0 <= j < count ==> InRange(ns, Up(ns, index, j))
      invariant Forest(ns) ==> state == -1 || InRange(ns, state)
      invariant forall x :: x in seen ==> InRange(ns, x)
      invariant Forest(ns) ==> |seen| == count && forall x :: x in seen && state >= 0 ==> rank[state] < rank[x]
      invariant state >= -1 || !Forest(ns)
      decreases |ns| - count
    {
      if state >= |ns| {
        return false, 0;
      }
      if count >= |ns| {
        if Forest(ns) {
          assert state !in seen;
          Pigeonhole(seen + {state}, |ns|);
        }
        return false, 0;
      }
      seen := seen + {state};
      state := ns[state].parent;
      count := count + 1;
      hops := count;
    }
    ok := state == -1;
  }

  /** validate_topology: the table passes exactly when it is well formed. */
  method ValidateTopology(ns: Nodes) returns (ok: bool)
    ensures ok <==> WellFormed(ns)
  {
    if |ns| > MAX_STATES {
      return false;
    }
    ghost var hops: seq<nat> := [];
    var index := 0;
    while index < |ns|
      invariant 0 <= index <= |ns| && |hops| == index
      invariant forall s :: 0 <= s < index ==> WalksOut(ns, s, hops[s])
      invariant forall s :: 0 <= s < index ==> ChildOk(ns, s)
    {
      if ns[index].parent < -1 || ns[index].child < -1 {
        assert !ChildOk(ns, index) || ns[index].parent < -1;
        return false;
      }
      var child := ns[index].child;
      if child >= 0 && (child >= |ns| || ns[child].parent != index) {
        assert !ChildOk(ns, index);
        return false;
      }
      ghost var h;
      ok, h := WalkToRoot(ns, index);
      if !ok {
        return false;
      }
      hops := hops + [h];
      index := index + 1;
    }
    WalksRank(ns, hops);
    return true;
  }

  // ---- parent chains --------------------------------------------------------------------

  /** -1, "no state", or a state of the table. */
  predicate Maybe(ns: Nodes, s: int) {
    -1 <= s < |ns|
  }

  /** The state and its ancestors, innermost first. */
  ghost function Chain(ns: Nodes, s: int): (chain: seq<int>)
    requires Forest(ns) && Maybe(ns, s)
    ensures s >= 0 ==> |chain| > 0 && chain[0] == s
    ensures forall i :: 0 <= i < |chain| ==> InRange(ns, chain[i])
    decreases if s < 0 then 0 else RankOf(ns)[s] + 1
  {
    if s == -1 then [] else [s] + Chain(ns, ns[s].parent)
  }

  /** The chain of an ancestor is the rest of the chain. */
  lemma {:induction false} ChainSuffix(ns: Nodes, s: int, i: nat)
    requires Forest(ns) && Maybe(ns, s) && i < |Chain(ns, s)|
    ensures Chain(ns, Chain(ns, s)[i]) == Chain(ns, s)[i..]
    decreases i
  {
    if i != 0 {
      ChainSuffix(ns, ns[s].parent, i - 1);
    }
  }

  lemma {:induction false} ChainWithin(ns: Nodes, s: int, x: int)
    requires Forest(ns) && Maybe(ns, s) && x in Chain(ns, s)
    ensures |Chain(ns, x)| <= |Chain(ns, s)|
    ensures |Chain(ns, x)| == |Chain(ns, s)| ==> x == s
    ensures forall y :: y in Chain(ns, x) ==> y in Chain(ns, s)
  {
    var i :| 0 <= i < |Chain(ns, s)| && Chain(ns, s)[i] == x;
    ChainSuffix(ns, s, i);
  }

  /** No state occurs twice on a chain. */
  lemma ChainDistinct(ns: Nodes, s: int, i: nat, j: nat)
    requires Forest(ns) && Maybe(ns, s) && i < j < |Chain(ns, s)|
    ensures Chain(ns, s)[i] != Chain(ns, s)[j]
  {
    ChainSuffix(ns, s, i);
    ChainSuffix(ns, s, j);
  }

  lemma {:induction false} ChainStates(ns: Nodes, s: int, k: nat) returns (seen: set<int>)
    requires Forest(ns) && Maybe(ns, s) && k <= |Chain(ns, s)|
    ensures |seen| == k && forall x :: x in seen <==> x in Chain(ns, s)[..k]
  {
    if k == 0 {
      seen := {};
    } else {
      var rest := ChainStates(ns, s, k - 1);
      var x := Chain(ns, s)[k - 1];
      forall i | 0 <= i < k - 1
        ensures Chain(ns, s)[i] != x
      {
        ChainDistinct(ns, s, i, k - 1);
      }
      assert x !in rest;
      seen := rest + {x};
      assert Chain(ns, s)[..k] == Chain(ns, s)[..k - 1] + [x];
    }
  }

  /** A chain is no longer than the table. */
  lemma ChainBounded(ns: Nodes, s: int)
    requires Forest(ns) && Maybe(ns, s)
    ensures |Chain(ns, s)| <= |ns|
  {
    var seen := ChainStates(ns, s, |Chain(ns, s)|);
    Pigeonhole(seen, |ns|);
  }

  method ChainDepth(ns: Nodes, s: int) returns (depth: nat)
    requires Forest(ns) && Maybe(ns, s)
    ensures depth == |Chain(ns, s)|
  {
    var state := s;
    depth := 0;
    while state >= 0
      invariant Maybe(ns, state) && depth + |Chain(ns, state)| == |Chain(ns, s)|
      decreases |Chain(ns, state)|
    {
      depth := depth + 1;
      state := ns[state].parent;
    }
  }

  /** The ancestor whose chain has the given length; the state itself when it is no deeper. */
  method AncestorAtDepth(ns: Nodes, s: int, depth: nat) returns (a: int)
    requires Forest(ns) && Maybe(ns, s)
    ensures Maybe(ns, a)
    ensures depth <= |Chain(ns, s)| ==> Chain(ns, a) == Chain(ns, s)[|Chain(ns, s)| - depth..]
    ensures depth >= |Chain(ns, s)| ==> a == s
  {
    a := s;
    var d := ChainDepth(ns, s);
    while d > depth
      invariant Maybe(ns, a) && d == |Chain(ns, a)| <= |Chain(ns, s)|
      invariant Chain(ns, a) == Chain(ns, s)[|Chain(ns, s)| - d..]
      invariant d < |Chain(ns, s)| ==> d >= depth
      invariant d == |Chain(ns, s)| ==> a == s
    {
      a := ns[a].parent;
      d := d - 1;
    }
  }

  // ---- the least common ancestor --------------------------------------------------------

  ghost predicate Common(ns: Nodes, a: int, b: int, x: int)
    requires Forest(ns) && Maybe(ns, a) && Maybe(ns, b)
  {
    x in Chain(ns, a) && x in Chain(ns, b)
  }

  /** x is the deepest state that is on both chains, or -1 when there is none. */
  ghost predicate IsLca(ns: Nodes, a: int, b: int, x: int)
    requires Forest(ns) && Maybe(ns, a) && Maybe(ns, b)
  {
    && Maybe(ns, x)
    && (x == -1 <==> forall y :: !Common(ns, a, b, y))
    && (x >= 0 ==> Common(ns, a, b, x) && forall y :: Common(ns, a, b, y) ==> y in Chain(ns, x))
  }

  ghost predicate SameCommon(ns: Nodes, a: int, b: int, a': int, b': int)
    requires Forest(ns) && Maybe(ns, a) && Maybe(ns, b) && Maybe(ns, a') && Maybe(ns, b')
  {
    forall y :: Common(ns, a, b, y) <==> Common(ns, a', b', y)
  }

  /** A state deeper than b, or as deep and different, is not on the chain of b. */
  lemma NotAbove(ns: Nodes, a: int, b: int)
    requires Forest(ns) && InRange(ns, a) && Maybe(ns, b)
    requires |Chain(ns, a)| > |Chain(ns, b)| || (|Chain(ns, a)| == |Chain(ns, b)| && a != b)
    ensures a !in Chain(ns, b)
  {
    if a in Chain(ns, b) {
      ChainWithin(ns, b, a);
    }
  }

  method FindLca(ns: Nodes, a: int, b: int) returns (lca: int)
    requires Forest(ns) && Maybe(ns, a) && Maybe(ns, b)
    ensures IsLca(ns, a, b, lca)
  {
    var x, y := a, b;
    var dx := ChainDepth(ns, x);
    var dy := ChainDepth(ns, y);
    while dx > dy
      invariant Maybe(ns, x) && dx == |Chain(ns, x)| && SameCommon(ns, a, b, x, y)
    {
      NotAbove(ns, x, y);
      x := ns[x].parent;
      dx := dx - 1;
    }
    while dy > dx
      invariant Maybe(ns, y) && dy == |Chain(ns, y)| && dx <= dy && SameCommon(ns, a, b, x, y)
    {
      NotAbove(ns, y, x);
      y := ns[y].parent;
      dy := dy - 1;
    }
    while x != y
      invariant Maybe(ns, x) && Maybe(ns, y) && |Chain(ns, x)| == |Chain(ns, y)|
      invariant SameCommon(ns, a, b, x, y)
      decreases |Chain(ns, x)|
    {
      if x < 0 || y < 0 {
        return -1;
      }
      NotAbove(ns, x, y);
      NotAbove(ns, y, x);
      x, y := ns[x].parent, ns[y].parent;
    }
    if x >= 0 {
      assert Common(ns, x, y, x);
    }
    return x;
  }
}
