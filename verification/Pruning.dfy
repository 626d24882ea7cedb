/**
 Removing from a schedule the nodes that no graph output, or no sequential element,
 depends on.
*/
module Pruning {
  import opened Collections
  import opened Walks
  import opened Graphs

  datatype SIMDGroup = SIMDGroup(totalWidth: int, nodes: seq<seq<int>>)

  predicate IsSink(w: WireNode) {
    w.isSequential && w.isReceiver
  }

  predicate IsRoot(w: WireNode) {
    w.kind == GraphOutput || IsSink(w)
  }

  ghost predicate Named(g: DirectedGraph, sd: seq<int>)
    reads g
  {
    forall v :: v in sd ==> v in g.vertNames
  }

  ghost function Roots(g: DirectedGraph, sd: seq<int>): set<int>
    reads g
    requires Named(g, sd)
  {
    set v | v in sd && IsRoot(g.vertNames[v])
  }

  /** The members of `s` outside `gone`, in their original order. */
  function Without(s: seq<int>, gone: set<int>): seq<int> {
    if s == [] then []
    else if s[|s| - 1] in gone then Without(s[..|s| - 1], gone)
    else Without(s[..|s| - 1], gone) + [s[|s| - 1]]
  }

  lemma {:induction false} WithoutMember(s: seq<int>, gone: set<int>, x: int)
    ensures x in Without(s, gone) <==> x in s && x !in gone
  {
    if s != [] {
      WithoutMember(s[..|s| - 1], gone, x);
      assert s == s[..|s| - 1] + [s[|s| - 1]];
    }
  }

  lemma WithoutMembers(s: seq<int>, gone: set<int>)
    ensures forall x :: x in Without(s, gone) <==> x in s && x !in gone
  {
    forall x ensures x in Without(s, gone) <==> x in s && x !in gone {
      WithoutMember(s, gone, x);
    }
  }

  lemma WithoutLast(s: seq<int>, x: int, gone: set<int>)
    ensures Without(s + [x], gone) == if x in gone then Without(s, gone) else Without(s, gone) + [x]
  {
    assert (s + [x])[..|s|] == s;
  }

  lemma {:induction false} WithoutTwice(s: seq<int>, a: set<int>, b: set<int>)
    ensures Without(Without(s, a), b) == Without(s, a + b)
  {
    if s != [] {
      var front, x := s[..|s| - 1], s[|s| - 1];
      WithoutTwice(front, a, b);
      if x !in a {
        WithoutLast(Without(front, a), x, b);
      }
    }
  }

  lemma {:induction false} WithoutShrinks(s: seq<int>, gone: set<int>)
    ensures |Without(s, gone)| <= |s|
    ensures forall i :: 0 <= i < |s| && s[i] in gone ==> |Without(s, gone)| < |s|
  {
    if s != [] {
      WithoutShrinks(s[..|s| - 1], gone);
    }
  }

  lemma {:induction false} SameWithout(s: seq<int>, a: set<int>, b: set<int>)
    requires forall i :: 0 <= i < |s| ==> (s[i] in a <==> s[i] in b)
    ensures Without(s, a) == Without(s, b)
  {
    if s != [] {
      SameWithout(s[..|s| - 1], a, b);
    }
  }

  // ----- liveness -----

  /** A walk that stays inside `s`. */
  predicate WalkIn(m: Multigraph, s: set<int>, p: seq<int>) {
    && p != []
    && (forall i :: 0 <= i < |p| ==> p[i] in s)
    && forall i :: 0 <= i < |p| - 1 ==> m.HasEdge(p[i], p[i + 1])
  }

  /** Inside `s`, a walk from `v` gets to a root or comes back to a vertex it has visited. */
  ghost predicate Live(m: Multigraph, s: set<int>, roots: set<int>, v: int) {
    exists p :: WalkIn(m, s, p) && p[0] == v && (p[|p| - 1] in roots || !NoDuplicates(p))
  }

  ghost predicate ReachesRoot(m: Multigraph, s: set<int>, roots: set<int>, v: int) {
    exists p :: WalkIn(m, s, p) && p[0] == v && p[|p| - 1] in roots
  }

  ghost predicate AcyclicIn(m: Multigraph, s: set<int>) {
    forall p :: WalkIn(m, s, p) ==> NoDuplicates(p)
  }

  lemma WalkInTail(m: Multigraph, s: set<int>, p: seq<int>)
    requires WalkIn(m, s, p) && |p| > 1
    ensures WalkIn(m, s, p[1..]) && m.HasEdge(p[0], p[1])
  {
    var q := p[1..];
    forall i | 0 <= i < |q| - 1 ensures m.HasEdge(q[i], q[i + 1]) {
      assert m.HasEdge(p[i + 1], p[i + 2]);
    }
  }

  lemma WalkInCons(m: Multigraph, s: set<int>, v: int, p: seq<int>)
    requires WalkIn(m, s, p) && v in s && m.HasEdge(v, p[0])
    ensures WalkIn(m, s, [v] + p)
  {
    var q := [v] + p;
    forall i | 0 <= i < |q| - 1 ensures m.HasEdge(q[i], q[i + 1]) {
      if i > 0 {
        assert m.HasEdge(p[i - 1], p[i]);
      }
    }
  }

  /** A predecessor of a live vertex is live. */
  lemma LivePredecessor(m: Multigraph, s: set<int>, roots: set<int>, u: int, v: int)
    requires Live(m, s, roots, v) && u in s && m.HasEdge(u, v)
    ensures Live(m, s, roots, u)
  {
    var p :| WalkIn(m, s, p) && p[0] == v && (p[|p| - 1] in roots || !NoDuplicates(p));
    WalkInCons(m, s, u, p);
    var q := [u] + p;
    if !NoDuplicates(p) {
      var i, j :| 0 <= i < j < |p| && p[i] == p[j];
      assert q[i + 1] == q[j + 1];
    }
    assert WalkIn(m, s, q) && q[0] == u && (q[|q| - 1] in roots || !NoDuplicates(q));
  }

  /** When each vertex was deleted, its successors inside `s` had been deleted, and it was no root. */
  ghost predicate DeletedInOrder(m: Multigraph, s: set<int>, roots: set<int>, gone: seq<int>) {
    && (forall k :: 0 <= k < |gone| ==> gone[k] !in roots)
    && forall k, w :: 0 <= k < |gone| && w in s && m.HasEdge(gone[k], w) ==> w in gone[..k]
  }

  lemma {:induction false} DeletedIsDead(m: Multigraph, s: set<int>, roots: set<int>, gone: seq<int>, p: seq<int>,
      k: nat)
    requires DeletedInOrder(m, s, roots, gone) && NoDuplicates(gone)
    requires WalkIn(m, s, p) && k < |gone| && p[0] == gone[k]
    ensures NoDuplicates(p) && p[|p| - 1] !in roots
    ensures forall i :: 0 <= i < |p| ==> p[i] in gone[..k + 1]
    decreases |p|
  {
    if |p| > 1 {
      WalkInTail(m, s, p);
      assert p[1] in s && p[1] in gone[..k];
      var j :| 0 <= j < k && gone[..k][j] == p[1];
      DeletedIsDead(m, s, roots, gone, p[1..], j);
      forall i | 1 <= i < |p| ensures p[i] in gone[..k] {
        assert p[i] == p[1..][i - 1];
        assert p[i] in gone[..j + 1];
      }
      forall i | 1 <= i < |p| ensures p[i] != p[0] {
        var l :| 0 <= l < k && gone[..k][l] == p[i];
        assert gone[l] != gone[k];
      }
    }
  }

  /** Every vertex of `kept` is a root or has a successor in `kept`. */
  ghost predicate Sustained(m: Multigraph, roots: set<int>, kept: set<int>) {
    forall v :: v in kept ==> v in roots || HasSuccessorIn(m, kept, v)
  }

  predicate HasSuccessorIn(m: Multigraph, s: set<int>, v: int) {
    exists w :: w in s && m.HasEdge(v, w)
  }

  lemma {:induction false} WalkForward(m: Multigraph, roots: set<int>, kept: set<int>, v: int, n: nat)
      returns (p: seq<int>)
    requires Sustained(m, roots, kept) && v in kept
    ensures WalkIn(m, kept, p) && p[0] == v
    ensures p[|p| - 1] in roots || |p| == n + 1
    decreases n
  {
    p := [v];
    if n > 0 && v !in roots {
      assert HasSuccessorIn(m, kept, v);
      var w :| w in kept && m.HasEdge(v, w);
      var q := WalkForward(m, roots, kept, w, n - 1);
      WalkInCons(m, kept, v, q);
      p := [v] + q;
    }
  }

  lemma SustainedIsLive(m: Multigraph, s: set<int>, roots: set<int>, kept: set<int>, v: int)
    requires Sustained(m, roots, kept) && kept <= s && v in kept
    ensures Live(m, s, roots, v)
  {
    var p := WalkForward(m, roots, kept, v, |kept|);
    if p[|p| - 1] !in roots {
      var i, j := Repeats(p, kept);
    }
    assert WalkIn(m, s, p);
  }

  lemma AcyclicLive(m: Multigraph, s: set<int>, roots: set<int>, v: int)
    requires AcyclicIn(m, s)
    ensures Live(m, s, roots, v) <==> ReachesRoot(m, s, roots, v)
  {
  }

  // ----- deletion -----

  /** No successor of `v` is in `sd`. */
  method IsOut(g: DirectedGraph, v: int, sd: seq<int>) returns (r: bool)
    requires g.Valid()
    ensures r <==> !HasSuccessorIn(g.Model(), Elements(sd), v)
  {
    ghost var m := g.Model();
    g.EdgeEnds();
    g.IncidentEdges(v);
    var outs := g.OutEdges(v);
    var i := 0;
    while i < |outs|
      invariant 0 <= i <= |outs|
      invariant forall k :: 0 <= k < i ==> outs[k] in m.OutSet(v) && m.ends[outs[k]].1 !in sd
    {
      assert outs[i] in Elements(outs);
      var target := g.Target(outs[i]);
      assert m.ends[outs[i]] == (v, target);
      if target in sd {
        assert m.HasEdge(v, target) && target in Elements(sd);
        return false;
      }
      i := i + 1;
    }
    forall e | 0 <= e < |m.ends| && m.ends[e].0 == v ensures m.ends[e].1 !in sd {
      assert e in Elements(outs);
    }
    return true;
  }

  /** The first node that is no root and has no successor left. */
  method FindDead(g: DirectedGraph, sd: seq<int>) returns (deleted: bool, toDelete: int)
    requires g.Valid() && Named(g, sd)
    ensures deleted ==> toDelete in sd && toDelete !in Roots(g, sd)
    ensures deleted ==> !HasSuccessorIn(g.Model(), Elements(sd), toDelete)
    ensures !deleted ==> Sustained(g.Model(), Roots(g, sd), Elements(sd))
  {
    toDelete := 0;
    var i := 0;
    while i < |sd|
      invariant 0 <= i <= |sd|
      invariant forall k :: 0 <= k < i ==> sd[k] in Roots(g, sd) || HasSuccessorIn(g.Model(), Elements(sd), sd[k])
    {
      var w := g.Node(sd[i]);
      if w.kind != GraphOutput && !(w.isSequential && w.isReceiver) {
        var isOut := IsOut(g, sd[i], sd);
        if isOut {
          return true, sd[i];
        }
      }
      i := i + 1;
    }
    return false, 0;
  }

  /** Whether a node survives among `sd`; the order in which dead nodes are deleted does not matter. */
  ghost function Dead(m: Multigraph, sd: seq<int>, roots: set<int>): set<int> {
    set v | v in sd && !Live(m, Elements(sd), roots, v)
  }

  /** Deletes dead nodes, one at a time, until there is none. */
  method PruneDead(g: DirectedGraph, sd0: seq<int>) returns (sd: seq<int>)
    requires g.Valid() && Named(g, sd0)
    ensures sd == Without(sd0, Dead(g.Model(), sd0, Roots(g, sd0)))
  {
    ghost var m, s, roots := g.Model(), Elements(sd0), Roots(g, sd0);
    ghost var gone: seq<int> := [];
    sd := sd0;
    NothingGone(sd0);
    assert Elements(gone) == {};
    var deleted := true;
    while deleted
      invariant sd == Without(sd0, Elements(gone)) && Named(g, sd)
      invariant DeletedInOrder(m, s, roots, gone) && NoDuplicates(gone)
      invariant !deleted ==> Sustained(m, Roots(g, sd), Elements(sd))
      decreases |sd|, deleted
    {
      var toDelete;
      deleted, toDelete := FindDead(g, sd);
      if deleted {
        WithoutMembers(sd0, Elements(gone));
        DeleteOne(m, sd0, roots, gone, toDelete);
        WithoutTwice(sd0, Elements(gone), {toDelete});
        WithoutShrinks(sd, {toDelete});
        WithoutMembers(sd, {toDelete});
        gone := gone + [toDelete];
        sd := Without(sd, {toDelete});
      }
    }
    WithoutMembers(sd0, Elements(gone));
    forall v | v in Roots(g, sd) ensures v in roots {
    }
    GoneAreDead(m, sd0, roots, gone, sd, Roots(g, sd));
  }

  lemma {:induction false} NothingGone(s: seq<int>)
    ensures Without(s, {}) == s
  {
    if s != [] {
      NothingGone(s[..|s| - 1]);
      assert s == s[..|s| - 1] + [s[|s| - 1]];
    }
  }

  lemma DeleteOne(m: Multigraph, sd0: seq<int>, roots: set<int>, gone: seq<int>, v: int)
    requires DeletedInOrder(m, Elements(sd0), roots, gone) && NoDuplicates(gone)
    requires v in sd0 && v !in gone && v !in roots
    requires !HasSuccessorIn(m, Elements(Without(sd0, Elements(gone))), v)
    ensures DeletedInOrder(m, Elements(sd0), roots, gone + [v]) && NoDuplicates(gone + [v])
    ensures Elements(gone + [v]) == Elements(gone) + {v}
  {
    WithoutMembers(sd0, Elements(gone));
    var more := gone + [v];
    AppendNoDuplicates(gone, v);
    forall k, w | 0 <= k < |more| && w in Elements(sd0) && m.HasEdge(more[k], w) ensures w in more[..k] {
      if k == |gone| {
        assert more[..k] == gone;
        assert w in gone || w in Elements(Without(sd0, Elements(gone)));
      } else {
        assert more[..k] == gone[..k];
      }
    }
    assert more[|gone|] == v;
    forall x ensures x in Elements(more) <==> x in Elements(gone) + {v} {
      if x in gone {
        var k :| 0 <= k < |gone| && gone[k] == x;
        assert more[k] == x;
      }
    }
  }

  lemma GoneAreDead(m: Multigraph, sd0: seq<int>, roots: set<int>, gone: seq<int>, sd: seq<int>, left: set<int>)
    requires DeletedInOrder(m, Elements(sd0), roots, gone) && NoDuplicates(gone)
    requires sd == Without(sd0, Elements(gone)) && left <= roots && Sustained(m, left, Elements(sd))
    ensures sd == Without(sd0, Dead(m, sd0, roots))
  {
    WithoutMembers(sd0, Elements(gone));
    var s := Elements(sd0);
    forall v | v in sd ensures Live(m, s, roots, v) {
      forall x | x in Elements(sd) ensures x in s {
      }
      SustainedIsLive(m, s, roots, Elements(sd), v);
    }
    forall v | v in sd0 && v in Elements(gone) ensures !Live(m, s, roots, v) {
      var k :| 0 <= k < |gone| && gone[k] == v;
      forall p | WalkIn(m, s, p) && p[0] == v ensures NoDuplicates(p) && p[|p| - 1] !in roots {
        DeletedIsDead(m, s, roots, gone, p, k);
      }
    }
    SameWithout(sd0, Elements(gone), Dead(m, sd0, roots));
  }

  // ----- the two passes -----

  /** The members of a schedule that a pass sets aside before it deletes dead nodes. */
  ghost function Excluded(g: DirectedGraph, dag: seq<int>, sinks: bool): set<int>
    reads g
    requires Named(g, dag)
  {
    set v | v in dag && if sinks then IsSink(g.vertNames[v]) else g.vertNames[v].kind == GraphOutput
  }

  /** What is left before the deletion of dead nodes. */
  ghost function Candidates(g: DirectedGraph, dag: seq<int>, sinks: bool): (sd: seq<int>)
    reads g
    requires Named(g, dag)
    ensures Named(g, sd)
  {
    WithoutMembers(dag, Excluded(g, dag, sinks));
    Without(dag, Excluded(g, dag, sinks))
  }

  /** The schedule after a pass: neither excluded nor dead, in the original order. */
  ghost function Pruned(g: DirectedGraph, dag: seq<int>, sinks: bool): seq<int>
    reads g
    requires g.Valid() && Named(g, dag)
  {
    var sd := Candidates(g, dag, sinks);
    Without(sd, Dead(g.Model(), sd, Roots(g, sd)))
  }

  method PruneDag(g: DirectedGraph, dag: seq<int>, sinks: bool) returns (sd: seq<int>)
    requires g.Valid() && Named(g, dag)
    ensures sd == Pruned(g, dag, sinks)
  {
    ghost var out := Excluded(g, dag, sinks);
    sd := [];
    var i := 0;
    while i < |dag|
      invariant 0 <= i <= |dag|
      invariant sd == Without(dag[..i], out)
    {
      assert dag[..i + 1][..i] == dag[..i];
      var w := g.Node(dag[i]);
      if !(if sinks then IsSink(w) else w.kind == GraphOutput) {
        sd := sd + [dag[i]];
      }
      i := i + 1;
    }
    assert dag[..i] == dag;
    WithoutMembers(dag, out);
    sd := PruneDead(g, sd);
  }

  ghost predicate AllNamed(g: DirectedGraph, dags: seq<SIMDGroup>)
    reads g
  {
    forall i, j :: 0 <= i < |dags| && 0 <= j < |dags[i].nodes| ==> Named(g, dags[i].nodes[j])
  }

  ghost predicate PrunedGroup(g: DirectedGraph, before: SIMDGroup, after: SIMDGroup, sinks: bool)
    reads g
    requires g.Valid() && forall j :: 0 <= j < |before.nodes| ==> Named(g, before.nodes[j])
  {
    after == if |before.nodes| == 1
             then SIMDGroup(before.totalWidth, [Pruned(g, before.nodes[0], sinks)])
             else before
  }

  lemma WalkInLarger(m: Multigraph, s: set<int>, larger: set<int>, p: seq<int>)
    requires WalkIn(m, s, p) && forall v :: v in s ==> v in larger
    ensures WalkIn(m, larger, p)
  {
    forall i | 0 <= i < |p| ensures p[i] in larger {
      var x := p[i];
      assert x in s;
    }
  }

  /** On an acyclic schedule a pass keeps exactly the nodes with a path, inside it, to a remaining root. */
  lemma PrunedKeepsWhatRootsNeed(g: DirectedGraph, dag: seq<int>, sinks: bool, v: int)
    requires g.Valid() && Named(g, dag) && AcyclicIn(g.Model(), Elements(dag))
    ensures var sd := Candidates(g, dag, sinks);
            v in Pruned(g, dag, sinks) <==> v in sd && ReachesRoot(g.Model(), Elements(sd), Roots(g, sd), v)
  {
    var m, sd := g.Model(), Candidates(g, dag, sinks);
    WithoutMembers(dag, Excluded(g, dag, sinks));
    WithoutMembers(sd, Dead(m, sd, Roots(g, sd)));
    var s := Elements(sd);
    forall p | WalkIn(m, s, p) ensures NoDuplicates(p) {
      WalkInLarger(m, s, Elements(dag), p);
    }
    AcyclicLive(m, s, Roots(g, sd), v);
  }

  /** A path through nodes of the schedule that are no sequential receivers, to a graph output. */
  predicate ToOutput(m: Multigraph, names: map<int, WireNode>, dag: seq<int>, p: seq<int>) {
    && p != []
    && (forall i :: 0 <= i < |p| ==>
      p[i] in dag && p[i] in names && !(names[p[i]].isSequential && names[p[i]].isReceiver))
    && (forall i :: 0 <= i < |p| - 1 ==> m.HasEdge(p[i], p[i + 1]))
    && names[p[|p| - 1]].kind == GraphOutput
  }

  /** A path through nodes of the schedule that are no graph outputs, to a sequential receiver. */
  predicate ToReceiver(m: Multigraph, names: map<int, WireNode>, dag: seq<int>, p: seq<int>) {
    && p != []
    && (forall i :: 0 <= i < |p| ==> p[i] in dag && p[i] in names && names[p[i]].kind != GraphOutput)
    && (forall i :: 0 <= i < |p| - 1 ==> m.HasEdge(p[i], p[i + 1]))
    && names[p[|p| - 1]].isSequential && names[p[|p| - 1]].isReceiver
  }

  lemma ToOutputIs(g: DirectedGraph, dag: seq<int>, p: seq<int>)
    requires g.Valid() && Named(g, dag)
    ensures var sd := Candidates(g, dag, true);
      ToOutput(g.Model(), g.vertNames, dag, p) <==> WalkIn(g.Model(), Elements(sd), p) && p[|p| - 1] in Roots(g, sd)
  {
    var sd, out := Candidates(g, dag, true), Excluded(g, dag, true);
    WithoutMembers(dag, out);
    forall i | 0 <= i < |p|
      ensures p[i] in Elements(sd) <==>
        p[i] in dag && p[i] in g.vertNames && !(g.vertNames[p[i]].isSequential && g.vertNames[p[i]].isReceiver)
    {
      WithoutMember(dag, out, p[i]);
    }
    if p != [] {
      WithoutMember(dag, out, p[|p| - 1]);
      assert p[|p| - 1] in Elements(sd) <==> p[|p| - 1] in sd;
    }
  }

  lemma ToReceiverIs(g: DirectedGraph, dag: seq<int>, p: seq<int>)
    requires g.Valid() && Named(g, dag)
    ensures var sd := Candidates(g, dag, false);
      ToReceiver(g.Model(), g.vertNames, dag, p) <==> WalkIn(g.Model(), Elements(sd), p) && p[|p| - 1] in Roots(g, sd)
  {
    var sd, out := Candidates(g, dag, false), Excluded(g, dag, false);
    WithoutMembers(dag, out);
    forall i | 0 <= i < |p|
      ensures p[i] in Elements(sd) <==>
        p[i] in dag && p[i] in g.vertNames && g.vertNames[p[i]].kind != GraphOutput
    {
      WithoutMember(dag, out, p[i]);
    }
    if p != [] {
      WithoutMember(dag, out, p[|p| - 1]);
      assert p[|p| - 1] in Elements(sd) <==> p[|p| - 1] in sd;
    }
  }

  /** Without sequential receivers exactly what a graph output depends on is left. */
  lemma KeptForOutputs(g: DirectedGraph, dag: seq<int>, v: int)
    requires g.Valid() && Named(g, dag) && AcyclicIn(g.Model(), Elements(dag))
    ensures v in Pruned(g, dag, true) <==> exists p :: ToOutput(g.Model(), g.vertNames, dag, p) && p[0] == v
  {
    var m, sd := g.Model(), Candidates(g, dag, true);
    PrunedKeepsWhatRootsNeed(g, dag, true, v);
    forall p
      ensures ToOutput(g.Model(), g.vertNames, dag, p) <==> WalkIn(m, Elements(sd), p) && p[|p| - 1] in Roots(g, sd)
    {
      ToOutputIs(g, dag, p);
    }
  }

  /** Without graph outputs exactly what a sequential receiver depends on is left. */
  lemma KeptForReceivers(g: DirectedGraph, dag: seq<int>, v: int)
    requires g.Valid() && Named(g, dag) && AcyclicIn(g.Model(), Elements(dag))
    ensures v in Pruned(g, dag, false) <==> exists p :: ToReceiver(g.Model(), g.vertNames, dag, p) && p[0] == v
  {
    var m, sd := g.Model(), Candidates(g, dag, false);
    PrunedKeepsWhatRootsNeed(g, dag, false, v);
    forall p
      ensures ToReceiver(g.Model(), g.vertNames, dag, p) <==> WalkIn(m, Elements(sd), p) && p[|p| - 1] in Roots(g, sd)
    {
      ToReceiverIs(g, dag, p);
    }
  }

  /** Keeps what the graph outputs depend on. */
  method PruneSequentialSinks(dags: seq<SIMDGroup>, g: DirectedGraph) returns (gp: seq<SIMDGroup>)
    requires g.Valid() && AllNamed(g, dags)
    ensures |gp| == |dags| && forall i :: 0 <= i < |dags| ==> PrunedGroup(g, dags[i], gp[i], true)
    ensures forall i :: 0 <= i < |dags| && |dags[i].nodes| != 1 ==> gp[i] == dags[i]
    ensures forall i :: 0 <= i < |dags| && |dags[i].nodes| == 1 ==>
      |gp[i].nodes| == 1 && gp[i].totalWidth == dags[i].totalWidth
    ensures forall i, v :: 0 <= i < |dags| && |dags[i].nodes| == 1 ==>
      AcyclicIn(g.Model(), Elements(dags[i].nodes[0])) ==>
      (v in gp[i].nodes[0] <==> exists p :: ToOutput(g.Model(), g.vertNames, dags[i].nodes[0], p) && p[0] == v)
  {
    gp := PruneGroups(dags, g, true);
    forall i, v | 0 <= i < |dags| && |dags[i].nodes| == 1 && AcyclicIn(g.Model(), Elements(dags[i].nodes[0]))
      ensures v in gp[i].nodes[0] <==> exists p :: ToOutput(g.Model(), g.vertNames, dags[i].nodes[0], p) && p[0] == v
    {
      assert PrunedGroup(g, dags[i], gp[i], true);
      KeptForOutputs(g, dags[i].nodes[0], v);
    }
  }

  /** Keeps what the sequential elements depend on. */
  method PruneOutputs(dags: seq<SIMDGroup>, g: DirectedGraph) returns (gp: seq<SIMDGroup>)
    requires g.Valid() && AllNamed(g, dags)
    ensures |gp| == |dags| && forall i :: 0 <= i < |dags| ==> PrunedGroup(g, dags[i], gp[i], false)
    ensures forall i :: 0 <= i < |dags| && |dags[i].nodes| != 1 ==> gp[i] == dags[i]
    ensures forall i :: 0 <= i < |dags| && |dags[i].nodes| == 1 ==>
      |gp[i].nodes| == 1 && gp[i].totalWidth == dags[i].totalWidth
    ensures forall i, v :: 0 <= i < |dags| && |dags[i].nodes| == 1 ==>
      AcyclicIn(g.Model(), Elements(dags[i].nodes[0])) ==>
      (v in gp[i].nodes[0] <==> exists p :: ToReceiver(g.Model(), g.vertNames, dags[i].nodes[0], p) && p[0] == v)
  {
    gp := PruneGroups(dags, g, false);
    forall i, v | 0 <= i < |dags| && |dags[i].nodes| == 1 && AcyclicIn(g.Model(), Elements(dags[i].nodes[0]))
      ensures v in gp[i].nodes[0] <==> exists p :: ToReceiver(g.Model(), g.vertNames, dags[i].nodes[0], p) && p[0] == v
    {
      assert PrunedGroup(g, dags[i], gp[i], false);
      KeptForReceivers(g, dags[i].nodes[0], v);
    }
  }

  method PruneGroups(dags: seq<SIMDGroup>, g: DirectedGraph, sinks: bool) returns (gp: seq<SIMDGroup>)
    requires g.Valid() && AllNamed(g, dags)
    ensures |gp| == |dags| && forall i :: 0 <= i < |dags| ==> PrunedGroup(g, dags[i], gp[i], sinks)
  {
    gp := [];
    var i := 0;
    while i < |dags|
      invariant 0 <= i <= |dags| && |gp| == i
      invariant forall k :: 0 <= k < i ==> PrunedGroup(g, dags[k], gp[k], sinks)
    {
      var group := PruneGroup(dags[i], g, sinks);
      gp := gp + [group];
      i := i + 1;
    }
  }

  method PruneGroup(group: SIMDGroup, g: DirectedGraph, sinks: bool) returns (r: SIMDGroup)
    requires g.Valid() && forall j :: 0 <= j < |group.nodes| ==> Named(g, group.nodes[j])
    ensures PrunedGroup(g, group, r, sinks)
  {
    if |group.nodes| == 1 {
      var sd := PruneDag(g, group.nodes[0], sinks);
      r := SIMDGroup(group.totalWidth, [sd]);
    } else {
      r := group;
    }
  }

  // ----- evaluation -----

  ghost predicate AgreeAt<V>(a: map<int, V>, b: map<int, V>, v: int) {
    (v in a <==> v in b) && (v in a ==> a[v] == b[v])
  }

  /** The new value of a node depends on the values of its predecessors only. */
  ghost predicate Local<V(!new)>(m: Multigraph, f: (int, map<int, V>) -> V) {
    forall v, a, b :: (forall u :: m.HasEdge(u, v) ==> AgreeAt(a, b, u)) ==> f(v, a) == f(v, b)
  }

  /** Evaluating the nodes of a schedule one after the other. */
  function Evaluate<V>(f: (int, map<int, V>) -> V, order: seq<int>, env: map<int, V>): map<int, V> {
    if order == [] then env
    else
      var e := Evaluate(f, order[..|order| - 1], env);
      var v := order[|order| - 1];
      e[v := f(v, e)]
  }

  lemma EvaluateLast<V>(f: (int, map<int, V>) -> V, order: seq<int>, x: int, env: map<int, V>)
    ensures var e := Evaluate(f, order, env); Evaluate(f, order + [x], env) == e[x := f(x, e)]
  {
    assert (order + [x])[..|order|] == order;
  }

  ghost predicate AgreeOff<V(!new)>(a: map<int, V>, b: map<int, V>, gone: set<int>) {
    forall v :: v !in gone ==> AgreeAt(a, b, v)
  }

  lemma StepAgrees<V(!new)>(m: Multigraph, f: (int, map<int, V>) -> V, gone: set<int>, x: int, a: map<int, V>,
      b: map<int, V>)
    requires Local(m, f) && AgreeOff(a, b, gone) && x !in gone
    requires forall u :: u in gone ==> !m.HasEdge(u, x)
    ensures AgreeOff(a[x := f(x, a)], b[x := f(x, b)], gone)
  {
    forall u | m.HasEdge(u, x) ensures AgreeAt(a, b, u) {
    }
    assert f(x, a) == f(x, b);
  }

  /** Skipping `gone` does not change other values, if nothing that is left depends on it. */
  lemma {:induction false} SkippingIsHarmless<V(!new)>(m: Multigraph, f: (int, map<int, V>) -> V, order: seq<int>,
      gone: set<int>, env: map<int, V>)
    requires Local(m, f)
    requires forall u, i :: u in gone && 0 <= i < |order| && order[i] !in gone ==> !m.HasEdge(u, order[i])
    ensures AgreeOff(Evaluate(f, order, env), Evaluate(f, Without(order, gone), env), gone)
  {
    if order != [] {
      var n := |order| - 1;
      var front, x := order[..n], order[n];
      SkippingIsHarmless(m, f, front, gone, env);
      if x !in gone {
        StepAgrees(m, f, gone, x, Evaluate(f, front, env), Evaluate(f, Without(front, gone), env));
        EvaluateLast(f, Without(front, gone), x, env);
      }
    }
  }

  /**
   Evaluating the pruned schedule gives every node it keeps the value that the whole
   schedule gives it. Excluded nodes are sinks of the graph: nothing depends on them.
  */
  lemma PrunedEvaluation<V(!new)>(g: DirectedGraph, dag: seq<int>, sinks: bool, f: (int, map<int, V>) -> V,
      env: map<int, V>)
    requires g.Valid() && Named(g, dag) && Local(g.Model(), f)
    requires forall u, v :: u in Excluded(g, dag, sinks) ==> !g.Model().HasEdge(u, v)
    ensures forall v :: v in Pruned(g, dag, sinks) ==>
              AgreeAt(Evaluate(f, dag, env), Evaluate(f, Pruned(g, dag, sinks), env), v)
  {
    var m, out := g.Model(), Excluded(g, dag, sinks);
    var sd := Candidates(g, dag, sinks);
    var dead := Dead(m, sd, Roots(g, sd));
    WithoutTwice(dag, out, dead);
    WithoutMembers(dag, out);
    WithoutMembers(dag, out + dead);
    forall u, v | u in out + dead && v in dag && v !in out + dead ensures !m.HasEdge(u, v) {
      if u in dead && m.HasEdge(u, v) {
        assert u in Elements(sd) && v in sd;
        LivePredecessor(m, Elements(sd), Roots(g, sd), u, v);
      }
    }
    SkippingIsHarmless(m, f, dag, out + dead, env);
  }
}
