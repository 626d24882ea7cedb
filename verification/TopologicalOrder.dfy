/**
 Topological sorting by deleting edges, used by the simulator as its test for
 combinational loops, and the level-by-level layering of an acyclic graph.
*/
module TopologicalOrder {
  import opened Collections
  import opened Walks
  import opened Graphs

  lemma AppendElements(s: seq<int>, x: int)
    ensures Elements(s + [x]) == Elements(s) + {x}
    ensures x in Elements(s + [x])
  {
    assert (s + [x])[|s|] == x;
    assert forall i :: 0 <= i < |s| ==> (s + [x])[i] == s[i];
  }

  method NoOtherEdges(g: DirectedGraph, v: int, deleted: set<int>) returns (r: bool)
    requires g.Valid()
    ensures r <==> g.Model().InSet(v) <= deleted
  {
    g.IncidentEdges(v);
    var ins := g.InEdges(v);
    var i := 0;
    while i < |ins|
      invariant 0 <= i <= |ins|
      invariant forall k :: 0 <= k < i ==> ins[k] in deleted
    {
      if ins[i] !in deleted {
        assert ins[i] in g.Model().InSet(v);
        return false;
      }
      i := i + 1;
    }
    return true;
  }

  /**
   The vertices listed so far and those waiting on the stack are exactly the vertices
   all of whose incoming edges have been deleted, and each occurs once.
  */
  ghost predicate Frontier(m: Multigraph, seen: seq<int>, deleted: set<int>) {
    && NoDuplicates(seen)
    && (forall v :: v in seen <==> v in m.verts && m.InSet(v) <= deleted)
  }

  /** Deleting one edge changes readiness of its target only, which was not ready before. */
  lemma DeleteEdge(m: Multigraph, seen: seq<int>, deleted: set<int>, e: int)
    requires m.Closed() && 0 <= e < |m.ends| && e !in deleted && Frontier(m, seen, deleted)
    ensures if m.InSet(m.ends[e].1) <= deleted + {e}
            then Frontier(m, seen + [m.ends[e].1], deleted + {e})
            else Frontier(m, seen, deleted + {e})
  {
    var dest := m.ends[e].1;
    assert e in m.InSet(dest);
    AppendNoDuplicates(seen, dest);
    forall u | u != dest ensures m.InSet(u) <= deleted + {e} <==> m.InSet(u) <= deleted {
      assert e !in m.InSet(u);
    }
  }

  /** Deletes the outgoing edges of `v`, stacking the vertices that become ready. */
  method DeleteOutEdges(g: DirectedGraph, v: int, ghost order: seq<int>, stack0: seq<int>, deleted0: set<int>)
    returns (stack: seq<int>, deleted: set<int>)
    requires g.Valid() && g.Model().Closed()
    requires Frontier(g.Model(), order + stack0, deleted0)
    requires g.Model().OutSet(v) !! deleted0
    ensures Frontier(g.Model(), order + stack, deleted)
    ensures deleted == deleted0 + g.Model().OutSet(v)
  {
    hide Multigraph.Closed;
    g.EdgeEnds();
    g.IncidentEdges(v);
    ghost var m := g.Model();
    stack, deleted := stack0, deleted0;
    var outs := g.OutEdges(v);
    var i := 0;
    assert Elements(outs[..0]) == {};
    while i < |outs|
      invariant 0 <= i <= |outs|
      invariant Frontier(m, order + stack, deleted)
      invariant deleted == deleted0 + Elements(outs[..i])
    {
      var e := outs[i];
      OneMoreElement(outs, i);
      assert e in m.OutSet(v);
      DeleteEdge(m, order + stack, deleted, e);
      deleted := deleted + {e};
      var dest := g.Target(e);
      var ready := NoOtherEdges(g, dest, deleted);
      if ready {
        Stacked(order, stack, dest);
        stack := stack + [dest];
      }
      i := i + 1;
    }
    assert outs[..i] == outs;
  }

  lemma Stacked(order: seq<int>, stack: seq<int>, v: int)
    ensures order + (stack + [v]) == order + stack + [v]
  {
  }

  lemma OneMoreElement(s: seq<int>, i: nat)
    requires i < |s|
    ensures Elements(s[..i + 1]) == Elements(s[..i]) + {s[i]} && s[i] in Elements(s)
    ensures NoDuplicates(s) ==> s[i] !in Elements(s[..i])
  {
    assert s[..i + 1] == s[..i] + [s[i]];
    if NoDuplicates(s) {
      forall j | 0 <= j < i ensures s[..i][j] != s[i] {
      }
    }
  }

  /** The deleted edges are those that leave listed vertices. */
  ghost predicate DeletedFrom(m: Multigraph, order: seq<int>, deleted: set<int>) {
    forall e :: e in deleted <==> 0 <= e < |m.ends| && m.ends[e].0 in order
  }

  /**
   Lists vertices whose predecessors are all listed before them, as far as that is
   possible: what is left out is exactly what some cycle leads to.
  */
  method TopologicalSortNoFail(g: DirectedGraph) returns (order: seq<int>)
    requires g.Valid() && g.Model().Closed()
    ensures NoDuplicates(order) && Respects(g.Model(), order)
    ensures forall v :: v in order <==> v in g.verts && !g.Model().ReachedByCycle(v)
    ensures |order| <= |g.verts|
    ensures |order| == |g.verts| <==> g.Model().Acyclic()
  {
    order := [];
    var stack := g.VertsWithNoIncomingEdge();
    var deleted: set<int> := {};
    assert order + stack == stack;
    while |stack| > 0
      invariant Frontier(g.Model(), order + stack, deleted)
      invariant DeletedFrom(g.Model(), order, deleted)
      invariant Respects(g.Model(), order)
      decreases Elements(g.verts) - Elements(order)
    {
      var v := stack[|stack| - 1];
      AppendElements(order, v);
      ListTop(g.Model(), order, stack, deleted);
      order := order + [v];
      stack := stack[..|stack| - 1];
      stack, deleted := DeleteOutEdges(g, v, order, stack, deleted);
    }
    assert order + stack == order;
    Exactness(g.Model(), order, deleted);
  }

  /** Moving the top of the stack to the end of the order. */
  lemma ListTop(m: Multigraph, order: seq<int>, stack: seq<int>, deleted: set<int>)
    requires |stack| > 0 && Frontier(m, order + stack, deleted)
    requires DeletedFrom(m, order, deleted) && Respects(m, order)
    ensures var v, rest := stack[|stack| - 1], stack[..|stack| - 1];
            && Frontier(m, (order + [v]) + rest, deleted)
            && Respects(m, order + [v])
            && v in m.verts && v !in order
            && m.OutSet(v) !! deleted
            && DeletedFrom(m, order + [v], deleted + m.OutSet(v))
  {
    var v, rest := stack[|stack| - 1], stack[..|stack| - 1];
    var before, after := order + stack, (order + [v]) + rest;
    StackTop(order, stack);
    forall u ensures u in before <==> u in after {
      assert stack == rest + [v];
    }
    assert v in before;
    var longer := order + [v];
    forall u, j | 0 <= j < |longer| && m.HasEdge(u, longer[j]) ensures u in longer[..j] {
      if j == |order| {
        var e :| 0 <= e < |m.ends| && m.ends[e] == (u, v);
        assert e in m.InSet(v);
        assert longer[..j] == order;
      } else {
        assert longer[..j] == order[..j] && longer[j] == order[j];
      }
    }
  }

  lemma StackTop(order: seq<int>, stack: seq<int>)
    requires |stack| > 0 && NoDuplicates(order + stack)
    ensures NoDuplicates((order + [stack[|stack| - 1]]) + stack[..|stack| - 1])
    ensures stack[|stack| - 1] !in order
  {
    var v := stack[|stack| - 1];
    var before, after := order + stack, (order + [v]) + stack[..|stack| - 1];
    var n, k := |order|, |before| - 1;
    assert before[k] == v;
    forall i, j | 0 <= i < j < |after| ensures after[i] != after[j] {
      var oi := if i < n then i else if i == n then k else i - 1;
      var oj := if j < n then j else if j == n then k else j - 1;
      assert after[i] == before[oi] && after[j] == before[oj];
    }
    forall i | 0 <= i < n ensures order[i] != v {
      assert before[i] != before[k];
    }
  }

  lemma UnlistedReached(m: Multigraph, order: seq<int>, deleted: set<int>, v: int)
    requires m.Closed() && Frontier(m, order, deleted) && DeletedFrom(m, order, deleted)
    requires v in m.verts && v !in order
    ensures m.ReachedByCycle(v)
  {
    var left := set u | u in m.verts && u !in order;
    forall u | u in left ensures HasPredecessorIn(m, left, u) {
      var e :| e in m.InSet(u) && e !in deleted;
      assert m.ends[e].0 in left && m.HasEdge(m.ends[e].0, u);
    }
    BackwardClosedReached(m, left, v);
  }

  /** Once the stack is empty, every unlisted vertex has an unlisted predecessor. */
  lemma Exactness(m: Multigraph, order: seq<int>, deleted: set<int>)
    requires m.Closed() && Frontier(m, order, deleted) && DeletedFrom(m, order, deleted) && Respects(m, order)
    ensures forall v :: v in order <==> v in m.verts && !m.ReachedByCycle(v)
    ensures |order| <= |m.verts|
    ensures |order| == |m.verts| <==> m.Acyclic()
  {
    forall v ensures v in order <==> v in m.verts && !m.ReachedByCycle(v) {
      if v in order {
        ListedNotReached(m, order, v);
      } else if v in m.verts {
        UnlistedReached(m, order, deleted, v);
      }
    }
    ElementsCount(order);
    ElementsCount(m.verts);
    SizeDecides(m, order);
  }

  lemma SizeDecides(m: Multigraph, order: seq<int>)
    requires forall v :: v in order <==> v in m.verts && !m.ReachedByCycle(v)
    requires |Elements(order)| == |order| && |Elements(m.verts)| == |m.verts|
    ensures |order| <= |m.verts|
    ensures |order| == |m.verts| <==> m.Acyclic()
  {
    var all, some := Elements(m.verts), Elements(order);
    forall v | v in some ensures v in all {
    }
    SubsetCount(some, all);
    CycleMeansReached(m);
    if m.Acyclic() {
      forall v | v in all ensures v in some {
      }
      assert some == all;
    }
    if |order| == |m.verts| {
      forall v | v in m.verts ensures !m.ReachedByCycle(v) {
        assert v in all && v in some;
      }
    }
  }

  // ----- levels -----

  predicate Ascending(s: seq<int>) {
    forall i, j :: 0 <= i < j < |s| ==> s[i] < s[j]
  }

  /** The elements of an ordered set, in the order in which iteration visits them. */
  method InAscendingOrder(s: set<int>) returns (r: seq<int>)
    ensures Ascending(r)
    ensures Elements(r) == s
  {
    r := [];
    var left := s;
    while left != {}
      invariant left <= s && Ascending(r)
      invariant Elements(r) == s - left
      invariant forall i, y :: 0 <= i < |r| && y in left ==> r[i] < y
      decreases left
    {
      var least := Least(left);
      AppendElements(r, least);
      r := r + [least];
      left := left - {least};
    }
  }

  method Least(s: set<int>) returns (least: int)
    requires s != {}
    ensures least in s && forall x :: x in s ==> least <= x
  {
    ghost var some := Pick(s);
    least :| least in s;
    var left := s - {least};
    while left != {}
      invariant left <= s && least in s
      invariant forall x :: x in s && x !in left ==> least <= x
      decreases left
    {
      some := Pick(left);
      var x: int :| x in left;
      if x < least {
        least := x;
      }
      left := left - {x};
    }
  }

  /** `k` is the length of the longest walk to `v`. */
  ghost predicate AtDepth(m: Multigraph, v: int, k: nat) {
    m.HasWalkTo(v, k) && !m.HasWalkTo(v, k + 1)
  }

  ghost predicate FedFrom(m: Multigraph, v: int, added: set<int>) {
    forall e :: e in m.InSet(v) ==> m.ends[e].0 in added
  }

  method AllInputsIn(g: DirectedGraph, v: int, added: set<int>) returns (r: bool)
    requires g.Valid()
    ensures r <==> FedFrom(g.Model(), v, added)
  {
    g.EdgeEnds();
    g.IncidentEdges(v);
    var ins := g.InEdges(v);
    var i := 0;
    while i < |ins|
      invariant 0 <= i <= |ins|
      invariant forall k :: 0 <= k < i ==> ins[k] in g.Model().InSet(v) && g.Model().ends[ins[k]].0 in added
    {
      assert ins[i] in g.Model().InSet(v);
      if g.Source(ins[i]) !in added {
        return false;
      }
      i := i + 1;
    }
    return true;
  }

  /** Vertices with some input, all of whose inputs come from `added`. */
  ghost predicate Placeable(m: Multigraph, v: int, added: set<int>) {
    m.InSet(v) != {} && FedFrom(m, v, added)
  }

  method IsPlaceable(g: DirectedGraph, v: int, added: set<int>) returns (r: bool)
    requires g.Valid()
    ensures r <==> Placeable(g.Model(), v, added)
  {
    g.IncidentEdges(v);
    ElementsCount(g.InEdges(v));
    r := false;
    if |g.InEdges(v)| > 0 {
      assert g.InEdges(v)[0] in g.Model().InSet(v);
      r := AllInputsIn(g, v, added);
    }
  }

  /** The placeable vertices of `nodes`, in ascending order. */
  method NextLevel(g: DirectedGraph, nodes: set<int>, added: set<int>) returns (level: seq<int>)
    requires g.Valid()
    ensures Ascending(level)
    ensures forall v :: v in level <==> v in nodes && Placeable(g.Model(), v, added)
  {
    level := [];
    var candidates := InAscendingOrder(nodes);
    var i := 0;
    while i < |candidates|
      invariant 0 <= i <= |candidates|
      invariant Ascending(level)
      invariant forall k, l :: 0 <= k < |level| && i <= l < |candidates| ==> level[k] < candidates[l]
      invariant forall v :: v in level <==> v in candidates[..i] && Placeable(g.Model(), v, added)
    {
      var v := candidates[i];
      assert candidates[..i + 1] == candidates[..i] + [v];
      var placeable := IsPlaceable(g, v, added);
      if placeable {
        level := level + [v];
      }
      i := i + 1;
    }
    assert candidates[..i] == candidates;
    assert forall v :: v in candidates <==> v in Elements(candidates);
  }

  ghost predicate Covered(m: Multigraph, levels: seq<seq<int>>, nodes: set<int>) {
    forall v :: v in m.verts && v !in nodes ==> exists k :: 0 <= k < |levels| && v in levels[k]
  }

  ghost predicate Placed(m: Multigraph, levels: seq<seq<int>>) {
    forall k, v :: 0 <= k < |levels| && v in levels[k] ==> v in m.verts && AtDepth(m, v, k)
  }

  ghost predicate Pending(m: Multigraph, nodes: set<int>, n: nat) {
    forall v :: v in nodes ==> v in m.verts && m.HasWalkTo(v, n) && m.InSet(v) != {}
  }

  /** What the layering has established when `levels` are finished and `nodes` are left. */
  ghost predicate Layered(m: Multigraph, levels: seq<seq<int>>, nodes: set<int>) {
    Covered(m, levels, nodes) && Placed(m, levels) && Pending(m, nodes, |levels|)
  }

  /**
   On an acyclic graph the layering ends, and it puts every vertex in the level whose
   number is the length of the longest walk to it.
  */
  method TopologicalLevels(g: DirectedGraph) returns (levels: seq<seq<int>>)
    requires g.Valid() && g.Model().Closed() && g.Model().Acyclic()
    ensures forall k, v :: 0 <= k < |levels| ==>
              (v in levels[k] <==> v in g.verts && AtDepth(g.Model(), v, k))
    ensures forall v :: v in g.verts ==> exists k :: 0 <= k < |levels| && v in levels[k]
    ensures forall k :: 1 <= k < |levels| ==> Ascending(levels[k]) && levels[k] != []
  {
    ghost var m := g.Model();
    var initial := g.VertsWithNoIncomingEdge();
    var nodes := Elements(g.verts) - Elements(initial);
    var added := Elements(initial);
    levels := [initial];
    FirstLevel(m, initial);
    while nodes != {}
      invariant Layered(m, levels, nodes) && nodes <= Elements(m.verts)
      invariant added == Elements(m.verts) - nodes
      invariant forall k :: 1 <= k < |levels| ==> Ascending(levels[k]) && levels[k] != []
      decreases nodes
    {
      var level := NextLevel(g, nodes, added);
      LevelStep(m, nodes, added, levels, level);
      nodes := nodes - Elements(level);
      added := added + Elements(level);
      levels := levels + [level];
    }
    AllPlaced(m, levels);
  }

  lemma AllPlaced(m: Multigraph, levels: seq<seq<int>>)
    requires Layered(m, levels, {})
    ensures forall k, v :: 0 <= k < |levels| ==> (v in levels[k] <==> v in m.verts && AtDepth(m, v, k))
    ensures forall v :: v in m.verts ==> exists k :: 0 <= k < |levels| && v in levels[k]
  {
    forall k, v | 0 <= k < |levels| && v in m.verts && AtDepth(m, v, k) ensures v in levels[k] {
      var l :| 0 <= l < |levels| && v in levels[l];
      DepthUnique(m, v, k, l);
    }
  }

  lemma DepthUnique(m: Multigraph, v: int, k: nat, l: nat)
    requires AtDepth(m, v, k) && AtDepth(m, v, l)
    ensures k == l
  {
    if k < l {
      WalkSuffix(m, v, l, k + 1);
    } else if l < k {
      WalkSuffix(m, v, k, l + 1);
    }
  }

  lemma FirstLevel(m: Multigraph, initial: seq<int>)
    requires m.Closed()
    requires forall v :: v in initial <==> v in m.verts && m.InSet(v) == {}
    ensures Layered(m, [initial], Elements(m.verts) - Elements(initial))
  {
    forall v | v in m.verts
      ensures m.HasWalkTo(v, 0)
      ensures m.HasWalkTo(v, 1) <==> m.InSet(v) != {}
    {
      TrivialWalk(m, v);
      WalkThroughPredecessor(m, v, 0);
      if m.InSet(v) != {} {
        var e := Pick(m.InSet(v));
        TrivialWalk(m, m.ends[e].0);
        assert m.HasEdge(m.ends[e].0, v);
      }
      if m.HasWalkTo(v, 1) {
        var u :| u in m.verts && m.HasEdge(u, v) && m.HasWalkTo(u, 0);
        var e :| 0 <= e < |m.ends| && m.ends[e] == (u, v);
        assert e in m.InSet(v);
      }
    }
    assert forall v :: v in initial ==> v in [initial][0];
  }

  lemma TrivialWalk(m: Multigraph, v: int)
    requires v in m.verts
    ensures m.HasWalkTo(v, 0)
  {
    var p := [v];
    assert m.IsWalk(p) && p[|p| - 1] == v && |p| == 1;
  }

  /** A vertex that is not placed yet has a predecessor that is not placed either. */
  lemma NotPlaceable(m: Multigraph, nodes: set<int>, v: int, n: nat)
    requires m.Closed() && v in nodes && v in m.verts && m.InSet(v) != {}
    requires !Placeable(m, v, Elements(m.verts) - nodes)
    requires forall u :: u in nodes ==> m.HasWalkTo(u, n)
    ensures HasPredecessorIn(m, nodes, v) && m.HasWalkTo(v, n + 1)
  {
    var e :| e in m.InSet(v) && m.ends[e].0 !in Elements(m.verts) - nodes;
    var u := m.ends[e].0;
    assert u in m.verts && m.HasEdge(u, v);
    WalkThroughPredecessor(m, v, n);
  }

  /** A vertex fed only from levels before `n` has no walk of `n + 1` edges to it. */
  lemma PlaceableDepth(m: Multigraph, levels: seq<seq<int>>, nodes: set<int>, v: int)
    requires m.Closed() && Layered(m, levels, nodes) && v in nodes
    requires Placeable(m, v, Elements(m.verts) - nodes)
    ensures AtDepth(m, v, |levels|)
  {
    hide Multigraph.HasWalkTo, Multigraph.Closed, Placeable;
    var n := |levels|;
    WalkThroughPredecessor(m, v, n);
    if m.HasWalkTo(v, n + 1) {
      var u :| u in m.verts && m.HasEdge(u, v) && m.HasWalkTo(u, n);
      var k := PredecessorLevel(m, levels, nodes, v, u);
      WalkSuffix(m, u, n, k + 1);
    }
  }

  lemma PredecessorLevel(m: Multigraph, levels: seq<seq<int>>, nodes: set<int>, v: int, u: int) returns (k: nat)
    requires m.Closed() && Layered(m, levels, nodes) && Placeable(m, v, Elements(m.verts) - nodes)
    requires m.HasEdge(u, v) && u in m.verts
    ensures k < |levels| && u in levels[k]
  {
    var e :| 0 <= e < |m.ends| && m.ends[e] == (u, v);
    assert e in m.InSet(v);
    assert u !in nodes;
    k :| 0 <= k < |levels| && u in levels[k];
  }

  lemma LevelStep(m: Multigraph, nodes: set<int>, added: set<int>, levels: seq<seq<int>>, level: seq<int>)
    requires m.Closed() && m.Acyclic() && nodes != {} && nodes <= Elements(m.verts)
    requires Layered(m, levels, nodes) && added == Elements(m.verts) - nodes
    requires forall v :: v in level <==> v in nodes && Placeable(m, v, added)
    ensures Layered(m, levels + [level], nodes - Elements(level))
    ensures added + Elements(level) == Elements(m.verts) - (nodes - Elements(level))
    ensures level != [] && nodes - Elements(level) < nodes
  {
    LevelSets(m.verts, nodes, added, level);
    PendingStep(m, nodes, |levels|, level);
    forall v | v in level ensures v in m.verts && AtDepth(m, v, |levels|) {
      PlaceableDepth(m, levels, nodes, v);
    }
    LevelPlaces(m, levels, level);
    LevelCovers(m, levels, nodes, level);
    SomethingPlaceable(m, levels, nodes, level);
  }

  lemma LevelSets(verts: seq<int>, nodes: set<int>, added: set<int>, level: seq<int>)
    requires added == Elements(verts) - nodes && nodes <= Elements(verts)
    requires forall v :: v in level ==> v in nodes
    ensures added + Elements(level) == Elements(verts) - (nodes - Elements(level))
    ensures level != [] ==> nodes - Elements(level) < nodes
  {
    forall v | v in Elements(level) ensures v in nodes {
    }
    if level != [] {
      assert level[0] in level && level[0] in Elements(level);
    }
  }

  lemma PendingStep(m: Multigraph, nodes: set<int>, n: nat, level: seq<int>)
    requires m.Closed() && Pending(m, nodes, n)
    requires forall v :: v in level <==> v in nodes && Placeable(m, v, Elements(m.verts) - nodes)
    ensures Pending(m, nodes - Elements(level), n + 1)
  {
    forall v | v in nodes - Elements(level) ensures v in m.verts && m.HasWalkTo(v, n + 1) {
      NotPlaceable(m, nodes, v, n);
    }
  }

  lemma LevelPlaces(m: Multigraph, levels: seq<seq<int>>, level: seq<int>)
    requires Placed(m, levels)
    requires forall v :: v in level ==> v in m.verts && AtDepth(m, v, |levels|)
    ensures Placed(m, levels + [level])
  {
  }

  lemma LevelCovers(m: Multigraph, levels: seq<seq<int>>, nodes: set<int>, level: seq<int>)
    requires Covered(m, levels, nodes)
    ensures Covered(m, levels + [level], nodes - Elements(level))
  {
    var n, longer := |levels|, levels + [level];
    forall v | v in m.verts && v !in nodes - Elements(level) ensures exists k :: 0 <= k < |longer| && v in longer[k] {
      if v in nodes {
        assert v in longer[n];
      } else {
        var k :| 0 <= k < n && v in levels[k];
        assert v in longer[k];
      }
    }
  }

  /** In an acyclic graph some vertex is always placeable. */
  lemma SomethingPlaceable(m: Multigraph, levels: seq<seq<int>>, nodes: set<int>, level: seq<int>)
    requires m.Closed() && m.Acyclic() && nodes != {} && Pending(m, nodes, |levels|)
    requires forall v :: v in level <==> v in nodes && Placeable(m, v, Elements(m.verts) - nodes)
    ensures level != []
  {
    var v := Pick(nodes);
    CycleMeansReached(m);
    if level == [] {
      forall u | u in nodes ensures HasPredecessorIn(m, nodes, u) {
        NotPlaceable(m, nodes, u, |levels|);
      }
      BackwardClosedReached(m, nodes, v);
    }
  }
}
