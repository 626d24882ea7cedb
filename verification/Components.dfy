/**
 Splitting the operations of a graph into threads: connected components that ignore
 graph inputs and constants, and the numbering that makes each component one thread.
*/
module Components {
  import opened Collections
  import opened Walks
  import opened Graphs

  predicate Eligible(w: WireNode) {
    w.kind != GraphInput && w.kind != Constant
  }

  /** Vertices that belong to some component. */
  ghost function Open(g: DirectedGraph): set<int>
    reads g
  {
    set v | v in g.verts && v in g.vertNames && g.vertNames[v].kind != GraphInput && g.vertNames[v].kind != Constant
  }

  ghost predicate Labelled(g: DirectedGraph)
    reads g
  {
    g.Valid() && g.Model().Closed() && forall v :: v in g.verts ==> v in g.vertNames
  }

  ghost predicate Adjacent(m: Multigraph, u: int, v: int) {
    m.HasEdge(u, v) || m.HasEdge(v, u)
  }

  /** An undirected path that visits only `open` vertices after its first. */
  ghost predicate IsPath(m: Multigraph, open: set<int>, p: seq<int>) {
    && p != []
    && (forall i :: 1 <= i < |p| ==> p[i] in open)
    && forall i :: 0 <= i < |p| - 1 ==> Adjacent(m, p[i], p[i + 1])
  }

  ghost predicate Linked(m: Multigraph, open: set<int>, u: int, v: int) {
    exists p :: IsPath(m, open, p) && p[0] == u && p[|p| - 1] == v
  }

  lemma LinkedSelf(m: Multigraph, open: set<int>, v: int)
    ensures Linked(m, open, v, v)
  {
    var p := [v];
    assert IsPath(m, open, p) && p[0] == v && p[|p| - 1] == v;
  }

  lemma LinkedStep(m: Multigraph, open: set<int>, u: int, v: int, w: int)
    requires Linked(m, open, u, v) && Adjacent(m, v, w) && w in open
    ensures Linked(m, open, u, w)
  {
    var p :| IsPath(m, open, p) && p[0] == u && p[|p| - 1] == v;
    var q := p + [w];
    forall i | 0 <= i < |q| - 1 ensures Adjacent(m, q[i], q[i + 1]) {
      if i < |p| - 1 {
        assert Adjacent(m, p[i], p[i + 1]);
      }
    }
    assert IsPath(m, open, q) && q[0] == u && q[|q| - 1] == w;
  }

  /** A set that holds `u` and is closed under open neighbours holds all that `u` is linked to. */
  lemma {:induction false} ClosedHoldsPath(m: Multigraph, open: set<int>, s: set<int>, p: seq<int>)
    requires IsPath(m, open, p) && p[0] in s
    requires forall x, y :: x in s && y in open && Adjacent(m, x, y) ==> y in s
    ensures p[|p| - 1] in s
    decreases |p|
  {
    if |p| > 1 {
      var n := |p| - 1;
      var front := p[..n];
      forall i | 0 <= i < |front| - 1 ensures Adjacent(m, front[i], front[i + 1]) {
        assert Adjacent(m, p[i], p[i + 1]);
      }
      ClosedHoldsPath(m, open, s, front);
      assert Adjacent(m, p[n - 1], p[n]);
    }
  }

  lemma LinkedTransitive(m: Multigraph, open: set<int>, u: int, v: int, w: int)
    requires Linked(m, open, u, v) && Linked(m, open, v, w)
    ensures Linked(m, open, u, w)
  {
    var p :| IsPath(m, open, p) && p[0] == u && p[|p| - 1] == v;
    var q :| IsPath(m, open, q) && q[0] == v && q[|q| - 1] == w;
    var r := p + q[1..];
    forall i | 0 <= i < |r| - 1 ensures Adjacent(m, r[i], r[i + 1]) {
      if i < |p| - 1 {
        assert Adjacent(m, p[i], p[i + 1]);
      } else {
        var j := i - (|p| - 1);
        assert Adjacent(m, q[j], q[j + 1]);
        assert r[i] == q[j] && r[i + 1] == q[j + 1];
      }
    }
    assert IsPath(m, open, r) && r[0] == u && r[|r| - 1] == w;
  }

  lemma LinkedSymmetric(m: Multigraph, open: set<int>, u: int, v: int)
    requires Linked(m, open, u, v) && u in open
    ensures Linked(m, open, v, u)
  {
    var p :| IsPath(m, open, p) && p[0] == u && p[|p| - 1] == v;
    var n := |p|;
    var q := seq(n, i requires 0 <= i < n => p[n - 1 - i]);
    forall i | 0 <= i < n - 1 ensures Adjacent(m, q[i], q[i + 1]) {
      assert Adjacent(m, p[n - 2 - i], p[n - 1 - i]);
    }
    assert IsPath(m, open, q) && q[0] == v && q[|q| - 1] == u;
  }

  // ----- one component -----

  ghost predicate Waiting(g: DirectedGraph, cc: set<int>, y: int)
    reads g
  {
    y in Open(g) && y !in cc
  }

  /** The end of the edge that `OtherEnds` looks at. */
  function EndAt(g: DirectedGraph, e: int, outgoing: bool): int
    requires e in g.edgeVals
    reads g
  {
    if outgoing then g.Target(e) else g.Source(e)
  }

  /** The listed edges at `v`: their other ends, and which of these are open. */
  lemma IncidentEnds(g: DirectedGraph, v: int, outgoing: bool, edges: seq<int>)
    requires Labelled(g) && edges == if outgoing then g.OutEdges(v) else g.InEdges(v)
    ensures Elements(edges) == if outgoing then g.Model().OutSet(v) else g.Model().InSet(v)
    ensures forall e :: e in edges ==> e in g.edgeVals
    ensures forall e :: e in edges ==> var y := EndAt(g, e, outgoing);
              && y == OtherEnd(g.Model(), e, outgoing) && y in g.vertNames
              && (Eligible(g.Node(y)) <==> y in Open(g))
              && (if outgoing then g.Model().HasEdge(v, y) else g.Model().HasEdge(y, v))
  {
    var m := g.Model();
    g.EdgeEnds();
    g.IncidentEdges(v);
    forall e | e in edges
      ensures e in g.edgeVals && EndAt(g, e, outgoing) == OtherEnd(m, e, outgoing)
      ensures EndAt(g, e, outgoing) in g.vertNames
      ensures Eligible(g.Node(EndAt(g, e, outgoing))) <==> EndAt(g, e, outgoing) in Open(g)
      ensures if outgoing then m.HasEdge(v, EndAt(g, e, outgoing)) else m.HasEdge(EndAt(g, e, outgoing), v)
    {
      assert e in Elements(edges);
      assert m.ends[e] == if outgoing then (v, EndAt(g, e, outgoing)) else (EndAt(g, e, outgoing), v);
      assert m.ends[e].0 in m.verts && m.ends[e].1 in m.verts;
    }
  }

  /** The waiting sources of the edges into `v`, or the waiting targets of those out of it. */
  method OtherEnds(g: DirectedGraph, v: int, cc: set<int>, outgoing: bool) returns (found: seq<int>)
    requires Labelled(g)
    ensures forall i :: 0 <= i < |found| ==> Waiting(g, cc, found[i])
    ensures forall y :: y in found ==> if outgoing then g.Model().HasEdge(v, y) else g.Model().HasEdge(y, v)
    ensures forall y :: Waiting(g, cc, y) ==>
      (if outgoing then g.Model().HasEdge(v, y) else g.Model().HasEdge(y, v)) ==> y in found
  {
    hide DirectedGraph.Valid, Open, Eligible, OtherEnd, Multigraph.HasEdge;
    ghost var m, waiting := g.Model(), Open(g) - cc;
    found := [];
    var edges := if outgoing then g.OutEdges(v) else g.InEdges(v);
    IncidentEnds(g, v, outgoing, edges);
    var i := 0;
    while i < |edges|
      invariant 0 <= i <= |edges|
      invariant forall k :: 0 <= k < |found| ==> found[k] in waiting
      invariant forall y :: y in found ==> if outgoing then m.HasEdge(v, y) else m.HasEdge(y, v)
      invariant forall k :: 0 <= k < i && OtherEnd(m, edges[k], outgoing) in waiting ==>
        OtherEnd(m, edges[k], outgoing) in found
    {
      var e := edges[i];
      var other := EndAt(g, e, outgoing);
      if other !in cc {
        if Eligible(g.Node(other)) {
          found := found + [other];
        }
      }
      i := i + 1;
    }
    forall y | y in waiting && (if outgoing then m.HasEdge(v, y) else m.HasEdge(y, v)) ensures y in found {
      var e := EdgeTo(m, v, y, outgoing, edges);
    }
    assert forall y :: Waiting(g, cc, y) <==> y in waiting;
  }

  lemma EdgeTo(m: Multigraph, v: int, y: int, outgoing: bool, edges: seq<int>) returns (e: int)
    requires Elements(edges) == if outgoing then m.OutSet(v) else m.InSet(v)
    requires if outgoing then m.HasEdge(v, y) else m.HasEdge(y, v)
    ensures e in edges && OtherEnd(m, e, outgoing) == y
  {
    e :| 0 <= e < |m.ends| && m.ends[e] == if outgoing then (v, y) else (y, v);
    assert e in Elements(edges);
  }

  ghost function OtherEnd(m: Multigraph, e: int, outgoing: bool): int {
    if 0 <= e < |m.ends| then (if outgoing then m.ends[e].1 else m.ends[e].0) else 0
  }

  /** Stacks the open neighbours of `v` that are not in `cc`, once for every edge. */
  method PushNeighbours(g: DirectedGraph, v: int, cc: set<int>, rem0: seq<int>) returns (rem: seq<int>)
    requires Labelled(g)
    ensures |rem| >= |rem0| && rem[..|rem0|] == rem0
    ensures forall i :: |rem0| <= i < |rem| ==> Waiting(g, cc, rem[i]) && Adjacent(g.Model(), v, rem[i])
    ensures forall y :: Waiting(g, cc, y) && Adjacent(g.Model(), v, y) ==> y in rem[|rem0|..]
  {
    var sources := OtherEnds(g, v, cc, false);
    var targets := OtherEnds(g, v, cc, true);
    rem := rem0 + sources + targets;
    assert rem[|rem0|..] == sources + targets;
    forall i | |rem0| <= i < |rem| ensures Waiting(g, cc, rem[i]) && Adjacent(g.Model(), v, rem[i]) {
      if i < |rem0| + |sources| {
        assert rem[i] in sources;
      } else {
        assert rem[i] in targets;
      }
    }
  }

  /**
   What the stack still owes: every open neighbour of a collected vertex is collected,
   or waits on the stack above all copies of that vertex.
  */
  ghost predicate Owed(m: Multigraph, open: set<int>, cc: set<int>, rem: seq<int>) {
    forall x, y :: x in cc && y in open && y !in cc && Adjacent(m, x, y) ==> Above(rem, x, y)
  }

  ghost predicate Above(rem: seq<int>, x: int, y: int) {
    exists i :: 0 <= i < |rem| && rem[i] == y && forall j :: i <= j < |rem| ==> rem[j] != x
  }

  lemma PopPush(m: Multigraph, open: set<int>, cc: set<int>, rem: seq<int>, after: seq<int>)
    requires rem != [] && Owed(m, open, cc, rem)
    requires |after| >= |rem| - 1 && after[..|rem| - 1] == rem[..|rem| - 1]
    requires var v := rem[|rem| - 1];
             && (forall i :: |rem| - 1 <= i < |after| ==> after[i] !in cc + {v})
             && forall y :: y in open && y !in cc + {v} && Adjacent(m, v, y) ==> y in after[|rem| - 1..]
    ensures Owed(m, open, cc + {rem[|rem| - 1]}, after)
  {
    var n := |rem| - 1;
    var v := rem[n];
    forall x, y | x in cc + {v} && y in open && y !in cc + {v} && Adjacent(m, x, y) ensures Above(after, x, y) {
      if x == v {
        var k :| 0 <= k < |after[n..]| && after[n..][k] == y;
        assert after[n + k] == y;
      } else {
        assert Above(rem, x, y);
        var i :| 0 <= i < |rem| && rem[i] == y && forall j :: i <= j < |rem| ==> rem[j] != x;
        assert rem[..n][i] == after[..n][i] == after[i];
        forall j | i <= j < |after| ensures after[j] != x {
          if j < n {
            assert rem[..n][j] == after[..n][j];
          }
        }
      }
    }
  }

  /** Popping a collected vertex stacks nothing: whatever it owed has been popped before it. */
  lemma NothingOwedAtTop(m: Multigraph, open: set<int>, cc: set<int>, rem: seq<int>, y: int)
    requires rem != [] && rem[|rem| - 1] in cc && Owed(m, open, cc, rem)
    requires y in open && Adjacent(m, rem[|rem| - 1], y)
    ensures y in cc
  {
    var x := rem[|rem| - 1];
    assert y in cc || Above(rem, x, y);
  }

  /**
   The vertices linked to `v`. The stack may hold a vertex several times, and a vertex
   is expanded again each time it is popped; the search still ends.
  */
  method ConnectedComponent(g: DirectedGraph, v: int) returns (cc: set<int>)
    requires Labelled(g) && v in g.verts
    ensures forall u :: u in cc <==> Linked(g.Model(), Open(g), v, u)
  {
    ghost var m, open := g.Model(), Open(g);
    cc := {};
    var rem := [v];
    LinkedSelf(m, open, v);
    while |rem| > 0
      invariant cc <= Elements(g.verts)
      invariant forall i :: 0 <= i < |rem| ==> rem[i] in Elements(g.verts) && Linked(m, open, v, rem[i])
      invariant forall u :: u in cc ==> Linked(m, open, v, u)
      invariant v in cc || v in rem
      invariant Owed(m, open, cc, rem)
      decreases Elements(g.verts) - cc, |rem|
    {
      var next := rem[|rem| - 1];
      ghost var cc0, rem0 := cc, rem;
      rem := rem[..|rem| - 1];
      cc := cc + {next};
      rem := PushNeighbours(g, next, cc, rem);
      PopPush(m, open, cc0, rem0, rem);
      forall i | 0 <= i < |rem| ensures rem[i] in Elements(g.verts) && Linked(m, open, v, rem[i]) {
        if i < |rem0| - 1 {
          assert rem[i] == rem[..|rem0| - 1][i] == rem0[i];
        } else {
          LinkedStep(m, open, v, next, rem[i]);
        }
      }
      if next in cc0 {
        if |rem| > |rem0| - 1 {
          NothingOwedAtTop(m, open, cc0, rem0, rem[|rem0| - 1]);
        }
        assert cc == cc0;
      } else {
        assert next in Elements(g.verts) - cc0;
      }
    }
    forall u | Linked(m, open, v, u) ensures u in cc {
      var p :| IsPath(m, open, p) && p[0] == v && p[|p| - 1] == u;
      ClosedHoldsPath(m, open, cc, p);
    }
  }

  // ----- all components -----

  /** Disjoint classes of linked open vertices. */
  ghost predicate Classes(m: Multigraph, open: set<int>, ccs: seq<set<int>>) {
    && (forall i :: 0 <= i < |ccs| ==> ccs[i] <= open && ccs[i] != {})
    && (forall i, u, w :: 0 <= i < |ccs| && u in ccs[i] ==> (w in ccs[i] <==> Linked(m, open, u, w)))
    && (forall i, j, u :: 0 <= i < |ccs| && 0 <= j < |ccs| && u in ccs[i] && u in ccs[j] ==> i == j)
  }

  ghost predicate Collected(ccs: seq<set<int>>, v: int) {
    exists i :: 0 <= i < |ccs| && v in ccs[i]
  }

  lemma LinkedOpen(m: Multigraph, open: set<int>, u: int, v: int)
    requires u in open && Linked(m, open, u, v)
    ensures v in open
  {
    var p :| IsPath(m, open, p) && p[0] == u && p[|p| - 1] == v;
  }

  lemma AddClass(m: Multigraph, open: set<int>, ccs: seq<set<int>>, v: int, cc: set<int>)
    requires Classes(m, open, ccs) && v in open && !Collected(ccs, v)
    requires forall u :: u in cc <==> Linked(m, open, v, u)
    ensures Classes(m, open, ccs + [cc])
  {
    LinkedSelf(m, open, v);
    var more := ccs + [cc];
    forall u | u in cc ensures u in open {
      LinkedOpen(m, open, v, u);
    }
    forall u, w | u in cc ensures w in cc <==> Linked(m, open, u, w) {
      LinkedSymmetric(m, open, v, u);
      if w in cc {
        LinkedTransitive(m, open, u, v, w);
      } else if Linked(m, open, u, w) {
        LinkedTransitive(m, open, v, u, w);
      }
    }
    forall i, u | 0 <= i < |ccs| && u in ccs[i] ensures u !in cc {
      assert v !in ccs[i] && !Linked(m, open, u, v);
      if u in cc {
        LinkedSymmetric(m, open, v, u);
      }
    }
  }

  lemma CollectedMore(ccs: seq<set<int>>, cc: set<int>)
    ensures forall u :: Collected(ccs + [cc], u) <==> Collected(ccs, u) || u in cc
  {
    var more := ccs + [cc];
    forall u ensures Collected(more, u) <==> Collected(ccs, u) || u in cc {
      if Collected(ccs, u) {
        var k :| 0 <= k < |ccs| && u in ccs[k];
        assert u in more[k];
      }
      if u in cc {
        assert u in more[|ccs|];
      }
    }
  }

  lemma NoClasses(m: Multigraph, open: set<int>)
    ensures Classes(m, open, [])
  {
  }

  /** The partition of the open vertices into classes of linked vertices. */
  method ConnectedComponentsIgnoringInputs(g: DirectedGraph) returns (ccs: seq<set<int>>)
    requires Labelled(g)
    ensures Classes(g.Model(), Open(g), ccs)
    ensures forall v :: v in Open(g) ==> Collected(ccs, v)
  {
    hide Classes;
    ghost var m, open := g.Model(), Open(g);
    NoClasses(m, open);
    var nodes := Elements(g.verts);
    ccs := [];
    var i := 0;
    while i < |g.verts|
      invariant 0 <= i <= |g.verts|
      invariant Classes(m, open, ccs)
      invariant forall v :: v in Elements(g.verts) && v !in nodes ==> Collected(ccs, v)
      invariant forall v :: v in nodes ==> !Collected(ccs, v)
      invariant forall k :: 0 <= k < i && g.verts[k] in open ==> Collected(ccs, g.verts[k])
    {
      var v := g.verts[i];
      if Eligible(g.Node(v)) && v in nodes {
        var cc := ConnectedComponent(g, v);
        AddClass(m, open, ccs, v, cc);
        ghost var ccs0 := ccs;
        nodes := nodes - cc;
        ccs := ccs + [cc];
        CollectedMore(ccs0, cc);
        LinkedSelf(m, open, v);
      }
      i := i + 1;
    }
  }

  // ----- thread numbers -----

  /** Gives every vertex of one component the same thread number. */
  method LabelComponent(cc: set<int>, threadNo: int, g: DirectedGraph)
    requires g.Valid() && forall v :: v in cc ==> v in g.vertNames
    modifies g`vertNames
    ensures g.Valid() && g.Model() == old(g.Model())
    ensures g.vertNames.Keys == old(g.vertNames).Keys
    ensures forall v :: v in g.vertNames ==>
              g.vertNames[v] == if v in cc then old(g.vertNames)[v].(threadNo := threadNo) else old(g.vertNames)[v]
  {
    var left := cc;
    while left != {}
      invariant left <= cc && g.Valid() && g.Model() == old(g.Model())
      invariant g.vertNames.Keys == old(g.vertNames).Keys
      invariant forall v :: v in g.vertNames ==>
        g.vertNames[v] == if v in cc - left then old(g.vertNames)[v].(threadNo := threadNo) else old(g.vertNames)[v]
      decreases left
    {
      ghost var some := Pick(left);
      var v :| v in left;
      var w := g.Node(v);
      g.AddVertLabel(v, w.(threadNo := threadNo));
      left := left - {v};
    }
  }

  /** Labels agree with `before` except that component `i` has thread number `number(i)`. */
  ghost predicate Numbered(ccs: seq<set<int>>, number: nat -> int, before: map<int, WireNode>,
      after: map<int, WireNode>)
  {
    && after.Keys == before.Keys
    && (forall i, v :: 0 <= i < |ccs| && v in ccs[i] && v in after ==> after[v] == before[v].(threadNo := number(i)))
    && (forall v :: v in after && !Collected(ccs, v) ==> after[v] == before[v])
  }

  ghost predicate Disjoint(ccs: seq<set<int>>) {
    forall i, j, u :: 0 <= i < |ccs| && 0 <= j < |ccs| && u in ccs[i] && u in ccs[j] ==> i == j
  }

  /** Numbers the components in order. */
  method NumberComponents(ccs: seq<set<int>>, g: DirectedGraph)
    requires g.Valid() && Disjoint(ccs)
    requires forall i, v :: 0 <= i < |ccs| && v in ccs[i] ==> v in g.vertNames
    modifies g`vertNames
    ensures g.Valid() && g.Model() == old(g.Model())
    ensures Numbered(ccs, i => i, old(g.vertNames), g.vertNames)
  {
    var numComponents := 0;
    assert ccs[..0] == [];
    while numComponents < |ccs|
      invariant 0 <= numComponents <= |ccs|
      invariant g.Valid() && g.Model() == old(g.Model())
      invariant Numbered(ccs[..numComponents], i => i, old(g.vertNames), g.vertNames)
    {
      ghost var middle := g.vertNames;
      LabelComponent(ccs[numComponents], numComponents, g);
      NumberOneMore(ccs, numComponents, i => i, old(g.vertNames), middle, g.vertNames);
      numComponents := numComponents + 1;
    }
    assert ccs[..|ccs|] == ccs;
  }

  lemma NumberOneMore(ccs: seq<set<int>>, n: nat, number: nat -> int, before: map<int, WireNode>,
      middle: map<int, WireNode>, after: map<int, WireNode>)
    requires n < |ccs| && Disjoint(ccs)
    requires Numbered(ccs[..n], number, before, middle) && after.Keys == middle.Keys
    requires forall v :: v in after ==>
               after[v] == if v in ccs[n] then middle[v].(threadNo := number(n)) else middle[v]
    ensures Numbered(ccs[..n + 1], number, before, after)
  {
    var done, more := ccs[..n], ccs[..n + 1];
    forall i, v | 0 <= i < |more| && v in more[i] && v in after ensures after[v] == before[v].(threadNo := number(i)) {
      if i < n {
        assert v in done[i] && v !in ccs[n];
      } else {
        forall k | 0 <= k < |done| ensures v !in done[k] {
          assert done[k] == ccs[k];
        }
      }
    }
    forall v | v in after && !Collected(more, v) ensures after[v] == before[v] {
      assert v !in more[n];
      forall k | 0 <= k < |done| ensures v !in done[k] {
        assert done[k] == more[k];
      }
    }
  }

  ghost predicate ThreadShared(g: DirectedGraph, v: int)
    reads g
    requires Labelled(g) && v in g.verts
  {
    exists e :: e in g.Model().OutSet(v) && CrossesThreads(g, e)
  }

  ghost predicate CrossesThreads(g: DirectedGraph, e: int)
    reads g
    requires Labelled(g) && 0 <= e < |g.Model().ends|
  {
    var ends := g.Model().ends;
    assert ends[e].0 in g.verts && ends[e].1 in g.verts;
    g.vertNames[ends[e].1].threadNo != g.vertNames[ends[e].0].threadNo
  }

  method IsThreadShared(v: int, g: DirectedGraph) returns (r: bool)
    requires Labelled(g) && v in g.verts
    ensures r <==> ThreadShared(g, v)
  {
    hide DirectedGraph.Valid;
    var threadNo := g.Node(v).threadNo;
    var outs := g.OutEdges(v);
    IncidentEnds(g, v, true, outs);
    var i := 0;
    while i < |outs|
      invariant 0 <= i <= |outs|
      invariant forall k :: 0 <= k < i ==> outs[k] in g.Model().OutSet(v) && !CrossesThreads(g, outs[k])
    {
      assert outs[i] in Elements(outs);
      var dest := g.Target(outs[i]);
      assert g.Model().ends[outs[i]] == (v, dest);
      if g.Node(dest).threadNo != threadNo {
        assert CrossesThreads(g, outs[i]);
        return true;
      }
      i := i + 1;
    }
    forall e | e in g.Model().OutSet(v) ensures !CrossesThreads(g, e) {
      assert e in Elements(outs);
    }
    return false;
  }

  /** What two threads in turn make of the classes. */
  lemma BalancedLabels(m: Multigraph, open: set<int>, ccs: seq<set<int>>, before: map<int, WireNode>,
      after: map<int, WireNode>)
    requires Classes(m, open, ccs) && Numbered(ccs, k => k % 2 + 1, before, after)
    requires forall v :: v in open ==> v in after && Collected(ccs, v)
    ensures forall k, v :: 0 <= k < |ccs| && v in ccs[k] ==> v in after && after[v].threadNo == k % 2 + 1
    ensures forall v :: v in open ==> 1 <= after[v].threadNo <= 2
    ensures forall u, v :: u in open && v in open && Linked(m, open, u, v) ==> after[u].threadNo == after[v].threadNo
  {
    forall k, v | 0 <= k < |ccs| && v in ccs[k] ensures v in after && after[v].threadNo == k % 2 + 1 {
      assert ccs[k] <= open;
    }
    forall v | v in open ensures 1 <= after[v].threadNo <= 2 {
      var k :| 0 <= k < |ccs| && v in ccs[k];
    }
    forall u, v | u in open && v in open && Linked(m, open, u, v) ensures after[u].threadNo == after[v].threadNo {
      var k :| 0 <= k < |ccs| && u in ccs[k];
      assert v in ccs[k];
    }
  }

  /** Numbering changes thread numbers only, and those of open vertices only. */
  lemma NumberingKeeps(m: Multigraph, open: set<int>, ccs: seq<set<int>>, number: nat -> int,
      before: map<int, WireNode>, after: map<int, WireNode>, v: int)
    requires Classes(m, open, ccs) && Numbered(ccs, number, before, after) && v in after
    ensures after[v] == before[v].(threadNo := after[v].threadNo)
    ensures v !in open ==> after[v] == before[v]
  {
    if Collected(ccs, v) {
      var k :| 0 <= k < |ccs| && v in ccs[k];
      assert ccs[k] <= open;
    }
  }

  /** Numbering the classes in order gives two open vertices the same number exactly if they are linked. */
  lemma ClassNumbers(m: Multigraph, open: set<int>, ccs: seq<set<int>>, before: map<int, WireNode>,
      after: map<int, WireNode>)
    requires Classes(m, open, ccs) && Numbered(ccs, i => i, before, after)
    requires forall v :: v in open ==> v in after && Collected(ccs, v)
    ensures forall u, v :: u in open && v in open ==>
      (after[u].threadNo == after[v].threadNo <==> Linked(m, open, u, v))
  {
    forall u, v | u in open && v in open
      ensures after[u].threadNo == after[v].threadNo <==> Linked(m, open, u, v)
    {
      var i :| 0 <= i < |ccs| && u in ccs[i];
      var j :| 0 <= j < |ccs| && v in ccs[j];
      assert after[u].threadNo == i && after[v].threadNo == j;
      if Linked(m, open, u, v) {
        assert v in ccs[i];
      }
    }
  }

  /** The numbering of the components; where no edge ends in an input or constant, nothing is shared. */
  method NumberAllComponents(g: DirectedGraph) returns (ccs: seq<set<int>>)
    requires Labelled(g)
    modifies g`vertNames
    ensures Labelled(g) && g.Model() == old(g.Model()) && Open(g) == old(Open(g))
    ensures Classes(g.Model(), Open(g), ccs) && forall v :: v in Open(g) ==> Collected(ccs, v)
    ensures Numbered(ccs, i => i, old(g.vertNames), g.vertNames) && g.vertNames.Keys == old(g.vertNames).Keys
    ensures forall u, v :: u in Open(g) && v in Open(g) ==>
              (g.vertNames[u].threadNo == g.vertNames[v].threadNo <==> Linked(g.Model(), Open(g), u, v))
    ensures (forall e :: 0 <= e < |g.Model().ends| ==> g.Model().ends[e].1 in Open(g)) ==>
              forall v :: v in Open(g) ==> !ThreadShared(g, v)
  {
    ghost var m, open, before := g.Model(), Open(g), g.vertNames;
    ccs := ConnectedComponentsIgnoringInputs(g);
    NumberComponents(ccs, g);
    forall v | v in g.vertNames ensures g.vertNames[v].kind == before[v].kind {
      NumberingKeeps(m, open, ccs, i => i, before, g.vertNames, v);
    }
    forall v ensures v in Open(g) <==> v in open {
      assert v in g.vertNames <==> v in before;
    }
    assert Open(g) == open;
    ClassNumbers(m, open, ccs, before, g.vertNames);
    NothingShared(g);
  }

  lemma NumberedTwice(m: Multigraph, open: set<int>, ccs: seq<set<int>>, before: map<int, WireNode>,
      numbered: map<int, WireNode>, after: map<int, WireNode>)
    requires Classes(m, open, ccs)
    requires Numbered(ccs, i => i, before, numbered) && Numbered(ccs, k => k % 2 + 1, numbered, after)
    ensures after.Keys == before.Keys
    ensures forall v :: v in after ==> after[v] == before[v].(threadNo := after[v].threadNo)
    ensures forall v :: v in after && v !in open ==> after[v] == before[v]
  {
    forall v | v in after
      ensures after[v] == before[v].(threadNo := after[v].threadNo) && (v !in open ==> after[v] == before[v])
    {
      NumberingKeeps(m, open, ccs, k => k, before, numbered, v);
      NumberingKeeps(m, open, ccs, k => k % 2 + 1, numbered, after, v);
    }
  }

  lemma ClassesDisjoint(m: Multigraph, open: set<int>, ccs: seq<set<int>>)
    requires Classes(m, open, ccs)
    ensures Disjoint(ccs) && forall i :: 0 <= i < |ccs| ==> ccs[i] <= open
  {
  }

  lemma NothingNumbered(ccs: seq<set<int>>, number: nat -> int, labels: map<int, WireNode>)
    ensures Numbered(ccs[..0], number, labels, labels)
  {
  }

  /** The components of which every vertex is in the given thread. */
  ghost function InThread(ccs: seq<set<int>>, labels: map<int, WireNode>, threadNo: int): set<nat> {
    set k: nat | k < |ccs| && forall v :: v in ccs[k] ==> v in labels && labels[v].threadNo == threadNo
  }

  lemma {:induction false} EveryOther(n: nat)
    ensures |set k: nat | k < n && k % 2 == 0| == (n + 1) / 2
    ensures |set k: nat | k < n && k % 2 == 1| == n / 2
  {
    var even, odd := set k: nat | k < n && k % 2 == 0, set k: nat | k < n && k % 2 == 1;
    if n == 0 {
      assert even == {} && odd == {};
    } else {
      EveryOther(n - 1);
      var even0, odd0 := set k: nat | k < n - 1 && k % 2 == 0, set k: nat | k < n - 1 && k % 2 == 1;
      if n % 2 == 1 {
        assert even == even0 + {n - 1} && odd == odd0;
      } else {
        assert odd == odd0 + {n - 1} && even == even0;
      }
    }
  }

  /** With the threads taken in turn, the first has as many components as the second, or one more. */
  lemma EvenlySplit(m: Multigraph, open: set<int>, ccs: seq<set<int>>, labels: map<int, WireNode>)
    requires Classes(m, open, ccs)
    requires forall k, v :: 0 <= k < |ccs| && v in ccs[k] ==> v in labels && labels[v].threadNo == k % 2 + 1
    ensures |InThread(ccs, labels, 1)| == (|ccs| + 1) / 2
    ensures |InThread(ccs, labels, 2)| == |ccs| / 2
  {
    forall k: nat | k < |ccs|
      ensures k in InThread(ccs, labels, 1) <==> k % 2 == 0
      ensures k in InThread(ccs, labels, 2) <==> k % 2 == 1
    {
      var v := Pick(ccs[k]);
    }
    EveryOther(|ccs|);
    assert InThread(ccs, labels, 1) == set k: nat | k < |ccs| && k % 2 == 0;
    assert InThread(ccs, labels, 2) == set k: nat | k < |ccs| && k % 2 == 1;
  }

  /**
   Consecutive numbers for the components, then the two threads 1 and 2 in turn: of the
   components, in the order in which they were found, every other one goes to thread 2.
  */
  method BalancedComponentsParallel(g: DirectedGraph) returns (ghost ccs: seq<set<int>>)
    requires Labelled(g)
    modifies g`vertNames
    ensures Labelled(g) && g.Model() == old(g.Model()) && Open(g) == old(Open(g))
    ensures Classes(g.Model(), Open(g), ccs) && forall v :: v in Open(g) ==> Collected(ccs, v)
    ensures forall k, v :: 0 <= k < |ccs| && v in ccs[k] ==>
              v in g.vertNames && g.vertNames[v].threadNo == k % 2 + 1
    ensures |InThread(ccs, g.vertNames, 1)| == (|ccs| + 1) / 2 && |InThread(ccs, g.vertNames, 2)| == |ccs| / 2
    ensures g.vertNames.Keys == old(g.vertNames).Keys
    ensures forall v :: v in g.vertNames ==>
              g.vertNames[v] == old(g.vertNames)[v].(threadNo := g.vertNames[v].threadNo)
    ensures forall v :: v in g.vertNames && v !in Open(g) ==> g.vertNames[v] == old(g.vertNames)[v]
    ensures forall u, v :: u in Open(g) && v in Open(g) && Linked(g.Model(), Open(g), u, v) ==>
              g.vertNames[u].threadNo == g.vertNames[v].threadNo
  {
    hide Classes, Numbered, InThread, Linked, Collected, DirectedGraph.Valid;
    ghost var m, open := g.Model(), Open(g);
    var components := NumberAllComponents(g);
    ClassesDisjoint(m, open, components);
    ccs := components;
    ghost var numbered := g.vertNames;
    var i := 0;
    NothingNumbered(ccs, k => k % 2 + 1, numbered);
    while i < |components|
      invariant 0 <= i <= |ccs|
      invariant g.Valid() && g.Model() == m && g.vertNames.Keys == numbered.Keys
      invariant Numbered(ccs[..i], k => k % 2 + 1, numbered, g.vertNames)
    {
      ghost var middle := g.vertNames;
      LabelComponent(components[i], i % 2 + 1, g);
      NumberOneMore(ccs, i, k => k % 2 + 1, numbered, middle, g.vertNames);
      i := i + 1;
    }
    assert ccs[..|ccs|] == ccs;
    NumberedTwice(m, open, ccs, old(g.vertNames), numbered, g.vertNames);
    forall v ensures v in Open(g) <==> v in open {
      assert v in g.vertNames <==> v in old(g.vertNames);
    }
    assert Open(g) == open;
    BalancedLabels(m, open, ccs, numbered, g.vertNames);
    EvenlySplit(m, open, ccs, g.vertNames);
  }

  /**
   Once linked open vertices have equal numbers, an open vertex is shared between
   threads only because of an edge into an input or a constant with another number.
  */
  lemma SharedOnlyThroughIneligible(g: DirectedGraph, v: int)
    requires Labelled(g) && v in Open(g)
    requires forall u, w :: u in Open(g) && w in Open(g) && Linked(g.Model(), Open(g), u, w) ==>
               g.vertNames[u].threadNo == g.vertNames[w].threadNo
    ensures ThreadShared(g, v) <==>
            exists e :: e in g.Model().OutSet(v) && g.Model().ends[e].1 !in Open(g) && CrossesThreads(g, e)
  {
    var m, open := g.Model(), Open(g);
    forall e | e in m.OutSet(v) && m.ends[e].1 in open ensures !CrossesThreads(g, e) {
      var w := m.ends[e].1;
      assert m.HasEdge(v, w);
      LinkedSelf(m, open, v);
      LinkedStep(m, open, v, v, w);
    }
  }

  /** Where linked open vertices have equal numbers and no edge ends outside, nothing is shared. */
  lemma NothingShared(g: DirectedGraph)
    requires Labelled(g)
    requires forall u, w :: u in Open(g) && w in Open(g) && Linked(g.Model(), Open(g), u, w) ==>
               g.vertNames[u].threadNo == g.vertNames[w].threadNo
    ensures (forall e :: 0 <= e < |g.Model().ends| ==> g.Model().ends[e].1 in Open(g)) ==>
              forall v :: v in Open(g) ==> !ThreadShared(g, v)
  {
    forall v | v in Open(g)
      ensures (forall e :: 0 <= e < |g.Model().ends| ==> g.Model().ends[e].1 in Open(g)) ==> !ThreadShared(g, v)
    {
      SharedOnlyThroughIneligible(g, v);
    }
  }
}
