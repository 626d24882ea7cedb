/**
 The indexed multigraph over which the simulator and its optimisations run. Edges are
 numbered in the order in which they are added, vertices carry a node and a label, and
 one map for each direction lists the edges at every vertex.
*/
module Graphs {
  import opened Walks

  datatype NodeKind = GraphInput | GraphOutput | Constant | Operation

  datatype WireNode = WireNode(kind: NodeKind, isSequential: bool, isReceiver: bool, threadNo: int)

  function EndOf(edge: (int, int), outgoing: bool): int {
    if outgoing then edge.0 else edge.1
  }

  /** The edges, in order of insertion, whose end selected by `outgoing` is `v`. */
  function Incident(ends: seq<(int, int)>, v: int, outgoing: bool): (r: seq<int>) {
    if ends == [] then []
    else
      var n := |ends| - 1;
      Incident(ends[..n], v, outgoing) + if EndOf(ends[n], outgoing) == v then [n] else []
  }

  lemma {:induction false} IncidentIs(ends: seq<(int, int)>, v: int, outgoing: bool)
    ensures forall e :: e in Incident(ends, v, outgoing) <==> 0 <= e < |ends| && EndOf(ends[e], outgoing) == v
    ensures NoDuplicates(Incident(ends, v, outgoing))
    decreases |ends|
  {
    if ends != [] {
      var n := |ends| - 1;
      var front := Incident(ends[..n], v, outgoing);
      IncidentIs(ends[..n], v, outgoing);
      AppendNoDuplicates(front, n);
    }
  }

  lemma IncidentMore(ends: seq<(int, int)>, edge: (int, int), v: int, outgoing: bool)
    ensures Incident(ends + [edge], v, outgoing) ==
      Incident(ends, v, outgoing) + if EndOf(edge, outgoing) == v then [|ends|] else []
  {
    assert (ends + [edge])[..|ends|] == ends;
  }

  function InOrder(m: map<int, (int, int)>, n: nat): (r: seq<(int, int)>)
    requires forall e :: 0 <= e < n ==> e in m
    ensures |r| == n && forall e :: 0 <= e < n ==> r[e] == m[e]
  {
    seq(n, e requires 0 <= e < n => m[e])
  }

  function EdgesAt(adjacent: map<int, seq<int>>, v: int): seq<int> {
    if v in adjacent then adjacent[v] else []
  }

  /** An adjacency map lists exactly the incident edges of every vertex. */
  ghost predicate Lists(adjacent: map<int, seq<int>>, ends: seq<(int, int)>, outgoing: bool) {
    forall v :: EdgesAt(adjacent, v) == Incident(ends, v, outgoing)
  }

  lemma ListsMore(adjacent: map<int, seq<int>>, ends: seq<(int, int)>, outgoing: bool, edge: (int, int))
    requires Lists(adjacent, ends, outgoing)
    ensures var u := EndOf(edge, outgoing);
      Lists(adjacent[u := EdgesAt(adjacent, u) + [|ends|]], ends + [edge], outgoing)
  {
    var u := EndOf(edge, outgoing);
    var more := adjacent[u := EdgesAt(adjacent, u) + [|ends|]];
    forall v ensures EdgesAt(more, v) == Incident(ends + [edge], v, outgoing) {
      IncidentMore(ends, edge, v, outgoing);
      assert EdgesAt(adjacent, v) == Incident(ends, v, outgoing);
    }
  }

  lemma InOrderMore(m: map<int, (int, int)>, n: nat, edge: (int, int))
    requires forall e :: 0 <= e < n ==> e in m
    ensures InOrder(m[n := edge], n + 1) == InOrder(m, n) + [edge]
  {
  }

  class DirectedGraph {
    var edges: seq<int>
    var verts: seq<int>
    var adjacentIncoming: map<int, seq<int>>
    var adjacentOutgoing: map<int, seq<int>>
    var edgeVals: map<int, (int, int)>
    var vertNames: map<int, WireNode>

    constructor ()
      ensures Valid() && Model() == Multigraph([], []) && vertNames == map[]
    {
      edges, verts := [], [];
      adjacentIncoming, adjacentOutgoing, edgeVals, vertNames := map[], map[], map[], map[];
    }

    /** Edges are numbered in order and both adjacency maps list exactly the incident edges. */
    ghost predicate Valid()
      reads this
    {
      && (forall i :: 0 <= i < |edges| ==> edges[i] == i)
      && (forall e :: e in edgeVals <==> 0 <= e < |edges|)
      && Lists(adjacentIncoming, Ends(), false) && Lists(adjacentOutgoing, Ends(), true)
    }

    ghost function Ends(): seq<(int, int)>
      reads this`edges, this`edgeVals
      requires forall e :: 0 <= e < |edges| ==> e in edgeVals
    {
      InOrder(edgeVals, |edges|)
    }

    ghost function Model(): Multigraph
      reads this
      requires Valid()
    {
      Multigraph(verts, Ends())
    }

    function OutEdges(v: int): seq<int>
      reads this`adjacentOutgoing
    {
      EdgesAt(adjacentOutgoing, v)
    }

    function InEdges(v: int): seq<int>
      reads this`adjacentIncoming
    {
      EdgesAt(adjacentIncoming, v)
    }

    function Source(e: int): int
      reads this
      requires e in edgeVals
    {
      edgeVals[e].0
    }

    function Target(e: int): int
      reads this
      requires e in edgeVals
    {
      edgeVals[e].1
    }

    function Node(v: int): WireNode
      reads this
      requires v in vertNames
    {
      vertNames[v]
    }

    method AddEdge(s: int, t: int) returns (e: int)
      requires Valid()
      modifies this`edges, this`edgeVals, this`adjacentIncoming, this`adjacentOutgoing
      ensures Valid() && e == |old(edges)|
      ensures Model() == Multigraph(verts, old(Model()).ends + [(s, t)])
    {
      hide Lists, Incident;
      e := |edges|;
      InOrderMore(edgeVals, e, (s, t));
      ListsMore(adjacentIncoming, Ends(), false, (s, t));
      ListsMore(adjacentOutgoing, Ends(), true, (s, t));
      edges := edges + [e];
      edgeVals := edgeVals[e := (s, t)];
      adjacentOutgoing := adjacentOutgoing[s := OutEdges(s) + [e]];
      adjacentIncoming := adjacentIncoming[t := InEdges(t) + [e]];
    }

    /**
     A new labelled vertex takes the number of vertices as its number. That is a fresh
     number when vertices are only ever added this way.
    */
    method AddVertex(w: WireNode) returns (v: int)
      requires Valid()
      modifies this`verts, this`vertNames
      ensures Valid() && v == |old(verts)|
      ensures Model() == Multigraph(old(verts) + [v], old(Model()).ends)
      ensures vertNames == old(vertNames)[v := w]
      ensures NoDuplicates(verts) <==> NoDuplicates(old(verts)) && |old(verts)| !in old(verts)
    {
      hide Lists, Incident;
      v := |verts|;
      AppendNoDuplicates(verts, v);
      verts := verts + [v];
      vertNames := vertNames[v := w];
    }

    method AddVertLabel(v: int, w: WireNode)
      requires Valid()
      modifies this`vertNames
      ensures Valid() && vertNames == old(vertNames)[v := w]
      ensures Model() == old(Model())
    {
      vertNames := vertNames - {v};
      vertNames := vertNames[v := w];
      assert vertNames == old(vertNames)[v := w];
    }

    method VertsWithNoIncomingEdge() returns (vs: seq<int>)
      requires Valid() && NoDuplicates(verts)
      ensures NoDuplicates(vs)
      ensures forall v :: v in vs <==> v in verts && Model().InSet(v) == {}
    {
      vs := [];
      var i := 0;
      while i < |verts|
        invariant 0 <= i <= |verts|
        invariant NoDuplicates(vs)
        invariant forall v :: v in vs <==> v in verts[..i] && Model().InSet(v) == {}
      {
        IncidentEdges(verts[i]);
        ElementsCount(InEdges(verts[i]));
        if |InEdges(verts[i])| == 0 {
          vs := vs + [verts[i]];
        }
        i := i + 1;
      }
    }

    lemma EdgeEnds()
      requires Valid()
      ensures forall e :: e in edgeVals <==> 0 <= e < |Model().ends|
      ensures forall e :: e in edgeVals ==> Model().ends[e] == (Source(e), Target(e))
    {
    }

    lemma IncidentEdges(v: int)
      requires Valid()
      ensures Elements(InEdges(v)) == Model().InSet(v) && Elements(OutEdges(v)) == Model().OutSet(v)
      ensures NoDuplicates(InEdges(v)) && NoDuplicates(OutEdges(v))
    {
      assert InEdges(v) == Incident(Ends(), v, false) && OutEdges(v) == Incident(Ends(), v, true);
      IncidentIs(Ends(), v, false);
      IncidentIs(Ends(), v, true);
    }
  }
}
