/**
 Finite directed multigraphs as values, and the walks in them. A walk is a nonempty
 sequence of vertices in which each vertex has an edge to the next. Acyclic graphs, what
 cycles reach, and the length of walks into a vertex are defined by them.
*/
module Walks {
  import opened Collections

  /** The edge with number `e` runs from `ends[e].0` to `ends[e].1`. */
  datatype Multigraph = Multigraph(verts: seq<int>, ends: seq<(int, int)>) {
    predicate HasEdge(u: int, v: int) {
      exists e :: 0 <= e < |ends| && ends[e] == (u, v)
    }

    /** The edges that end in `v`. */
    function InSet(v: int): set<int> {
      set e | 0 <= e < |ends| && ends[e].1 == v
    }

    function OutSet(v: int): set<int> {
      set e | 0 <= e < |ends| && ends[e].0 == v
    }

    /** Vertices are listed once and every edge joins listed vertices. */
    predicate Closed() {
      && NoDuplicates(verts)
      && forall e :: 0 <= e < |ends| ==> ends[e].0 in verts && ends[e].1 in verts
    }

    predicate IsWalk(p: seq<int>) {
      && p != []
      && (forall i :: 0 <= i < |p| ==> p[i] in verts)
      && forall i :: 0 <= i < |p| - 1 ==> HasEdge(p[i], p[i + 1])
    }

    ghost predicate Acyclic() {
      forall p :: IsWalk(p) && |p| >= 2 ==> p[0] != p[|p| - 1]
    }

    /** Some cycle leads to `v`: a walk to `v` comes back to its first vertex. */
    ghost predicate ReachedByCycle(v: int) {
      exists p, i :: CycleWalk(p, i, v)
    }

    ghost predicate CycleWalk(p: seq<int>, i: int, v: int) {
      IsWalk(p) && p[|p| - 1] == v && 0 < i < |p| && p[i] == p[0]
    }

    /** Some walk with `n` edges ends in `v`. */
    ghost predicate HasWalkTo(v: int, n: nat) {
      exists p :: IsWalk(p) && p[|p| - 1] == v && |p| == n + 1
    }
  }

  predicate NoDuplicates(s: seq<int>) {
    forall i, j :: 0 <= i < j < |s| ==> s[i] != s[j]
  }

  lemma AppendNoDuplicates(s: seq<int>, x: int)
    ensures NoDuplicates(s + [x]) <==> NoDuplicates(s) && x !in s
  {
    var t := s + [x];
    if NoDuplicates(t) {
      forall i, j | 0 <= i < j < |s| ensures s[i] != s[j] {
        assert t[i] != t[j];
      }
      forall i | 0 <= i < |s| ensures s[i] != x {
        assert t[i] != t[|s|];
      }
    }
  }

  function Elements(s: seq<int>): set<int> {
    set x | x in s
  }

  lemma {:induction false} ElementsCount(s: seq<int>)
    ensures |Elements(s)| <= |s|
    ensures |Elements(s)| == |s| <==> NoDuplicates(s)
  {
    if s != [] {
      var rest, x := s[..|s| - 1], s[|s| - 1];
      ElementsCount(rest);
      assert Elements(s) == Elements(rest) + {x};
      if NoDuplicates(s) {
        assert x !in rest;
      } else if NoDuplicates(rest) {
        assert x in rest;
      }
    }
  }

  /** Pigeonhole: a sequence longer than the set it draws from repeats an element. */
  lemma Repeats(p: seq<int>, s: set<int>) returns (i: int, j: int)
    requires |p| > |s| && forall k :: 0 <= k < |p| ==> p[k] in s
    ensures 0 <= i < j < |p| && p[i] == p[j]
  {
    ElementsCount(p);
    SubsetCount(Elements(p), s);
    i, j :| 0 <= i < j < |p| && p[i] == p[j];
  }

  lemma CycleMeansReached(m: Multigraph)
    ensures m.Acyclic() <==> forall v :: v in m.verts ==> !m.ReachedByCycle(v)
  {
    if !m.Acyclic() {
      var p :| m.IsWalk(p) && |p| >= 2 && p[0] == p[|p| - 1];
      assert m.CycleWalk(p, |p| - 1, p[0]);
    }
    if v :| v in m.verts && m.ReachedByCycle(v) {
      var p, i :| m.CycleWalk(p, i, v);
      WalkSlice(m, p, 0, i + 1);
    }
  }

  lemma WalkExtends(m: Multigraph, p: seq<int>, v: int)
    requires m.IsWalk(p) && v in m.verts && m.HasEdge(p[|p| - 1], v)
    ensures m.IsWalk(p + [v])
  {
    var q := p + [v];
    forall i | 0 <= i < |q| - 1 ensures m.HasEdge(q[i], q[i + 1]) {
      if i < |p| - 1 {
        assert m.HasEdge(p[i], p[i + 1]);
      }
    }
  }

  lemma WalkSlice(m: Multigraph, p: seq<int>, i: nat, j: nat)
    requires m.IsWalk(p) && i < j <= |p|
    ensures m.IsWalk(p[i..j])
  {
    var q := p[i..j];
    forall k | 0 <= k < |q| - 1 ensures m.HasEdge(q[k], q[k + 1]) {
      assert m.HasEdge(p[i + k], p[i + k + 1]);
    }
  }

  predicate HasPredecessorIn(m: Multigraph, s: set<int>, v: int) {
    exists t :: t in s && m.HasEdge(t, v)
  }

  ghost predicate BackwardClosed(m: Multigraph, s: set<int>) {
    forall v :: v in s ==> v in m.verts && HasPredecessorIn(m, s, v)
  }

  lemma PredecessorIn(m: Multigraph, s: set<int>, v: int) returns (t: int)
    requires BackwardClosed(m, s) && v in s
    ensures t in s && m.HasEdge(t, v) && v in m.verts
  {
    assert HasPredecessorIn(m, s, v);
    t :| t in s && m.HasEdge(t, v);
  }

  /** If every vertex of `s` has a predecessor in `s`, walks of any length end in each of them. */
  lemma {:induction false} BackwardWalk(m: Multigraph, s: set<int>, v: int, n: nat) returns (p: seq<int>)
    requires BackwardClosed(m, s) && v in s
    ensures m.IsWalk(p) && |p| == n + 1 && p[n] == v
    ensures forall i :: 0 <= i < |p| ==> p[i] in s
    decreases n
  {
    p := [v];
    if n > 0 {
      var t := PredecessorIn(m, s, v);
      var q := BackwardWalk(m, s, t, n - 1);
      WalkExtends(m, q, v);
      p := q + [v];
    }
  }

  /** Such vertices are all reached by a cycle. */
  lemma BackwardClosedReached(m: Multigraph, s: set<int>, v: int)
    requires BackwardClosed(m, s) && v in s
    ensures m.ReachedByCycle(v)
  {
    var p := BackwardWalk(m, s, v, |s|);
    var i, j := Repeats(p, s);
    RepeatIsCycle(m, p, i, j);
  }

  lemma RepeatIsCycle(m: Multigraph, p: seq<int>, i: nat, j: nat)
    requires m.IsWalk(p) && i < j < |p| && p[i] == p[j]
    ensures m.ReachedByCycle(p[|p| - 1])
  {
    WalkSlice(m, p, i, |p|);
    var q := p[i..|p|];
    assert q[j - i] == p[j] && q[0] == p[i];
    assert m.CycleWalk(q, j - i, p[|p| - 1]);
  }

  /** Every listed vertex comes after all of its predecessors. */
  ghost predicate Respects(m: Multigraph, order: seq<int>) {
    forall u, j :: 0 <= j < |order| && m.HasEdge(u, order[j]) ==> u in order[..j]
  }

  /** A walk towards a vertex that a respectful order lists moves forward in the order. */
  lemma {:induction false} WalkAdvances(m: Multigraph, order: seq<int>, p: seq<int>, j: nat)
    requires Respects(m, order) && NoDuplicates(order)
    requires m.IsWalk(p) && j < |order| && order[j] == p[|p| - 1]
    ensures NoDuplicates(p)
    ensures forall k :: 0 <= k < |p| ==> p[k] in order[..j + 1]
    decreases |p|
  {
    if |p| > 1 {
      var n := |p| - 1;
      var front := p[0..n];
      assert m.HasEdge(p[n - 1], p[n]);
      WalkSlice(m, p, 0, n);
      var i :| 0 <= i < j && order[..j][i] == p[n - 1];
      WalkAdvances(m, order, front, i);
      forall k | 0 <= k < n ensures p[k] in order[..j] {
        assert front[k] in order[..i + 1];
      }
    }
  }

  lemma ListedNotReached(m: Multigraph, order: seq<int>, v: int)
    requires Respects(m, order) && NoDuplicates(order) && v in order
    ensures !m.ReachedByCycle(v)
  {
    if m.ReachedByCycle(v) {
      var p, i :| m.CycleWalk(p, i, v);
      var j :| 0 <= j < |order| && order[j] == v;
      WalkAdvances(m, order, p, j);
    }
  }

  lemma WalkSuffix(m: Multigraph, v: int, n: nat, k: nat)
    requires m.HasWalkTo(v, n) && k <= n
    ensures m.HasWalkTo(v, k)
  {
    var p :| m.IsWalk(p) && p[|p| - 1] == v && |p| == n + 1;
    WalkSlice(m, p, n - k, |p|);
    var q := p[n - k..|p|];
    assert m.IsWalk(q) && q[|q| - 1] == v && |q| == k + 1;
  }

  /** A walk to `v` with one more edge goes through a predecessor. */
  lemma WalkThroughPredecessor(m: Multigraph, v: int, n: nat)
    requires v in m.verts
    ensures m.HasWalkTo(v, n + 1) <==> exists u :: u in m.verts && m.HasEdge(u, v) && m.HasWalkTo(u, n)
  {
    if m.HasWalkTo(v, n + 1) {
      var p :| m.IsWalk(p) && p[|p| - 1] == v && |p| == n + 2;
      var q, u := p[0..n + 1], p[n];
      WalkSlice(m, p, 0, n + 1);
      assert m.IsWalk(q) && q[|q| - 1] == u;
      assert m.HasEdge(p[n], p[n + 1]);
    }
    if u :| u in m.verts && m.HasEdge(u, v) && m.HasWalkTo(u, n) {
      var q :| m.IsWalk(q) && q[|q| - 1] == u && |q| == n + 1;
      WalkExtends(m, q, v);
      assert (q + [v])[n + 1] == v;
    }
  }
}
