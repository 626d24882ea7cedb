/** Chains of connections that come back to where they started, across the two sides of a passthrough. */
module Loops {
  // Combining two levels keeps such a chain, and none is possible once every level is combined:
  // where there is one, some step on the way does not go on.

  import opened Wires
  import opened Chains

  // ----- bits that are reached from themselves -----

  /** Some bit is reached from itself by edges in alternation with crossings. */
  ghost predicate Looped(edges: Relation, crossings: Relation) {
    exists x, y :: LoopedAt(edges, crossings, x, y)
  }

  ghost predicate LoopedAt(edges: Relation, crossings: Relation, x: Wire, y: Wire) {
    Alt(edges, crossings, x, y) && (y, x) in crossings
  }

  /** Edges and crossings have edges and crossings as images. */
  ghost predicate Maps(f: Wire -> Wire, edges: Relation, crossings: Relation, edges': Relation, crossings': Relation) {
    && (forall x, y :: (x, y) in edges ==> (f(x), f(y)) in edges')
    && (forall x, y :: (x, y) in crossings ==> (f(x), f(y)) in crossings')
  }

  lemma {:induction false} AltMapped(f: Wire -> Wire, edges: Relation, crossings: Relation, edges': Relation,
      crossings': Relation, x: Wire, y: Wire, k: nat)
    requires Maps(f, edges, crossings, edges', crossings') && AltSteps(edges, crossings, x, y, k)
    ensures AltSteps(edges', crossings', f(x), f(y), k)
    decreases k
  {
    if k > 0 {
      var m, n := FirstCrossing(edges, crossings, x, y, k);
      AltMapped(f, edges, crossings, edges', crossings', n, y, k - 1);
      assert (f(x), f(m)) in edges' && (f(m), f(n)) in crossings';
    }
  }

  lemma LoopMapped(f: Wire -> Wire, edges: Relation, crossings: Relation, edges': Relation, crossings': Relation)
    requires Maps(f, edges, crossings, edges', crossings') && Looped(edges, crossings)
    ensures Looped(edges', crossings')
  {
    var x, y :| LoopedAt(edges, crossings, x, y);
    var k: nat :| AltSteps(edges, crossings, x, y, k);
    AltMapped(f, edges, crossings, edges', crossings', x, y, k);
    assert LoopedAt(edges', crossings', f(x), f(y));
  }

  // ----- closed chains -----

  ghost predicate Closed(c: Conns, a: Wire, b: Wire, pending: Pending, s: End, t: End, k: nat) {
    Chain(c, a, b, pending, s, t, k) && Junction(a, b, pending, t, s)
  }

  /** A chain crosses from its last end back to its first. */
  ghost predicate ClosedChain(c: Conns, a: Wire, b: Wire, pending: Pending) {
    exists s: End, t: End, k: nat :: Closed(c, a, b, pending, s, t, k)
  }

  lemma ClosedLarger(c: Conns, d: Conns, a: Wire, b: Wire, pending: Pending)
    requires c <= d && ClosedChain(c, a, b, pending)
    ensures ClosedChain(d, a, b, pending)
  {
    var s: End, t: End, k: nat :| Closed(c, a, b, pending, s, t, k);
    ChainLarger(c, d, a, b, pending, s, t, k);
    assert Closed(d, a, b, pending, s, t, k);
  }

  lemma {:induction false} ChainAppend(c: Conns, a: Wire, b: Wire, pending: Pending, s: End, t: End, k: nat, u: End,
      v: End)
    requires Chain(c, a, b, pending, s, t, k) && Junction(a, b, pending, t, u) && Edge(c, u, v)
    ensures Chain(c, a, b, pending, s, v, k + 1)
    decreases k
  {
    if k == 0 {
      assert Chain(c, a, b, pending, u, v, 0);
    } else {
      var m, n :| Edge(c, s, m) && Junction(a, b, pending, m, n) && Chain(c, a, b, pending, n, t, k - 1);
      ChainAppend(c, a, b, pending, n, t, k - 1, u, v);
    }
  }

  lemma {:induction false} ChainEnd(c: Conns, a: Wire, b: Wire, pending: Pending, s: End, t: End, k: nat)
    requires Chain(c, a, b, pending, s, t, k)
    ensures exists z :: (z, t.w) in c
    decreases k
  {
    if k == 0 {
      assert (s.w, t.w) in c;
    } else {
      var m, n :| Edge(c, s, m) && Junction(a, b, pending, m, n) && Chain(c, a, b, pending, n, t, k - 1);
      ChainEnd(c, a, b, pending, n, t, k - 1);
    }
  }

  /** Bits that are reached from themselves across the sides are on a closed chain. */
  lemma LoopCloses(c: Conns, a: Wire, b: Wire)
    requires Symmetric(c) && NothingAbove(c, a) && NothingAbove(c, b)
    requires Looped(Bits(c), Sides(a, b))
    ensures ClosedChain(c, a, b, AllLevels())
  {
    var x, y :| LoopedAt(Bits(c), Sides(a, b), x, y);
    AltToDrives(c, a, b, x, y);
    var s: End, t: End, k: nat :| s.Leaf() == x && t.Leaf() == y && Chain(c, a, b, AllLevels(), s, t, k);
    ChainLinked(c, a, b, AllLevels(), s, t, k);
    ChainEnd(c, a, b, AllLevels(), s, t, k);
    var u :| (s.w, u) in c;
    var v :| (v, t.w) in c;
    assert (t.w, v) in c;
    if y.Under(a) && x.Under(b) && y.From(a) == x.From(b) {
      CrossesLeaves(c, a, b, t.w, t.rest, v, s.w, s.rest, u);
    } else {
      CrossesLeaves(c, a, b, s.w, s.rest, u, t.w, t.rest, v);
    }
    assert Closed(c, a, b, AllLevels(), s, t, k);
  }

  /** No chain is closed once no comparable levels are left to cross. */
  lemma NothingClosed(c: Conns, a: Wire, b: Wire, pending: Pending)
    requires forall p, q :: (p, q) in pending ==> !Comparable(p, q)
    ensures !ClosedChain(c, a, b, pending)
  {
    forall s: End, t: End, k: nat ensures !Closed(c, a, b, pending, s, t, k) {
      if CrossesTo(a, b, pending, t, s) {
        SameLeafComparable(t.w.From(a), t.rest, s.w.From(b), s.rest);
      }
      if CrossesTo(a, b, pending, s, t) {
        SameLeafComparable(s.w.From(a), s.rest, t.w.From(b), t.rest);
      }
    }
  }

  // ----- what combining two levels keeps -----

  /** A closed chain whose last crossing is not between the merged levels. */
  lemma CloseElsewhere(c: Conns, d: Conns, a: Wire, b: Wire, r: Path, e: Path, pending: Pending, s: End, t: End, k: nat)
    requires Symmetric(c) && Symmetric(d) && Separate(a, b) && Merged(c, d, a, b, r, e) && ClosedOff(pending, r)
    requires Chain(c, a, b, pending + iset{(r, r + e)}, s, t, k) && Junction(a, b, pending, t, s)
    ensures ClosedChain(d, a, b, pending)
  {
    var s', t', k' := Eliminate(c, d, a, b, r, e, pending, s, t, k);
    CrossesRefined(a, b, pending, r, t, s, s');
    CrossesRefined(a, b, pending, r, s', t, t');
    assert Closed(d, a, b, pending, s', t', k');
  }

  /** Neither of the merged levels is connected to the other or to itself. */
  lemma NotBetweenLevels(c: Conns, d: Conns, a: Wire, b: Wire, r: Path, e: Path, u: Wire, v: Wire)
    requires Symmetric(c) && Merged(c, d, a, b, r, e) && (forall w :: (w, w) !in c)
    requires u == a.At(r) || u == b.At(r + e)
    requires v == a.At(r) || v == b.At(r + e)
    ensures (u, v) !in c
  {
    AtFrom(b, b.At(r + e), r + e);
    assert r <= r + e;
    assert !Free(a, b, r, b.At(r + e));
    assert (b.At(r + e), a.At(r)) in c <==> (a.At(r), b.At(r + e)) in c;
  }

  lemma MergedJunction(a: Wire, b: Wire, r: Path, e: Path, pending: Pending, m: End, n: End)
    requires Separate(a, b) && Junction(a, b, pending + iset{(r, r + e)}, m, n) && !Junction(a, b, pending, m, n)
    ensures m.w == a.At(r) || m.w == b.At(r + e)
    ensures n.w == a.At(r) || n.w == b.At(r + e)
  {
    MergedEnds(a, b, r, e, m, n);
  }

  lemma ClosedKept(c: Conns, d: Conns, a: Wire, b: Wire, r: Path, e: Path, pending: Pending)
    requires Symmetric(c) && Symmetric(d) && Separate(a, b) && Merged(c, d, a, b, r, e) && ClosedOff(pending, r)
    requires (forall w :: (w, w) !in c) && ClosedChain(c, a, b, pending + iset{(r, r + e)})
    ensures ClosedChain(d, a, b, pending)
  {
    var more := pending + iset{(r, r + e)};
    var s: End, t: End, k: nat :| Closed(c, a, b, more, s, t, k);
    if Junction(a, b, pending, t, s) {
      CloseElsewhere(c, d, a, b, r, e, pending, s, t, k);
    } else {
      MergedJunction(a, b, r, e, pending, t, s);
      ClosedRotated(c, d, a, b, r, e, pending, s, t, k);
    }
  }

  /** If the last crossing is between the merged levels the one before is not, and the chain is closed by that one. */
  lemma ClosedRotated(c: Conns, d: Conns, a: Wire, b: Wire, r: Path, e: Path, pending: Pending, s: End, t: End, k: nat)
    requires Symmetric(c) && Symmetric(d) && Separate(a, b) && Merged(c, d, a, b, r, e) && ClosedOff(pending, r)
    requires (forall w :: (w, w) !in c) && Closed(c, a, b, pending + iset{(r, r + e)}, s, t, k)
    requires s.w == a.At(r) || s.w == b.At(r + e)
    requires t.w == a.At(r) || t.w == b.At(r + e)
    ensures ClosedChain(d, a, b, pending)
  {
    hide Merged, ClosedOff, Junction, Edge;
    var more := pending + iset{(r, r + e)};
    NotBetweenLevels(c, d, a, b, r, e, s.w, t.w);
    var m, n := FirstJunction(c, a, b, more, s, t, k);
    ChainAppend(c, a, b, more, n, t, k - 1, s, m);
    if !Junction(a, b, pending, m, n) {
      MergedJunction(a, b, r, e, pending, m, n);
      NotBetweenLevels(c, d, a, b, r, e, s.w, m.w);
    }
    CloseElsewhere(c, d, a, b, r, e, pending, n, m, k);
  }

  lemma FirstJunction(c: Conns, a: Wire, b: Wire, pending: Pending, s: End, t: End, k: nat) returns (m: End, n: End)
    requires Chain(c, a, b, pending, s, t, k) && (s.w, t.w) !in c
    ensures k > 0 && Edge(c, s, m) && (s.w, m.w) in c && Junction(a, b, pending, m, n)
    ensures Chain(c, a, b, pending, n, t, k - 1)
  {
    m, n :| Edge(c, s, m) && Junction(a, b, pending, m, n) && Chain(c, a, b, pending, n, t, k - 1);
  }

  /** A closed chain does not cross between levels of which one has no connection. */
  lemma ClosedLinked(c: Conns, a: Wire, b: Wire, before: Pending, after: Pending)
    requires Symmetric(c) && ClosedChain(c, a, b, before)
    requires forall p, q :: (p, q) in before && (p, q) !in after ==> !Linked(c, a.At(p)) || !Linked(c, b.At(q))
    ensures ClosedChain(c, a, b, after)
  {
    var s: End, t: End, k: nat :| Closed(c, a, b, before, s, t, k);
    DropFromChain(c, a, b, before, after, s, t, k);
    ChainEnd(c, a, b, before, s, t, k);
    var z :| (z, t.w) in c;
    assert (t.w, z) in c && (t.w, z).0 == t.w;
    if CrossesTo(a, b, before, t, s) {
      AtFrom(a, t.w, []);
      AtFrom(b, s.w, []);
    } else {
      AtFrom(a, s.w, []);
      AtFrom(b, t.w, []);
    }
    assert Closed(c, a, b, after, s, t, k);
  }

  lemma ClosedSwap(c: Conns, a: Wire, b: Wire, pending: Pending)
    requires ClosedChain(c, a, b, pending)
    ensures ClosedChain(c, b, a, Swap(pending))
  {
    var s: End, t: End, k: nat :| Closed(c, a, b, pending, s, t, k);
    SwapChain(c, a, b, pending, s, t, k);
    assert Closed(c, b, a, Swap(pending), s, t, k);
  }

  lemma ClosedUnswap(c: Conns, a: Wire, b: Wire, pending: Pending)
    requires ClosedChain(c, b, a, Swap(pending))
    ensures ClosedChain(c, a, b, pending)
  {
    ClosedSwap(c, b, a, Swap(pending));
    forall z: (Path, Path) ensures z in Swap(Swap(pending)) <==> z in pending {
      assert z == (z.0, z.1);
    }
    assert Swap(Swap(pending)) == pending;
  }
}
