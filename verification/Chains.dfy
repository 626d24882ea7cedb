/** What connections mean for single bits, directly and across a passthrough. */
module Chains {
  // Two base wireables `a` and `b` stand for the two sides of a passthrough: the bit at path p
  // of one side is the same signal as the bit at path p of the other.

  import opened Wires

  /** Connections join two wireables as wholes; both orders of a connected pair are held. */
  type Conns = set<(Wire, Wire)>

  ghost predicate Symmetric(c: Conns) {
    forall x, y :: (x, y) in c ==> (y, x) in c
  }

  // ----- bits -----

  /** Some connection, perhaps of larger wireables, joins `x` with `y`. */
  ghost predicate Wired(c: Conns, x: Wire, y: Wire) {
    exists u, v, p :: WiredBy(c, u, v, p, x, y)
  }

  predicate WiredBy(c: Conns, u: Wire, v: Wire, p: Path, x: Wire, y: Wire) {
    (u, v) in c && x == u.At(p) && y == v.At(p)
  }

  type Relation = iset<(Wire, Wire)>

  ghost function Bits(c: Conns): Relation {
    iset x: Wire, y: Wire | Wired(c, x, y) :: (x, y)
  }

  /** The identification of the two sides. */
  ghost function Sides(a: Wire, b: Wire): Relation {
    iset x: Wire, y: Wire | SamePlace(a, b, x, y) :: (x, y)
  }

  predicate SamePlace(a: Wire, b: Wire, x: Wire, y: Wire) {
    || (x.Under(a) && y.Under(b) && x.From(a) == y.From(b))
    || (x.Under(b) && y.Under(a) && x.From(b) == y.From(a))
  }

  /** An alternation: `k + 1` edges, joined by `k` crossings. */
  ghost predicate AltSteps(edges: Relation, crossings: Relation, x: Wire, y: Wire, k: nat)
    decreases k
  {
    if k == 0 then (x, y) in edges
    else exists m, n :: (x, m) in edges && (m, n) in crossings && AltSteps(edges, crossings, n, y, k - 1)
  }

  ghost predicate Alt(edges: Relation, crossings: Relation, x: Wire, y: Wire) {
    exists k: nat :: AltSteps(edges, crossings, x, y, k)
  }

  /** Two edges joined by one crossing. */
  lemma AltOnce(edges: Relation, crossings: Relation, x: Wire, m: Wire, n: Wire, y: Wire)
    requires (x, m) in edges && (m, n) in crossings && (n, y) in edges
    ensures Alt(edges, crossings, x, y)
  {
    assert AltSteps(edges, crossings, n, y, 0);
    assert AltSteps(edges, crossings, x, y, 1);
  }

  lemma {:induction false} AltConcat(edges: Relation, crossings: Relation, x: Wire, m: Wire, n: Wire, y: Wire,
      k: nat, l: nat)
    requires AltSteps(edges, crossings, x, m, k) && (m, n) in crossings && AltSteps(edges, crossings, n, y, l)
    ensures AltSteps(edges, crossings, x, y, k + l + 1)
    decreases k
  {
    if k > 0 {
      var m1, n1 :| (x, m1) in edges && (m1, n1) in crossings && AltSteps(edges, crossings, n1, m, k - 1);
      AltConcat(edges, crossings, n1, m, n, y, k - 1, l);
    }
  }

  lemma FirstCrossing(edges: Relation, crossings: Relation, x: Wire, y: Wire, k: nat) returns (m: Wire, n: Wire)
    requires k > 0 && AltSteps(edges, crossings, x, y, k)
    ensures (x, m) in edges && (m, n) in crossings && AltSteps(edges, crossings, n, y, k - 1)
  {
    m, n :| (x, m) in edges && (m, n) in crossings && AltSteps(edges, crossings, n, y, k - 1);
  }

  lemma AltJoin(edges: Relation, crossings: Relation, x: Wire, m: Wire, n: Wire, y: Wire)
    requires Alt(edges, crossings, x, m) && (m, n) in crossings && Alt(edges, crossings, n, y)
    ensures Alt(edges, crossings, x, y)
  {
    var k: nat :| AltSteps(edges, crossings, x, m, k);
    var l: nat :| AltSteps(edges, crossings, n, y, l);
    AltConcat(edges, crossings, x, m, n, y, k, l);
  }

  /** Edges that are themselves alternations add nothing. */
  lemma {:induction false} AltOfAlt(fine: Relation, coarse: Relation, crossings: Relation, x: Wire, y: Wire, k: nat)
    requires forall u, v :: (u, v) in coarse ==> Alt(fine, crossings, u, v)
    requires AltSteps(coarse, crossings, x, y, k)
    ensures Alt(fine, crossings, x, y)
    decreases k
  {
    if k > 0 {
      var m, n :| (x, m) in coarse && (m, n) in crossings && AltSteps(coarse, crossings, n, y, k - 1);
      AltOfAlt(fine, coarse, crossings, n, y, k - 1);
      AltJoin(fine, crossings, x, m, n, y);
    }
  }

  // ----- chains of wireable connections -----

  /** A bit seen from a wireable: the bit at path `rest` of `w`. */
  datatype End = End(w: Wire, rest: Path) {
    function Leaf(): Wire {
      w.At(rest)
    }
  }

  predicate Edge(c: Conns, s: End, t: End) {
    (s.w, t.w) in c && s.rest == t.rest
  }

  /** Pairs of levels, of the `a` side and of the `b` side, whose connections are not combined yet. */
  type Pending = iset<(Path, Path)>

  ghost predicate Junction(a: Wire, b: Wire, pending: Pending, m: End, n: End) {
    || CrossesTo(a, b, pending, m, n)
    || CrossesTo(a, b, pending, n, m)
  }

  ghost predicate CrossesTo(a: Wire, b: Wire, pending: Pending, m: End, n: End) {
    && m.w.Under(a) && n.w.Under(b)
    && m.w.From(a) + m.rest == n.w.From(b) + n.rest
    && (m.w.From(a), n.w.From(b)) in pending
  }

  ghost predicate Chain(c: Conns, a: Wire, b: Wire, pending: Pending, s: End, t: End, k: nat)
    decreases k
  {
    if k == 0 then Edge(c, s, t)
    else exists m, n :: Edge(c, s, m) && Junction(a, b, pending, m, n) && Chain(c, a, b, pending, n, t, k - 1)
  }

  ghost predicate Drives(c: Conns, a: Wire, b: Wire, pending: Pending, x: Wire, y: Wire) {
    exists s: End, t: End, k: nat :: s.Leaf() == x && t.Leaf() == y && Chain(c, a, b, pending, s, t, k)
  }

  /** Neither base is selected from the other. */
  predicate Separate(a: Wire, b: Wire) {
    !a.Under(b) && !b.Under(a)
  }

  /**
   Levels below which the pending pairs are closed: a pair that has a side incomparable
   to `r` is pending exactly if it is when that side is refined.
  */
  ghost predicate ClosedOff(pending: Pending, r: Path) {
    forall p, q, e :: !Comparable(p, r) && Comparable(p + e, q) ==>
      && ((p, q) in pending <==> (p + e, q) in pending)
      && ((q, p) in pending <==> (q, p + e) in pending)
  }

  /** `w` is on no side at a level comparable to `r`, and no side is selected from it. */
  predicate Free(a: Wire, b: Wire, r: Path, w: Wire) {
    && !a.Under(w) && !b.Under(w)
    && (w.Under(a) ==> !Comparable(w.From(a), r))
    && (w.Under(b) ==> !Comparable(w.From(b), r))
  }

  lemma FreeExtends(a: Wire, b: Wire, r: Path, w: Wire, e: Path)
    requires Free(a, b, r, w)
    ensures Free(a, b, r, w.At(e))
    ensures w.At(e).Under(a) ==> w.Under(a) && w.At(e).From(a) == w.From(a) + e
    ensures w.At(e).Under(b) ==> w.Under(b) && w.At(e).From(b) == w.From(b) + e
  {
    FreeExtendsOne(a, r, w, e);
    FreeExtendsOne(b, r, w, e);
  }

  lemma FreeExtendsOne(a: Wire, r: Path, w: Wire, e: Path)
    requires !a.Under(w) && (w.Under(a) ==> !Comparable(w.From(a), r))
    ensures !a.Under(w.At(e)) && (w.At(e).Under(a) ==> !Comparable(w.At(e).From(a), r))
    ensures w.At(e).Under(a) ==> w.Under(a) && w.At(e).From(a) == w.From(a) + e
  {
    if a.Under(w.At(e)) {
      PrefixTransitive(w.path, w.path + e, a.path);
    }
    if w.At(e).Under(a) {
      PrefixesComparable(w.path, a.path, w.path + e);
      ExtendedIncomparable(w.From(a), r, e);
    }
  }

  /** `f` is the same bit as `e`, seen from the same wireable or from a free one selected from it. */
  ghost predicate Refines(a: Wire, b: Wire, r: Path, f: End, e: End) {
    f == e || (Free(a, b, r, e.w) && exists p :: f.w == e.w.At(p) && e.rest == p + f.rest)
  }

  lemma RefinesLeaf(a: Wire, b: Wire, r: Path, f: End, e: End)
    requires Refines(a, b, r, f, e)
    ensures f.Leaf() == e.Leaf()
  {
    if f != e {
      var p :| f.w == e.w.At(p) && e.rest == p + f.rest;
      assert e.w.path + (p + f.rest) == e.w.path + p + f.rest;
    }
  }

  lemma RefinesTwice(a: Wire, b: Wire, r: Path, g: End, f: End, e: End)
    requires Refines(a, b, r, g, f) && Refines(a, b, r, f, e)
    ensures Refines(a, b, r, g, e)
  {
    if g != f && f != e {
      var p :| g.w == f.w.At(p) && f.rest == p + g.rest;
      var q :| f.w == e.w.At(q) && e.rest == q + f.rest;
      AtAt(e.w, q, p);
      assert e.rest == (q + p) + g.rest;
    }
  }

  /** A refined end crosses where the original one does. */
  lemma CrossesRefined(a: Wire, b: Wire, pending: Pending, r: Path, m: End, n: End, f: End)
    requires ClosedOff(pending, r)
    requires Junction(a, b, pending, m, n) && Refines(a, b, r, f, n)
    ensures Junction(a, b, pending, m, f) && Junction(a, b, pending, f, m)
  {
    if f != n {
      var p :| f.w == n.w.At(p) && n.rest == p + f.rest;
      if CrossesTo(a, b, pending, m, n) {
        RefinedLevel(b, m.w.From(a), m.rest, n, f, p);
      } else {
        RefinedLevel(a, m.w.From(b), m.rest, n, f, p);
      }
    }
  }

  lemma RefinedLevel(base: Wire, q: Path, rest: Path, n: End, f: End, p: Path)
    requires n.w.Under(base) && f.w == n.w.At(p) && n.rest == p + f.rest
    requires q + rest == n.w.From(base) + n.rest
    ensures f.w.Under(base) && f.w.From(base) == n.w.From(base) + p
    ensures q + rest == f.w.From(base) + f.rest
    ensures Comparable(f.w.From(base), q)
  {
    assert n.w.From(base) + (p + f.rest) == n.w.From(base) + p + f.rest;
    SameLeafComparable(f.w.From(base), f.rest, q, rest);
  }

  /**
   `d` is `c` after combining every connection of `a` at level `r` with every one of
   `b` at level `r + e`, where that attaches nothing to those two wireables.
  */
  ghost predicate Merged(c: Conns, d: Conns, a: Wire, b: Wire, r: Path, e: Path) {
    && c <= d
    && (forall u, y :: (u, a.At(r)) in c && (b.At(r + e), y) in c ==> (u.At(e), y) in d && (y, u.At(e)) in d)
    && (forall z :: (a.At(r), z) in d ==> (a.At(r), z) in c)
    && (forall z :: (b.At(r + e), z) in d ==> (b.At(r + e), z) in c)
    && (forall u :: (u, a.At(r)) in c && (exists y :: (b.At(r + e), y) in c) ==> Free(a, b, r, u))
  }

  /** The merged pair need not stay pending: every chain that used it can do without. */
  lemma {:induction false} Eliminate(c: Conns, d: Conns, a: Wire, b: Wire, r: Path, e: Path, pending: Pending,
      s: End, t: End, k: nat) returns (s': End, t': End, k': nat)
    requires Symmetric(c) && Symmetric(d) && Separate(a, b) && Merged(c, d, a, b, r, e)
    requires ClosedOff(pending, r)
    requires Chain(c, a, b, pending + iset{(r, r + e)}, s, t, k)
    ensures Refines(a, b, r, s', s) && Refines(a, b, r, t', t)
    ensures Chain(d, a, b, pending, s', t', k')
    decreases k
  {
    var more := pending + iset{(r, r + e)};
    if k == 0 {
      s', t', k' := s, t, 0;
    } else {
      var m, n :| Edge(c, s, m) && Junction(a, b, more, m, n) && Chain(c, a, b, more, n, t, k - 1);
      var n2, t2, k2 := Eliminate(c, d, a, b, r, e, pending, n, t, k - 1);
      if Junction(a, b, pending, m, n) {
        CrossesRefined(a, b, pending, r, m, n, n2);
        s', t', k' := s, t2, k2 + 1;
        assert Edge(d, s, m);
      } else {
        s', t', k' := Shortcut(c, d, a, b, r, e, pending, s, m, n, n2, t2, k2);
        RefinesTwice(a, b, r, t', t2, t);
      }
    }
  }

  /** The merged connections replace one use of the merged pair. */
  lemma Shortcut(c: Conns, d: Conns, a: Wire, b: Wire, r: Path, e: Path, pending: Pending, s: End, m: End, n: End,
      n2: End, t: End, k: nat) returns (s': End, t': End, k': nat)
    requires Symmetric(c) && Symmetric(d) && Separate(a, b) && Merged(c, d, a, b, r, e)
    requires ClosedOff(pending, r)
    requires Edge(c, s, m) && Junction(a, b, iset{(r, r + e)}, m, n)
    requires Refines(a, b, r, n2, n) && Chain(d, a, b, pending, n2, t, k)
    ensures Refines(a, b, r, s', s) && Refines(a, b, r, t', t)
    ensures Chain(d, a, b, pending, s', t', k')
  {
    var ca, cb := a.At(r), b.At(r + e);
    MergedEnds(a, b, r, e, m, n);
    assert n2 == n;
    k' := k;
    var z := t;
    if k > 0 {
      var z0, z1 :| Edge(d, n, z0) && Junction(a, b, pending, z0, z1) && Chain(d, a, b, pending, z1, t, k - 1);
      z := z0;
      var z2: End;
      s', z2 := Bypass(c, d, a, b, r, e, s, m, n, z);
      assert Junction(a, b, pending, z1, z0);
      CrossesRefined(a, b, pending, r, z1, z0, z2);
      t' := t;
    } else {
      s', t' := Bypass(c, d, a, b, r, e, s, m, n, z);
    }
  }

  lemma MergedEnds(a: Wire, b: Wire, r: Path, e: Path, m: End, n: End)
    requires Separate(a, b) && Junction(a, b, iset{(r, r + e)}, m, n)
    ensures || (m.w == a.At(r) && n.w == b.At(r + e) && m.rest == e + n.rest)
            || (m.w == b.At(r + e) && n.w == a.At(r) && n.rest == e + m.rest)
    ensures !Free(a, b, r, n.w)
  {
    if CrossesTo(a, b, iset{(r, r + e)}, m, n) {
      AtFrom(a, m.w, r);
      AtFrom(b, n.w, r + e);
      CancelPrefix(r, m.rest, e, n.rest);
      assert r <= r + e;
    } else {
      AtFrom(a, n.w, r);
      AtFrom(b, m.w, r + e);
      CancelPrefix(r, n.rest, e, m.rest);
    }
  }

  lemma CancelPrefix(r: Path, x: Path, e: Path, y: Path)
    requires r + x == r + e + y
    ensures x == e + y
  {
    assert (r + x)[|r|..] == x;
    assert (r + e + y)[|r|..] == e + y;
  }

  /** One new connection joins what two old ones and the merged pair joined. */
  lemma Bypass(c: Conns, d: Conns, a: Wire, b: Wire, r: Path, e: Path, s: End, m: End, n: End, z: End)
    returns (s': End, z': End)
    requires Symmetric(c) && Symmetric(d) && Merged(c, d, a, b, r, e)
    requires Edge(c, s, m) && Edge(d, n, z)
    requires || (m.w == a.At(r) && n.w == b.At(r + e) && m.rest == e + n.rest)
             || (m.w == b.At(r + e) && n.w == a.At(r) && n.rest == e + m.rest)
    ensures Refines(a, b, r, s', s) && Refines(a, b, r, z', z) && Edge(d, s', z')
  {
    assert Edge(c, n, z);
    if m.w == a.At(r) && n.w == b.At(r + e) && m.rest == e + n.rest {
      assert (s.w, a.At(r)) in c && (b.At(r + e), z.w) in c;
      s', z' := End(s.w.At(e), n.rest), z;
      assert s'.w == s.w.At(e) && s.rest == e + s'.rest;
    } else {
      assert (z.w, a.At(r)) in c && (b.At(r + e), s.w) in c;
      s', z' := s, End(z.w.At(e), m.rest);
      assert z'.w == z.w.At(e) && z.rest == e + z'.rest;
    }
  }

  // ----- sequences of merges -----

  /** Whatever `c` drives by crossing at `before`, `d` drives by crossing at `after`. */
  ghost predicate Carries(c: Conns, before: Pending, d: Conns, after: Pending, a: Wire, b: Wire) {
    forall x, y :: Drives(c, a, b, before, x, y) ==> Drives(d, a, b, after, x, y)
  }

  lemma EliminateAll(c: Conns, d: Conns, a: Wire, b: Wire, r: Path, e: Path, pending: Pending)
    requires Symmetric(c) && Symmetric(d) && Separate(a, b) && Merged(c, d, a, b, r, e)
    requires ClosedOff(pending, r)
    ensures Carries(c, pending + iset{(r, r + e)}, d, pending, a, b)
  {
    var more := pending + iset{(r, r + e)};
    forall x, y | Drives(c, a, b, more, x, y) ensures Drives(d, a, b, pending, x, y) {
      var s: End, t: End, k: nat :| s.Leaf() == x && t.Leaf() == y && Chain(c, a, b, more, s, t, k);
      var s', t', k' := Eliminate(c, d, a, b, r, e, pending, s, t, k);
      RefinesLeaf(a, b, r, s', s);
      RefinesLeaf(a, b, r, t', t);
    }
  }

  predicate Linked(c: Conns, w: Wire) {
    exists p :: p in c && p.0 == w
  }

  /** Pairs of which one level has no connection can be dropped. */
  lemma DropUnlinked(c: Conns, a: Wire, b: Wire, before: Pending, after: Pending)
    requires Symmetric(c)
    requires forall p, q :: (p, q) in before && (p, q) !in after ==> !Linked(c, a.At(p)) || !Linked(c, b.At(q))
    ensures Carries(c, before, c, after, a, b)
  {
    forall x, y | Drives(c, a, b, before, x, y) ensures Drives(c, a, b, after, x, y) {
      var s: End, t: End, k: nat :| s.Leaf() == x && t.Leaf() == y && Chain(c, a, b, before, s, t, k);
      DropFromChain(c, a, b, before, after, s, t, k);
    }
  }

  lemma {:induction false} DropFromChain(c: Conns, a: Wire, b: Wire, before: Pending, after: Pending, s: End, t: End,
      k: nat)
    requires Symmetric(c) && Chain(c, a, b, before, s, t, k)
    requires forall p, q :: (p, q) in before && (p, q) !in after ==> !Linked(c, a.At(p)) || !Linked(c, b.At(q))
    ensures Chain(c, a, b, after, s, t, k)
    ensures Linked(c, s.w)
    decreases k
  {
    if k == 0 {
      assert (s.w, t.w) in c && (s.w, t.w).0 == s.w;
    } else {
      var m, n :| Edge(c, s, m) && Junction(a, b, before, m, n) && Chain(c, a, b, before, n, t, k - 1);
      DropFromChain(c, a, b, before, after, n, t, k - 1);
      assert (s.w, m.w) in c && (s.w, m.w).0 == s.w;
      assert (m.w, s.w) in c && (m.w, s.w).0 == m.w;
      if CrossesTo(a, b, before, m, n) {
        AtFrom(a, m.w, []);
        AtFrom(b, n.w, []);
      } else {
        AtFrom(a, n.w, []);
        AtFrom(b, m.w, []);
      }
      assert Junction(a, b, after, m, n);
    }
  }

  ghost function Swap(pending: Pending): Pending {
    iset p: Path, q: Path | (q, p) in pending :: (p, q)
  }

  lemma {:induction false} SwapChain(c: Conns, a: Wire, b: Wire, pending: Pending, s: End, t: End, k: nat)
    requires Chain(c, a, b, pending, s, t, k)
    ensures Chain(c, b, a, Swap(pending), s, t, k)
    decreases k
  {
    if k > 0 {
      var m, n :| Edge(c, s, m) && Junction(a, b, pending, m, n) && Chain(c, a, b, pending, n, t, k - 1);
      SwapChain(c, a, b, pending, n, t, k - 1);
      assert Junction(b, a, Swap(pending), m, n);
    }
  }

  lemma SwapDrives(c: Conns, a: Wire, b: Wire, pending: Pending, x: Wire, y: Wire)
    ensures Drives(c, a, b, pending, x, y) <==> Drives(c, b, a, Swap(pending), x, y)
  {
    if Drives(c, a, b, pending, x, y) {
      var s: End, t: End, k: nat :| s.Leaf() == x && t.Leaf() == y && Chain(c, a, b, pending, s, t, k);
      SwapChain(c, a, b, pending, s, t, k);
    }
    if Drives(c, b, a, Swap(pending), x, y) {
      var s: End, t: End, k: nat :| s.Leaf() == x && t.Leaf() == y && Chain(c, b, a, Swap(pending), s, t, k);
      SwapChain(c, b, a, Swap(pending), s, t, k);
      forall z: (Path, Path) ensures z in Swap(Swap(pending)) <==> z in pending {
        assert z == (z.0, z.1);
      }
      assert Swap(Swap(pending)) == pending;
    }
  }

  lemma SwapCarries(c: Conns, before: Pending, d: Conns, after: Pending, a: Wire, b: Wire)
    requires Carries(c, Swap(before), d, Swap(after), b, a)
    ensures Carries(c, before, d, after, a, b)
  {
    forall x, y | Drives(c, a, b, before, x, y) ensures Drives(d, a, b, after, x, y) {
      SwapDrives(c, a, b, before, x, y);
      SwapDrives(d, a, b, after, x, y);
    }
  }

  // ----- from chains back to bits -----

  /** `d` wires no bits together that `c` did not, through the sides. */
  ghost predicate Sound(c: Conns, d: Conns, a: Wire, b: Wire) {
    forall x, y :: Wired(d, x, y) ==> Alt(Bits(c), Sides(a, b), x, y)
  }

  lemma SoundSelf(c: Conns, a: Wire, b: Wire)
    ensures Sound(c, c, a, b)
  {
    forall x, y | Wired(c, x, y) ensures Alt(Bits(c), Sides(a, b), x, y) {
      assert AltSteps(Bits(c), Sides(a, b), x, y, 0);
    }
  }

  lemma SoundTwice(c: Conns, d: Conns, e: Conns, a: Wire, b: Wire)
    requires Sound(c, d, a, b) && Sound(d, e, a, b)
    ensures Sound(c, e, a, b)
  {
    forall x, y | Wired(e, x, y) ensures Alt(Bits(c), Sides(a, b), x, y) {
      var k: nat :| AltSteps(Bits(d), Sides(a, b), x, y, k);
      AltOfAlt(Bits(c), Bits(d), Sides(a, b), x, y, k);
    }
  }

  lemma SoundSwap(c: Conns, d: Conns, a: Wire, b: Wire)
    requires Sound(c, d, b, a)
    ensures Sound(c, d, a, b)
  {
    assert Sides(a, b) == Sides(b, a);
  }

  /** Every connection of `d` is one of `c` or combines two of them at levels `r` and `r + e`. */
  ghost predicate MergedFrom(c: Conns, d: Conns, a: Wire, b: Wire, r: Path, e: Path) {
    forall x, y :: (x, y) in d ==>
      || (x, y) in c
      || (exists u :: CombinesAt(c, a, b, r, e, u, x, y) || CombinesAt(c, a, b, r, e, u, y, x))
  }

  predicate CombinesAt(c: Conns, a: Wire, b: Wire, r: Path, e: Path, u: Wire, x: Wire, y: Wire) {
    x == u.At(e) && (u, a.At(r)) in c && (b.At(r + e), y) in c
  }

  lemma MergeSound(c: Conns, d: Conns, a: Wire, b: Wire, r: Path, e: Path)
    requires Symmetric(c) && MergedFrom(c, d, a, b, r, e)
    ensures Sound(c, d, a, b)
  {
    forall x, y | Wired(d, x, y) ensures Alt(Bits(c), Sides(a, b), x, y) {
      var u, v, p :| WiredBy(d, u, v, p, x, y);
      if (u, v) in c {
        assert WiredBy(c, u, v, p, x, y);
        assert AltSteps(Bits(c), Sides(a, b), x, y, 0);
      } else {
        var w :| CombinesAt(c, a, b, r, e, w, u, v) || CombinesAt(c, a, b, r, e, w, v, u);
        CombinedBits(c, a, b, r, e, w, u, v, p);
      }
    }
  }

  lemma CombinedBits(c: Conns, a: Wire, b: Wire, r: Path, e: Path, w: Wire, u: Wire, v: Wire, p: Path)
    requires Symmetric(c)
    requires CombinesAt(c, a, b, r, e, w, u, v) || CombinesAt(c, a, b, r, e, w, v, u)
    ensures Alt(Bits(c), Sides(a, b), u.At(p), v.At(p))
  {
    var first := CombinesAt(c, a, b, r, e, w, u, v);
    var near, far := if first then u else v, if first then v else u;
    var x, y := near.At(p), far.At(p);
    var m, n := a.At(r).At(e + p), b.At(r + e).At(p);
    AtAt(w, e, p);
    assert WiredBy(c, w, a.At(r), e + p, x, m) && WiredBy(c, a.At(r), w, e + p, m, x);
    assert WiredBy(c, b.At(r + e), far, p, n, y) && WiredBy(c, far, b.At(r + e), p, y, n);
    AtAt(a, r, e + p);
    AtAt(b, r + e, p);
    assert r + (e + p) == r + e + p;
    AtFrom(a, m, r + e + p);
    AtFrom(b, n, r + e + p);
    assert SamePlace(a, b, m, n) && SamePlace(a, b, n, m);
    if first {
      AltOnce(Bits(c), Sides(a, b), x, m, n, y);
    } else {
      AltOnce(Bits(c), Sides(a, b), y, n, m, x);
    }
  }

  ghost function AllLevels(): Pending {
    iset p: Path, q: Path | Comparable(p, q) :: (p, q)
  }

  /** No connection is made above a base. */
  ghost predicate NothingAbove(c: Conns, a: Wire) {
    forall u, v :: (u, v) in c && a.Under(u) ==> u == a
  }

  /** Neither base was selected from the wireable. */
  predicate IsBeside(a: Wire, b: Wire, u: Wire) {
    (a.Under(u) ==> u == a) && (b.Under(u) ==> u == b)
  }

  /** The connections that are not made above a base. */
  ghost function Beside(c: Conns, a: Wire, b: Wire): Conns {
    set z | z in c && IsBeside(a, b, z.0) && IsBeside(a, b, z.1)
  }

  lemma BesideAt(c: Conns, a: Wire, b: Wire, x: Wire, y: Wire)
    ensures (x, y) in Beside(c, a, b) <==> (x, y) in c && IsBeside(a, b, x) && IsBeside(a, b, y)
  {
    assert (x, y).0 == x && (x, y).1 == y;
  }

  lemma BesideSound(c: Conns, a: Wire, b: Wire)
    requires Symmetric(c)
    ensures Symmetric(Beside(c, a, b)) && Beside(c, a, b) <= c
    ensures NothingAbove(Beside(c, a, b), a) && NothingAbove(Beside(c, a, b), b)
  {
    forall x, y | (x, y) in Beside(c, a, b)
      ensures (y, x) in Beside(c, a, b) && IsBeside(a, b, x)
    {
      BesideAt(c, a, b, x, y);
      BesideAt(c, a, b, y, x);
    }
  }

  lemma BesideSwap(c: Conns, a: Wire, b: Wire)
    ensures Beside(c, a, b) == Beside(c, b, a)
  {
  }

  lemma BesideWired(c: Conns, a: Wire, b: Wire, x: Wire, y: Wire)
    requires a.root == b.root && x.root != a.root && y.root != a.root
    ensures Wired(Beside(c, a, b), x, y) <==> Wired(c, x, y)
  {
    forall u, v, p | WiredBy(c, u, v, p, x, y) ensures WiredBy(Beside(c, a, b), u, v, p, x, y) {
      BesideAt(c, a, b, u, v);
    }
    forall u, v, p | WiredBy(Beside(c, a, b), u, v, p, x, y) ensures WiredBy(c, u, v, p, x, y) {
      BesideAt(c, a, b, u, v);
    }
  }

  /** An alternation of bits is a chain in which every pair of levels may be crossed. */
  lemma AltToDrives(c: Conns, a: Wire, b: Wire, x: Wire, y: Wire)
    requires Symmetric(c) && NothingAbove(c, a) && NothingAbove(c, b)
    requires Alt(Bits(c), Sides(a, b), x, y)
    ensures Drives(c, a, b, AllLevels(), x, y)
  {
    var edges, crossings := Bits(c), Sides(a, b);
    var good := iset z: Wire | Drives(c, a, b, AllLevels(), z, y);
    forall z | (z, y) in edges ensures z in good {
      DrivesEdge(c, a, b, z, y);
    }
    forall z, m, n | (z, m) in edges && (m, n) in crossings && n in good ensures z in good {
      DrivesCons(c, a, b, z, m, n, y);
    }
    var k: nat :| AltSteps(edges, crossings, x, y, k);
    AltInduction(edges, crossings, good, x, y, k);
  }

  lemma {:induction false} AltInduction(edges: Relation, crossings: Relation, good: iset<Wire>, x: Wire, y: Wire,
      k: nat)
    requires forall z :: (z, y) in edges ==> z in good
    requires forall z, m, n :: (z, m) in edges && (m, n) in crossings && n in good ==> z in good
    requires AltSteps(edges, crossings, x, y, k)
    ensures x in good
    decreases k
  {
    if k > 0 {
      var m, n := FirstCrossing(edges, crossings, x, y, k);
      AltInduction(edges, crossings, good, n, y, k - 1);
    }
  }

  lemma DrivesEdge(c: Conns, a: Wire, b: Wire, x: Wire, y: Wire)
    requires Wired(c, x, y)
    ensures Drives(c, a, b, AllLevels(), x, y)
  {
    var u, v, p :| WiredBy(c, u, v, p, x, y);
    var s, t := End(u, p), End(v, p);
    assert s.Leaf() == x && t.Leaf() == y && Chain(c, a, b, AllLevels(), s, t, 0);
  }

  lemma DrivesCons(c: Conns, a: Wire, b: Wire, x: Wire, m: Wire, n: Wire, y: Wire)
    requires Symmetric(c) && NothingAbove(c, a) && NothingAbove(c, b)
    requires Wired(c, x, m) && SamePlace(a, b, m, n) && Drives(c, a, b, AllLevels(), n, y)
    ensures Drives(c, a, b, AllLevels(), x, y)
  {
    var s1: End, t: End, l: nat :| s1.Leaf() == n && t.Leaf() == y && Chain(c, a, b, AllLevels(), s1, t, l);
    var s := ChainCons(c, a, b, x, m, n, s1, t, l);
  }

  lemma ChainCons(c: Conns, a: Wire, b: Wire, x: Wire, m: Wire, n: Wire, s1: End, t: End, l: nat) returns (s: End)
    requires Symmetric(c) && NothingAbove(c, a) && NothingAbove(c, b)
    requires Wired(c, x, m) && SamePlace(a, b, m, n)
    requires s1.Leaf() == n && Chain(c, a, b, AllLevels(), s1, t, l)
    ensures s.Leaf() == x && Chain(c, a, b, AllLevels(), s, t, l + 1)
  {
    var u, v, p :| WiredBy(c, u, v, p, x, m);
    s := End(u, p);
    var t1 := End(v, p);
    ChainLinked(c, a, b, AllLevels(), s1, t, l);
    var z :| (s1.w, z) in c;
    assert (v, u) in c;
    if m.Under(a) && n.Under(b) && m.From(a) == n.From(b) {
      CrossesLeaves(c, a, b, v, p, u, s1.w, s1.rest, z);
    } else {
      CrossesLeaves(c, a, b, s1.w, s1.rest, z, v, p, u);
    }
    assert Edge(c, s, t1) && Junction(a, b, AllLevels(), t1, s1);
  }

  lemma ChainLinked(c: Conns, a: Wire, b: Wire, pending: Pending, s: End, t: End, k: nat)
    requires Chain(c, a, b, pending, s, t, k)
    ensures exists z :: (s.w, z) in c
  {
    if k > 0 {
      var m, n :| Edge(c, s, m) && Junction(a, b, pending, m, n) && Chain(c, a, b, pending, n, t, k - 1);
      assert (s.w, m.w) in c;
    } else {
      assert (s.w, t.w) in c;
    }
  }

  /** Connected wireables whose bits lie at one place of the two sides are on those sides. */
  lemma CrossesLeaves(c: Conns, a: Wire, b: Wire, u: Wire, p: Path, u': Wire, v: Wire, q: Path, v': Wire)
    requires (u, u') in c && (v, v') in c && NothingAbove(c, a) && NothingAbove(c, b)
    requires u.At(p).Under(a) && v.At(q).Under(b) && u.At(p).From(a) == v.At(q).From(b)
    ensures CrossesTo(a, b, AllLevels(), End(u, p), End(v, q))
  {
    OnSide(c, a, u, p, u');
    OnSide(c, b, v, q, v');
    SameLeafComparable(u.From(a), p, v.From(b), q);
  }

  lemma OnSide(c: Conns, a: Wire, u: Wire, p: Path, u': Wire)
    requires (u, u') in c && NothingAbove(c, a) && u.At(p).Under(a)
    ensures u.Under(a) && u.At(p).From(a) == u.From(a) + p
  {
    PrefixesComparable(u.path, a.path, u.path + p);
    if u.path <= a.path {
      assert a.Under(u);
    }
  }

  /** When every level has been combined, chains are single connections. */
  lemma NothingPending(d: Conns, a: Wire, b: Wire, pending: Pending, x: Wire, y: Wire)
    requires Drives(d, a, b, pending, x, y)
    requires forall p, q :: (p, q) in pending ==> !Comparable(p, q)
    ensures Wired(d, x, y)
  {
    var s: End, t: End, k: nat :| s.Leaf() == x && t.Leaf() == y && Chain(d, a, b, pending, s, t, k);
    if k > 0 {
      var m, n :| Edge(d, s, m) && Junction(a, b, pending, m, n) && Chain(d, a, b, pending, n, t, k - 1);
      if CrossesTo(a, b, pending, m, n) {
        SameLeafComparable(m.w.From(a), m.rest, n.w.From(b), n.rest);
      } else {
        SameLeafComparable(n.w.From(a), n.rest, m.w.From(b), m.rest);
      }
    } else {
      assert WiredBy(d, s.w, t.w, s.rest, x, y);
    }
  }

  lemma {:induction false} ChainLarger(c: Conns, d: Conns, a: Wire, b: Wire, pending: Pending, s: End, t: End, k: nat)
    requires c <= d && Chain(c, a, b, pending, s, t, k)
    ensures Chain(d, a, b, pending, s, t, k)
    decreases k
  {
    if k > 0 {
      var m, n :| Edge(c, s, m) && Junction(a, b, pending, m, n) && Chain(c, a, b, pending, n, t, k - 1);
      ChainLarger(c, d, a, b, pending, n, t, k - 1);
      assert Edge(d, s, m);
    }
  }

  lemma DrivesLarger(c: Conns, d: Conns, a: Wire, b: Wire, pending: Pending, x: Wire, y: Wire)
    requires c <= d && Drives(c, a, b, pending, x, y)
    ensures Drives(d, a, b, pending, x, y)
  {
    var s: End, t: End, k: nat :| s.Leaf() == x && t.Leaf() == y && Chain(c, a, b, pending, s, t, k);
    ChainLarger(c, d, a, b, pending, s, t, k);
  }

  /**
   All levels combined: a bit away from the passthrough is wired to another exactly if it
   was, across the sides, by connections that are not made above them.
  */
  lemma AllCombined(c: Conns, d: Conns, a: Wire, b: Wire, pending: Pending)
    requires Symmetric(c) && a.root == b.root
    requires Sound(Beside(c, a, b), Beside(d, a, b), a, b) && Carries(c, AllLevels(), d, pending, a, b)
    requires forall p, q :: (p, q) in pending ==> !Comparable(p, q)
    ensures forall x: Wire, y: Wire :: x.root != a.root && y.root != a.root ==>
      (Wired(d, x, y) <==> Alt(Bits(Beside(c, a, b)), Sides(a, b), x, y))
  {
    BesideSound(c, a, b);
    forall x: Wire, y: Wire | x.root != a.root && y.root != a.root
      ensures Wired(d, x, y) <==> Alt(Bits(Beside(c, a, b)), Sides(a, b), x, y)
    {
      if Alt(Bits(Beside(c, a, b)), Sides(a, b), x, y) {
        AltToDrives(Beside(c, a, b), a, b, x, y);
        DrivesLarger(Beside(c, a, b), c, a, b, AllLevels(), x, y);
        NothingPending(d, a, b, pending, x, y);
      }
      if Wired(d, x, y) {
        BesideWired(d, a, b, x, y);
      }
    }
  }
}
