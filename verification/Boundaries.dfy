/**
 What changes sides at the boundary of an inlined instance, bit by bit. Two passthroughs
 stand for the boundary while an instance is inlined, one in place of the instance and one
 in place of the interface of its definition. A path of bits over both of them is one that
 changes sides at the ports of the instance, and inlining one after the other reaches all of it.
*/
module Boundaries {
  // A passthrough stands for each side of the boundary. Inlining the two, one after the other,
  // joins bits exactly as the ports of the instance did.

  import opened Wires
  import opened Chains
  import opened Inline
  import opened Passthroughs

  // ----- two passthroughs in a row -----

  lemma {:induction false} AltMoreCrossings(edges: Relation, few: Relation, many: Relation, x: Wire, y: Wire, k: nat)
    requires few <= many && AltSteps(edges, few, x, y, k)
    ensures AltSteps(edges, many, x, y, k)
    decreases k
  {
    if k > 0 {
      var m, n := FirstCrossing(edges, few, x, y, k);
      AltMoreCrossings(edges, few, many, n, y, k - 1);
    }
  }

  /** `d` holds what is wired in `c` across the crossings `j1`, away from `name`. */
  ghost predicate Summary(c: Conns, d: Conns, j1: Relation, name: string) {
    forall x: Wire, y: Wire :: (x, y) in Bits(d) <==> x.root != name && y.root != name && Alt(Bits(c), j1, x, y)
  }

  lemma SummaryAltForth(c: Conns, d: Conns, j1: Relation, j2: Relation, name: string, x: Wire, y: Wire)
    requires Summary(c, d, j1, name) && Alt(Bits(d), j2, x, y)
    ensures Alt(Bits(c), j1 + j2, x, y)
  {
    forall u, v | (u, v) in Bits(d) ensures Alt(Bits(c), j1 + j2, u, v) {
      var k: nat :| AltSteps(Bits(c), j1, u, v, k);
      AltMoreCrossings(Bits(c), j1, j1 + j2, u, v, k);
    }
    var k: nat :| AltSteps(Bits(d), j2, x, y, k);
    AltMoreCrossings(Bits(d), j2, j1 + j2, x, y, k);
    AltOfAlt(Bits(c), Bits(d), j1 + j2, x, y, k);
  }

  /** From `z` the first crossings lead to a wireable away from `name`, and from there `y` is reached over `d`. */
  ghost predicate Resumes(c: Conns, d: Conns, j1: Relation, j2: Relation, name: string, z: Wire, y: Wire) {
    exists v: Wire :: ResumesAt(c, d, j1, j2, name, z, v, y)
  }

  ghost predicate ResumesAt(c: Conns, d: Conns, j1: Relation, j2: Relation, name: string, z: Wire, v: Wire, y: Wire) {
    && v.root != name && Alt(Bits(c), j1, z, v)
    && (v == y || exists n :: (v, n) in j2 && Alt(Bits(d), j2, n, y))
  }

  lemma AltCons(edges: Relation, crossings: Relation, x: Wire, m: Wire, n: Wire, y: Wire)
    requires (x, m) in edges && (m, n) in crossings && Alt(edges, crossings, n, y)
    ensures Alt(edges, crossings, x, y)
  {
    assert AltSteps(edges, crossings, x, m, 0);
    AltJoin(edges, crossings, x, m, n, y);
  }

  lemma AltOne(edges: Relation, crossings: Relation, x: Wire, y: Wire)
    requires (x, y) in edges
    ensures Alt(edges, crossings, x, y)
  {
    assert AltSteps(edges, crossings, x, y, 0);
  }

  lemma ResumesReaches(c: Conns, d: Conns, j1: Relation, j2: Relation, name: string, z: Wire, y: Wire)
    requires Summary(c, d, j1, name) && Resumes(c, d, j1, j2, name, z, y) && z.root != name
    ensures Alt(Bits(d), j2, z, y)
  {
    var v: Wire :| ResumesAt(c, d, j1, j2, name, z, v, y);
    assert (z, v) in Bits(d);
    if v == y {
      AltOne(Bits(d), j2, z, y);
    } else {
      var n :| (v, n) in j2 && Alt(Bits(d), j2, n, y);
      AltCons(Bits(d), j2, z, v, n, y);
    }
  }

  lemma SummaryAltBack(c: Conns, d: Conns, j1: Relation, j2: Relation, name: string, x: Wire, y: Wire)
    requires Summary(c, d, j1, name) && Alt(Bits(c), j1 + j2, x, y) && x.root != name && y.root != name
    requires forall m: Wire, n: Wire :: (m, n) in j2 ==> m.root != name && n.root != name
    ensures Alt(Bits(d), j2, x, y)
  {
    var good := iset z: Wire | Resumes(c, d, j1, j2, name, z, y);
    forall z | (z, y) in Bits(c) ensures z in good {
      AltOne(Bits(c), j1, z, y);
      assert ResumesAt(c, d, j1, j2, name, z, y, y);
    }
    forall z, m, n | (z, m) in Bits(c) && (m, n) in j1 + j2 && n in good ensures z in good {
      ResumesStep(c, d, j1, j2, name, z, m, n, y);
    }
    var k: nat :| AltSteps(Bits(c), j1 + j2, x, y, k);
    AltInduction(Bits(c), j1 + j2, good, x, y, k);
    ResumesReaches(c, d, j1, j2, name, x, y);
  }

  lemma ResumesStep(c: Conns, d: Conns, j1: Relation, j2: Relation, name: string, z: Wire, m: Wire, n: Wire, y: Wire)
    requires Summary(c, d, j1, name)
    requires forall m: Wire, n: Wire :: (m, n) in j2 ==> m.root != name && n.root != name
    requires (z, m) in Bits(c) && (m, n) in j1 + j2 && Resumes(c, d, j1, j2, name, n, y)
    ensures Resumes(c, d, j1, j2, name, z, y)
  {
    if (m, n) in j1 {
      var v: Wire :| ResumesAt(c, d, j1, j2, name, n, v, y);
      AltCons(Bits(c), j1, z, m, n, v);
      assert ResumesAt(c, d, j1, j2, name, z, v, y);
    } else {
      ResumesReaches(c, d, j1, j2, name, n, y);
      AltOne(Bits(c), j1, z, m);
      assert ResumesAt(c, d, j1, j2, name, z, m, y);
    }
  }

  // ----- the boundary -----

  /**
   The four roots at the boundary: the instance, a name for the interface of its
   definition, and the passthroughs standing for the two.
  */
  datatype Boundary = Boundary(instance: string, interface_: string, outside: string, inside: string) {
    predicate Distinct() {
      && instance != interface_ && instance != outside && instance != inside
      && interface_ != outside && interface_ != inside && outside != inside
    }

    predicate Survives(z: Wire) {
      z.root != instance && z.root != interface_ && z.root != outside && z.root != inside
    }

    /** What a wireable of a passthrough's "out" side stands for. */
    function Meaning(z: Wire): Wire {
      if z.Under(OutSide(outside)) then Wire(instance, []).At(z.From(OutSide(outside)))
      else if z.Under(OutSide(inside)) then Wire(interface_, []).At(z.From(OutSide(inside)))
      else z
    }

    /** The wireable that stands for `z` once the passthroughs are in place. */
    function StandIn(z: Wire): Wire {
      if z.root == instance then OutSide(outside).At(z.path)
      else if z.root == interface_ then OutSide(inside).At(z.path)
      else z
    }

    /** What is reached from a wireable of a passthrough: from an "in" side, what the other passthrough stands for. */
    function Target(z: Wire): Wire {
      if z.Under(InSide(outside)) then Wire(interface_, []).At(z.From(InSide(outside)))
      else if z.Under(InSide(inside)) then Wire(instance, []).At(z.From(InSide(inside)))
      else Meaning(z)
    }

    ghost function Crossings(): Relation {
      Sides(InSide(outside), OutSide(outside)) + Sides(InSide(inside), OutSide(inside))
    }

    ghost function Ports(): Relation {
      Sides(Wire(instance, []), Wire(interface_, []))
    }

    predicate InToIn(x: Wire, y: Wire) {
      (x == InSide(outside) && y == InSide(inside)) || (x == InSide(inside) && y == InSide(outside))
    }

    predicate Replaceable(z: Wire) {
      z.root != instance && z.root != interface_
    }
  }

  /** `d` is `k` with the two passthroughs in place of the instance and the interface, joined by their "in" sides. */
  ghost predicate Quarantined(b: Boundary, k: Conns, d: Conns) {
    forall x, y :: (x, y) in d <==>
      b.InToIn(x, y) || ((b.Meaning(x), b.Meaning(y)) in k && b.Replaceable(x) && b.Replaceable(y))
  }

  lemma MeaningAt(b: Boundary, z: Wire, p: Path)
    requires b.Distinct() && z != Wire(b.outside, []) && z != Wire(b.inside, [])
    ensures b.Meaning(z.At(p)) == b.Meaning(z).At(p)
    ensures b.Replaceable(z.At(p)) == b.Replaceable(z)
  {
    if z.At(p).Under(OutSide(b.outside)) {
      UnderOutSide(b.outside, z, p);
      AtAt(Wire(b.instance, []), z.From(OutSide(b.outside)), p);
    } else if z.At(p).Under(OutSide(b.inside)) {
      UnderOutSide(b.inside, z, p);
      AtAt(Wire(b.interface_, []), z.From(OutSide(b.inside)), p);
    } else {
      assert !z.Under(OutSide(b.outside)) && !z.Under(OutSide(b.inside)) by {
        NotUnderYet(OutSide(b.outside), z, p);
        NotUnderYet(OutSide(b.inside), z, p);
      }
    }
  }

  lemma NotUnderYet(base: Wire, z: Wire, p: Path)
    requires !z.At(p).Under(base)
    ensures !z.Under(base)
  {
    if z.Under(base) {
      PrefixTransitive(base.path, z.path, z.path + p);
    }
  }

  lemma UnderOutSide(name: string, z: Wire, p: Path)
    requires z.At(p).Under(OutSide(name)) && z != Wire(name, [])
    ensures z.Under(OutSide(name)) && z.At(p).From(OutSide(name)) == z.From(OutSide(name)) + p
  {
    assert |z.path| > 0;
    assert z.path[0] == z.At(p).path[0] == Field("out");
  }

  /** What represents, in place of `x`, a wireable that the meaning of `x` is selected from. */
  lemma Representative(b: Boundary, x: Wire, u: Wire, p: Path) returns (r: Wire)
    requires b.Distinct() && b.Meaning(x) == u.At(p) && b.Replaceable(x)
    requires u.root != b.outside && u.root != b.inside
    ensures b.Meaning(r) == u && r.At(p) == x && b.Replaceable(r)
  {
    if x.Under(OutSide(b.outside)) {
      r := OutSide(b.outside).At(u.path);
      RepresentativeAt(OutSide(b.outside), x, u.path, p);
    } else if x.Under(OutSide(b.inside)) {
      r := OutSide(b.inside).At(u.path);
      RepresentativeAt(OutSide(b.inside), x, u.path, p);
    } else {
      r := u;
    }
  }

  lemma RepresentativeAt(base: Wire, x: Wire, q: Path, p: Path)
    requires x.Under(base) && x.From(base) == q + p
    ensures base.At(q).At(p) == x && base.At(q).Under(base) && base.At(q).From(base) == q
  {
    AtFrom(base, x, q);
    AtAt(base, q, p);
  }

  /** Bits wired in the quarantined connections: on the two "in" sides, or their meanings were wired before. */
  lemma QuarantinedBits(b: Boundary, k: Conns, d: Conns, x: Wire, y: Wire)
    requires b.Distinct() && Quarantined(b, k, d) && Untouched(k, b.outside) && Untouched(k, b.inside)
    ensures Wired(d, x, y) <==>
      || SamePlace(InSide(b.outside), InSide(b.inside), x, y)
      || (Wired(k, b.Meaning(x), b.Meaning(y)) && b.Replaceable(x) && b.Replaceable(y))
  {
    if Wired(d, x, y) {
      var u, v, p :| WiredBy(d, u, v, p, x, y);
      if b.InToIn(u, v) {
        AtFrom(InSide(b.outside), x, p);
        AtFrom(InSide(b.inside), x, p);
      } else {
        MeaningAt(b, u, p);
        MeaningAt(b, v, p);
        assert WiredBy(k, b.Meaning(u), b.Meaning(v), p, b.Meaning(x), b.Meaning(y));
      }
    }
    if SamePlace(InSide(b.outside), InSide(b.inside), x, y) {
      InSidesWired(b, k, d, x, y);
    }
    if Wired(k, b.Meaning(x), b.Meaning(y)) && b.Replaceable(x) && b.Replaceable(y) {
      var u, v, p :| WiredBy(k, u, v, p, b.Meaning(x), b.Meaning(y));
      var r := Representative(b, x, u, p);
      var t := Representative(b, y, v, p);
      assert WiredBy(d, r, t, p, x, y);
    }
  }

  lemma InSidesWired(b: Boundary, k: Conns, d: Conns, x: Wire, y: Wire)
    requires b.Distinct() && Quarantined(b, k, d) && SamePlace(InSide(b.outside), InSide(b.inside), x, y)
    ensures Wired(d, x, y)
  {
    if x.Under(InSide(b.outside)) && y.Under(InSide(b.inside)) {
      var p := x.From(InSide(b.outside));
      assert WiredBy(d, InSide(b.outside), InSide(b.inside), p, x, y);
    } else {
      var p := x.From(InSide(b.inside));
      assert WiredBy(d, InSide(b.inside), InSide(b.outside), p, x, y);
    }
  }

  // ----- the boundary, bit by bit -----

  /** A run over the passthroughs is one over the ports of the instance. */
  lemma BoundaryForth(b: Boundary, k: Conns, d: Conns, x: Wire, y: Wire)
    requires b.Distinct() && Quarantined(b, k, d) && Untouched(k, b.outside) && Untouched(k, b.inside)
    requires b.Survives(x) && b.Survives(y) && Alt(Bits(d), b.Crossings(), x, y)
    ensures Alt(Bits(k), b.Ports(), x, y)
  {
    var good := iset z: Wire | Alt(Bits(k), b.Ports(), b.Target(z), y);
    forall z | (z, y) in Bits(d) ensures z in good {
      QuarantinedBits(b, k, d, z, y);
      TargetIsMeaning(b, k, z, y);
      AltOne(Bits(k), b.Ports(), b.Target(z), y);
    }
    forall z, m, n | (z, m) in Bits(d) && (m, n) in b.Crossings() && n in good ensures z in good {
      BoundaryStep(b, k, d, z, m, n, y);
    }
    var l: nat :| AltSteps(Bits(d), b.Crossings(), x, y, l);
    AltInduction(Bits(d), b.Crossings(), good, x, y, l);
  }

  /** Ends of original connections are on no "in" side. */
  lemma TargetIsMeaning(b: Boundary, k: Conns, z: Wire, y: Wire)
    requires Untouched(k, b.outside) && Untouched(k, b.inside)
    requires Wired(k, b.Meaning(z), b.Meaning(y))
    ensures b.Target(z) == b.Meaning(z) && b.Target(y) == b.Meaning(y)
    ensures b.Meaning(z).root != b.outside && b.Meaning(z).root != b.inside
    ensures b.Meaning(y).root != b.outside && b.Meaning(y).root != b.inside
  {
    var u, v, p :| WiredBy(k, u, v, p, b.Meaning(z), b.Meaning(y));
    SidesSeparate(b.outside);
    SidesSeparate(b.inside);
  }

  lemma BoundaryStep(b: Boundary, k: Conns, d: Conns, z: Wire, m: Wire, n: Wire, y: Wire)
    requires b.Distinct() && Quarantined(b, k, d) && Untouched(k, b.outside) && Untouched(k, b.inside)
    requires (z, m) in Bits(d) && (m, n) in b.Crossings() && Alt(Bits(k), b.Ports(), b.Target(n), y)
    ensures Alt(Bits(k), b.Ports(), b.Target(z), y)
  {
    QuarantinedBits(b, k, d, z, m);
    if SamePlace(InSide(b.outside), InSide(b.inside), z, m) {
      CrossedIn(b, z, m, n);
    } else {
      TargetIsMeaning(b, k, z, m);
      CrossedOut(b, m, n);
      AltCons(Bits(k), b.Ports(), b.Target(z), b.Target(m), b.Target(n), y);
    }
  }

  /** From one "in" side to the other and across: the same target. */
  lemma CrossedIn(b: Boundary, z: Wire, m: Wire, n: Wire)
    requires b.Distinct() && SamePlace(InSide(b.outside), InSide(b.inside), z, m) && (m, n) in b.Crossings()
    ensures b.Target(n) == b.Target(z)
  {
    OneSide(b.outside, m);
    OneSide(b.inside, m);
    OneSide(b.outside, n);
    OneSide(b.inside, n);
  }

  /** Crossing from an "out" side goes through the port it stands for. */
  lemma CrossedOut(b: Boundary, m: Wire, n: Wire)
    requires b.Distinct() && (m, n) in b.Crossings() && b.Target(m) == b.Meaning(m)
    requires b.Meaning(m).root != b.outside && b.Meaning(m).root != b.inside
    ensures (b.Target(m), b.Target(n)) in b.Ports()
  {
    OneSide(b.outside, m);
    OneSide(b.inside, m);
    OneSide(b.outside, n);
    OneSide(b.inside, n);
  }

  /** A run over the ports of the instance is one over the passthroughs. */
  lemma BoundaryBack(b: Boundary, k: Conns, d: Conns, x: Wire, y: Wire)
    requires b.Distinct() && Quarantined(b, k, d) && Untouched(k, b.outside) && Untouched(k, b.inside)
    requires b.Survives(x) && b.Survives(y) && Alt(Bits(k), b.Ports(), x, y)
    ensures Alt(Bits(d), b.Crossings(), x, y)
  {
    var good := iset z: Wire | Alt(Bits(d), b.Crossings(), b.StandIn(z), y);
    forall z | (z, y) in Bits(k) ensures z in good {
      StandInWired(b, k, d, z, y);
      AltOne(Bits(d), b.Crossings(), b.StandIn(z), y);
    }
    forall z, m, n | (z, m) in Bits(k) && (m, n) in b.Ports() && n in good ensures z in good {
      StandInWired(b, k, d, z, m);
      PortCrossed(b, k, d, m, n);
      AcrossBoth(b, k, d, b.StandIn(z), b.StandIn(m), b.StandIn(n), y);
    }
    var l: nat :| AltSteps(Bits(k), b.Ports(), x, y, l);
    AltInduction(Bits(k), b.Ports(), good, x, y, l);
  }

  lemma StandInMeans(b: Boundary, z: Wire)
    requires b.Distinct() && z.root != b.outside && z.root != b.inside
    ensures b.Meaning(b.StandIn(z)) == z && b.Replaceable(b.StandIn(z))
  {
    AtFrom(OutSide(b.outside), z, z.path);
    AtFrom(OutSide(b.inside), z, z.path);
    assert [] + z.path == z.path;
  }

  lemma StandInWired(b: Boundary, k: Conns, d: Conns, z: Wire, y: Wire)
    requires b.Distinct() && Quarantined(b, k, d) && Untouched(k, b.outside) && Untouched(k, b.inside)
    requires Wired(k, z, y)
    ensures (b.StandIn(z), b.StandIn(y)) in Bits(d)
  {
    var u, v, p :| WiredBy(k, u, v, p, z, y);
    StandInMeans(b, z);
    StandInMeans(b, y);
    QuarantinedBits(b, k, d, b.StandIn(z), b.StandIn(y));
  }

  ghost predicate Facing(b: Boundary, m: Wire, n: Wire) {
    exists p :: FacingAt(b, m, n, p)
  }

  predicate FacingAt(b: Boundary, m: Wire, n: Wire, p: Path) {
    || (m == OutSide(b.outside).At(p) && n == OutSide(b.inside).At(p))
    || (m == OutSide(b.inside).At(p) && n == OutSide(b.outside).At(p))
  }

  lemma PortCrossed(b: Boundary, k: Conns, d: Conns, m: Wire, n: Wire)
    requires b.Distinct() && (m, n) in b.Ports()
    ensures Facing(b, b.StandIn(m), b.StandIn(n))
  {
    assert m.path[0..] == m.path && n.path[0..] == n.path;
    assert FacingAt(b, b.StandIn(m), b.StandIn(n), m.path);
  }

  /** From one "out" side to the other: across, over to the other "in" side, and across again. */
  lemma AcrossBoth(b: Boundary, k: Conns, d: Conns, z: Wire, m: Wire, n: Wire, y: Wire)
    requires b.Distinct() && Quarantined(b, k, d)
    requires (z, m) in Bits(d) && Facing(b, m, n) && Alt(Bits(d), b.Crossings(), n, y)
    ensures Alt(Bits(d), b.Crossings(), z, y)
  {
    var p :| FacingAt(b, m, n, p);
    var near := if m == OutSide(b.outside).At(p) then b.outside else b.inside;
    var far := if m == OutSide(b.outside).At(p) then b.inside else b.outside;
    OverAndAcross(near, p);
    OverAndAcross(far, p);
    AtFrom(InSide(near), m, p);
    AtFrom(InSide(far), m, p);
    InSidesWired(b, k, d, InSide(near).At(p), InSide(far).At(p));
    AltCons(Bits(d), b.Crossings(), InSide(near).At(p), InSide(far).At(p), n, y);
    AltCons(Bits(d), b.Crossings(), z, m, InSide(near).At(p), y);
  }

  lemma OverAndAcross(name: string, p: Path)
    ensures SamePlace(InSide(name), OutSide(name), OutSide(name).At(p), InSide(name).At(p))
    ensures SamePlace(InSide(name), OutSide(name), InSide(name).At(p), OutSide(name).At(p))
  {
    AtFrom(InSide(name), InSide(name), p);
    AtFrom(OutSide(name), OutSide(name), p);
  }

  // ----- the definition's contents under a prefix -----

  const INSIDE := "_insidePT"
  const OUTSIDE := "_outsidePT"

  function Prefix(instance: string): string {
    instance + "$"
  }

  predicate Prefixed(prefix: string, z: Wire) {
    prefix <= z.root && z.root[|prefix|..] != "self"
  }

  function Strip(prefix: string, z: Wire): Wire {
    if prefix <= z.root then Wire(z.root[|prefix|..], z.path) else z
  }

  function Copy(prefix: string, z: Wire): Wire {
    Wire(prefix + z.root, z.path)
  }

  lemma StripCopy(prefix: string, z: Wire)
    ensures Strip(prefix, Copy(prefix, z)) == z && prefix <= Copy(prefix, z).root
    ensures prefix <= z.root ==> Copy(prefix, Strip(prefix, z)) == z
  {
    assert (prefix + z.root)[|prefix|..] == z.root;
  }

  /** `c1` is `c0` with the connections of `inner` that are not at the interface, under the prefix. */
  ghost predicate Copied(c0: Conns, c1: Conns, inner: Conns, prefix: string) {
    forall x, y :: (x, y) in c1 <==>
      || (x, y) in c0
      || (Prefixed(prefix, x) && Prefixed(prefix, y) && (Strip(prefix, x), Strip(prefix, y)) in inner)
  }

  /** A wireable of the definition as seen from outside: the interface under the name `s`, the rest under the prefix. */
  function Named(prefix: string, s: string, z: Wire): Wire {
    if z.root == "self" then Wire(s, z.path) else Copy(prefix, z)
  }

  /** The connections outside together with those of the definition. */
  function Joint(outer: Conns, inner: Conns, prefix: string, s: string): Conns {
    outer + set c | c in inner :: (Named(prefix, s, c.0), Named(prefix, s, c.1))
  }

  predicate HasName(prefix: string, s: string, z: Wire) {
    z.root == s || Prefixed(prefix, z)
  }

  function Unnamed(prefix: string, s: string, z: Wire): Wire {
    if z.root == s then Wire("self", z.path) else Strip(prefix, z)
  }

  lemma NamedUnnamed(prefix: string, s: string, z: Wire)
    requires !(prefix <= s)
    ensures HasName(prefix, s, z) ==> Named(prefix, s, Unnamed(prefix, s, z)) == z
    ensures HasName(prefix, s, Named(prefix, s, z)) && Unnamed(prefix, s, Named(prefix, s, z)) == z
  {
    StripCopy(prefix, z);
  }

  lemma JointAt(outer: Conns, inner: Conns, prefix: string, s: string, x: Wire, y: Wire)
    requires !(prefix <= s)
    ensures (x, y) in Joint(outer, inner, prefix, s) <==>
      || (x, y) in outer
      || (HasName(prefix, s, x) && HasName(prefix, s, y) && (Unnamed(prefix, s, x), Unnamed(prefix, s, y)) in inner)
  {
    if (x, y) in Joint(outer, inner, prefix, s) && (x, y) !in outer {
      var c :| c in inner && (x, y) == (Named(prefix, s, c.0), Named(prefix, s, c.1));
      NamedUnnamed(prefix, s, c.0);
      NamedUnnamed(prefix, s, c.1);
      assert c == (c.0, c.1);
    }
    if HasName(prefix, s, x) && HasName(prefix, s, y) && (Unnamed(prefix, s, x), Unnamed(prefix, s, y)) in inner {
      NamedUnnamed(prefix, s, x);
      NamedUnnamed(prefix, s, y);
      var c := (Unnamed(prefix, s, x), Unnamed(prefix, s, y));
      assert (x, y) == (Named(prefix, s, c.0), Named(prefix, s, c.1));
    }
  }

  function BoundaryOf(instance: string, s: string): Boundary {
    Boundary(instance, s, OUTSIDE, Prefix(instance) + INSIDE)
  }

  /** `s` is the name of nothing at or near the instance. */
  predicate FreeName(instance: string, s: string) {
    s != instance && s != OUTSIDE && !(Prefix(instance) <= s)
  }

  lemma PrefixedNames(instance: string, r: string)
    ensures Prefix(instance) + r != instance && Prefix(instance) + r != OUTSIDE && Prefix(instance) + r != "self"
    ensures !(Prefix(instance) <= instance) && !(Prefix(instance) <= OUTSIDE)
  {
    assert (Prefix(instance) + r)[|instance|] == '$';
    assert '$' !in OUTSIDE && '$' !in "self";
    assert Prefix(instance)[|instance|] == '$';
    assert |OUTSIDE| > |instance| ==> OUTSIDE[|instance|] != '$';
    assert |Prefix(instance)| > |instance|;
  }

  lemma BoundaryDistinct(instance: string, s: string)
    requires FreeName(instance, s) && instance != OUTSIDE
    ensures BoundaryOf(instance, s).Distinct()
  {
    PrefixedNames(instance, INSIDE);
  }

  /** An end away from the instance: what it means, and where it was before the passthrough was added outside. */
  lemma EndOutside(instance: string, s: string, x: Wire)
    requires FreeName(instance, s) && instance != OUTSIDE
    ensures var b, o := BoundaryOf(instance, s), Origin(Wire(instance, []), OutSide(OUTSIDE), x);
            if x.Under(OutSide(b.inside)) then o == x && b.Meaning(x).root == s else b.Meaning(x) == o
  {
    BoundaryDistinct(instance, s);
  }

  /** An end inside: what it means, and where it was before the passthrough was added inside. */
  lemma EndInside(instance: string, s: string, x: Wire)
    requires FreeName(instance, s) && instance != OUTSIDE && x.root != instance && x.root != s
    ensures var b, o := BoundaryOf(instance, s), Origin(Wire(instance, []), OutSide(OUTSIDE), x);
            var prefix := Prefix(instance);
            && (Prefixed(prefix, o) <==> HasName(prefix, s, b.Meaning(x)))
            && (Prefixed(prefix, o) ==>
              Unnamed(prefix, s, b.Meaning(x)) == Origin(Wire("self", []), OutSide(INSIDE), Strip(prefix, o)))
  {
    var b, prefix := BoundaryOf(instance, s), Prefix(instance);
    BoundaryDistinct(instance, s);
    PrefixedNames(instance, x.root);
    assert b.inside[|prefix|..] == INSIDE && |INSIDE| != |"self"|;
    StripCopy(prefix, OutSide(INSIDE));
    StripCopy(prefix, x);
    assert prefix <= x.root && Strip(prefix, x).Under(OutSide(INSIDE)) ==> x.Under(OutSide(b.inside));
    if x.Under(OutSide(OUTSIDE)) {
      assert b.Meaning(x).root == instance;
    } else if x.Under(OutSide(b.inside)) {
      assert Strip(prefix, x).Under(OutSide(INSIDE));
    }
  }

  /** What the steps up to the removal of the instance have made of the connections. */
  ghost predicate Assembled(instance: string, c0: Conns, inner0: Conns, inner1: Conns, c1: Conns, c2: Conns,
      c3: Conns, d: Conns)
  {
    && Added(inner0, inner1, Wire("self", []), INSIDE) && Untouched(inner0, INSIDE)
    && Copied(c0, c1, inner1, Prefix(instance))
    && Added(c1, c2, Wire(instance, []), OUTSIDE) && Untouched(c1, OUTSIDE)
    && c3 == c2 + {(InSide(OUTSIDE), InSide(Prefix(instance) + INSIDE)),
      (InSide(Prefix(instance) + INSIDE), InSide(OUTSIDE))}
    && Passthroughs.Elsewhere(c3, d, instance)
    && Untouched(c0, Prefix(instance) + INSIDE)
  }

  /** A connection away from the instance, before the passthrough was added outside. */
  lemma AssembledCopied(instance: string, s: string, c0: Conns, inner0: Conns, inner1: Conns, c1: Conns, c2: Conns,
      c3: Conns, d: Conns, x: Wire, y: Wire)
    requires Assembled(instance, c0, inner0, inner1, c1, c2, c3, d) && FreeName(instance, s) && instance != OUTSIDE
    requires x.root != instance && y.root != instance
    ensures (x, y) in d <==>
      || BoundaryOf(instance, s).InToIn(x, y)
      || (Origin(Wire(instance, []), OutSide(OUTSIDE), x), Origin(Wire(instance, []), OutSide(OUTSIDE), y)) in c1
  {
  }

  lemma AssembledOutside(instance: string, s: string, c0: Conns, inner0: Conns, x: Wire, y: Wire)
    requires FreeName(instance, s) && instance != OUTSIDE && Untouched(c0, s)
    requires Untouched(c0, Prefix(instance) + INSIDE)
    requires x.root != instance && y.root != instance
    ensures var b := BoundaryOf(instance, s);
            (Origin(Wire(instance, []), OutSide(OUTSIDE), x), Origin(Wire(instance, []), OutSide(OUTSIDE), y)) in c0
            <==> (b.Meaning(x), b.Meaning(y)) in c0 && x.root != s && y.root != s
  {
    EndOutside(instance, s, x);
    EndOutside(instance, s, y);
  }

  lemma AssembledInside(instance: string, s: string, inner0: Conns, inner1: Conns, x: Wire, y: Wire)
    requires Added(inner0, inner1, Wire("self", []), INSIDE) && Untouched(inner0, INSIDE)
    requires FreeName(instance, s) && instance != OUTSIDE
    requires x.root != instance && y.root != instance && x.root != s && y.root != s
    ensures var b, p := BoundaryOf(instance, s), Prefix(instance);
            var ox, oy := Origin(Wire(instance, []), OutSide(OUTSIDE), x),
              Origin(Wire(instance, []), OutSide(OUTSIDE), y);
            (Prefixed(p, ox) && Prefixed(p, oy) && (Strip(p, ox), Strip(p, oy)) in inner1)
            <==> (HasName(p, s, b.Meaning(x)) && HasName(p, s, b.Meaning(y))
              && (Unnamed(p, s, b.Meaning(x)), Unnamed(p, s, b.Meaning(y))) in inner0)
  {
    EndInside(instance, s, x);
    EndInside(instance, s, y);
  }

  lemma NotPrefixedFree(instance: string, s: string, z: Wire)
    requires FreeName(instance, s) && z.root == s && instance != OUTSIDE
    ensures !Prefixed(Prefix(instance), Origin(Wire(instance, []), OutSide(OUTSIDE), z))
  {
    PrefixedNames(instance, "");
  }

  lemma AssembledAt(instance: string, s: string, c0: Conns, inner0: Conns, inner1: Conns, c1: Conns, c2: Conns,
      c3: Conns, d: Conns, x: Wire, y: Wire)
    requires Assembled(instance, c0, inner0, inner1, c1, c2, c3, d) && FreeName(instance, s) && instance != OUTSIDE
    requires Untouched(c0, s)
    ensures var b := BoundaryOf(instance, s);
      var k := Joint(c0, inner0, Prefix(instance), s);
      (x, y) in d <==>
        b.InToIn(x, y) || ((b.Meaning(x), b.Meaning(y)) in k && b.Replaceable(x) && b.Replaceable(y))
  {
    var b := BoundaryOf(instance, s);
    BoundaryDistinct(instance, s);
    if x.root != instance && y.root != instance {
      AssembledCopied(instance, s, c0, inner0, inner1, c1, c2, c3, d, x, y);
      AssembledOutside(instance, s, c0, inner0, x, y);
      JointAt(c0, inner0, Prefix(instance), s, b.Meaning(x), b.Meaning(y));
      if x.root == s {
        NotPrefixedFree(instance, s, x);
      } else if y.root == s {
        NotPrefixedFree(instance, s, y);
      } else {
        AssembledInside(instance, s, inner0, inner1, x, y);
      }
    }
  }

  lemma AssembledQuarantined(instance: string, s: string, c0: Conns, inner0: Conns, inner1: Conns, c1: Conns,
      c2: Conns, c3: Conns, d: Conns)
    requires Assembled(instance, c0, inner0, inner1, c1, c2, c3, d) && FreeName(instance, s) && instance != OUTSIDE
    requires Untouched(c0, s)
    ensures BoundaryOf(instance, s).Distinct()
    ensures Quarantined(BoundaryOf(instance, s), Joint(c0, inner0, Prefix(instance), s), d)
    ensures Untouched(Joint(c0, inner0, Prefix(instance), s), OUTSIDE)
    ensures Untouched(Joint(c0, inner0, Prefix(instance), s), Prefix(instance) + INSIDE)
  {
    BoundaryDistinct(instance, s);
    var b, k := BoundaryOf(instance, s), Joint(c0, inner0, Prefix(instance), s);
    forall x, y
      ensures (x, y) in d <==>
        b.InToIn(x, y) || ((b.Meaning(x), b.Meaning(y)) in k && b.Replaceable(x) && b.Replaceable(y))
    {
      AssembledAt(instance, s, c0, inner0, inner1, c1, c2, c3, d, x, y);
    }
    forall x: Wire, y: Wire | (x, y) in k
      ensures x.root != OUTSIDE && y.root != OUTSIDE && x.root != b.inside && y.root != b.inside
    {
      JointUntouched(instance, s, c0, inner0, c1, inner1, x, y);
    }
  }

  lemma JointUntouched(instance: string, s: string, c0: Conns, inner0: Conns, c1: Conns, inner1: Conns, x: Wire,
      y: Wire)
    requires Copied(c0, c1, inner1, Prefix(instance)) && Untouched(c1, OUTSIDE)
    requires Untouched(c0, Prefix(instance) + INSIDE)
    requires Untouched(inner0, INSIDE) && FreeName(instance, s) && instance != OUTSIDE
    requires (x, y) in Joint(c0, inner0, Prefix(instance), s)
    ensures x.root != OUTSIDE && y.root != OUTSIDE && x.root != Prefix(instance) + INSIDE
    ensures y.root != Prefix(instance) + INSIDE
  {
    var p := Prefix(instance);
    JointAt(c0, inner0, p, s, x, y);
    PrefixedNames(instance, INSIDE);
    StripCopy(p, Wire(INSIDE, []));
    if (x, y) in c0 {
      assert (x, y) in c1;
    } else {
      assert |INSIDE| != |"self"|;
    }
  }
}
