/** One driver for every input bit, bits reached from themselves, and what inlining one passthrough makes of both. */
module Drivers {
  import opened Wires
  import opened Chains
  import opened ModuleDefs
  import opened Inline
  import opened Passthroughs
  import opened Boundaries
  import opened Loops
  import opened Validation
  import Collections
  import Runs

  // ----- the rule of validation, connection by connection -----

  lemma {:induction false} LoadTwice(connected: map<Wire, set<Wire>>, leaf: Wire, level: nat, i: nat, j: nat)
    requires level <= i < j <= |leaf.path|
    ensures Load(connected, leaf, level) >= LoadAt(connected, Upto(leaf, i)) + LoadAt(connected, Upto(leaf, j))
    decreases i - level
  {
    if level < i {
      LoadTwice(connected, leaf, level + 1, i, j);
    } else {
      LoadBelow(connected, leaf, level + 1, j);
    }
  }

  /** More than one connection is at two levels, or more than one at one level. */
  lemma {:induction false} LoadMany(connected: map<Wire, set<Wire>>, leaf: Wire, level: nat) returns (i: nat, j: nat)
    requires Load(connected, leaf, level) > 1
    ensures level <= i <= j <= |leaf.path| && LoadAt(connected, Upto(leaf, i)) > 0
    ensures LoadAt(connected, Upto(leaf, j)) > 0
    ensures i == j ==> LoadAt(connected, Upto(leaf, i)) > 1
    decreases |leaf.path| + 1 - level
  {
    i, j := level, level;
    if LoadAt(connected, Upto(leaf, level)) == 0 {
      i, j := LoadMany(connected, leaf, level + 1);
    } else if LoadAt(connected, Upto(leaf, level)) == 1 {
      j := LoadedLevel(connected, leaf, level + 1);
    }
  }

  lemma TwoNeighbours(s: set<Wire>, v: Wire, z: Wire)
    requires v in s && z in s && v != z
    ensures |s| > 1
  {
    Collections.SubsetCount({v, z}, s);
  }

  lemma SomeOther(s: set<Wire>) returns (v: Wire, z: Wire)
    requires |s| > 1
    ensures v in s && z in s && v != z
  {
    v := Collections.Pick(s);
    var rest := s - {v};
    assert s == rest + {v};
    z := Collections.Pick(rest);
  }

  lemma DriversAgree(types: Types, c: Conns, connected: map<Wire, set<Wire>>, x: Wire, u: Wire, v: Wire, w: Wire,
      z: Wire)
    requires Neighbours(c, connected) && IsInputBit(types, x) && Load(connected, x, 0) <= 1
    requires Runs.Covers(c, u, v, x) && Runs.Covers(c, w, z, x)
    ensures u == w && v == z
  {
    UptoUnder(x, u);
    UptoUnder(x, w);
    assert v in connected[u] && z in connected[w];
    if |u.path| < |w.path| {
      LoadTwice(connected, x, 0, |u.path|, |w.path|);
    } else if |w.path| < |u.path| {
      LoadTwice(connected, x, 0, |w.path|, |u.path|);
    } else {
      LoadBelow(connected, x, 0, |u.path|);
      if v != z {
        TwoNeighbours(connected[u], v, z);
      }
    }
  }

  /** Validation's rule for input bits, over connections instead of counts. */
  lemma SingleMeansOne(types: Types, c: Conns, connected: map<Wire, set<Wire>>)
    requires Neighbours(c, connected)
    ensures SingleDrivers(types, connected) <==> Runs.OneDriver(c, InputsOf(types))
  {
    if SingleDrivers(types, connected) {
      forall x, u, v, w, z | x in InputsOf(types) && Runs.Covers(c, u, v, x) && Runs.Covers(c, w, z, x)
        ensures u == w && v == z
      {
        DriversAgree(types, c, connected, x, u, v, w, z);
      }
    } else {
      var x: Wire :| IsInputBit(types, x) && Load(connected, x, 0) > 1;
      var i, j := LoadMany(connected, x, 0);
      var u, w := Upto(x, i), Upto(x, j);
      if i < j {
        var v := Collections.Pick(connected[u]);
        var z := Collections.Pick(connected[w]);
        assert Runs.Covers(c, u, v, x) && Runs.Covers(c, w, z, x) && u != w;
      } else {
        var v, z := SomeOther(connected[u]);
        assert Runs.Covers(c, u, v, x) && Runs.Covers(c, u, z, x);
      }
    }
  }

  // ----- after the first passthrough is inlined -----

  /** `d` is `k` with the "in" side of the inner passthrough for the instance and its "out" side for the interface. */
  ghost predicate Halfway(b: Boundary, k: Conns, d: Conns) {
    forall x, y :: (x, y) in d <==> Half(b, x) && Half(b, y) && (b.Target(x), b.Target(y)) in k
  }

  predicate Half(b: Boundary, z: Wire) {
    z.root != b.outside && b.Replaceable(z)
  }

  lemma HalfwayMovable(b: Boundary, k: Conns, d: Conns)
    requires b.Distinct() && Quarantined(b, k, d) && Untouched(k, b.outside) && Untouched(k, b.inside)
    requires Symmetric(d) && forall x :: (x, x) !in d
    ensures Movable(Moving(d, InSide(b.inside)), InSide(b.outside), OutSide(b.outside))
  {
    SidesSeparate(b.outside);
    SidesSeparate(b.inside);
    forall x: Wire, y: Wire | (x, y) in d && x.Under(InSide(b.inside))
      ensures x == InSide(b.inside) && y == InSide(b.outside)
    {
      OneSide(b.inside, x);
    }
    forall y | (InSide(b.outside), y) in d ensures y == InSide(b.inside) {
      OneSide(b.outside, InSide(b.outside));
    }
  }

  lemma MovedHalfway(b: Boundary, k: Conns, d: Conns, e: Conns)
    requires b.Distinct() && Quarantined(b, k, d) && Untouched(k, b.outside) && Untouched(k, b.inside)
    requires MovedBack(Moving(d, InSide(b.inside)), b.outside, e)
    ensures Halfway(b, k, e)
  {
    forall x: Wire, y: Wire ensures (x, y) in e <==> Half(b, x) && Half(b, y) && (b.Target(x), b.Target(y)) in k {
      if x.root != b.outside && y.root != b.outside {
        OutPlaceMeans(b, x);
        OutPlaceMeans(b, y);
      }
    }
  }

  lemma OutPlaceMeans(b: Boundary, x: Wire)
    requires b.Distinct() && x.root != b.outside
    ensures var o := OutPlace(OutSide(b.outside), InSide(b.inside), x);
      && b.Meaning(o) == b.Target(x) && b.Replaceable(o) == b.Replaceable(x)
      && o != InSide(b.outside) && o != InSide(b.inside)
  {
    var o := OutPlace(OutSide(b.outside), InSide(b.inside), x);
    OneSide(b.inside, x);
    OneSide(b.outside, o);
    if x.Under(InSide(b.inside)) {
      var p := x.From(InSide(b.inside));
      AtFrom(OutSide(b.outside), x, p);
      assert b.Meaning(o) == Wire(b.instance, []).At(p) == b.Target(x);
      assert InSide(b.outside).Under(InSide(b.outside)) && o.Under(OutSide(b.outside));
    } else {
      assert InSide(b.inside).Under(InSide(b.inside));
      assert b.Meaning(o) == b.Target(x);
    }
  }

  // ----- targets -----

  lemma TargetAt(b: Boundary, u: Wire, p: Path)
    requires b.Distinct() && Half(b, u) && u != Wire(b.inside, [])
    ensures b.Target(u.At(p)) == b.Target(u).At(p) && Half(b, u.At(p))
  {
    var x := u.At(p);
    if x.root == b.inside {
      assert |u.path| > 0 && x.path[0] == u.path[0];
      if x.Under(InSide(b.inside)) {
        assert u.Under(InSide(b.inside)) && x.From(InSide(b.inside)) == u.From(InSide(b.inside)) + p;
      } else if x.Under(OutSide(b.inside)) {
        assert u.Under(OutSide(b.inside)) && x.From(OutSide(b.inside)) == u.From(OutSide(b.inside)) + p;
      }
    }
  }

  /** The wireable with the given target. */
  function Aim(b: Boundary, t: Wire): Wire {
    if t.root == b.instance then InSide(b.inside).At(t.path)
    else if t.root == b.interface_ then OutSide(b.inside).At(t.path)
    else t
  }

  lemma AimTarget(b: Boundary, x: Wire)
    requires b.Distinct() && Half(b, x)
    ensures Aim(b, b.Target(x)) == x
  {
    AtFrom(InSide(b.inside), x, []);
    AtFrom(OutSide(b.inside), x, []);
    if x.Under(InSide(b.inside)) {
      assert [] + x.From(InSide(b.inside)) == x.From(InSide(b.inside));
    } else if x.Under(OutSide(b.inside)) {
      assert [] + x.From(OutSide(b.inside)) == x.From(OutSide(b.inside));
    }
  }

  // ----- the two definitions -----

  /** Some bit is reached from itself by connections `c` outside and `d` inside, changing sides at the ports. */
  ghost predicate Circular(instance: string, s: string, c: Conns, d: Conns) {
    Looped(Bits(Joint(c, d, Prefix(instance), s)), BoundaryOf(instance, s).Ports())
  }

  /** Connections and types of the definitions outside and inside, at the boundary of an instance. */
  datatype Nest = Nest(instance: string, s: string, outer: Types, c: Conns, inner: Types, d: Conns) {
    function Bounds(): Boundary {
      BoundaryOf(instance, s)
    }

    function Both(): Conns {
      Joint(c, d, Prefix(instance), s)
    }

    function InnerName(z: Wire): Wire {
      Unnamed(Prefix(instance), s, z)
    }

    /** The instance has the opposite type of the interface, and no name is used twice. */
    ghost predicate Fitting() {
      && FreeName(instance, s) && instance != OUTSIDE && s !in outer
      && "self" in inner && instance in outer && outer[instance] == inner["self"].Flip()
      && (forall x, y :: (x, y) in c ==> x.root in outer && y.root in outer)
      && (forall x, y :: (x, y) in d ==> x.root in inner && y.root in inner)
      && (forall n :: n in inner && n != "self" ==> n != INSIDE && Prefix(instance) + n !in outer)
      && Prefix(instance) + INSIDE !in outer
    }

    /** Every input bit has one driver. */
    ghost predicate Driven() {
      Runs.OneDriver(c, InputsOf(outer)) && Runs.OneDriver(d, InputsOf(inner))
    }


    /** The types after the first passthrough is inlined: those outside, those inside and the inner passthrough. */
    ghost predicate Placed(types: Types) {
      var inside := Prefix(instance) + INSIDE;
      && (forall r :: r in outer && r != instance ==> r in types && types[r] == outer[r])
      && (forall n :: n in inner && n != "self" ==>
        Prefix(instance) + n in types && types[Prefix(instance) + n] == inner[n])
      && inside in types && "self" in inner && types[inside] == PassthroughType(inner["self"])
    }
  }

  /** A connection is one outside or one inside, as the root of either end tells. */
  lemma NestSplit(n: Nest, x: Wire, y: Wire)
    requires n.Fitting() && (x, y) in n.Both()
    ensures x.root in n.outer <==> (x, y) in n.c
    ensures x.root in n.outer <==> y.root in n.outer
    ensures x.root !in n.outer ==> (n.InnerName(x), n.InnerName(y)) in n.d && HasName(Prefix(n.instance), n.s, x)
    ensures x.root !in n.outer ==> n.InnerName(x).root in n.inner && HasName(Prefix(n.instance), n.s, y)
  {
    var p := Prefix(n.instance);
    JointAt(n.c, n.d, p, n.s, x, y);
    if (x, y) !in n.c {
      NotOuter(n, x);
      NotOuter(n, y);
    }
  }

  lemma NotOuter(n: Nest, x: Wire)
    requires n.Fitting() && HasName(Prefix(n.instance), n.s, x) && n.InnerName(x).root in n.inner
    ensures x.root !in n.outer
  {
    StripCopy(Prefix(n.instance), x);
  }

  /** The type of what a wireable stands for is its own. */
  lemma TargetType(n: Nest, types: Types, x: Wire)
    requires n.Fitting() && n.Placed(types) && Half(n.Bounds(), x)
    requires x.root == n.Bounds().inside ==> x.Under(InSide(x.root)) || x.Under(OutSide(x.root))
    ensures var t := n.Bounds().Target(x);
      && (t.root in n.outer ==> TypeIn(types, x) == TypeIn(n.outer, t))
      && (HasName(Prefix(n.instance), n.s, t) && n.InnerName(t).root in n.inner ==>
            TypeIn(types, x) == TypeIn(n.inner, n.InnerName(t)))
  {
    var b, p := n.Bounds(), Prefix(n.instance);
    BoundaryDistinct(n.instance, n.s);
    PrefixedNames(n.instance, INSIDE);
    var t := b.Target(x);
    if x.root == b.inside {
      SideTypes(types, b.inside, n.inner["self"]);
      OneSide(b.inside, x);
      if x.Under(InSide(b.inside)) {
        var q := x.From(InSide(b.inside));
        AtFrom(InSide(b.inside), x, []);
        LevelType(types, InSide(b.inside), q);
        assert [] + q == q && t == Wire(n.instance, q);
      } else {
        var q := x.From(OutSide(b.inside));
        AtFrom(OutSide(b.inside), x, []);
        LevelType(types, OutSide(b.inside), q);
        assert [] + q == q && t == Wire(n.s, q);
      }
    } else {
      assert t == x;
      StripCopy(p, x);
    }
  }

  lemma HalfwayUnder(n: Nest, types: Types, e: Conns, u: Wire, v: Wire, x: Wire)
    requires n.Fitting() && n.Placed(types) && Halfway(n.Bounds(), n.Both(), e)
    requires Untouched(n.Both(), n.Bounds().inside) && Runs.Covers(e, u, v, x)
    ensures var b := n.Bounds();
      && Half(b, x) && Half(b, u) && Half(b, v) && (b.Target(u), b.Target(v)) in n.Both()
      && b.Target(x).Under(b.Target(u))
      && (x.root == b.inside ==> x.Under(InSide(x.root)) || x.Under(OutSide(x.root)))
  {
    var b := n.Bounds();
    BoundaryDistinct(n.instance, n.s);
    AtFrom(u, x, []);
    if u.root == b.inside {
      assert u.Under(InSide(b.inside)) || u.Under(OutSide(b.inside));
      if u.Under(InSide(b.inside)) {
        PrefixTransitive(InSide(b.inside).path, u.path, x.path);
      } else {
        PrefixTransitive(OutSide(b.inside).path, u.path, x.path);
      }
    }
    TargetAt(b, u, x.From(u));
  }

  lemma HalfwayAgree(n: Nest, types: Types, e: Conns, x: Wire, u: Wire, v: Wire, w: Wire, z: Wire)
    requires n.Fitting() && n.Placed(types) && Halfway(n.Bounds(), n.Both(), e)
    requires Untouched(n.Both(), n.Bounds().inside)
    requires Runs.OneDriver(n.c, InputsOf(n.outer)) && Runs.OneDriver(n.d, InputsOf(n.inner))
    requires IsInputBit(types, x) && Runs.Covers(e, u, v, x) && Runs.Covers(e, w, z, x)
    ensures u == w && v == z
  {
    var b := n.Bounds();
    BoundaryDistinct(n.instance, n.s);
    HalfwayUnder(n, types, e, u, v, x);
    HalfwayUnder(n, types, e, w, z, x);
    TargetType(n, types, x);
    var tx, tu, tv, tw, tz := b.Target(x), b.Target(u), b.Target(v), b.Target(w), b.Target(z);
    NestSplit(n, tu, tv);
    NestSplit(n, tw, tz);
    if tx.root in n.outer {
      assert tx in InputsOf(n.outer) && Runs.Covers(n.c, tu, tv, tx) && Runs.Covers(n.c, tw, tz, tx);
    } else {
      InnerCovers(n, tu, tv, tx);
      InnerCovers(n, tw, tz, tx);
      var ix := n.InnerName(tx);
      assert ix in InputsOf(n.inner);
      assert Runs.Covers(n.d, n.InnerName(tu), n.InnerName(tv), ix)
        && Runs.Covers(n.d, n.InnerName(tw), n.InnerName(tz), ix);
    }
    AimTarget(b, u);
    AimTarget(b, v);
    AimTarget(b, w);
    AimTarget(b, z);
  }

  lemma InnerCovers(n: Nest, u: Wire, v: Wire, x: Wire)
    requires n.Fitting() && (u, v) in n.Both() && u.root !in n.outer && x.Under(u)
    ensures Runs.Covers(n.d, n.InnerName(u), n.InnerName(v), n.InnerName(x))
    ensures HasName(Prefix(n.instance), n.s, x) && n.InnerName(x).root in n.inner
    ensures Named(Prefix(n.instance), n.s, n.InnerName(u)) == u && Named(Prefix(n.instance), n.s, n.InnerName(v)) == v
  {
    NestSplit(n, u, v);
    NamedUnnamed(Prefix(n.instance), n.s, u);
    NamedUnnamed(Prefix(n.instance), n.s, v);
  }

  /** So every input bit has one driver after the first passthrough is inlined. */
  lemma HalfwayDrivers(n: Nest, types: Types, e: Conns)
    requires n.Fitting() && n.Placed(types) && Halfway(n.Bounds(), n.Both(), e)
    requires Untouched(n.Both(), n.Bounds().inside)
    requires Runs.OneDriver(n.c, InputsOf(n.outer)) && Runs.OneDriver(n.d, InputsOf(n.inner))
    ensures Runs.OneDriver(e, InputsOf(types))
  {
    forall x, u, v, w, z | x in InputsOf(types) && Runs.Covers(e, u, v, x) && Runs.Covers(e, w, z, x)
      ensures u == w && v == z
    {
      HalfwayAgree(n, types, e, x, u, v, w, z);
    }
  }

  // ----- bits that are reached from themselves -----

  lemma TargetMaps(b: Boundary, k: Conns, e: Conns)
    requires b.Distinct() && Halfway(b, k, e) && Untouched(k, b.inside)
    ensures Maps(z => b.Target(z), Bits(e), Sides(InSide(b.inside), OutSide(b.inside)), Bits(k), b.Ports())
  {
    forall x, y | Wired(e, x, y) ensures Wired(k, b.Target(x), b.Target(y)) {
      var u, v, p :| WiredBy(e, u, v, p, x, y);
      TargetAt(b, u, p);
      TargetAt(b, v, p);
      assert WiredBy(k, b.Target(u), b.Target(v), p, b.Target(x), b.Target(y));
    }
    forall x, y | SamePlace(InSide(b.inside), OutSide(b.inside), x, y)
      ensures SamePlace(Wire(b.instance, []), Wire(b.interface_, []), b.Target(x), b.Target(y))
    {
      OneSide(b.inside, x);
      OneSide(b.inside, y);
      PortPlace(b.instance, if x.Under(InSide(b.inside)) then x.From(InSide(b.inside)) else y.From(InSide(b.inside)));
      PortPlace(b.interface_, if x.Under(InSide(b.inside)) then x.From(InSide(b.inside)) else y.From(InSide(b.inside)));
    }
  }

  lemma PortPlace(root: string, p: Path)
    ensures Wire(root, []).At(p) == Wire(root, p) && Wire(root, p).Under(Wire(root, []))
    ensures Wire(root, p).From(Wire(root, [])) == p
  {
    assert [] + p == p;
  }

  lemma AimHalf(b: Boundary, t: Wire)
    requires b.Distinct() && t.root != b.outside && t.root != b.inside
    ensures Half(b, Aim(b, t)) && b.Target(Aim(b, t)) == t
  {
    OneSide(b.inside, Aim(b, t));
    AtFrom(InSide(b.inside), Aim(b, t), t.path);
    AtFrom(OutSide(b.inside), Aim(b, t), t.path);
    PortPlace(b.instance, t.path);
    PortPlace(b.interface_, t.path);
  }

  lemma AimAt(b: Boundary, t: Wire, p: Path)
    ensures Aim(b, t.At(p)) == Aim(b, t).At(p)
  {
    AtAt(InSide(b.inside), t.path, p);
    AtAt(OutSide(b.inside), t.path, p);
  }

  lemma AimMaps(b: Boundary, k: Conns, e: Conns)
    requires b.Distinct() && Halfway(b, k, e) && Untouched(k, b.inside) && Untouched(k, b.outside)
    ensures Maps(z => Aim(b, z), Bits(k), b.Ports(), Bits(e), Sides(InSide(b.inside), OutSide(b.inside)))
  {
    forall x, y | Wired(k, x, y) ensures Wired(e, Aim(b, x), Aim(b, y)) {
      var u, v, p :| WiredBy(k, u, v, p, x, y);
      AimHalf(b, u);
      AimHalf(b, v);
      AimAt(b, u, p);
      AimAt(b, v, p);
      assert WiredBy(e, Aim(b, u), Aim(b, v), p, Aim(b, x), Aim(b, y));
    }
    forall x, y | SamePlace(Wire(b.instance, []), Wire(b.interface_, []), x, y)
      ensures SamePlace(InSide(b.inside), OutSide(b.inside), Aim(b, x), Aim(b, y))
    {
      AtFrom(InSide(b.inside), Aim(b, x), x.path);
      AtFrom(OutSide(b.inside), Aim(b, x), x.path);
      AtFrom(InSide(b.inside), Aim(b, y), y.path);
      AtFrom(OutSide(b.inside), Aim(b, y), y.path);
    }
  }

  /** A bit is reached from itself across the inner passthrough exactly if one is over the ports. */
  lemma HalfwayLoops(b: Boundary, k: Conns, e: Conns)
    requires b.Distinct() && Halfway(b, k, e) && Untouched(k, b.inside) && Untouched(k, b.outside)
    requires Symmetric(e) && Bare(e, Wire(b.inside, []))
    ensures LoopsAcross(e, b.inside) <==> Looped(Bits(k), b.Ports())
  {
    WithoutBare(e, Wire(b.inside, []));
    var sides := Sides(InSide(b.inside), OutSide(b.inside));
    if LoopsAcross(e, b.inside) {
      TargetMaps(b, k, e);
      LoopMapped(z => b.Target(z), Bits(e), sides, Bits(k), b.Ports());
    }
    if Looped(Bits(k), b.Ports()) {
      AimMaps(b, k, e);
      LoopMapped(z => Aim(b, z), Bits(k), b.Ports(), Bits(e), sides);
    }
  }
}
