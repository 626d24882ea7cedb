/**
 Connecting what a passthrough separates. Every pair of levels of its two sides is combined:
 what is connected to the one level is connected to what is connected to the other. The
 recursion follows the labels selected so far, and a set of pairs that are still to be
 combined says how far it is; no path of bits is lost on the way and none is added.
*/
module Inline {
  import opened Wires
  import opened Chains
  import opened Runs
  import opened Loops
  import opened ModuleDefs
  import Collections

  // ----- one level against another -----

  /** `c1` is `c0` with `u` at `e` connected to every one of `ys`, none of which was before. */
  ghost predicate Joining(c0: Conns, c1: Conns, u: Wire, e: Path, ys: set<Wire>) {
    && (forall x, y :: (x, y) in c1 <==> (x, y) in c0 || (x == u.At(e) && y in ys) || (y == u.At(e) && x in ys))
    && (forall y :: y in ys ==> (u.At(e), y) !in c0)
  }

  /** Whatever was selected on the way from `u` to `u` at `e`. */
  ghost predicate SelectedTo(k0: set<Wire>, k1: set<Wire>, u: Wire, e: Path) {
    k0 <= k1 && forall w :: w in k1 && w !in k0 ==> w.Under(u) && u.At(e).Under(w)
  }

  lemma JoiningOne(c0: Conns, c1: Conns, u: Wire, e: Path, ys: set<Wire>, y: Wire)
    requires Joining(c0, c1, u, e, ys) && y !in ys && y != u.At(e)
    ensures (u.At(e), y) in c1 <==> (u.At(e), y) in c0
    ensures (u.At(e), y) !in c1 ==> Joining(c0, c1 + {(u.At(e), y), (y, u.At(e))}, u, e, ys + {y})
  {
  }

  lemma SelectedOn(k0: set<Wire>, k1: set<Wire>, k2: set<Wire>, u: Wire, e: Path)
    requires SelectedTo(k0, k1, u, e) && SelectedTo(k1, k2, u, e)
    ensures SelectedTo(k0, k2, u, e)
  {
  }

  method ConnectOne(def: ModuleDef, u: Wire, e: Path, y: Wire) returns (ok: bool)
    requires def.Valid() && u in def.connected && y in def.connected && Fits(def.Types(), u.At(e), y)
    modifies def`connections, def`connected
    ensures def.Valid() && (ok ==> SelectedTo(old(def.connected.Keys), def.connected.Keys, u, e))
    ensures ok == ((u.At(e), y) !in old(def.connections)) && u.At(e) != y
    ensures ok ==> def.connections == old(def.connections) + {(u.At(e), y), (y, u.At(e))}
  {
    FitsDistinct(def.Types(), u.At(e), y);
    ok := def.ConnectPaths(u.At(e), y);
    SelectedPaths(def.Types(), old(def.connected.Keys), def.connected.Keys, u, e, y);
  }

  lemma SelectedPaths(types: Types, k0: set<Wire>, k1: set<Wire>, u: Wire, e: Path, y: Wire)
    requires Selected(types, k0) && u in k0 && y in k0
    ensures (forall w :: w in k1 <==> w in k0 || u.At(e).Under(w) || y.Under(w)) ==> SelectedTo(k0, k1, u, e)
  {
    forall w | u.At(e).Under(w) && w !in k0 ensures w.Under(u) {
      PrefixesComparable(w.path, u.path, u.At(e).path);
      assert !u.Under(w);
    }
  }

  method ConnectEach(def: ModuleDef, u: Wire, e: Path, ys: set<Wire>) returns (ok: bool)
    requires def.Valid() && u in def.connected && ys <= def.connected.Keys
    requires forall y :: y in ys ==> Fits(def.Types(), u.At(e), y)
    modifies def`connections, def`connected
    ensures def.Valid()
    ensures ok ==> SelectedTo(old(def.connected.Keys), def.connected.Keys, u, e)
    ensures ok ==> Joining(old(def.connections), def.connections, u, e, ys)
    ensures ys == {} ==> def.connected.Keys == old(def.connected.Keys)
    ensures ok <==> forall y :: y in ys ==> (u.At(e), y) !in old(def.connections)
  {
    var todo := ys;
    ghost var done: set<Wire> := {};
    ghost var c0, k0 := def.connections, def.connected.Keys;
    while todo != {}
      invariant def.Valid() && done + todo == ys && done !! todo
      invariant SelectedTo(k0, def.connected.Keys, u, e)
      invariant Joining(c0, def.connections, u, e, done)
      invariant ys == {} ==> def.connected.Keys == k0
      decreases |todo|
    {
      ghost var some := Collections.Pick(todo);
      var y :| y in todo;
      ghost var c, k := def.connections, def.connected.Keys;
      ok := ConnectOne(def, u, e, y);
      JoiningOne(c0, c, u, e, done, y);
      if !ok {
        return;
      }
      SelectedOn(k0, k, def.connected.Keys, u, e);
      Collections.MoveOne(ys, done, todo, y);
      done, todo := done + {y}, todo - {y};
    }
    return true;
  }

  /** `x` is the select at `e` of one of `us`, and `y` is one of `ys`. */
  predicate Between(us: set<Wire>, e: Path, ys: set<Wire>, x: Wire, y: Wire) {
    y in ys && Trunk(x, e) in us && Trunk(x, e).At(e) == x
  }

  /** `c1` is `c0` with the select at `e` of each of `us` connected to each of `ys`, none of which was before. */
  ghost predicate Crossing(c0: Conns, c1: Conns, us: set<Wire>, e: Path, ys: set<Wire>) {
    && (forall x, y :: (x, y) in c1 <==> (x, y) in c0 || Between(us, e, ys, x, y) || Between(us, e, ys, y, x))
    && (forall x, y :: Between(us, e, ys, x, y) ==> (x, y) !in c0)
  }

  ghost predicate SelectedToAny(k0: set<Wire>, k1: set<Wire>, us: set<Wire>, e: Path, ys: set<Wire>) {
    && k0 <= k1
    && (forall w :: w in k1 && w !in k0 ==> exists u :: u in us && w.Under(u) && u.At(e).Under(w))
    && (ys == {} ==> k1 == k0)
  }

  /** No connection to be made is there already, and none is to be made twice. */
  ghost predicate Unconnected(c: Conns, us: set<Wire>, e: Path, ys: set<Wire>) {
    forall x, y :: Between(us, e, ys, x, y) ==> (x, y) !in c && !Between(us, e, ys, y, x)
  }

  lemma CrossingNone(c: Conns, k: set<Wire>, e: Path, ys: set<Wire>)
    ensures Crossing(c, c, {}, e, ys) && SelectedToAny(k, k, {}, e, ys)
  {
  }

  lemma CrossingMore(c0: Conns, c1: Conns, c2: Conns, us: set<Wire>, e: Path, ys: set<Wire>, u: Wire)
    requires Symmetric(c0) && Crossing(c0, c1, us, e, ys) && Joining(c1, c2, u, e, ys)
    ensures Crossing(c0, c2, us + {u}, e, ys)
  {
    forall x: Wire, y: Wire
      ensures Between(us + {u}, e, ys, x, y) <==> Between(us, e, ys, x, y) || (x == u.At(e) && y in ys)
    {
      TrunkAt(u, e);
    }
    forall x, y | Between(us + {u}, e, ys, x, y) ensures (x, y) !in c0 {
    }
  }

  lemma SelectedToMore(k0: set<Wire>, k1: set<Wire>, k2: set<Wire>, us: set<Wire>, e: Path, ys: set<Wire>, u: Wire)
    requires SelectedToAny(k0, k1, us, e, ys) && SelectedTo(k1, k2, u, e) && (ys == {} ==> k2 == k1)
    ensures SelectedToAny(k0, k2, us + {u}, e, ys)
  {
    forall w | w in k2 && w !in k0 ensures exists v :: v in us + {u} && w.Under(v) && v.At(e).Under(w) {
      if w in k1 {
        var v :| v in us && w.Under(v) && v.At(e).Under(w);
        assert v in us + {u};
      } else {
        assert u in us + {u};
      }
    }
  }

  lemma UnconnectedNext(c0: Conns, c1: Conns, all: set<Wire>, us: set<Wire>, e: Path, ys: set<Wire>, u: Wire)
    requires Crossing(c0, c1, us, e, ys) && us <= all && u in all && u !in us && Unconnected(c0, all, e, ys)
    ensures forall y :: y in ys ==> (u.At(e), y) !in c1
  {
    TrunkAt(u, e);
    forall y | y in ys ensures (u.At(e), y) !in c1 {
      assert Between(all, e, ys, u.At(e), y);
      if Between(us, e, ys, y, u.At(e)) {
        assert Between(all, e, ys, y, u.At(e));
      }
    }
  }

  predicate AllFit(types: Types, us: set<Wire>, e: Path, ys: set<Wire>) {
    forall u, y :: u in us && y in ys ==> Fits(types, u.At(e), y)
  }

  /** Connects every neighbour of `wa`, at `e`, to every neighbour of `wb`. */
  method MergeConnections(def: ModuleDef, wa: Wire, e: Path, wb: Wire) returns (ok: bool)
    requires def.Valid() && wa in def.connected && wb in def.connected
    requires AllFit(def.Types(), def.connected[wa], e, def.connected[wb])
    modifies def`connections, def`connected
    ensures def.Valid()
    ensures ok ==> SelectedToAny(old(def.connected.Keys), def.connected.Keys, old(def.connected[wa]), e,
      old(def.connected[wb]))
    ensures ok ==> Crossing(old(def.connections), def.connections, old(def.connected[wa]), e, old(def.connected[wb]))
    ensures Unconnected(old(def.connections), old(def.connected[wa]), e, old(def.connected[wb])) ==> ok
  {
    var us, ys := def.connected[wa], def.connected[wb];
    var todo := us;
    ghost var done: set<Wire> := {};
    ghost var c0, k0 := def.connections, def.connected.Keys;
    NeighboursSelected(def.Types(), c0, def.connected, wa);
    NeighboursSelected(def.Types(), c0, def.connected, wb);
    CrossingNone(c0, k0, e, ys);
    while todo != {}
      invariant def.Valid() && done + todo == us && done !! todo
      invariant k0 <= def.connected.Keys && SelectedToAny(k0, def.connected.Keys, done, e, ys)
      invariant Crossing(c0, def.connections, done, e, ys)
      decreases |todo|
    {
      ghost var some := Collections.Pick(todo);
      var u :| u in todo;
      ghost var c, k := def.connections, def.connected.Keys;
      if Unconnected(c0, us, e, ys) {
        UnconnectedNext(c0, c, us, done, e, ys, u);
      }
      ok := ConnectEach(def, u, e, ys);
      if !ok {
        return;
      }
      CrossingMore(c0, c, def.connections, done, e, ys, u);
      SelectedToMore(k0, k, def.connected.Keys, done, e, ys, u);
      Collections.MoveOne(us, done, todo, u);
      done, todo := done + {u}, todo - {u};
    }
    assert done == us;
    return true;
  }

  lemma NeighboursSelected(types: Types, c: Conns, connected: map<Wire, set<Wire>>, w: Wire)
    requires Joined(types, connected.Keys, c) && Neighbours(c, connected) && w in connected
    ensures connected[w] <= connected.Keys
    ensures forall u :: u in connected[w] <==> (w, u) in c
    ensures forall u :: u in connected[w] <==> (u, w) in c
  {
    forall u ensures u in connected[w] <==> (w, u) in c {
    }
    forall u ensures (w, u) in c <==> (u, w) in c {
    }
    forall u | u in connected[w] ensures u in connected.Keys {
      assert (u, w) in c;
    }
  }

  // ----- why combining two levels of a passthrough loses nothing -----

  /** Two wireables of opposite type that are used as the sides of a passthrough. */
  ghost predicate TwoSides(types: Types, keys: set<Wire>, c: Conns, a: Wire, b: Wire) {
    && WellTyped(types) && Selected(types, keys) && Joined(types, keys, c)
    && Separate(a, b)
    && Fits(types, b, a)
  }

  lemma TwoSidesSwap(types: Types, keys: set<Wire>, c: Conns, a: Wire, b: Wire)
    requires TwoSides(types, keys, c, a, b)
    ensures TwoSides(types, keys, c, b, a)
  {
    FitsSymmetric(types, b, a);
  }

  lemma LevelType(types: Types, w: Wire, p: Path)
    requires TypeIn(types, w).Some?
    ensures TypeIn(types, w.At(p)) == TypeIn(types, w).value.SelPath(p)
  {
    SelPathAppend(types[w.root], w.path, p);
  }

  /** Opposite levels of the two sides have opposite types. */
  lemma LevelFits(types: Types, a: Wire, b: Wire, r: Path)
    requires Fits(types, b, a) && TypeIn(types, a.At(r)).Some?
    ensures Fits(types, b.At(r), a.At(r))
  {
    LevelType(types, a, r);
    LevelType(types, b, r);
    FlipSelPath(TypeIn(types, a).value, r);
  }

  /** Of wireables selected from each other only one has a given depth. */
  lemma SameDepth(types: Types, w: Wire, p: Path, q: Path)
    requires TypeIn(types, w.At(p)).Some? && TypeIn(types, w.At(q)).Some? && Comparable(p, q)
    requires TypeIn(types, w.At(p)).value.Depth() == TypeIn(types, w.At(q)).value.Depth()
    ensures p == q
  {
    var near, far := if p <= q then p else q, if p <= q then q else p;
    var rest := far[|near|..];
    assert far == near + rest;
    AtAt(w, near, rest);
    LevelType(types, w.At(near), rest);
    SelPathDepth(TypeIn(types, w.At(near)).value, rest);
  }

  lemma ConnectedDepth(types: Types, keys: set<Wire>, c: Conns, u: Wire, w: Wire)
    requires Joined(types, keys, c) && (u, w) in c
    ensures TypeIn(types, u).Some? && TypeIn(types, w).Some?
    ensures TypeIn(types, u).value.Depth() == TypeIn(types, w).value.Depth()
  {
    FlipDepth(TypeIn(types, w).value);
  }

  /** A neighbour of level `r` of one side is free of that level, or it is that level of the other side. */
  lemma NeighbourLevel(types: Types, keys: set<Wire>, c: Conns, a: Wire, b: Wire, r: Path, u: Wire)
    requires TwoSides(types, keys, c, a, b) && (u, a.At(r)) in c
    ensures u == b.At(r) || Free(a, b, r, u)
  {
    var wa := a.At(r);
    ConnectedDepth(types, keys, c, u, wa);
    assert (wa, u) in c;
    FitsDistinct(types, wa, u);
    if a.Under(u) {
      SameDepthBelow(types, u, wa);
    }
    if u.Under(a) && Comparable(u.From(a), r) {
      AtFrom(a, u, []);
      SameDepth(types, a, u.From(a), r);
    }
    LevelFits(types, a, b, r);
    FlipDepth(TypeIn(types, wa).value);
    if b.Under(u) {
      SameDepthBelow(types, u, b.At(r));
    }
    if u.Under(b) && Comparable(u.From(b), r) {
      AtFrom(b, u, []);
      SameDepth(types, b, u.From(b), r);
    }
  }

  /** Something selected from a wireable has its depth only if it is that wireable. */
  lemma SameDepthBelow(types: Types, u: Wire, w: Wire)
    requires w.Under(u) && TypeIn(types, u).Some? && TypeIn(types, w).Some?
    requires TypeIn(types, u).value.Depth() == TypeIn(types, w).value.Depth()
    ensures u == w
  {
    AtFrom(u, w, w.From(u));
    assert u.At([]) == u;
    SameDepth(types, u, [], w.From(u));
  }

  ghost predicate NeighboursAre(c: Conns, w: Wire, us: set<Wire>) {
    forall u :: u in us <==> (w, u) in c
  }

  /** Where there is something to combine, neighbours of the first level are free of it. */
  lemma MergedFree(types: Types, keys: set<Wire>, c0: Conns, c1: Conns, a: Wire, b: Wire, r: Path, e: Path,
      us: set<Wire>, ys: set<Wire>, u: Wire)
    requires TwoSides(types, keys, c0, a, b) && Crossing(c0, c1, us, e, ys)
    requires NeighboursAre(c0, a.At(r), us) && NeighboursAre(c0, b.At(r + e), ys)
    requires u in us && ys != {}
    ensures Free(a, b, r, u)
  {
    assert (a.At(r), u) in c0 && (u, a.At(r)) in c0;
    NeighbourLevel(types, keys, c0, a, b, r, u);
    if u == b.At(r) {
      var y := Collections.Pick(ys);
      AtAt(b, r, e);
      TrunkAt(u, e);
      assert Between(us, e, ys, b.At(r + e), y);
      assert false;
    }
  }

  /** Nothing new is attached to either of the two levels. */
  lemma MergedApart(types: Types, keys: set<Wire>, c0: Conns, c1: Conns, a: Wire, b: Wire, r: Path, e: Path,
      us: set<Wire>, ys: set<Wire>, x: Wire, y: Wire)
    requires TwoSides(types, keys, c0, a, b) && Crossing(c0, c1, us, e, ys)
    requires NeighboursAre(c0, a.At(r), us) && NeighboursAre(c0, b.At(r + e), ys)
    requires Between(us, e, ys, x, y)
    ensures x != a.At(r) && x != b.At(r + e) && y != a.At(r) && y != b.At(r + e)
    ensures Free(a, b, r, x)
  {
    var u, wa, wb := Trunk(x, e), a.At(r), b.At(r + e);
    MergedFree(types, keys, c0, c1, a, b, r, e, us, ys, u);
    FreeExtends(a, b, r, u, e);
    AtFrom(a, wa, r);
    AtFrom(b, wb, r + e);
    assert r <= r + e;
    if y == wb {
      FitsDistinct(types, wb, y);
      assert false;
    }
    if y == wa {
      assert (wb, wa) in c0 && (wa, wb) in c0;
      ConnectedDepth(types, keys, c0, wb, wa);
      LevelFits(types, a, b, r);
      FlipDepth(TypeIn(types, wa).value);
      SameDepth(types, b, r + e, r);
      MergedFree(types, keys, c0, c1, a, b, r, e, us, ys, wb);
      assert false;
    }
  }

  lemma CrossingMerged(types: Types, keys: set<Wire>, c0: Conns, c1: Conns, a: Wire, b: Wire, r: Path, e: Path,
      us: set<Wire>, ys: set<Wire>)
    requires TwoSides(types, keys, c0, a, b) && Crossing(c0, c1, us, e, ys)
    requires NeighboursAre(c0, a.At(r), us) && NeighboursAre(c0, b.At(r + e), ys)
    ensures Merged(c0, c1, a, b, r, e) && MergedFrom(c0, c1, a, b, r, e)
  {
    var wa, wb := a.At(r), b.At(r + e);
    forall z | z in c0 ensures z in c1 {
      assert (z.0, z.1) in c0;
    }
    forall u, y | (u, wa) in c0 && (wb, y) in c0 ensures (u.At(e), y) in c1 && (y, u.At(e)) in c1 {
      TrunkAt(u, e);
      assert Between(us, e, ys, u.At(e), y);
    }
    forall x, y | (x, y) in c1 && (x, y) !in c0 ensures x != wa && x != wb {
      if Between(us, e, ys, x, y) {
        MergedApart(types, keys, c0, c1, a, b, r, e, us, ys, x, y);
      } else {
        MergedApart(types, keys, c0, c1, a, b, r, e, us, ys, y, x);
      }
    }
    forall u | (u, wa) in c0 && (exists y :: (wb, y) in c0) ensures Free(a, b, r, u) {
      var y :| (wb, y) in c0;
      assert y in ys;
      MergedFree(types, keys, c0, c1, a, b, r, e, us, ys, u);
    }
    forall x, y | (x, y) in c1 && (x, y) !in c0
      ensures exists u :: CombinesAt(c0, a, b, r, e, u, x, y) || CombinesAt(c0, a, b, r, e, u, y, x)
    {
      if Between(us, e, ys, x, y) {
        assert CombinesAt(c0, a, b, r, e, Trunk(x, e), x, y);
      } else {
        assert CombinesAt(c0, a, b, r, e, Trunk(y, e), y, x);
      }
    }
  }

  /** Every wireable selected since was selected from one that is free of level `r`. */
  ghost predicate Grown(k0: set<Wire>, k1: set<Wire>, a: Wire, b: Wire, r: Path) {
    k0 <= k1 && forall w :: w in k1 && w !in k0 ==> exists u :: GrownFrom(k0, a, b, r, w, u)
  }

  predicate GrownFrom(k0: set<Wire>, a: Wire, b: Wire, r: Path, w: Wire, u: Wire) {
    u in k0 && u != w && w.Under(u) && Free(a, b, r, u)
  }

  lemma CrossingGrown(types: Types, k0: set<Wire>, c0: Conns, k1: set<Wire>, c1: Conns, a: Wire, b: Wire, r: Path,
      e: Path, us: set<Wire>, ys: set<Wire>)
    requires TwoSides(types, k0, c0, a, b) && Crossing(c0, c1, us, e, ys)
    requires NeighboursAre(c0, a.At(r), us) && NeighboursAre(c0, b.At(r + e), ys)
    requires SelectedToAny(k0, k1, us, e, ys)
    ensures Grown(k0, k1, a, b, r)
  {
    forall w | w in k1 && w !in k0 ensures exists u :: GrownFrom(k0, a, b, r, w, u) {
      var u :| u in us && w.Under(u) && u.At(e).Under(w);
      assert (a.At(r), u) in c0 && (u, a.At(r)) in c0;
      MergedFree(types, k0, c0, c1, a, b, r, e, us, ys, u);
      assert GrownFrom(k0, a, b, r, w, u);
    }
  }

  lemma GrownTwice(k0: set<Wire>, k1: set<Wire>, k2: set<Wire>, a: Wire, b: Wire, r: Path)
    requires Grown(k0, k1, a, b, r) && Grown(k1, k2, a, b, r)
    ensures Grown(k0, k2, a, b, r)
  {
    forall w | w in k2 && w !in k0 ensures exists u :: GrownFrom(k0, a, b, r, w, u) {
      if w in k1 {
        var u :| GrownFrom(k0, a, b, r, w, u);
      } else {
        var v :| GrownFrom(k1, a, b, r, w, v);
        if v in k0 {
          assert GrownFrom(k0, a, b, r, w, v);
        } else {
          var u :| GrownFrom(k0, a, b, r, v, u);
          PrefixTransitive(u.path, v.path, w.path);
          assert GrownFrom(k0, a, b, r, w, u);
        }
      }
    }
  }

  /** Levels comparable to `r` gain no selects. */
  lemma GrownSelects(k0: set<Wire>, k1: set<Wire>, a: Wire, b: Wire, r: Path, s: Path)
    requires Grown(k0, k1, a, b, r) && Comparable(s, r)
    ensures SelectsIn(k1, a.At(s)) == SelectsIn(k0, a.At(s))
    ensures SelectsIn(k1, b.At(s)) == SelectsIn(k0, b.At(s))
  {
    forall l ensures a.At(s).At([l]) in k1 <==> a.At(s).At([l]) in k0 {
      GrownSelect(k0, k1, a, b, r, s, l, a);
    }
    forall l ensures b.At(s).At([l]) in k1 <==> b.At(s).At([l]) in k0 {
      GrownSelect(k0, k1, a, b, r, s, l, b);
    }
  }

  lemma GrownSelect(k0: set<Wire>, k1: set<Wire>, a: Wire, b: Wire, r: Path, s: Path, l: Label, side: Wire)
    requires Grown(k0, k1, a, b, r) && Comparable(s, r) && (side == a || side == b)
    ensures side.At(s).At([l]) in k1 <==> side.At(s).At([l]) in k0
  {
    var w := side.At(s).At([l]);
    if w in k1 && w !in k0 {
      var u :| GrownFrom(k0, a, b, r, w, u);
      UnderStep(side.At(s), l, u);
      UnderPrefix(side, s, r, u);
      assert false;
    }
  }

  lemma UnderPrefix(side: Wire, s: Path, r: Path, u: Wire)
    requires side.At(s).Under(u) && Comparable(s, r)
    ensures side.Under(u) || (u.Under(side) && Comparable(u.From(side), r))
  {
    PrefixesComparable(u.path, side.path, side.path + s);
    if u.Under(side) {
      assert u.From(side) <= s;
      if s <= r {
        PrefixTransitive(u.From(side), s, r);
      } else {
        PrefixesComparable(u.From(side), r, s);
      }
    }
  }

  // ----- moving connections back -----

  /**
   What can be asked of a passthrough beyond the bits: if all that `base` has at `w` and
   below is the connection of `w` to the "in" side, combining the two sides moves every
   connection of the "out" side to the place below `w` it came from.
  */
  datatype Moving = Unasked | Moving(base: Conns, w: Wire)

  ghost predicate Movable(m: Moving, a: Wire, b: Wire) {
    m.Moving? ==>
      && a.root == b.root && m.w.root != a.root && Separate(a, b)
      && Symmetric(m.base) && (m.w, a) in m.base && (forall x :: (x, x) !in m.base)
      && (forall x, y :: (x, y) in m.base && x.Under(m.w) ==> x == m.w && y == a)
      && (forall x :: (a, x) in m.base ==> x == m.w)
  }

  /** The place of the "out" side that stands for a wireable at or below `w`. */
  function OutPlace(b: Wire, w: Wire, x: Wire): Wire {
    if x.Under(w) then b.At(x.From(w)) else x
  }

  predicate MovedAt(w: Wire, done: iset<Path>, x: Wire) {
    x.Under(w) ==> x.From(w) in done
  }

  /** `c` is `base` with the connections of `b` at the levels `done` also made below `w`. */
  ghost predicate Moved(m: Moving, b: Wire, c: Conns, done: iset<Path>) {
    m.Moving? ==> forall x, y :: (x, y) in c <==>
      || (x, y) in m.base
      || ((OutPlace(b, m.w, x), OutPlace(b, m.w, y)) in m.base && MovedAt(m.w, done, x) && MovedAt(m.w, done, y))
  }

  predicate IsBelow(e: Path, p: Path) {
    e <= p
  }

  ghost function AtOrBelow(e: Path): iset<Path> {
    iset p: Path | IsBelow(e, p)
  }

  ghost function BelowLabels(e: Path, labels: set<Label>): iset<Path> {
    iset p: Path | StepsTo(e, p, labels)
  }

  lemma MovedNeighbours(m: Moving, a: Wire, b: Wire, c: Conns, done: iset<Path>, e: Path)
    requires m.Moving? && Movable(m, a, b) && Moved(m, b, c, done)
    ensures NeighboursAre(c, a, {m.w})
    ensures forall y :: (b.At(e), y) in c <==> (b.At(e), OutPlace(b, m.w, y)) in m.base && MovedAt(m.w, done, y)
  {
    forall y ensures (a, y) in c <==> y == m.w {
      assert (a, y) in m.base <==> y == m.w;
    }
    forall y ensures (b.At(e), y) in c <==> (b.At(e), OutPlace(b, m.w, y)) in m.base && MovedAt(m.w, done, y) {
      if (b.At(e), y) in m.base {
        assert (y, b.At(e)) in m.base;
      }
    }
  }

  lemma MovedUnconnected(m: Moving, a: Wire, b: Wire, c: Conns, done: iset<Path>, e: Path, us: set<Wire>, ys: set<Wire>)
    requires Movable(m, a, b) && Moved(m, b, c, done) && e !in done
    requires NeighboursAre(c, a, us) && NeighboursAre(c, b.At(e), ys)
    ensures m.Moving? ==> Unconnected(c, us, e, ys)
  {
    if m.Moving? {
      MovedNeighbours(m, a, b, c, done, e);
      forall x, y | Between(us, e, ys, x, y) ensures (x, y) !in c && !Between(us, e, ys, y, x) {
        assert Trunk(x, e) == m.w && x.From(m.w) == e;
        assert !MovedAt(m.w, done, x) && MovedAt(m.w, done, y);
      }
    }
  }

  lemma MovedMore(m: Moving, a: Wire, b: Wire, c0: Conns, c1: Conns, done: iset<Path>, e: Path, us: set<Wire>,
      ys: set<Wire>)
    requires Movable(m, a, b) && Moved(m, b, c0, done) && e !in done
    requires NeighboursAre(c0, a, us) && NeighboursAre(c0, b.At(e), ys)
    requires Crossing(c0, c1, us, e, ys)
    ensures Moved(m, b, c1, done + iset{e})
  {
    if m.Moving? {
      MovedNeighbours(m, a, b, c0, done, e);
      forall x: Wire, y: Wire ensures (x, y) in c1 <==>
        || (x, y) in m.base
        || ((OutPlace(b, m.w, x), OutPlace(b, m.w, y)) in m.base && MovedAt(m.w, done + iset{e}, x)
          && MovedAt(m.w, done + iset{e}, y))
      {
        MovedBetween(m, b, c0, done, e, us, ys, x, y);
        MovedBetween(m, b, c0, done, e, us, ys, y, x);
        MovedOneMore(m.w, done, e, x);
        MovedOneMore(m.w, done, e, y);
        if x == m.w.At(e) && y == m.w.At(e) {
          assert (OutPlace(b, m.w, x), OutPlace(b, m.w, y)) !in m.base;
        }
      }
    }
  }

  lemma MovedOneMore(w: Wire, done: iset<Path>, e: Path, x: Wire)
    requires e !in done
    ensures MovedAt(w, done + iset{e}, x) <==> MovedAt(w, done, x) || x == w.At(e)
    ensures x == w.At(e) ==> !MovedAt(w, done, x)
  {
    AtFrom(w, x, e);
  }

  lemma MovedBetween(m: Moving, b: Wire, c: Conns, done: iset<Path>, e: Path, us: set<Wire>, ys: set<Wire>, x: Wire,
      y: Wire)
    requires m.Moving? && us == {m.w} && NeighboursAre(c, b.At(e), ys)
    requires forall y :: (b.At(e), y) in c <==> (b.At(e), OutPlace(b, m.w, y)) in m.base && MovedAt(m.w, done, y)
    ensures Between(us, e, ys, x, y) <==>
      x == m.w.At(e) && (OutPlace(b, m.w, x), OutPlace(b, m.w, y)) in m.base && MovedAt(m.w, done, y)
  {
    TrunkAt(m.w, e);
    AtFrom(m.w, x, e);
  }

  lemma BelowMoreLabels(e: Path, labels: set<Label>, l: Label)
    ensures BelowLabels(e, labels + {l}) == BelowLabels(e, labels) + AtOrBelow(e + [l])
  {
    forall p: Path ensures p in BelowLabels(e, labels + {l}) <==> p in BelowLabels(e, labels) + AtOrBelow(e + [l]) {
      PrefixLabel(e, l, p);
    }
  }

  lemma BelowNext(m: Moving, a: Wire, b: Wire, c: Conns, moved: iset<Path>, e: Path, done: set<Label>, l: Label)
    requires Moved(m, b, c, moved + iset{e} + BelowLabels(e, done) + AtOrBelow(e + [l]))
    ensures Moved(m, b, c, moved + iset{e} + BelowLabels(e, done + {l}))
  {
    BelowMoreLabels(e, done, l);
    assert moved + iset{e} + BelowLabels(e, done) + AtOrBelow(e + [l]) == moved + iset{e} + BelowLabels(e, done + {l});
  }

  lemma BelowFresh(moved: iset<Path>, e: Path, done: set<Label>, l: Label)
    requires moved !! AtOrBelow(e) && l !in done
    ensures (moved + iset{e} + BelowLabels(e, done)) !! AtOrBelow(e + [l])
  {
    forall p: Path | p in AtOrBelow(e + [l]) ensures p !in moved + iset{e} + BelowLabels(e, done) {
      PrefixLabel(e, l, p);
      assert p in AtOrBelow(e);
    }
  }

  lemma BelowNone(m: Moving, b: Wire, c: Conns, moved: iset<Path>, e: Path)
    requires Moved(m, b, c, moved + iset{e})
    ensures Moved(m, b, c, moved + iset{e} + BelowLabels(e, {}))
  {
    assert BelowLabels(e, {}) == iset{};
    assert moved + iset{e} + iset{} == moved + iset{e};
  }

  /** Levels below labels that were never selected have nothing to move. */
  lemma MovedAll(m: Moving, types: Types, k: set<Wire>, a: Wire, b: Wire, c: Conns, moved: iset<Path>, e: Path)
    requires TwoSides(types, k, c, a, b) && Moved(m, b, c, moved + iset{e} + BelowLabels(e, SelectsIn(k, b.At(e))))
    ensures Moved(m, b, c, moved + AtOrBelow(e))
  {
    if m.Moving? {
      forall p, y | p in AtOrBelow(e) && p !in moved + iset{e} + BelowLabels(e, SelectsIn(k, b.At(e)))
        ensures (b.At(p), y) !in m.base && (y, b.At(p)) !in m.base
      {
        assert |p| == |e| ==> p == e;
        Unselected(types, k, c, b, e, p);
        assert (b.At(p), y) in c ==> (b.At(p), y).0 == b.At(p);
        assert (y, b.At(p)) in c ==> (b.At(p), y) in c;
      }
      forall p | p in moved + iset{e} + BelowLabels(e, SelectsIn(k, b.At(e))) ensures p in moved + AtOrBelow(e) {
      }
    }
  }

  // ----- one wireable against everything selected from another -----

  ghost function BitsOf(types: Types): iset<Wire> {
    iset w: Wire | TypeIn(types, w) == Some(Bit) || TypeIn(types, w) == Some(BitIn)
  }

  /** No two bits are joined by two runs across the pairs of levels still to be combined. */
  ghost predicate Single(types: Types, c: Conns, a: Wire, b: Wire, pending: Pending) {
    OneRun(Beside(c, a, b), a, b, pending, BitsOf(types))
  }

  lemma SingleSwap(types: Types, c: Conns, a: Wire, b: Wire, pending: Pending)
    requires Single(types, c, a, b, pending)
    ensures Single(types, c, b, a, Swap(pending))
  {
    BesideSwap(c, a, b);
    OneRunSwap(Beside(c, a, b), a, b, pending, BitsOf(types));
  }

  /** What combining levels may have done, with fewer pairs of levels left to combine. */
  ghost predicate Advanced(types: Types, k0: set<Wire>, c0: Conns, before: Pending, k1: set<Wire>, c1: Conns,
      after: Pending, a: Wire, b: Wire)
  {
    && TwoSides(types, k1, c1, a, b)
    && Carries(c0, before, c1, after, a, b)
    && Sound(Beside(c0, a, b), Beside(c1, a, b), a, b)
    && k0 <= k1
    && (Single(types, c0, a, b, before) ==> Single(types, c1, a, b, after))
    && (ClosedChain(c0, a, b, before) ==> ClosedChain(c1, a, b, after))
  }

  lemma AdvancedTwice(types: Types, k0: set<Wire>, c0: Conns, p0: Pending, k1: set<Wire>, c1: Conns, p1: Pending,
      k2: set<Wire>, c2: Conns, p2: Pending, a: Wire, b: Wire)
    requires Advanced(types, k0, c0, p0, k1, c1, p1, a, b) && Advanced(types, k1, c1, p1, k2, c2, p2, a, b)
    ensures Advanced(types, k0, c0, p0, k2, c2, p2, a, b)
  {
    SoundTwice(Beside(c0, a, b), Beside(c1, a, b), Beside(c2, a, b), a, b);
  }

  lemma AdvancedSwap(types: Types, k0: set<Wire>, c0: Conns, p0: Pending, k1: set<Wire>, c1: Conns, p1: Pending,
      a: Wire, b: Wire)
    requires Advanced(types, k0, c0, Swap(p0), k1, c1, Swap(p1), b, a)
    ensures Advanced(types, k0, c0, p0, k1, c1, p1, a, b)
  {
    TwoSidesSwap(types, k1, c1, b, a);
    SwapCarries(c0, p0, c1, p1, a, b);
    BesideSwap(c0, a, b);
    BesideSwap(c1, a, b);
    SoundSwap(Beside(c0, a, b), Beside(c1, a, b), a, b);
    if Single(types, c0, a, b, p0) {
      SingleSwap(types, c0, a, b, p0);
      OneRunUnswap(Beside(c1, a, b), a, b, p1, BitsOf(types));
    }
    if ClosedChain(c0, a, b, p0) {
      ClosedSwap(c0, a, b, p0);
      ClosedUnswap(c1, a, b, p1);
    }
  }

  lemma {:induction false} SomeBit(t: Type) returns (p: Path)
    requires t.Inhabited()
    ensures t.SelPath(p) == Some(Bit) || t.SelPath(p) == Some(BitIn)
    decreases t
  {
    p := [];
    if t.Array? {
      var rest := SomeBit(t.elem);
      p := [Index(0)] + rest;
      assert p[1..] == rest;
    } else if t.Record? {
      var rest := SomeBit(t.fields[0].1);
      p := [Field(t.fields[0].0)] + rest;
      assert p[1..] == rest;
    }
  }

  lemma SomeBitOf(types: Types, w: Wire) returns (p: Path)
    requires WellTyped(types) && TypeIn(types, w).Some?
    ensures w.At(p) in BitsOf(types)
  {
    SelPathDepth(types[w.root], w.path);
    p := SomeBit(TypeIn(types, w).value);
    LevelType(types, w, p);
  }

  /** Where there is one run between two bits, no connection to be made is there already or made twice. */
  lemma SingleUnconnected(types: Types, k: set<Wire>, c: Conns, a: Wire, b: Wire, r: Path, e: Path, us: set<Wire>,
      ys: set<Wire>, pending: Pending)
    requires TwoSides(types, k, c, a, b) && Single(types, c, a, b, pending) && (r, r + e) in pending
    requires NeighboursAre(c, a.At(r), us) && NeighboursAre(c, b.At(r + e), ys) && AllFit(types, us, e, ys)
    ensures Unconnected(c, us, e, ys)
  {
    forall x, y | Between(us, e, ys, x, y) ensures (x, y) !in c && !Between(us, e, ys, y, x) {
      SingleBetween(types, k, c, a, b, r, e, us, ys, pending, x, y);
    }
  }

  lemma SingleBetween(types: Types, k: set<Wire>, c: Conns, a: Wire, b: Wire, r: Path, e: Path, us: set<Wire>,
      ys: set<Wire>, pending: Pending, x: Wire, y: Wire)
    requires TwoSides(types, k, c, a, b) && Single(types, c, a, b, pending) && (r, r + e) in pending
    requires NeighboursAre(c, a.At(r), us) && NeighboursAre(c, b.At(r + e), ys) && AllFit(types, us, e, ys)
    requires Between(us, e, ys, x, y)
    ensures (x, y) !in c && !Between(us, e, ys, y, x)
  {
    var near := Beside(c, a, b);
    var m, u, v := Merge(near, a, b, r, e), Trunk(x, e), Trunk(y, e);
    var f := SomeBitOf(types, x);
    LevelsCross(m, pending, f);
    var run := [Step(u, m.Near(), e + f), Step(m.Far(), y, f)];
    BetweenBeside(types, k, c, a, b, r, e, us, ys, x, y);
    AtAt(u, e, f);
    assert Joint(a, b, pending, run[0], run[1]);
    assert IsRun(near, a, b, pending, run);
    var short, other := [Step(x, y, f)], [Step(x, m.Far(), f), Step(m.Near(), v, e + f)];
    BesideAt(c, a, b, x, y);
    assert (x, y) in c ==> IsRun(near, a, b, pending, short);
    assert Joint(a, b, pending, other[0], other[1]);
    if Between(us, e, ys, y, x) {
      BetweenBeside(types, k, c, a, b, r, e, us, ys, y, x);
    }
    AtAt(v, e, f);
    assert Between(us, e, ys, y, x) ==> IsRun(near, a, b, pending, other);
    SingleRun(near, a, b, pending, BitsOf(types), run, short);
    SingleRun(near, a, b, pending, BitsOf(types), run, other);
    NearNotFar(m);
  }

  /** What is connected, and the connections it is connected over, are not above the sides. */
  lemma BetweenBeside(types: Types, k: set<Wire>, c: Conns, a: Wire, b: Wire, r: Path, e: Path, us: set<Wire>,
      ys: set<Wire>, x: Wire, y: Wire)
    requires TwoSides(types, k, c, a, b) && Between(us, e, ys, x, y)
    requires NeighboursAre(c, a.At(r), us) && NeighboursAre(c, b.At(r + e), ys)
    ensures var near, u := Beside(c, a, b), Trunk(x, e);
      && (u, a.At(r)) in near && (a.At(r), u) in near && (b.At(r + e), y) in near && (y, b.At(r + e)) in near
      && IsBeside(a, b, x) && IsBeside(a, b, y)
  {
    var u := Trunk(x, e);
    assert (a.At(r), u) in c && (u, a.At(r)) in c && (b.At(r + e), y) in c && (y, b.At(r + e)) in c;
    NeighbourLevel(types, k, c, a, b, r, u);
    AtAt(b, r, e);
    if Free(a, b, r, u) {
      FreeExtends(a, b, r, u, e);
    }
    CombinedBeside(types, k, c, a, b, r, e, u, x, y);
    BesideSound(c, a, b);
    BesideAt(c, a, b, b.At(r + e), y);
  }

  lemma SingleRun(c: Conns, a: Wire, b: Wire, pending: Pending, bits: iset<Wire>, run: Run, other: Run)
    requires OneRun(c, a, b, pending, bits)
    ensures Parallel(c, a, b, pending, bits, run, other) ==> run == other
  {
  }

  lemma NearNotFar(m: Merge)
    requires Separate(m.a, m.b)
    ensures m.Near() != m.Far()
  {
    OnOneSide(m.a, m.b, m.Near());
    AtFrom(m.a, m.Near(), m.r);
    AtFrom(m.b, m.Far(), m.r + m.e);
  }

  /** Only connections that are not made above a side are combined. */
  lemma MergedBeside(types: Types, keys: set<Wire>, c0: Conns, c1: Conns, a: Wire, b: Wire, r: Path, e: Path)
    requires TwoSides(types, keys, c0, a, b) && MergedFrom(c0, c1, a, b, r, e)
    ensures MergedFrom(Beside(c0, a, b), Beside(c1, a, b), a, b, r, e)
  {
    var near, far := Beside(c0, a, b), Beside(c1, a, b);
    forall x, y | (x, y) in far && (x, y) !in near
      ensures exists u :: CombinesAt(near, a, b, r, e, u, x, y) || CombinesAt(near, a, b, r, e, u, y, x)
    {
      BesideAt(c1, a, b, x, y);
      BesideAt(c0, a, b, x, y);
      var u :| CombinesAt(c0, a, b, r, e, u, x, y) || CombinesAt(c0, a, b, r, e, u, y, x);
      if CombinesAt(c0, a, b, r, e, u, x, y) {
        CombinedBeside(types, keys, c0, a, b, r, e, u, x, y);
      } else {
        CombinedBeside(types, keys, c0, a, b, r, e, u, y, x);
      }
    }
  }

  lemma MergedNear(c0: Conns, c1: Conns, a: Wire, b: Wire, r: Path, e: Path)
    requires Merged(c0, c1, a, b, r, e)
    ensures Merged(Beside(c0, a, b), Beside(c1, a, b), a, b, r, e)
  {
    var near, far, wa, wb := Beside(c0, a, b), Beside(c1, a, b), a.At(r), b.At(r + e);
    forall u: Wire, y: Wire | (u, wa) in near && (wb, y) in near ensures (u.At(e), y) in far && (y, u.At(e)) in far {
      FreeExtends(a, b, r, u, e);
      BesideAt(c1, a, b, u.At(e), y);
      BesideAt(c1, a, b, y, u.At(e));
    }
    forall z ensures (wa, z) in far ==> (wa, z) in near {
      BesideAt(c0, a, b, wa, z);
      BesideAt(c1, a, b, wa, z);
    }
    forall z ensures (wb, z) in far ==> (wb, z) in near {
      BesideAt(c0, a, b, wb, z);
      BesideAt(c1, a, b, wb, z);
    }
  }

  lemma CombinedBeside(types: Types, keys: set<Wire>, c: Conns, a: Wire, b: Wire, r: Path, e: Path, u: Wire, x: Wire,
      y: Wire)
    requires TwoSides(types, keys, c, a, b) && CombinesAt(c, a, b, r, e, u, x, y)
    ensures CombinesAt(Beside(c, a, b), a, b, r, e, u, x, y)
  {
    NeighbourBeside(types, keys, c, a, b, r, u);
    assert (y, b.At(r + e)) in c;
    TwoSidesSwap(types, keys, c, a, b);
    NeighbourBeside(types, keys, c, b, a, r + e, y);
    BesideAt(c, a, b, u, a.At(r));
    BesideAt(c, a, b, b.At(r + e), y);
  }

  lemma NeighbourBeside(types: Types, keys: set<Wire>, c: Conns, a: Wire, b: Wire, r: Path, u: Wire)
    requires TwoSides(types, keys, c, a, b) && (u, a.At(r)) in c
    ensures IsBeside(a, b, u) && IsBeside(a, b, a.At(r))
  {
    NeighbourLevel(types, keys, c, a, b, r, u);
  }

  /** Combining one pair of levels. */
  lemma CrossingAdvances(types: Types, k0: set<Wire>, c0: Conns, k1: set<Wire>, c1: Conns, a: Wire, b: Wire, r: Path,
      e: Path, us: set<Wire>, ys: set<Wire>, pending: Pending)
    requires TwoSides(types, k0, c0, a, b) && Crossing(c0, c1, us, e, ys)
    requires NeighboursAre(c0, a.At(r), us) && NeighboursAre(c0, b.At(r + e), ys)
    requires Selected(types, k1) && Joined(types, k1, c1) && k0 <= k1
    requires ClosedOff(pending, r) && (r, r + e) in pending
    ensures Advanced(types, k0, c0, pending, k1, c1, pending - iset{(r, r + e)}, a, b)
  {
    CrossingMerged(types, k0, c0, c1, a, b, r, e, us, ys);
    MergedBeside(types, k0, c0, c1, a, b, r, e);
    BesideSound(c0, a, b);
    MergeSound(Beside(c0, a, b), Beside(c1, a, b), a, b, r, e);
    var rest := pending - iset{(r, r + e)};
    ClosedOffWithout(pending, rest, r);
    EliminateAll(c0, c1, a, b, r, e, rest);
    forall x, y | Drives(c0, a, b, pending, x, y) ensures Drives(c0, a, b, rest + iset{(r, r + e)}, x, y) {
      DrivesMore(c0, a, b, pending, rest + iset{(r, r + e)}, x, y);
    }
    if Single(types, c0, a, b, pending) {
      forall w ensures (w, w) !in c0 {
        NoLoop(types, k0, c0, w);
      }
      MergedNear(c0, c1, a, b, r, e);
      OneRunKept(Merge(Beside(c0, a, b), a, b, r, e), Beside(c1, a, b), pending, BitsOf(types));
    }
    if ClosedChain(c0, a, b, pending) {
      forall w ensures (w, w) !in c0 {
        NoLoop(types, k0, c0, w);
      }
      assert rest + iset{(r, r + e)} == pending;
      ClosedKept(c0, c1, a, b, r, e, rest);
    }
  }

  /** Pairs with both levels comparable to `r` do not matter for being closed off. */
  lemma ClosedOffWithout(pending: Pending, rest: Pending, r: Path)
    requires ClosedOff(pending, r)
    requires forall p, q :: (p, q) in rest ==> (p, q) in pending
    requires forall p, q :: (p, q) in pending && (p, q) !in rest ==> Comparable(p, r) && Comparable(q, r)
    ensures ClosedOff(rest, r)
  {
    forall p: Path, q: Path, e: Path | !Comparable(p, r) && Comparable(p + e, q)
      ensures (p, q) in rest <==> (p + e, q) in rest
      ensures (q, p) in rest <==> (q, p + e) in rest
    {
      ExtendedIncomparable(p, r, e);
    }
  }

  lemma DrivesMore(c: Conns, a: Wire, b: Wire, before: Pending, after: Pending, x: Wire, y: Wire)
    requires Drives(c, a, b, before, x, y) && forall z :: z in before ==> z in after
    ensures Drives(c, a, b, after, x, y)
  {
    var s: End, t: End, k: nat :| s.Leaf() == x && t.Leaf() == y && Chain(c, a, b, before, s, t, k);
    ChainMore(c, a, b, before, after, s, t, k);
  }

  lemma {:induction false} ChainMore(c: Conns, a: Wire, b: Wire, before: Pending, after: Pending, s: End, t: End,
      k: nat)
    requires Chain(c, a, b, before, s, t, k) && forall z :: z in before ==> z in after
    ensures Chain(c, a, b, after, s, t, k)
    decreases k
  {
    if k > 0 {
      var m, n :| Edge(c, s, m) && Junction(a, b, before, m, n) && Chain(c, a, b, before, n, t, k - 1);
      ChainMore(c, a, b, before, after, n, t, k - 1);
      assert Junction(a, b, after, m, n);
    }
  }

  /** Without the pairs of `r` with the levels of the other side below `r + e`. */
  ghost function Offset(pending: Pending, r: Path, e: Path): Pending {
    iset p: Path, q: Path | (p, q) in pending && !(p == r && r + e <= q) :: (p, q)
  }

  /** Without those of the pairs of `Offset` that are at `r + e` or continue with one of `done`. */
  ghost function OffsetPart(pending: Pending, r: Path, e: Path, done: set<Label>): Pending {
    iset p: Path, q: Path | (p, q) in pending
      && !(p == r && r + e <= q && (|q| == |r + e| || q[|r + e|] in done)) :: (p, q)
  }

  lemma OffsetPartFirst(pending: Pending, r: Path, e: Path)
    ensures OffsetPart(pending, r, e, {}) == pending - iset{(r, r + e)}
  {
    forall z: (Path, Path) ensures z in OffsetPart(pending, r, e, {}) <==> z in pending - iset{(r, r + e)} {
      assert z == (z.0, z.1);
      assert r + e <= z.1 && |z.1| == |r + e| ==> z.1 == r + e;
    }
  }

  lemma OffsetPartNext(pending: Pending, r: Path, e: Path, done: set<Label>, l: Label)
    ensures OffsetPart(pending, r, e, done + {l}) == Offset(OffsetPart(pending, r, e, done), r, e + [l])
  {
    forall z: (Path, Path)
      ensures z in OffsetPart(pending, r, e, done + {l}) <==> z in Offset(OffsetPart(pending, r, e, done), r, e + [l])
    {
      assert z == (z.0, z.1);
      assert r + (e + [l]) == r + e + [l];
      PrefixLabel(r + e, l, z.1);
    }
  }

  lemma PrefixLabel(p: Path, l: Label, q: Path)
    ensures p + [l] <= q <==> p <= q && |q| > |p| && q[|p|] == l
  {
    if p <= q && |q| > |p| && q[|p|] == l {
      assert q[..|p| + 1] == p + [l];
    }
  }

  /** After all selects of `b` at `r + e`, nothing connected is left below. */
  lemma OffsetPartLast(types: Types, k: set<Wire>, c: Conns, a: Wire, b: Wire, pending: Pending, r: Path, e: Path)
    requires TwoSides(types, k, c, a, b)
    ensures Advanced(types, k, c, OffsetPart(pending, r, e, SelectsIn(k, b.At(r + e))), k, c, Offset(pending, r, e),
      a, b)
  {
    var labels := SelectsIn(k, b.At(r + e));
    var before, after := OffsetPart(pending, r, e, labels), Offset(pending, r, e);
    forall p, q | (p, q) in before && (p, q) !in after ensures !Linked(c, b.At(q)) {
      Unselected(types, k, c, b, r + e, q);
    }
    DropUnlinked(c, a, b, before, after);
    SoundSelf(Beside(c, a, b), a, b);
    if Single(types, c, a, b, before) {
      OneRunFewer(Beside(c, a, b), a, b, before, after, BitsOf(types));
    }
    if ClosedChain(c, a, b, before) {
      ClosedLinked(c, a, b, before, after);
    }
  }

  /** A wireable has connections only below labels that were selected. */
  lemma Unselected(types: Types, k: set<Wire>, c: Conns, side: Wire, p: Path, q: Path)
    requires Selected(types, k) && Joined(types, k, c)
    requires p <= q && |q| > |p| && q[|p|] !in SelectsIn(k, side.At(p))
    ensures !Linked(c, side.At(q))
  {
    var child := side.At(p).At([q[|p|]]);
    AtAt(side, p, [q[|p|]]);
    PrefixLabel(p, q[|p|], q);
    assert side.At(q).Under(child) && child !in k;
    assert side.At(q) !in k;
    forall z | z in c ensures z.0 != side.At(q) {
      assert (z.0, z.1) in c;
    }
  }

  lemma OffsetClosed(pending: Pending, r: Path, e: Path, done: set<Label>)
    requires ClosedOff(pending, r)
    ensures ClosedOff(OffsetPart(pending, r, e, done), r) && ClosedOff(Offset(pending, r, e), r)
  {
    forall q: Path | r + e <= q ensures Comparable(q, r) {
      PrefixTransitive(r, r + e, q);
    }
    ClosedOffWithout(pending, OffsetPart(pending, r, e, done), r);
    ClosedOffWithout(pending, Offset(pending, r, e), r);
  }

  /** Connections of the first level fit those of the second where the levels are on opposite sides. */
  lemma NeighboursFit(types: Types, k: set<Wire>, c: Conns, a: Wire, b: Wire, r: Path, e: Path, us: set<Wire>,
      ys: set<Wire>)
    requires TwoSides(types, k, c, a, b) && b.At(r + e) in k && a.At(r) in k
    requires NeighboursAre(c, a.At(r), us) && NeighboursAre(c, b.At(r + e), ys)
    ensures AllFit(types, us, e, ys)
  {
    forall u, y | u in us && y in ys ensures Fits(types, u.At(e), y) {
      assert (a.At(r), u) in c && (b.At(r + e), y) in c;
      var t := TypeIn(types, a.At(r)).value;
      FitsSymmetric(types, a.At(r), u);
      LevelType(types, u, e);
      FlipSelPath(t, e);
      AtAt(a, r, e);
      LevelType(types, a.At(r), e);
      TwoSidesSwap(types, k, c, a, b);
      LevelFits(types, b, a, r + e);
      FlipTwice(TypeIn(types, y).value);
    }
  }

  /** How far `ConnectOffsetLevel` is when it has dealt with the selects `done`. */
  ghost predicate OffsetState(types: Types, k0: set<Wire>, c0: Conns, k: set<Wire>, c: Conns, a: Wire, b: Wire,
      r: Path, e: Path, pending: Pending, done: set<Label>)
  {
    && Grown(k0, k, a, b, r)
    && SelectsIn(k, b.At(r + e)) == SelectsIn(k0, b.At(r + e))
    && Advanced(types, k0, c0, pending, k, c, OffsetPart(pending, r, e, done), a, b)
  }

  lemma OffsetFacts(types: Types, k0: set<Wire>, c0: Conns, k: set<Wire>, c: Conns, a: Wire, b: Wire, r: Path,
      e: Path, pending: Pending, done: set<Label>)
    requires OffsetState(types, k0, c0, k, c, a, b, r, e, pending, done)
    ensures TwoSides(types, k, c, a, b) && Grown(k0, k, a, b, r)
    ensures SelectsIn(k, b.At(r + e)) == SelectsIn(k0, b.At(r + e))
    ensures Single(types, c0, a, b, pending) ==> Single(types, c, a, b, OffsetPart(pending, r, e, done))
  {
  }

  lemma OffsetStart(types: Types, k0: set<Wire>, c0: Conns, k: set<Wire>, c: Conns, a: Wire, b: Wire, r: Path,
      e: Path, pending: Pending)
    requires Grown(k0, k, a, b, r)
    requires Advanced(types, k0, c0, pending, k, c, pending - iset{(r, r + e)}, a, b)
    ensures OffsetState(types, k0, c0, k, c, a, b, r, e, pending, {})
  {
    OffsetPartFirst(pending, r, e);
    GrownSelects(k0, k, a, b, r, r + e);
  }

  lemma OffsetNext(types: Types, k0: set<Wire>, c0: Conns, k: set<Wire>, c: Conns, k1: set<Wire>, c1: Conns, a: Wire,
      b: Wire, r: Path, e: Path, pending: Pending, done: set<Label>, l: Label)
    requires OffsetState(types, k0, c0, k, c, a, b, r, e, pending, done)
    requires Grown(k, k1, a, b, r)
    requires Advanced(types, k, c, OffsetPart(pending, r, e, done), k1, c1,
      Offset(OffsetPart(pending, r, e, done), r, e + [l]), a, b)
    ensures OffsetState(types, k0, c0, k1, c1, a, b, r, e, pending, done + {l})
  {
    OffsetPartNext(pending, r, e, done, l);
    AdvancedTwice(types, k0, c0, pending, k, c, OffsetPart(pending, r, e, done), k1, c1,
      OffsetPart(pending, r, e, done + {l}), a, b);
    GrownSelects(k, k1, a, b, r, r + e);
    GrownTwice(k0, k, k1, a, b, r);
  }

  lemma OffsetEnd(types: Types, k0: set<Wire>, c0: Conns, k: set<Wire>, c: Conns, a: Wire, b: Wire, r: Path, e: Path,
      pending: Pending)
    requires OffsetState(types, k0, c0, k, c, a, b, r, e, pending, SelectsIn(k0, b.At(r + e)))
    ensures Advanced(types, k0, c0, pending, k, c, Offset(pending, r, e), a, b)
  {
    OffsetPartLast(types, k, c, a, b, pending, r, e);
    AdvancedTwice(types, k0, c0, pending, k, c, OffsetPart(pending, r, e, SelectsIn(k, b.At(r + e))), k, c,
      Offset(pending, r, e), a, b);
  }

  lemma OffsetChild(a: Wire, b: Wire, r: Path, e: Path, l: Label)
    ensures b.At(r + e).At([l]) == b.At(r + (e + [l]))
  {
    AtAt(b, r + e, [l]);
    assert r + e + [l] == r + (e + [l]);
  }

  /** The pairs of `r` with the levels of the other side at or below `r + e` are still to be combined. */
  ghost predicate OffsetFull(pending: Pending, r: Path, e: Path) {
    forall q :: r + e <= q ==> (r, q) in pending
  }

  lemma OffsetFullNext(pending: Pending, r: Path, e: Path, done: set<Label>, l: Label)
    requires OffsetFull(pending, r, e) && l !in done
    ensures OffsetFull(OffsetPart(pending, r, e, done), r, e + [l])
  {
    forall q | r + (e + [l]) <= q ensures (r, q) in OffsetPart(pending, r, e, done) {
      assert r + (e + [l]) == r + e + [l];
      PrefixLabel(r + e, l, q);
    }
  }

  /** Connects all that `wa` is connected to with all that is connected below `wb`, which lies `e` deeper. */
  method ConnectOffsetLevel(def: ModuleDef, wa: Wire, e: Path, wb: Wire, ghost a: Wire, ghost b: Wire, ghost r: Path,
      ghost pending: Pending, ghost m: Moving, ghost moved: iset<Path>)
    returns (ok: bool)
    requires def.Valid() && wa in def.connected && wb in def.connected
    requires wa == a.At(r) && wb == b.At(r + e)
    requires TwoSides(def.Types(), def.connected.Keys, def.connections, a, b) && ClosedOff(pending, r)
    requires OffsetFull(pending, r, e)
    requires Movable(m, a, b) && Moved(m, b, def.connections, moved) && (m.Moving? ==> r == []) && moved !! AtOrBelow(e)
    modifies def`connections, def`connected
    ensures def.Valid()
    ensures m.Moving? || Single(def.Types(), old(def.connections), a, b, pending) ==> ok
    ensures ok ==> Moved(m, b, def.connections, moved + AtOrBelow(e))
    ensures ok ==> Grown(old(def.connected.Keys), def.connected.Keys, a, b, r)
    ensures ok ==> Advanced(def.Types(), old(def.connected.Keys), old(def.connections), pending, def.connected.Keys,
                            def.connections, Offset(pending, r, e), a, b)
    decreases DepthIn(def.Types(), wb), 2
  {
    hide Movable, Moved, Grown, Single, OffsetState, TwoSides;
    ghost var types, c0, k0 := def.Types(), def.connections, def.connected.Keys;
    assert e in AtOrBelow(e) && r + e <= r + e;
    ok := MergeLevels(def, wa, e, wb, a, b, r, pending, m, moved);
    if ok {
      BelowNone(m, b, def.connections, moved, e);
      OffsetStart(types, k0, c0, def.connected.Keys, def.connections, a, b, r, e, pending);
      ok := ConnectOffsetSelects(def, wa, e, wb, a, b, r, pending, m, moved, k0, c0);
      if ok {
        OffsetEnds(m, types, k0, c0, def.connected.Keys, def.connections, a, b, r, e, pending, moved);
      }
    }
  }

  /** `wa` against the selects of `wb`. */
  method ConnectOffsetSelects(def: ModuleDef, wa: Wire, e: Path, wb: Wire, ghost a: Wire, ghost b: Wire,
      ghost r: Path, ghost pending: Pending, ghost m: Moving, ghost moved: iset<Path>, ghost k0: set<Wire>,
      ghost c0: Conns)
    returns (ok: bool)
    requires def.Valid() && wa in def.connected && wb in def.connected
    requires wa == a.At(r) && wb == b.At(r + e) && ClosedOff(pending, r) && OffsetFull(pending, r, e)
    requires OffsetState(def.Types(), k0, c0, def.connected.Keys, def.connections, a, b, r, e, pending, {})
    requires Movable(m, a, b) && Moved(m, b, def.connections, moved + iset{e} + BelowLabels(e, {}))
    requires (m.Moving? ==> r == []) && moved !! AtOrBelow(e)
    modifies def`connections, def`connected
    ensures def.Valid()
    ensures m.Moving? || Single(def.Types(), c0, a, b, pending) ==> ok
    ensures ok ==> Moved(m, b, def.connections, moved + iset{e} + BelowLabels(e, SelectsIn(k0, b.At(r + e))))
    ensures ok ==> OffsetState(def.Types(), k0, c0, def.connected.Keys, def.connections, a, b, r, e, pending,
                               SelectsIn(k0, b.At(r + e)))
    decreases DepthIn(def.Types(), wb), 1
  {
    hide OffsetState, Movable, Moved, ClosedOff, OffsetFull, Single, ModuleDef.Valid;
    ghost var types := def.Types();
    OffsetFacts(types, k0, c0, def.connected.Keys, def.connections, a, b, r, e, pending, {});
    var labels := def.Selects(wb);
    ghost var all, done: set<Label> := labels, {};
    while labels != {}
      invariant def.Valid() && done + labels == all && done !! labels
      invariant all == SelectsIn(k0, wb) == SelectsIn(def.connected.Keys, wb)
      invariant wa in def.connected && wb in def.connected
      invariant OffsetState(types, k0, c0, def.connected.Keys, def.connections, a, b, r, e, pending, done)
      invariant Moved(m, b, def.connections, moved + iset{e} + BelowLabels(e, done))
      decreases |labels|
    {
      ghost var some := Collections.Pick(labels);
      var l :| l in labels;
      ok := ConnectOffsetOne(def, wa, e, wb, l, a, b, r, pending, m, moved, k0, c0, done);
      if !ok {
        return;
      }
      Collections.MoveOne(all, done, labels, l);
      done, labels := done + {l}, labels - {l};
    }
    assert done == all;
    return true;
  }

  method ConnectOffsetOne(def: ModuleDef, wa: Wire, e: Path, wb: Wire, l: Label, ghost a: Wire, ghost b: Wire,
      ghost r: Path, ghost pending: Pending, ghost m: Moving, ghost moved: iset<Path>, ghost k0: set<Wire>,
      ghost c0: Conns, ghost done: set<Label>)
    returns (ok: bool)
    requires def.Valid() && wa in def.connected && wb in def.connected && wb.At([l]) in def.connected
    requires wa == a.At(r) && wb == b.At(r + e) && l !in done && ClosedOff(pending, r) && OffsetFull(pending, r, e)
    requires OffsetState(def.Types(), k0, c0, def.connected.Keys, def.connections, a, b, r, e, pending, done)
    requires Movable(m, a, b) && Moved(m, b, def.connections, moved + iset{e} + BelowLabels(e, done))
    requires (m.Moving? ==> r == []) && moved !! AtOrBelow(e)
    modifies def`connections, def`connected
    ensures def.Valid()
    ensures m.Moving? || Single(def.Types(), c0, a, b, pending) ==> ok
    ensures ok ==> Moved(m, b, def.connections, moved + iset{e} + BelowLabels(e, done + {l}))
    ensures ok ==> OffsetState(def.Types(), k0, c0, def.connected.Keys, def.connections, a, b, r, e, pending,
      done + {l})
    ensures ok ==> SelectsIn(def.connected.Keys, wb) == SelectsIn(k0, wb) && wa in def.connected && wb in def.connected
    decreases DepthIn(def.Types(), wb), 0
  {
    hide OffsetState, TwoSides, ClosedOff, OffsetFull, Single, Movable, Moved, Grown, Advanced;
    ghost var types, c, k := def.Types(), def.connections, def.connected.Keys;
    OffsetFacts(types, k0, c0, k, c, a, b, r, e, pending, done);
    SelectDepth(types, k, wb, l);
    OffsetClosed(pending, r, e, done);
    OffsetChild(a, b, r, e, l);
    BelowFresh(moved, e, done, l);
    OffsetFullNext(pending, r, e, done, l);
    ok := ConnectOffsetLevel(def, wa, e + [l], wb.At([l]), a, b, r, OffsetPart(pending, r, e, done),
                             m, moved + iset{e} + BelowLabels(e, done));
    if ok {
      BelowNext(m, a, b, def.connections, moved, e, done, l);
      OffsetMore(types, k0, c0, k, c, def.connected.Keys, def.connections, a, b, r, e, pending, done, l);
    }
  }

  lemma OffsetMore(types: Types, k0: set<Wire>, c0: Conns, k: set<Wire>, c: Conns, k1: set<Wire>, c1: Conns, a: Wire,
      b: Wire, r: Path, e: Path, pending: Pending, done: set<Label>, l: Label)
    requires OffsetState(types, k0, c0, k, c, a, b, r, e, pending, done) && Grown(k, k1, a, b, r)
    requires Advanced(types, k, c, OffsetPart(pending, r, e, done), k1, c1,
      Offset(OffsetPart(pending, r, e, done), r, e + [l]), a, b)
    ensures OffsetState(types, k0, c0, k1, c1, a, b, r, e, pending, done + {l})
    ensures SelectsIn(k1, b.At(r + e)) == SelectsIn(k0, b.At(r + e)) && k <= k1
  {
    OffsetNext(types, k0, c0, k, c, k1, c1, a, b, r, e, pending, done, l);
  }

  lemma OffsetEnds(m: Moving, types: Types, k0: set<Wire>, c0: Conns, k: set<Wire>, c: Conns, a: Wire, b: Wire,
      r: Path, e: Path, pending: Pending, moved: iset<Path>)
    requires OffsetState(types, k0, c0, k, c, a, b, r, e, pending, SelectsIn(k0, b.At(r + e)))
    requires Moved(m, b, c, moved + iset{e} + BelowLabels(e, SelectsIn(k0, b.At(r + e)))) && (m.Moving? ==> r == [])
    ensures Grown(k0, k, a, b, r) && Moved(m, b, c, moved + AtOrBelow(e))
    ensures Advanced(types, k0, c0, pending, k, c, Offset(pending, r, e), a, b)
  {
    OffsetEnd(types, k0, c0, k, c, a, b, r, e, pending);
    if m.Moving? {
      assert [] + e == e;
      MovedAll(m, types, k, a, b, c, moved, e);
    }
  }

  lemma MergeMoves(m: Moving, a: Wire, b: Wire, r: Path, c: Conns, moved: iset<Path>, e: Path, us: set<Wire>,
      ys: set<Wire>)
    requires Movable(m, a, b) && Moved(m, b, c, moved) && (m.Moving? ==> r == []) && e !in moved
    requires NeighboursAre(c, a.At(r), us) && NeighboursAre(c, b.At(r + e), ys)
    ensures m.Moving? ==> Unconnected(c, us, e, ys)
  {
    if m.Moving? {
      assert [] + e == e && a.At([]) == a;
      MovedUnconnected(m, a, b, c, moved, e, us, ys);
    }
  }

  lemma MergeMoved(m: Moving, a: Wire, b: Wire, r: Path, c0: Conns, c1: Conns, moved: iset<Path>, e: Path,
      us: set<Wire>, ys: set<Wire>)
    requires Movable(m, a, b) && Moved(m, b, c0, moved) && (m.Moving? ==> r == []) && e !in moved
    requires NeighboursAre(c0, a.At(r), us) && NeighboursAre(c0, b.At(r + e), ys) && Crossing(c0, c1, us, e, ys)
    ensures Moved(m, b, c1, moved + iset{e})
  {
    if m.Moving? {
      assert [] + e == e && a.At([]) == a;
      MovedMore(m, a, b, c0, c1, moved, e, us, ys);
    }
  }

  /** `MergeConnections` at a level of one side and one of the other. */
  method MergeLevels(def: ModuleDef, wa: Wire, e: Path, wb: Wire, ghost a: Wire, ghost b: Wire, ghost r: Path,
      ghost pending: Pending, ghost m: Moving, ghost moved: iset<Path>)
    returns (ok: bool)
    requires def.Valid() && wa in def.connected && wb in def.connected
    requires wa == a.At(r) && wb == b.At(r + e)
    requires TwoSides(def.Types(), def.connected.Keys, def.connections, a, b) && ClosedOff(pending, r)
    requires (r, r + e) in pending
    requires Movable(m, a, b) && Moved(m, b, def.connections, moved) && (m.Moving? ==> r == []) && e !in moved
    modifies def`connections, def`connected
    ensures def.Valid()
    ensures m.Moving? || Single(def.Types(), old(def.connections), a, b, pending) ==> ok
    ensures ok ==> Moved(m, b, def.connections, moved + iset{e})
    ensures ok ==> Grown(old(def.connected.Keys), def.connected.Keys, a, b, r)
    ensures ok ==> Advanced(def.Types(), old(def.connected.Keys), old(def.connections), pending, def.connected.Keys,
      def.connections, pending - iset{(r, r + e)}, a, b)
  {
    hide TwoSides, ClosedOff, Single, Movable, Moved, Advanced, Grown;
    ghost var types, c0, k0 := def.Types(), def.connections, def.connected.Keys;
    ghost var us, ys := def.connected[wa], def.connected[wb];
    NeighboursSelected(types, c0, def.connected, wa);
    NeighboursSelected(types, c0, def.connected, wb);
    NeighboursFit(types, k0, c0, a, b, r, e, us, ys);
    MergeMoves(m, a, b, r, c0, moved, e, us, ys);
    if Single(types, c0, a, b, pending) {
      SingleUnconnected(types, k0, c0, a, b, r, e, us, ys, pending);
    }
    ok := MergeConnections(def, wa, e, wb);
    if ok {
      MergeMoved(m, a, b, r, c0, def.connections, moved, e, us, ys);
      CrossingGrown(types, k0, c0, def.connected.Keys, def.connections, a, b, r, e, us, ys);
      CrossingAdvances(types, k0, c0, def.connected.Keys, def.connections, a, b, r, e, us, ys, pending);
    }
  }

  // ----- one level of a passthrough and everything below it -----

  ghost predicate OnlyComparable(pending: Pending) {
    forall p, q :: (p, q) in pending ==> Comparable(p, q)
  }

  /** All pairs that have a side at or below `r` are still to be combined. */
  ghost predicate Full(pending: Pending, r: Path) {
    forall p, q :: Comparable(p, q) && (r <= p || r <= q) ==> (p, q) in pending
  }

  /** Without the pairs that have both sides at or below `r`. */
  ghost function Same(pending: Pending, r: Path): Pending {
    iset p: Path, q: Path | (p, q) in pending && !(r <= p && r <= q) :: (p, q)
  }

  predicate StepsTo(r: Path, p: Path, labels: set<Label>) {
    r <= p && |p| > |r| && p[|r|] in labels
  }

  /** The pairs of `Same` dealt with: both below a label of `both`, one below `left` or `right`, neither below. */
  ghost predicate SameDone(r: Path, both: set<Label>, left: set<Label>, right: set<Label>, top: bool, p: Path, q: Path)
  {
    || (StepsTo(r, p, both) && StepsTo(r, q, both) && p[|r|] == q[|r|])
    || (StepsTo(r, p, left) && q == r)
    || (p == r && StepsTo(r, q, right))
    || (top && p == r && q == r)
  }

  ghost function SamePart(pending: Pending, r: Path, both: set<Label>, left: set<Label>, right: set<Label>,
      top: bool): Pending
  {
    iset p: Path, q: Path | (p, q) in pending && !SameDone(r, both, left, right, top, p, q) :: (p, q)
  }

  lemma SamePartNone(pending: Pending, r: Path)
    ensures SamePart(pending, r, {}, {}, {}, false) == pending
  {
    forall z: (Path, Path) ensures z in SamePart(pending, r, {}, {}, {}, false) <==> z in pending {
      assert z == (z.0, z.1);
    }
  }

  lemma SamePartBoth(pending: Pending, r: Path, both: set<Label>, l: Label)
    ensures SamePart(pending, r, both + {l}, {}, {}, false) == Same(SamePart(pending, r, both, {}, {}, false), r + [l])
  {
    forall z: (Path, Path)
      ensures z in SamePart(pending, r, both + {l}, {}, {}, false) <==>
        z in Same(SamePart(pending, r, both, {}, {}, false), r + [l])
    {
      assert z == (z.0, z.1);
      PrefixLabel(r, l, z.0);
      PrefixLabel(r, l, z.1);
    }
  }

  lemma SamePartLeft(pending: Pending, r: Path, both: set<Label>, left: set<Label>, l: Label)
    ensures Swap(SamePart(pending, r, both, left + {l}, {}, false)) ==
      Offset(Swap(SamePart(pending, r, both, left, {}, false)), r, [l])
  {
    forall z: (Path, Path)
      ensures z in Swap(SamePart(pending, r, both, left + {l}, {}, false)) <==>
        z in Offset(Swap(SamePart(pending, r, both, left, {}, false)), r, [l])
    {
      assert z == (z.0, z.1);
      PrefixLabel(r, l, z.1);
    }
  }

  lemma SamePartRight(pending: Pending, r: Path, both: set<Label>, left: set<Label>, right: set<Label>, l: Label)
    ensures SamePart(pending, r, both, left, right + {l}, false) ==
      Offset(SamePart(pending, r, both, left, right, false), r, [l])
  {
    forall z: (Path, Path)
      ensures z in SamePart(pending, r, both, left, right + {l}, false) <==>
        z in Offset(SamePart(pending, r, both, left, right, false), r, [l])
    {
      assert z == (z.0, z.1);
      PrefixLabel(r, l, z.1);
    }
  }

  lemma SamePartTop(pending: Pending, r: Path, both: set<Label>, left: set<Label>, right: set<Label>)
    ensures SamePart(pending, r, both, left, right, true) ==
      SamePart(pending, r, both, left, right, false) - iset{(r, r + [])}
  {
    assert r + [] == r;
    forall z: (Path, Path)
      ensures z in SamePart(pending, r, both, left, right, true) <==>
        z in SamePart(pending, r, both, left, right, false) - iset{(r, r)}
    {
      assert z == (z.0, z.1);
    }
  }

  /** What is left stays closed off, for the level itself and for the labels not dealt with. */
  lemma SameClosed(pending: Pending, r: Path, both: set<Label>, left: set<Label>, right: set<Label>, top: bool)
    requires ClosedOff(pending, r)
    ensures ClosedOff(SamePart(pending, r, both, left, right, top), r)
    ensures ClosedOff(Swap(SamePart(pending, r, both, left, right, top)), r)
  {
    var part := SamePart(pending, r, both, left, right, top);
    ClosedOffWithout(pending, part, r);
    forall p: Path, q: Path, e: Path | !Comparable(p, r) && Comparable(p + e, q)
      ensures (p, q) in Swap(part) <==> (p + e, q) in Swap(part)
      ensures (q, p) in Swap(part) <==> (q, p + e) in Swap(part)
    {
    }
  }

  lemma SameChild(pending: Pending, r: Path, both: set<Label>, l: Label)
    requires Full(pending, r) && ClosedOff(pending, r) && OnlyComparable(pending) && l !in both
    ensures Full(SamePart(pending, r, both, {}, {}, false), r + [l])
    ensures OnlyComparable(SamePart(pending, r, both, {}, {}, false))
    ensures ClosedOff(SamePart(pending, r, both, {}, {}, false), r + [l])
  {
    var part := SamePart(pending, r, both, {}, {}, false);
    forall p, q | Comparable(p, q) && (r + [l] <= p || r + [l] <= q) ensures (p, q) in part {
      PrefixLabel(r, l, p);
      PrefixLabel(r, l, q);
    }
    forall p: Path, q: Path, e: Path | !Comparable(p, r + [l]) && Comparable(p + e, q)
      ensures (p, q) in part <==> (p + e, q) in part
      ensures (q, p) in part <==> (q, p + e) in part
    {
      SameChildClosed(pending, r, both, l, p, q, e);
    }
  }

  lemma SameChildClosed(pending: Pending, r: Path, both: set<Label>, l: Label, p: Path, q: Path, e: Path)
    requires Full(pending, r) && ClosedOff(pending, r)
    requires !Comparable(p, r + [l]) && Comparable(p + e, q)
    ensures var part := SamePart(pending, r, both, {}, {}, false);
            && ((p, q) in part <==> (p + e, q) in part)
            && ((q, p) in part <==> (q, p + e) in part)
  {
    if Comparable(p, r) {
      if p <= r {
        PrefixTransitive(p, r, r + [l]);
      }
      assert r <= p && |p| > |r|;
      PrefixTransitive(r, p, p + e);
      assert (p + e)[|r|] == p[|r|];
    } else {
      ExtendedIncomparable(p, r, e);
    }
  }

  /** No select was made at `r` or above it on either side. */
  ghost predicate KeptSelects(k0: set<Wire>, k1: set<Wire>, a: Wire, b: Wire, r: Path) {
    forall s :: s <= r ==>
      SelectsIn(k1, a.At(s)) == SelectsIn(k0, a.At(s)) && SelectsIn(k1, b.At(s)) == SelectsIn(k0, b.At(s))
  }

  lemma GrownKept(k0: set<Wire>, k1: set<Wire>, a: Wire, b: Wire, r: Path)
    requires Grown(k0, k1, a, b, r)
    ensures KeptSelects(k0, k1, a, b, r)
  {
    forall s | s <= r
      ensures SelectsIn(k1, a.At(s)) == SelectsIn(k0, a.At(s)) && SelectsIn(k1, b.At(s)) == SelectsIn(k0, b.At(s))
    {
      GrownSelects(k0, k1, a, b, r, s);
    }
  }

  lemma KeptAbove(k0: set<Wire>, k1: set<Wire>, a: Wire, b: Wire, r: Path, l: Label)
    requires KeptSelects(k0, k1, a, b, r + [l])
    ensures KeptSelects(k0, k1, a, b, r)
  {
    forall s | s <= r
      ensures SelectsIn(k1, a.At(s)) == SelectsIn(k0, a.At(s)) && SelectsIn(k1, b.At(s)) == SelectsIn(k0, b.At(s))
    {
      PrefixTransitive(s, r, r + [l]);
    }
  }

  /** How far `ConnectSameLevel` is. */
  ghost predicate SameState(types: Types, k0: set<Wire>, c0: Conns, k: set<Wire>, c: Conns, a: Wire, b: Wire,
      r: Path, pending: Pending, both: set<Label>, left: set<Label>, right: set<Label>, top: bool)
  {
    && KeptSelects(k0, k, a, b, r)
    && Advanced(types, k0, c0, pending, k, c, SamePart(pending, r, both, left, right, top), a, b)
  }

  lemma SameFacts(types: Types, k0: set<Wire>, c0: Conns, k: set<Wire>, c: Conns, a: Wire, b: Wire, r: Path,
      pending: Pending, both: set<Label>, left: set<Label>, right: set<Label>, top: bool)
    requires SameState(types, k0, c0, k, c, a, b, r, pending, both, left, right, top)
    ensures TwoSides(types, k, c, a, b)
    ensures Single(types, c0, a, b, pending) ==> Single(types, c, a, b, SamePart(pending, r, both, left, right, top))
  {
  }

  lemma SameNext(types: Types, k0: set<Wire>, c0: Conns, k: set<Wire>, c: Conns, k1: set<Wire>, c1: Conns, a: Wire,
      b: Wire, r: Path, pending: Pending, both: set<Label>, left: set<Label>, right: set<Label>, top: bool,
      both1: set<Label>, left1: set<Label>, right1: set<Label>, top1: bool)
    requires SameState(types, k0, c0, k, c, a, b, r, pending, both, left, right, top)
    requires KeptSelects(k, k1, a, b, r)
    requires Advanced(types, k, c, SamePart(pending, r, both, left, right, top), k1, c1,
      SamePart(pending, r, both1, left1, right1, top1), a, b)
    ensures SameState(types, k0, c0, k1, c1, a, b, r, pending, both1, left1, right1, top1)
  {
    AdvancedTwice(types, k0, c0, pending, k, c, SamePart(pending, r, both, left, right, top), k1, c1,
      SamePart(pending, r, both1, left1, right1, top1), a, b);
  }

  lemma SameStart(types: Types, k: set<Wire>, c: Conns, a: Wire, b: Wire, r: Path, pending: Pending)
    requires TwoSides(types, k, c, a, b)
    ensures SameState(types, k, c, k, c, a, b, r, pending, {}, {}, {}, false)
  {
    SamePartNone(pending, r);
    SoundSelf(Beside(c, a, b), a, b);
  }

  /** When all selects are dealt with, nothing connected is left at or below the level. */
  lemma SameEnd(types: Types, k0: set<Wire>, c0: Conns, k: set<Wire>, c: Conns, a: Wire, b: Wire, r: Path,
      pending: Pending, left: set<Label>, right: set<Label>)
    requires SameState(types, k0, c0, k, c, a, b, r, pending, left * right, left, right, true)
    requires OnlyComparable(pending)
    requires left == SelectsIn(k0, a.At(r)) && right == SelectsIn(k0, b.At(r))
    ensures Advanced(types, k0, c0, pending, k, c, Same(pending, r), a, b)
  {
    var before, after := SamePart(pending, r, left * right, left, right, true), Same(pending, r);
    assert r <= r;
    assert left == SelectsIn(k, a.At(r)) && right == SelectsIn(k, b.At(r));
    forall p, q | (p, q) in before && (p, q) !in after ensures !Linked(c, a.At(p)) || !Linked(c, b.At(q)) {
      LeftOverUnlinked(types, k, c, a, b, r, p, q);
    }
    DropUnlinked(c, a, b, before, after);
    SoundSelf(Beside(c, a, b), a, b);
    if Single(types, c, a, b, before) {
      OneRunFewer(Beside(c, a, b), a, b, before, after, BitsOf(types));
    }
    if ClosedChain(c, a, b, before) {
      ClosedLinked(c, a, b, before, after);
    }
    AdvancedTwice(types, k0, c0, pending, k, c, before, k, c, after, a, b);
  }

  lemma LeftOverUnlinked(types: Types, k: set<Wire>, c: Conns, a: Wire, b: Wire, r: Path, p: Path, q: Path)
    requires Selected(types, k) && Joined(types, k, c)
    requires r <= p && r <= q && Comparable(p, q)
    requires var left, right := SelectsIn(k, a.At(r)), SelectsIn(k, b.At(r));
      !SameDone(r, left * right, left, right, true, p, q)
    ensures !Linked(c, a.At(p)) || !Linked(c, b.At(q))
  {
    var left, right := SelectsIn(k, a.At(r)), SelectsIn(k, b.At(r));
    assert |p| == |r| ==> p == r;
    assert |q| == |r| ==> q == r;
    if |p| > |r| && p[|r|] !in left {
      Unselected(types, k, c, a, r, p);
    } else if |q| > |r| && q[|r|] !in right {
      Unselected(types, k, c, b, r, q);
    }
  }

  lemma MovedSame(m: Moving, types: Types, k0: set<Wire>, k: set<Wire>, a: Wire, b: Wire, c: Conns, r: Path,
      right: set<Label>)
    requires TwoSides(types, k, c, a, b) && KeptSelects(k0, k, a, b, r) && right == SelectsIn(k0, b.At(r))
      && (m.Moving? ==> r == [])
    requires Moved(m, b, c, BelowLabels([], right) + iset{[]})
    ensures Moved(m, b, c, AtOrBelow([]))
  {
    if m.Moving? {
      assert r <= r && right == SelectsIn(k, b.At([]));
      assert BelowLabels([], right) + iset{[]} == iset{} + iset{[]} + BelowLabels([], right);
      MovedAll(m, types, k, a, b, c, iset{}, []);
      assert iset{} + AtOrBelow([]) == AtOrBelow([]);
    }
  }

  predicate NoSelects(keys: set<Wire>, w: Wire) {
    forall u :: u in keys && u.Under(w) ==> u == w
  }

  lemma NoLabels(keys: set<Wire>, w: Wire)
    requires NoSelects(keys, w)
    ensures SelectsIn(keys, w) == {}
  {
    forall l ensures l !in SelectsIn(keys, w) {
      assert w.At([l]).Under(w) && w.At([l]) != w;
    }
  }

  /** Combines all levels at and below `r` of the two sides. */
  method ConnectSameLevel(def: ModuleDef, wa: Wire, wb: Wire, ghost a: Wire, ghost b: Wire, ghost r: Path,
      ghost pending: Pending, ghost m: Moving)
    returns (ok: bool)
    requires def.Valid() && wa in def.connected && wb in def.connected
    requires wa == a.At(r) && wb == b.At(r)
    requires TwoSides(def.Types(), def.connected.Keys, def.connections, a, b)
    requires Full(pending, r) && ClosedOff(pending, r) && OnlyComparable(pending)
    requires Movable(m, a, b) && Moved(m, b, def.connections, iset{})
    requires m.Moving? ==> r == [] && NoSelects(def.connected.Keys, wa)
    modifies def`connections, def`connected
    ensures def.Valid()
    ensures m.Moving? || Single(def.Types(), old(def.connections), a, b, pending) ==> ok
    ensures ok ==> Moved(m, b, def.connections, AtOrBelow([]))
    ensures ok ==> KeptSelects(old(def.connected.Keys), def.connected.Keys, a, b, r)
    ensures ok ==> Advanced(def.Types(), old(def.connected.Keys), old(def.connections), pending, def.connected.Keys,
      def.connections, Same(pending, r), a, b)
    decreases DepthIn(def.Types(), wa), 2
  {
    ghost var types, c0, k0 := def.Types(), def.connections, def.connected.Keys;
    var left, right := def.Selects(wa), def.Selects(wb);
    if m.Moving? {
      NoLabels(k0, wa);
    }
    ok := ConnectSelects(def, wa, wb, left, right, a, b, r, pending, m);
    if ok {
      ok := ConnectTop(def, wa, wb, a, b, r, pending, k0, c0, left, right, m);
      if ok {
        SameEnd(types, k0, c0, def.connected.Keys, def.connections, a, b, r, pending, left, right);
        MovedSame(m, types, k0, def.connected.Keys, a, b, def.connections, r, right);
      }
    }
  }

  /** All selects of the two sides, with each other and with the sides themselves. */
  method ConnectSelects(def: ModuleDef, wa: Wire, wb: Wire, left: set<Label>, right: set<Label>, ghost a: Wire,
      ghost b: Wire, ghost r: Path, ghost pending: Pending, ghost m: Moving)
    returns (ok: bool)
    requires def.Valid() && wa in def.connected && wb in def.connected
    requires wa == a.At(r) && wb == b.At(r)
    requires left == SelectsIn(def.connected.Keys, wa) && right == SelectsIn(def.connected.Keys, wb)
    requires TwoSides(def.Types(), def.connected.Keys, def.connections, a, b)
    requires Full(pending, r) && ClosedOff(pending, r) && OnlyComparable(pending)
    requires Movable(m, a, b) && Moved(m, b, def.connections, iset{}) && (m.Moving? ==> r == [] && left == {})
    modifies def`connections, def`connected
    ensures def.Valid()
    ensures m.Moving? || Single(def.Types(), old(def.connections), a, b, pending) ==> ok
    ensures ok ==> Moved(m, b, def.connections, BelowLabels([], right))
    ensures ok ==> SameState(def.Types(), old(def.connected.Keys), old(def.connections), def.connected.Keys,
      def.connections, a, b, r, pending, left * right, left, right, false)
    decreases DepthIn(def.Types(), wa), 1
  {
    ghost var c0, k0 := def.connections, def.connected.Keys;
    var both := left * right;
    assert left == {} ==> both == {};
    ok := ConnectBoth(def, wa, wb, both, a, b, r, pending);
    if ok {
      ok := ConnectLeft(def, wa, wb, left, a, b, r, pending, k0, c0, both);
      if ok {
        ok := ConnectRight(def, wa, wb, right, a, b, r, pending, k0, c0, both, left, m);
      }
    }
  }

  /** All that is connected to `wa` with all that is connected to `wb`. */
  method ConnectTop(def: ModuleDef, wa: Wire, wb: Wire, ghost a: Wire, ghost b: Wire, ghost r: Path,
      ghost pending: Pending, ghost k0: set<Wire>, ghost c0: Conns, ghost left: set<Label>, ghost right: set<Label>,
      ghost m: Moving)
    returns (ok: bool)
    requires def.Valid() && wa in def.connected && wb in def.connected
    requires wa == a.At(r) && wb == b.At(r) && ClosedOff(pending, r) && Full(pending, r)
    requires SameState(def.Types(), k0, c0, def.connected.Keys, def.connections, a, b, r, pending, left * right,
      left, right, false)
    requires Movable(m, a, b) && Moved(m, b, def.connections, BelowLabels([], right)) && (m.Moving? ==> r == [])
    modifies def`connections, def`connected
    ensures def.Valid()
    ensures ok ==> SameState(def.Types(), k0, c0, def.connected.Keys, def.connections, a, b, r, pending,
      left * right, left, right, true)
    ensures m.Moving? || Single(def.Types(), c0, a, b, pending) ==> ok
    ensures ok ==> Moved(m, b, def.connections, BelowLabels([], right) + iset{[]})
  {
    SameClosed(pending, r, left * right, left, right, false);
    SamePartTop(pending, r, left * right, left, right);
    ghost var c, k := def.connections, def.connected.Keys;
    assert r + [] == r && r <= r;
    ok := MergeLevels(def, wa, [], wb, a, b, r, SamePart(pending, r, left * right, left, right, false), m,
      BelowLabels([], right));
    if ok {
      GrownKept(k, def.connected.Keys, a, b, r);
      SameNext(def.Types(), k0, c0, k, c, def.connected.Keys, def.connections, a, b, r, pending, left * right, left,
        right, false, left * right, left, right, true);
    }
  }

  lemma SelectedBoth(k: set<Wire>, wa: Wire, wb: Wire, both: set<Label>, l: Label)
    requires both <= SelectsIn(k, wa) * SelectsIn(k, wb) && l in both
    ensures wa.At([l]) in k && wb.At([l]) in k
  {
  }

  /** The labels selected on both sides. */
  method ConnectBoth(def: ModuleDef, wa: Wire, wb: Wire, both: set<Label>, ghost a: Wire, ghost b: Wire,
      ghost r: Path, ghost pending: Pending)
    returns (ok: bool)
    requires def.Valid() && wa in def.connected && wb in def.connected
    requires wa == a.At(r) && wb == b.At(r)
    requires both <= SelectsIn(def.connected.Keys, wa) * SelectsIn(def.connected.Keys, wb)
    requires TwoSides(def.Types(), def.connected.Keys, def.connections, a, b)
    requires Full(pending, r) && ClosedOff(pending, r) && OnlyComparable(pending)
    modifies def`connections, def`connected
    ensures def.Valid()
    ensures ok ==> SameState(def.Types(), old(def.connected.Keys), old(def.connections), def.connected.Keys,
                             def.connections, a, b, r, pending, both, {}, {}, false)
    ensures ok ==> old(def.connected.Keys) <= def.connected.Keys
    ensures both == {} ==> ok && def.connections == old(def.connections)
    ensures Single(def.Types(), old(def.connections), a, b, pending) ==> ok
    decreases DepthIn(def.Types(), wa), 0, 1
  {
    hide SelectsIn, SameState, TwoSides, Full, ClosedOff, OnlyComparable, Single, ModuleDef.Valid;
    ghost var types, c0, k0 := def.Types(), def.connections, def.connected.Keys;
    var todo := both;
    ghost var done: set<Label> := {};
    SameStart(types, k0, c0, a, b, r, pending);
    while todo != {}
      invariant def.Valid() && done + todo == both && done !! todo && k0 <= def.connected.Keys
      invariant SameState(types, k0, c0, def.connected.Keys, def.connections, a, b, r, pending, done, {}, {}, false)
      invariant both == {} ==> def.connections == old(def.connections)
      decreases |todo|
    {
      ghost var some := Collections.Pick(todo);
      var l :| l in todo;
      SelectedBoth(k0, wa, wb, both, l);
      ok := ConnectBothOne(def, wa, wb, l, a, b, r, pending, k0, c0, done);
      if !ok {
        return;
      }
      Collections.MoveOne(both, done, todo, l);
      done, todo := done + {l}, todo - {l};
    }
    assert done == both;
    return true;
  }

  method ConnectBothOne(def: ModuleDef, wa: Wire, wb: Wire, l: Label, ghost a: Wire, ghost b: Wire, ghost r: Path,
      ghost pending: Pending, ghost k0: set<Wire>, ghost c0: Conns, ghost done: set<Label>)
    returns (ok: bool)
    requires def.Valid() && wa.At([l]) in def.connected && wb.At([l]) in def.connected
    requires wa == a.At(r) && wb == b.At(r) && l !in done
    requires Full(pending, r) && ClosedOff(pending, r) && OnlyComparable(pending)
    requires SameState(def.Types(), k0, c0, def.connected.Keys, def.connections, a, b, r, pending, done, {}, {}, false)
    modifies def`connections, def`connected
    ensures def.Valid()
    ensures ok ==> SameState(def.Types(), k0, c0, def.connected.Keys, def.connections, a, b, r, pending, done + {l},
      {}, {}, false)
    ensures ok ==> old(def.connected.Keys) <= def.connected.Keys
    ensures Single(def.Types(), c0, a, b, pending) ==> ok
    decreases DepthIn(def.Types(), wa), 0, 0
  {
    ghost var types, c, k := def.Types(), def.connections, def.connected.Keys;
    SameChild(pending, r, done, l);
    SelectDepth(types, k, wa, l);
    AtAt(a, r, [l]);
    AtAt(b, r, [l]);
    ok := ConnectSameLevel(def, wa.At([l]), wb.At([l]), a, b, r + [l], SamePart(pending, r, done, {}, {}, false),
      Unasked);
    if ok {
      SamePartBoth(pending, r, done, l);
      KeptAbove(k, def.connected.Keys, a, b, r, l);
      SameNext(types, k0, c0, k, c, def.connected.Keys, def.connections, a, b, r, pending, done, {}, {}, false,
        done + {l}, {}, {}, false);
    }
  }

  /** `wb` against the selects of `wa`. */
  method ConnectLeft(def: ModuleDef, wa: Wire, wb: Wire, left: set<Label>, ghost a: Wire, ghost b: Wire,
      ghost r: Path, ghost pending: Pending, ghost k0: set<Wire>, ghost c0: Conns, ghost both: set<Label>)
    returns (ok: bool)
    requires def.Valid() && wa in def.connected && wb in def.connected
    requires wa == a.At(r) && wb == b.At(r) && left <= SelectsIn(def.connected.Keys, wa)
    requires SameState(def.Types(), k0, c0, def.connected.Keys, def.connections, a, b, r, pending, both, {}, {}, false)
    requires ClosedOff(pending, r) && Full(pending, r)
    modifies def`connections, def`connected
    ensures def.Valid()
    ensures ok ==> SameState(def.Types(), k0, c0, def.connected.Keys, def.connections, a, b, r, pending, both, left,
      {}, false)
    ensures ok ==> old(def.connected.Keys) <= def.connected.Keys
    ensures left == {} ==> ok && def.connections == old(def.connections)
    ensures Single(def.Types(), c0, a, b, pending) ==> ok
  {
    hide SameState, Full, ClosedOff, Single, ModuleDef.Valid;
    ghost var types := def.Types();
    var todo := left;
    ghost var done: set<Label> := {};
    while todo != {}
      invariant def.Valid() && done + todo == left && done !! todo && old(def.connected.Keys) <= def.connected.Keys
      invariant SameState(types, k0, c0, def.connected.Keys, def.connections, a, b, r, pending, both, done, {}, false)
      invariant left == {} ==> def.connections == old(def.connections)
      decreases |todo|
    {
      ghost var some := Collections.Pick(todo);
      var l :| l in todo;
      ok := ConnectLeftOne(def, wa, wb, l, a, b, r, pending, k0, c0, both, done);
      if !ok {
        return;
      }
      Collections.MoveOne(left, done, todo, l);
      done, todo := done + {l}, todo - {l};
    }
    assert done == left;
    return true;
  }

  method ConnectLeftOne(def: ModuleDef, wa: Wire, wb: Wire, l: Label, ghost a: Wire, ghost b: Wire, ghost r: Path,
      ghost pending: Pending, ghost k0: set<Wire>, ghost c0: Conns, ghost both: set<Label>, ghost done: set<Label>)
    returns (ok: bool)
    requires def.Valid() && wa.At([l]) in def.connected && wb in def.connected
    requires wa == a.At(r) && wb == b.At(r) && l !in done && ClosedOff(pending, r) && Full(pending, r)
    requires SameState(def.Types(), k0, c0, def.connected.Keys, def.connections, a, b, r, pending, both, done, {},
      false)
    modifies def`connections, def`connected
    ensures def.Valid()
    ensures ok ==> SameState(def.Types(), k0, c0, def.connected.Keys, def.connections, a, b, r, pending, both,
      done + {l}, {}, false)
    ensures ok ==> old(def.connected.Keys) <= def.connected.Keys
    ensures Single(def.Types(), c0, a, b, pending) ==> ok
  {
    hide Single, Full, ClosedOff, ModuleDef.Valid;
    ghost var types, c, k := def.Types(), def.connections, def.connected.Keys;
    ghost var part := SamePart(pending, r, both, done, {}, false);
    SameClosed(pending, r, both, done, {}, false);
    TwoSidesSwap(types, k, c, a, b);
    AtAt(a, r, [l]);
    SamePartFull(pending, r, both, done, {}, l);
    if Single(types, c, a, b, part) {
      SingleSwap(types, c, a, b, part);
    }
    ok := ConnectOffsetLevel(def, wb, [l], wa.At([l]), b, a, r, Swap(part), Unasked, iset{});
    if ok {
      LeftNext(types, k0, c0, k, c, def.connected.Keys, def.connections, a, b, r, pending, both, done, l);
    }
  }

  lemma LeftNext(types: Types, k0: set<Wire>, c0: Conns, k: set<Wire>, c: Conns, k1: set<Wire>, c1: Conns, a: Wire,
      b: Wire, r: Path, pending: Pending, both: set<Label>, done: set<Label>, l: Label)
    requires SameState(types, k0, c0, k, c, a, b, r, pending, both, done, {}, false) && Grown(k, k1, b, a, r)
    requires var part := Swap(SamePart(pending, r, both, done, {}, false));
      Advanced(types, k, c, part, k1, c1, Offset(part, r, [l]), b, a)
    ensures SameState(types, k0, c0, k1, c1, a, b, r, pending, both, done + {l}, {}, false)
  {
    var part, next := SamePart(pending, r, both, done, {}, false), SamePart(pending, r, both, done + {l}, {}, false);
    SamePartLeft(pending, r, both, done, l);
    AdvancedSwap(types, k, c, part, k1, c1, next, a, b);
    GrownKept(k, k1, b, a, r);
    SameNext(types, k0, c0, k, c, k1, c1, a, b, r, pending, both, done, {}, false, both, done + {l}, {}, false);
  }

  lemma SamePartFull(pending: Pending, r: Path, both: set<Label>, left: set<Label>, right: set<Label>, l: Label)
    requires Full(pending, r)
    ensures l !in left ==> OffsetFull(Swap(SamePart(pending, r, both, left, right, false)), r, [l])
    ensures l !in right ==> OffsetFull(SamePart(pending, r, both, left, right, false), r, [l])
  {
    forall q | r + [l] <= q ensures StepsTo(r, q, {l}) && (r, q) in pending && (q, r) in pending {
      PrefixLabel(r, l, q);
      assert r <= r;
    }
  }

  lemma RightFresh(done: set<Label>, l: Label)
    requires l !in done
    ensures BelowLabels([], done) !! AtOrBelow([l])
  {
    forall p: Path | p in AtOrBelow([l]) ensures p !in BelowLabels([], done) {
      assert [] + [l] == [l];
      PrefixLabel([], l, p);
    }
  }

  /** `wa` against the selects of `wb`. */
  method ConnectRight(def: ModuleDef, wa: Wire, wb: Wire, right: set<Label>, ghost a: Wire, ghost b: Wire,
      ghost r: Path, ghost pending: Pending, ghost k0: set<Wire>, ghost c0: Conns, ghost both: set<Label>,
      ghost left: set<Label>, ghost m: Moving)
    returns (ok: bool)
    requires Movable(m, a, b) && Moved(m, b, def.connections, iset{}) && (m.Moving? ==> r == [])
    requires def.Valid() && wa in def.connected && wb in def.connected
    requires wa == a.At(r) && wb == b.At(r) && right <= SelectsIn(def.connected.Keys, wb)
    requires SameState(def.Types(), k0, c0, def.connected.Keys, def.connections, a, b, r, pending, both, left, {},
      false)
    requires ClosedOff(pending, r) && Full(pending, r)
    modifies def`connections, def`connected
    ensures def.Valid()
    ensures ok ==> SameState(def.Types(), k0, c0, def.connected.Keys, def.connections, a, b, r, pending, both, left,
      right, false)
    ensures m.Moving? || Single(def.Types(), c0, a, b, pending) ==> ok
    ensures ok ==> Moved(m, b, def.connections, BelowLabels([], right))
    ensures ok ==> old(def.connected.Keys) <= def.connected.Keys
  {
    hide SameState, Full, ClosedOff, Single, Movable, Moved, ModuleDef.Valid;
    ghost var types := def.Types();
    var todo := right;
    ghost var done: set<Label> := {};
    assert BelowLabels([], {}) == iset{};
    while todo != {}
      invariant def.Valid() && done + todo == right && done !! todo && old(def.connected.Keys) <= def.connected.Keys
      invariant SameState(types, k0, c0, def.connected.Keys, def.connections, a, b, r, pending, both, left, done, false)
      invariant Moved(m, b, def.connections, BelowLabels([], done))
      decreases |todo|
    {
      ghost var some := Collections.Pick(todo);
      var l :| l in todo;
      ok := ConnectRightOne(def, wa, wb, l, a, b, r, pending, k0, c0, both, left, done, m);
      if !ok {
        return;
      }
      Collections.MoveOne(right, done, todo, l);
      done, todo := done + {l}, todo - {l};
    }
    assert done == right;
    return true;
  }

  method ConnectRightOne(def: ModuleDef, wa: Wire, wb: Wire, l: Label, ghost a: Wire, ghost b: Wire, ghost r: Path,
      ghost pending: Pending, ghost k0: set<Wire>, ghost c0: Conns, ghost both: set<Label>, ghost left: set<Label>,
      ghost done: set<Label>, ghost m: Moving)
    returns (ok: bool)
    requires def.Valid() && wa in def.connected && wb.At([l]) in def.connected
    requires wa == a.At(r) && wb == b.At(r) && l !in done && ClosedOff(pending, r) && Full(pending, r)
    requires SameState(def.Types(), k0, c0, def.connected.Keys, def.connections, a, b, r, pending, both, left, done,
      false)
    requires Movable(m, a, b) && Moved(m, b, def.connections, BelowLabels([], done)) && (m.Moving? ==> r == [])
    modifies def`connections, def`connected
    ensures def.Valid()
    ensures m.Moving? || Single(def.Types(), c0, a, b, pending) ==> ok
    ensures ok ==> SameState(def.Types(), k0, c0, def.connected.Keys, def.connections, a, b, r, pending, both, left,
      done + {l}, false)
    ensures ok ==> Moved(m, b, def.connections, BelowLabels([], done + {l}))
    ensures ok ==> old(def.connected.Keys) <= def.connected.Keys
  {
    hide SameState, Full, ClosedOff, OffsetFull, Single, Movable, Moved;
    ghost var c, k, part := def.connections, def.connected.Keys, SamePart(pending, r, both, left, done, false);
    SameClosed(pending, r, both, left, done, false);
    AtAt(b, r, [l]);
    RightFresh(done, l);
    SameFacts(def.Types(), k0, c0, k, c, a, b, r, pending, both, left, done, false);
    SamePartFull(pending, r, both, left, done, l);
    ok := ConnectOffsetLevel(def, wa, [l], wb.At([l]), a, b, r, part, m, BelowLabels([], done));
    if ok {
      assert k <= def.connected.Keys;
      BelowMoreLabels([], done, l);
      assert [] + [l] == [l];
      SamePartRight(pending, r, both, left, done, l);
      GrownKept(k, def.connected.Keys, a, b, r);
      SameNext(def.Types(), k0, c0, k, c, def.connected.Keys, def.connections, a, b, r, pending, both, left, done,
        false, both, left, done + {l}, false);
    }
  }
}
