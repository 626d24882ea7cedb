/** Adding a passthrough on a wireable, and inlining a passthrough. */
module Passthroughs {
  // A passthrough is an instance with a side "in" of the opposite type and a side "out" of a
  // given type. Adding one moves all connections of a wireable to the "out" side; inlining
  // one connects across it whatever is connected to its two sides.

  import opened Wires
  import opened Chains
  import opened ModuleDefs
  import opened InstanceOrder
  import opened Inline
  import opened Loops
  import opened Validation
  import Collections
  import Names
  import Runs

  function PassthroughType(t: Type): Type {
    Record([("in", t.Flip()), ("out", t)])
  }

  function InSide(name: string): Wire {
    Wire(name, [Field("in")])
  }

  function OutSide(name: string): Wire {
    Wire(name, [Field("out")])
  }

  lemma PassthroughInhabited(t: Type)
    requires t.Inhabited()
    ensures PassthroughType(t).Inhabited()
  {
    FlipDepth(t);
  }

  lemma SideTypes(types: Types, name: string, t: Type)
    requires name in types && types[name] == PassthroughType(t)
    ensures TypeIn(types, InSide(name)) == Some(t.Flip()) && TypeIn(types, OutSide(name)) == Some(t)
    ensures Fits(types, OutSide(name), InSide(name))
  {
    var fs := [("in", t.Flip()), ("out", t)];
    assert fs[1..] == [("out", t)];
    assert Lookup(fs, "in") == Some(t.Flip());
    assert Lookup(fs, "out") == Lookup(fs[1..], "out") == Some(t);
    assert InSide(name).path[1..] == [] && OutSide(name).path[1..] == [];
    FlipTwice(t);
  }

  /** Nothing is connected to the wireable itself. */
  ghost predicate Bare(c: Conns, w: Wire) {
    forall y :: (w, y) !in c
  }

  lemma SidesOfInstance(types: Types, keys: set<Wire>, c: Conns, name: string, t: Type)
    requires WellTyped(types) && Selected(types, keys) && Joined(types, keys, c)
    requires name in types && types[name] == PassthroughType(t)
    ensures TwoSides(types, keys, c, InSide(name), OutSide(name))
  {
    SideTypes(types, name, t);
  }

  /** The connections that do not join `w` as a whole. */
  ghost function Without(c: Conns, w: Wire): Conns {
    set z | z in c && z.0 != w && z.1 != w
  }

  lemma WithoutBare(c: Conns, w: Wire)
    requires Symmetric(c) && Bare(c, w)
    ensures Without(c, w) == c
  {
    forall z | z in c ensures z in Without(c, w) {
      assert (z.0, z.1) in c && (z.1, z.0) in c;
    }
  }

  /** Above the sides of a passthrough there is only its instance. */
  lemma BesideSides(c: Conns, name: string)
    ensures Beside(c, InSide(name), OutSide(name)) == Without(c, Wire(name, []))
  {
    forall u: Wire ensures IsBeside(InSide(name), OutSide(name), u) <==> u != Wire(name, []) {
      if InSide(name).Under(u) || OutSide(name).Under(u) {
        assert |u.path| == 1 ==> u.path[0] == InSide(name).path[0] || u.path[0] == OutSide(name).path[0];
      }
    }
  }

  // ----- when a passthrough can be inlined -----

  /** Some bit is reached from itself across the passthrough. */
  ghost predicate LoopsAcross(c: Conns, name: string) {
    Looped(Bits(Without(c, Wire(name, []))), Sides(InSide(name), OutSide(name)))
  }

  lemma FitsOpposite(types: Types, u: Wire, v: Wire, p: Path)
    requires Fits(types, u, v)
    ensures Runs.Opposite(u.At(p), v.At(p), InputsOf(types), BitsOf(types))
  {
    LevelType(types, u, p);
    LevelType(types, v, p);
    FlipSelPath(TypeIn(types, v).value, p);
  }

  lemma SidesAlternate(types: Types, k: set<Wire>, c: Conns, d: Conns, a: Wire, b: Wire)
    requires TwoSides(types, k, c, a, b) && d <= c
    ensures Runs.Alternating(d, a, b, InputsOf(types), BitsOf(types))
  {
    forall u, v, p | (u, v) in d ensures Runs.Opposite(u.At(p), v.At(p), InputsOf(types), BitsOf(types)) {
      assert (u, v) in c;
      FitsOpposite(types, u, v, p);
    }
    FitsSymmetric(types, b, a);
    forall p: Path
      ensures Runs.Opposite(a.At(p), b.At(p), InputsOf(types), BitsOf(types))
      ensures Runs.Opposite(b.At(p), a.At(p), InputsOf(types), BitsOf(types))
    {
      FitsOpposite(types, a, b, p);
      FitsOpposite(types, b, a, p);
    }
  }

  /** With one driver for every input bit, and no bit reached from itself, no two bits are joined by two runs. */
  lemma DrivenSingle(types: Types, k: set<Wire>, c: Conns, name: string)
    requires TwoSides(types, k, c, InSide(name), OutSide(name)) && !LoopsAcross(c, name)
    requires Runs.OneDriver(Without(c, Wire(name, [])), InputsOf(types))
    ensures Single(types, c, InSide(name), OutSide(name), AllLevels())
  {
    var a, b := InSide(name), OutSide(name);
    BesideSides(c, name);
    BesideSound(c, a, b);
    SidesAlternate(types, k, c, Beside(c, a, b), a, b);
    Runs.DrivenOneRun(Beside(c, a, b), a, b, AllLevels(), InputsOf(types), BitsOf(types));
  }

  /** Where a bit is reached from itself, not all levels can be combined. */
  lemma AllOpen(types: Types, k0: set<Wire>, c0: Conns, k1: set<Wire>, c1: Conns, name: string)
    requires TwoSides(types, k0, c0, InSide(name), OutSide(name))
    requires Advanced(types, k0, c0, AllLevels(), k1, c1, Same(AllLevels(), []), InSide(name), OutSide(name))
    ensures !LoopsAcross(c0, name)
  {
    var a, b := InSide(name), OutSide(name);
    BesideSides(c0, name);
    BesideSound(c0, a, b);
    NothingClosed(c1, a, b, Same(AllLevels(), []));
    if LoopsAcross(c0, name) {
      LoopCloses(Beside(c0, a, b), a, b);
      ClosedLarger(Beside(c0, a, b), c0, a, b, AllLevels());
    }
  }

  // ----- inlining a passthrough -----

  /** `after` has the connections of `before` that are not at the instance `name`. */
  ghost predicate Elsewhere(before: Conns, after: Conns, name: string) {
    forall x, y :: (x, y) in after <==> (x, y) in before && x.root != name && y.root != name
  }

  lemma ElsewhereWired(before: Conns, after: Conns, name: string, x: Wire, y: Wire)
    requires Elsewhere(before, after, name) && x.root != name && y.root != name
    ensures Wired(after, x, y) <==> Wired(before, x, y)
  {
    if Wired(before, x, y) {
      var u, v, p :| WiredBy(before, u, v, p, x, y);
      assert WiredBy(after, u, v, p, x, y);
    }
    if Wired(after, x, y) {
      var u, v, p :| WiredBy(after, u, v, p, x, y);
      assert WiredBy(before, u, v, p, x, y);
    }
  }

  /** Bits that are not at the passthrough are wired after exactly if they were wired before across it. */
  ghost predicate JoinsAcross(before: Conns, after: Conns, name: string) {
    forall x: Wire, y: Wire :: x.root != name && y.root != name ==>
      (Wired(after, x, y) <==> Alt(Bits(before), Sides(InSide(name), OutSide(name)), x, y))
  }

  lemma AllCrossed(types: Types, k0: set<Wire>, c0: Conns, k1: set<Wire>, c1: Conns, name: string)
    requires TwoSides(types, k0, c0, InSide(name), OutSide(name))
    requires Advanced(types, k0, c0, AllLevels(), k1, c1, Same(AllLevels(), []), InSide(name), OutSide(name))
    ensures JoinsAcross(Without(c0, Wire(name, [])), c1, name)
  {
    BesideSides(c0, name);
    AllCombined(c0, c1, InSide(name), OutSide(name), Same(AllLevels(), []));
  }

  lemma JoinsElsewhere(c0: Conns, c1: Conns, c2: Conns, name: string)
    requires JoinsAcross(c0, c1, name) && Elsewhere(c1, c2, name)
    ensures JoinsAcross(c0, c2, name)
  {
    forall x: Wire, y: Wire | x.root != name && y.root != name
      ensures Wired(c2, x, y) <==> Alt(Bits(c0), Sides(InSide(name), OutSide(name)), x, y)
    {
      ElsewhereWired(c1, c2, name, x, y);
    }
  }

  lemma AllLevelsReady()
    ensures Full(AllLevels(), []) && ClosedOff(AllLevels(), []) && OnlyComparable(AllLevels())
  {
  }

  /** What moving connections back gives once the passthrough is gone. */
  ghost predicate MovedBack(m: Moving, name: string, c: Conns) {
    m.Moving? ==> forall x, y :: (x, y) in c <==>
      && x.root != name && y.root != name
      && (OutPlace(OutSide(name), m.w, x), OutPlace(OutSide(name), m.w, y)) in m.base
  }

  lemma MovedIsBack(m: Moving, name: string, c1: Conns, c2: Conns)
    requires Moved(m, OutSide(name), c1, AtOrBelow([])) && Elsewhere(c1, c2, name)
    requires Movable(m, InSide(name), OutSide(name))
    ensures MovedBack(m, name, c2)
  {
    assert forall p: Path :: p in AtOrBelow([]);
    if m.Moving? {
      forall x, y | (x, y) in m.base && x.root != name && y.root != name ensures !x.Under(m.w) && !y.Under(m.w) {
        assert (y, x) in m.base;
      }
    }
  }

  method InlinePassthrough(def: ModuleDef, name: string, ghost t: Type, ghost m: Moving) returns (ok: bool)
    requires def.Valid() && name in def.instances && def.instances[name].moduleType == PassthroughType(t)
    requires Movable(m, InSide(name), OutSide(name))
    requires m.Moving? ==> def.connections == m.base && NoSelects(def.connected.Keys, InSide(name))
    modifies def, def.iter
    ensures def.Valid()
    ensures ok ==> JoinsAcross(Without(old(def.connections), Wire(name, [])), def.connections, name)
    ensures ok ==> def.instances == old(def.instances) - {name} && def.Types() == old(def.Types()) - {name}
    ensures ok ==> def.iter.order == Removed(old(def.iter.order), old(def.instances)[name])
    ensures ok ==> def.Walk() == Names.Omit(old(def.Walk()), name)
    ensures m.Moving? || Single(old(def.Types()), old(def.connections), InSide(name), OutSide(name), AllLevels()) ==> ok
    ensures ok ==> !LoopsAcross(old(def.connections), name)
    ensures Runs.OneDriver(Without(old(def.connections), Wire(name, [])), InputsOf(old(def.Types()))) ==>
      (ok <==> !LoopsAcross(old(def.connections), name))
    ensures ok ==> MovedBack(m, name, def.connections)
  {
    ghost var types := def.Types();
    SelectSides(def, name, t);
    ok := InlineSides(def, name, t, m);
    assert types == old(def.Types());
  }

  method InlineSides(def: ModuleDef, name: string, ghost t: Type, ghost m: Moving) returns (ok: bool)
    requires def.Valid() && name in def.instances && def.instances[name].moduleType == PassthroughType(t)
    requires InSide(name) in def.connected && OutSide(name) in def.connected
    requires Movable(m, InSide(name), OutSide(name))
    requires m.Moving? ==> def.connections == m.base && NoSelects(def.connected.Keys, InSide(name))
    modifies def, def.iter
    ensures def.Valid()
    ensures ok ==> JoinsAcross(Without(old(def.connections), Wire(name, [])), def.connections, name)
    ensures ok ==> def.instances == old(def.instances) - {name} && def.Types() == old(def.Types()) - {name}
    ensures ok ==> def.iter.order == Removed(old(def.iter.order), old(def.instances)[name])
    ensures ok ==> def.Walk() == Names.Omit(old(def.Walk()), name)
    ensures m.Moving? || Single(old(def.Types()), old(def.connections), InSide(name), OutSide(name), AllLevels()) ==> ok
    ensures ok ==> !LoopsAcross(old(def.connections), name)
    ensures Runs.OneDriver(Without(old(def.connections), Wire(name, [])), InputsOf(old(def.Types()))) ==>
      (ok <==> !LoopsAcross(old(def.connections), name))
    ensures ok ==> MovedBack(m, name, def.connections)
  {
    ok := ConnectSides(def, name, t, m);
    if ok {
      ghost var c1 := def.connections;
      Drop(def, name);
      JoinsElsewhere(Without(old(def.connections), Wire(name, [])), c1, def.connections, name);
      MovedIsBack(m, name, c1, def.connections);
    }
  }

  /** Removes the instance with all its connections. */
  method Drop(def: ModuleDef, name: string)
    requires def.Valid() && name in def.instances
    modifies def, def.iter
    ensures def.Valid() && Elsewhere(old(def.connections), def.connections, name)
    ensures def.instances == old(def.instances) - {name} && def.Types() == old(def.Types()) - {name}
    ensures def.connected.Keys <= old(def.connected.Keys)
    ensures def.iter.order == Removed(old(def.iter.order), old(def.instances)[name])
    ensures def.Walk() == Names.Omit(old(def.Walk()), name)
  {
    def.WalkRemoved(name);
    ghost var c := def.connections;
    var ok := def.RemoveInstance(name);
    DetachedElsewhere(c, def.connections, name);
  }

  method ConnectSides(def: ModuleDef, name: string, ghost t: Type, ghost m: Moving) returns (ok: bool)
    requires def.Valid() && name in def.instances && def.instances[name].moduleType == PassthroughType(t)
    requires InSide(name) in def.connected && OutSide(name) in def.connected
    requires Movable(m, InSide(name), OutSide(name))
    requires m.Moving? ==> def.connections == m.base && NoSelects(def.connected.Keys, InSide(name))
    modifies def`connections, def`connected
    ensures def.Valid()
    ensures m.Moving? || Single(old(def.Types()), old(def.connections), InSide(name), OutSide(name), AllLevels()) ==> ok
    ensures ok ==> !LoopsAcross(old(def.connections), name)
    ensures Runs.OneDriver(Without(old(def.connections), Wire(name, [])), InputsOf(old(def.Types()))) ==>
      (ok <==> !LoopsAcross(old(def.connections), name))
    ensures ok ==> Moved(m, OutSide(name), def.connections, AtOrBelow([]))
    ensures ok ==> JoinsAcross(Without(old(def.connections), Wire(name, [])), def.connections, name)
  {
    ghost var types, a, b, c0, k0 := def.Types(), InSide(name), OutSide(name), def.connections, def.connected.Keys;
    assert types[name] == PassthroughType(t);
    SidesOfInstance(types, k0, c0, name, t);
    AllLevelsReady();
    assert a.At([]) == a && b.At([]) == b;
    if Runs.OneDriver(Without(c0, Wire(name, [])), InputsOf(types)) && !LoopsAcross(c0, name) {
      DrivenSingle(types, k0, c0, name);
    }
    ok := ConnectSameLevel(def, InSide(name), OutSide(name), a, b, [], AllLevels(), m);
    if ok {
      AllCrossed(types, k0, c0, def.connected.Keys, def.connections, name);
      AllOpen(types, k0, c0, def.connected.Keys, def.connections, name);
    }
  }

  lemma OneSide(name: string, z: Wire)
    ensures !(z.Under(InSide(name)) && z.Under(OutSide(name)))
  {
    assert InSide(name).path[0] == Field("in") && OutSide(name).path[0] == Field("out") && |"in"| != |"out"|;
  }

  method SelectSides(def: ModuleDef, name: string, ghost t: Type)
    requires def.Valid() && name in def.instances && def.instances[name].moduleType == PassthroughType(t)
    modifies def`connected
    ensures def.Valid()
    ensures InSide(name) in def.connected && OutSide(name) in def.connected
    ensures NoSelects(old(def.connected.Keys), InSide(name)) ==> NoSelects(def.connected.Keys, InSide(name))
  {
    hide Wiring;
    OneSide(name, OutSide(name));
    assert def.Types()[name] == PassthroughType(t);
    RootSelected(def.Types(), def.connections, def.connected, def.metaData, name);
    SideTypes(def.Types(), name, t);
    assert Wire(name, []).At([Field("in")]) == InSide(name) && Wire(name, []).At([Field("out")]) == OutSide(name);
    var ok := def.Sel(Wire(name, []), Field("in"));
    ok := def.Sel(Wire(name, []), Field("out"));
  }

  lemma DetachedElsewhere(before: Conns, after: Conns, name: string)
    requires forall x, y :: (x, y) in after <==>
      (x, y) in before && x !in Subtree(Wire(name, [])) && y !in Subtree(Wire(name, []))
    ensures Elsewhere(before, after, name)
  {
  }

  // ----- adding a passthrough -----

  /** Where a wireable was before the connections below `w` were moved below `to`. */
  function Origin(w: Wire, to: Wire, z: Wire): Wire {
    if z.Under(to) then w.At(z.From(to)) else z
  }

  /** Whether a wireable may have connections once those at the levels `done` of `w` are moved to `to`. */
  predicate Settled(w: Wire, to: Wire, done: iset<Path>, z: Wire) {
    (z.Under(to) ==> z.From(to) in done) && (z.Under(w) ==> z.From(w) !in done)
  }

  /** `after` is `before` with the connections at the levels `done` of `w` moved to `to`. */
  ghost predicate Transferred(before: Conns, after: Conns, w: Wire, to: Wire, done: iset<Path>) {
    forall x, y :: (x, y) in after <==>
      (Origin(w, to, x), Origin(w, to, y)) in before && Settled(w, to, done, x) && Settled(w, to, done, y)
  }

  /** Nothing is connected to the root of `to` or anything selected from it. */
  ghost predicate Untouched(c: Conns, name: string) {
    forall x, y :: (x, y) in c ==> x.root != name && y.root != name
  }

  lemma TransferredNone(c: Conns, w: Wire, to: Wire)
    requires Untouched(c, to.root) && w.root != to.root
    ensures Transferred(c, c, w, to, iset{})
  {
  }

  /** What connecting `to` to all neighbours of `from` and disconnecting `from` comes to. */
  ghost predicate Replaced(c0: Conns, c1: Conns, from: Wire, to: Wire) {
    forall x, y :: (x, y) in c1 <==>
      && x != from && y != from
      && ((x, y) in c0 || (x == to && (from, y) in c0) || (y == to && (x, from) in c0))
  }

  lemma TransferredMore(c: Conns, c0: Conns, c1: Conns, w: Wire, to: Wire, done: iset<Path>, p: Path)
    requires Untouched(c, to.root) && w.root != to.root && Bare(c0, to.At(p))
    requires Transferred(c, c0, w, to, done) && Replaced(c0, c1, w.At(p), to.At(p)) && p !in done
    requires Symmetric(c0) && (w.At(p), w.At(p)) !in c0
    ensures Transferred(c, c1, w, to, done + iset{p})
  {
    forall x, y
      ensures (x, y) in c1 <==>
        (Origin(w, to, x), Origin(w, to, y)) in c && Settled(w, to, done + iset{p}, x)
        && Settled(w, to, done + iset{p}, y)
    {
      TransferredAt(c, c0, c1, w, to, done, p, x, y);
    }
  }

  lemma TransferredAt(c: Conns, c0: Conns, c1: Conns, w: Wire, to: Wire, done: iset<Path>, p: Path, x: Wire, y: Wire)
    requires Untouched(c, to.root) && w.root != to.root && Bare(c0, to.At(p))
    requires Transferred(c, c0, w, to, done) && Replaced(c0, c1, w.At(p), to.At(p)) && p !in done
    requires Symmetric(c0) && (w.At(p), w.At(p)) !in c0
    ensures (x, y) in c1 <==>
      (Origin(w, to, x), Origin(w, to, y)) in c && Settled(w, to, done + iset{p}, x)
      && Settled(w, to, done + iset{p}, y)
  {
    var from, dest := w.At(p), to.At(p);
    SettledMore(w, to, done, p, x);
    SettledMore(w, to, done, p, y);
    AtFrom(to, dest, p);
    AtFrom(w, from, p);
    if x == dest && y == dest {
      assert (from, dest) !in c0;
    }
  }

  lemma SettledMore(w: Wire, to: Wire, done: iset<Path>, p: Path, z: Wire)
    requires w.root != to.root && p !in done
    ensures z != w.At(p) && z != to.At(p) ==> (Settled(w, to, done + iset{p}, z) <==> Settled(w, to, done, z))
    ensures z == to.At(p) ==>
      Settled(w, to, done + iset{p}, z) && !Settled(w, to, done, z) && Origin(w, to, z) == w.At(p)
    ensures z == w.At(p) ==> !Settled(w, to, done + iset{p}, z) && Settled(w, to, done, z) && Origin(w, to, z) == z
  {
    AtFrom(to, z, p);
    AtFrom(w, z, p);
  }

  lemma NeighboursFitTo(types: Types, k: set<Wire>, c: Conns, from: Wire, to: Wire, others: set<Wire>)
    requires Joined(types, k, c) && Bare(c, to) && NeighboursAre(c, from, others)
    requires TypeIn(types, from) == TypeIn(types, to)
    ensures forall y :: y in others ==> Fits(types, to.At([]), y)
    ensures forall y :: y in others ==> (to.At([]), y) !in c
  {
    assert to.At([]) == to;
    forall y | y in others ensures Fits(types, to, y) {
      assert (from, y) in c;
    }
  }

  /** `to` takes over all connections of `from`. */
  method MoveNeighbours(def: ModuleDef, from: Wire, to: Wire)
    requires def.Valid() && from in def.connected && to in def.connected
    requires TypeIn(def.Types(), from) == TypeIn(def.Types(), to) && from != to && Bare(def.connections, to)
    modifies def`connections, def`connected, def`metaData
    ensures def.Valid() && def.connected.Keys == old(def.connected.Keys)
    ensures Replaced(old(def.connections), def.connections, from, to)
  {
    ghost var types, c0, k0 := def.Types(), def.connections, def.connected.Keys;
    var others := def.connected[from];
    NeighboursSelected(types, c0, def.connected, from);
    NeighboursFitTo(types, k0, c0, from, to, others);
    var ok := ConnectEach(def, to, [], others);
    SelectedNowhere(types, k0, def.connected.Keys, to);
    ghost var c1, m1 := def.connections, def.metaData;
    def.DisconnectWire(from);
    JoinedReplaced(types, k0, c0, c1, def.connections, m1, def.metaData, from, to, others);
  }

  lemma SelectedNowhere(types: Types, k0: set<Wire>, k1: set<Wire>, u: Wire)
    requires SelectedTo(k0, k1, u, []) && u in k0
    ensures k1 == k0
  {
    forall w: Wire | w.Under(u) && u.At([]).Under(w) ensures w == u {
    }
  }

  lemma JoinedReplaced(types: Types, k: set<Wire>, c0: Conns, c1: Conns, c2: Conns, m1: map<set<Wire>, string>,
      m2: map<set<Wire>, string>, from: Wire, to: Wire, others: set<Wire>)
    requires WellTyped(types) && Joined(types, k, c0) && from != to && Bare(c0, to)
    requires TypeIn(types, from) == TypeIn(types, to)
    requires NeighboursAre(c0, from, others) && Joining(c0, c1, to, [], others)
    requires Detached(c1, c2, m1, m2, iset{from})
    ensures Replaced(c0, c2, from, to)
  {
    assert to.At([]) == to;
    forall x, y
      ensures (x, y) in c2 <==>
        x != from && y != from && ((x, y) in c0 || (x == to && (from, y) in c0) || (y == to && (x, from) in c0))
    {
      assert (from, x) in c0 <==> (x, from) in c0;
    }
  }

  /** All connections are between wireables of `keys`. */
  ghost predicate Within(c: Conns, keys: set<Wire>) {
    forall x, y :: (x, y) in c ==> x in keys && y in keys
  }

  /** How far the transfer is, and that it selected nothing except below `to`. */
  ghost predicate Transferring(k0: set<Wire>, c: Conns, k: set<Wire>, c1: Conns, w: Wire, to: Wire, done: iset<Path>) {
    && Within(c, k0) && k0 <= k
    && (forall z :: z in k && z !in k0 ==> z.root == to.root && !z.Under(InSide(to.root)))
    && Transferred(c, c1, w, to, done)
  }

  /** The two wireables a transfer leads from and to. */
  ghost predicate Paired(types: Types, c: Conns, w: Wire, name: string) {
    && w.root != name && Untouched(c, name)
    && TypeIn(types, w).Some? && TypeIn(types, w) == TypeIn(types, OutSide(name))
  }

  lemma PairedLevel(types: Types, k: set<Wire>, c: Conns, c1: Conns, w: Wire, name: string, done: iset<Path>, p: Path)
    requires Paired(types, c, w, name) && Transferred(c, c1, w, OutSide(name), done) && p !in done
    requires WellTyped(types) && Joined(types, k, c1)
    ensures Bare(c1, OutSide(name).At(p)) && TypeIn(types, w.At(p)) == TypeIn(types, OutSide(name).At(p))
    ensures w.At(p) != OutSide(name).At(p) && (w.At(p), w.At(p)) !in c1
  {
    LevelType(types, w, p);
    LevelType(types, OutSide(name), p);
    AtFrom(OutSide(name), OutSide(name).At(p), p);
    NoLoop(types, k, c1, w.At(p));
  }

  lemma TransferredFirst(c: Conns, c0: Conns, c1: Conns, w: Wire, to: Wire, done: iset<Path>, p: Path)
    requires Untouched(c, to.root) && w.root != to.root && Bare(c0, to.At(p))
    requires Transferred(c, c0, w, to, done) && Replaced(c0, c1, w.At(p), to.At(p)) && p !in done
    requires Symmetric(c0) && (w.At(p), w.At(p)) !in c0
    ensures Transferred(c, c1, w, to, done + iset{p} + BelowLabels(p, {}))
  {
    TransferredMore(c, c0, c1, w, to, done, p);
    assert BelowLabels(p, {}) == iset{};
    assert done + iset{p} + iset{} == done + iset{p};
  }

  lemma TransferredNext(c: Conns, c1: Conns, w: Wire, to: Wire, done: iset<Path>, p: Path, labels: set<Label>, l: Label)
    requires Transferred(c, c1, w, to, done + iset{p} + BelowLabels(p, labels) + AtOrBelow(p + [l]))
    ensures Transferred(c, c1, w, to, done + iset{p} + BelowLabels(p, labels + {l}))
  {
    BelowMoreLabels(p, labels, l);
    assert done + iset{p} + BelowLabels(p, labels) + AtOrBelow(p + [l]) ==
      done + iset{p} + BelowLabels(p, labels + {l});
  }

  lemma TransferredLast(types: Types, k: set<Wire>, c: Conns, c1: Conns, w: Wire, to: Wire, done: iset<Path>, p: Path)
    requires Selected(types, k) && Joined(types, k, c1) && Within(c, k) && w.root != to.root && Untouched(c, to.root)
    requires Transferred(c, c1, w, to, done + iset{p} + BelowLabels(p, SelectsIn(k, w.At(p))))
    ensures Transferred(c, c1, w, to, done + AtOrBelow(p))
  {
    var part, all := done + iset{p} + BelowLabels(p, SelectsIn(k, w.At(p))), done + AtOrBelow(p);
    forall q | (q in part) != (q in all) ensures w.At(q) !in k {
      assert |p| == |q| && p <= q ==> p == q;
      NotSelected(types, k, w, p, q);
    }
    forall x, y
      ensures (x, y) in c1 <==>
        (Origin(w, to, x), Origin(w, to, y)) in c && Settled(w, to, all, x) && Settled(w, to, all, y)
    {
      SettledSame(k, w, to, part, all, x);
      SettledSame(k, w, to, part, all, y);
      assert (x, y) in c1 ==> x in k && (y, x) in c1;
    }
  }

  lemma NotSelected(types: Types, k: set<Wire>, w: Wire, p: Path, q: Path)
    requires Selected(types, k) && p <= q && |q| > |p| && q[|p|] !in SelectsIn(k, w.At(p))
    ensures w.At(q) !in k
  {
    var child := w.At(p).At([q[|p|]]);
    AtAt(w, p, [q[|p|]]);
    PrefixLabel(p, q[|p|], q);
    assert w.At(q).Under(child) && child !in k;
  }

  lemma SettledSame(k: set<Wire>, w: Wire, to: Wire, part: iset<Path>, all: iset<Path>, z: Wire)
    requires w.root != to.root && forall q :: (q in part) != (q in all) ==> w.At(q) !in k
    ensures Origin(w, to, z) in k ==> (Settled(w, to, part, z) <==> Settled(w, to, all, z))
  {
    if z.Under(to) {
      assert Origin(w, to, z) == w.At(z.From(to));
    } else if z.Under(w) {
      AtFrom(w, z, []);
      assert Origin(w, to, z) == w.At(z.From(w));
    }
  }

  lemma TransferSelected(k0: set<Wire>, c: Conns, k: set<Wire>, c1: Conns, w: Wire, to: Wire, done: iset<Path>, z: Wire)
    requires Transferring(k0, c, k, c1, w, to, done) && z.root == to.root && !z.Under(InSide(to.root))
    ensures Transferring(k0, c, k + {z}, c1, w, to, done)
  {
  }

  lemma TransferChild(types: Types, k: set<Wire>, c: Conns, w: Wire, name: string, p: Path, l: Label)
    requires Selected(types, k) && Paired(types, c, w, name) && w.At(p).At([l]) in k
    ensures w.At(p).At([l]) == w.At(p + [l]) && OutSide(name).At(p).At([l]) == OutSide(name).At(p + [l])
    ensures TypeIn(types, OutSide(name).At(p).At([l])).Some?
    ensures OutSide(name).At(p + [l]).root == name && !OutSide(name).At(p + [l]).Under(InSide(name))
  {
    AtAt(w, p, [l]);
    AtAt(OutSide(name), p, [l]);
    LevelType(types, w, p + [l]);
    LevelType(types, OutSide(name), p + [l]);
  }

  lemma SelectsKept(k0: set<Wire>, k: set<Wire>, u: Wire, name: string)
    requires k0 <= k && u.root != name && forall z :: z in k && z !in k0 ==> z.root == name
    ensures SelectsIn(k, u) == SelectsIn(k0, u)
  {
    forall l ensures l in SelectsIn(k, u) <==> l in SelectsIn(k0, u) {
      assert u.At([l]).root == u.root;
    }
  }

  /** Moves the connections of `from` and everything selected from it to the same selects of `to`. */
  method PTTraverse(def: ModuleDef, from: Wire, to: Wire, ghost k0: set<Wire>, ghost c: Conns, ghost w: Wire,
      ghost name: string, ghost p: Path, ghost done: iset<Path>)
    requires def.Valid() && from in def.connected && to in def.connected
    requires from == w.At(p) && to == OutSide(name).At(p)
    requires Paired(def.Types(), c, w, name)
    requires Transferring(k0, c, def.connected.Keys, def.connections, w, OutSide(name), done) && done !! AtOrBelow(p)
    modifies def`connections, def`connected, def`metaData
    ensures def.Valid() && old(def.connected.Keys) <= def.connected.Keys
    ensures Transferring(k0, c, def.connected.Keys, def.connections, w, OutSide(name), done + AtOrBelow(p))
    decreases DepthIn(def.Types(), from), 1
  {
    ghost var types, dest := def.Types(), OutSide(name);
    assert p in AtOrBelow(p);
    PairedLevel(types, def.connected.Keys, c, def.connections, w, name, done, p);
    ghost var c0 := def.connections;
    MoveNeighbours(def, from, to);
    TransferredFirst(c, c0, def.connections, w, dest, done, p);
    var labels := def.Selects(from);
    SelectsKept(k0, def.connected.Keys, from, name);
    ghost var all, seen: set<Label> := labels, {};
    while labels != {}
      invariant def.Valid() && seen + labels == all && seen !! labels && old(def.connected.Keys) <= def.connected.Keys
      invariant all == SelectsIn(k0, from)
      invariant Transferring(k0, c, def.connected.Keys, def.connections, w, dest, done + iset{p} + BelowLabels(p, seen))
      decreases |labels|
    {
      ghost var some := Collections.Pick(labels);
      var l :| l in labels;
      PTSelect(def, from, to, l, k0, c, w, name, p, done, seen);
      Collections.MoveOne(all, seen, labels, l);
      seen, labels := seen + {l}, labels - {l};
    }
    assert seen == all;
    SelectsKept(k0, def.connected.Keys, from, name);
    TransferredLast(types, def.connected.Keys, c, def.connections, w, dest, done, p);
  }

  method PTSelect(def: ModuleDef, from: Wire, to: Wire, l: Label, ghost k0: set<Wire>, ghost c: Conns, ghost w: Wire,
      ghost name: string, ghost p: Path, ghost done: iset<Path>, ghost seen: set<Label>)
    requires def.Valid() && from.At([l]) in def.connected && to in def.connected
    requires from == w.At(p) && to == OutSide(name).At(p) && l !in seen
    requires Paired(def.Types(), c, w, name) && done !! AtOrBelow(p)
    requires Transferring(k0, c, def.connected.Keys, def.connections, w, OutSide(name),
      done + iset{p} + BelowLabels(p, seen))
    modifies def`connections, def`connected, def`metaData
    ensures def.Valid() && old(def.connected.Keys) <= def.connected.Keys
    ensures Transferring(k0, c, def.connected.Keys, def.connections, w, OutSide(name),
      done + iset{p} + BelowLabels(p, seen + {l}))
    decreases DepthIn(def.Types(), from), 0
  {
    ghost var k, part := def.connected.Keys, done + iset{p} + BelowLabels(p, seen);
    TransferChild(def.Types(), k, c, w, name, p, l);
    SelectDepth(def.Types(), k, from, l);
    var ok := def.Sel(to, l);
    TransferSelected(k0, c, k, def.connections, w, OutSide(name), part, to.At([l]));
    BelowFresh(done, p, seen, l);
    PTTraverse(def, from.At([l]), to.At([l]), k0, c, w, name, p + [l], part);
    TransferredNext(c, def.connections, w, OutSide(name), done, p, seen, l);
  }

  /** Nothing is connected to the wireables that `w` was selected from. */
  ghost predicate BareAbove(c: Conns, w: Wire) {
    forall i :: 0 <= i < |w.path| ==> Bare(c, Upto(w, i))
  }

  method CheckParents(def: ModuleDef, w: Wire) returns (ok: bool)
    requires def.Valid() && w in def.connected
    ensures ok <==> BareAbove(def.connections, w)
  {
    var i := |w.path|;
    while i > 0
      invariant 0 <= i <= |w.path|
      invariant forall j :: i <= j < |w.path| ==> Bare(def.connections, Upto(w, j))
    {
      i := i - 1;
      assert w.Under(Upto(w, i));
      NeighboursSelected(def.Types(), def.connections, def.connected, Upto(w, i));
      if def.connected[Upto(w, i)] != {} {
        ghost var y := Collections.Pick(def.connected[Upto(w, i)]);
        assert !Bare(def.connections, Upto(w, i));
        return false;
      }
    }
    return true;
  }

  /** All connections at or below `w` are on the "out" side instead, and `w` has one to the "in" side. */
  ghost predicate Added(c0: Conns, c1: Conns, w: Wire, name: string) {
    forall x, y :: (x, y) in c1 <==>
      || (x == w && y == InSide(name)) || (x == InSide(name) && y == w)
      || ((Origin(w, OutSide(name), x), Origin(w, OutSide(name), y)) in c0 && !x.Under(w) && !y.Under(w))
  }

  lemma TransferredAdded(c0: Conns, c1: Conns, c2: Conns, w: Wire, name: string)
    requires Transferred(c0, c1, w, OutSide(name), iset{} + AtOrBelow([]))
    requires c2 == c1 + {(w, InSide(name)), (InSide(name), w)}
    ensures Added(c0, c2, w, name)
  {
    assert forall p: Path :: IsBelow([], p);
    forall z ensures Settled(w, OutSide(name), iset{} + AtOrBelow([]), z) <==> !z.Under(w) {
    }
  }

  lemma AddedTypes(types: Types, w: Wire, name: string)
    requires WellTyped(types) && TypeIn(types, w).Some? && name !in types
    ensures TypeIn(types, w).value.Inhabited() && PassthroughType(TypeIn(types, w).value).Inhabited()
    ensures var more := types[name := PassthroughType(TypeIn(types, w).value)];
            && TypeIn(more, w) == TypeIn(types, w) == TypeIn(more, OutSide(name))
            && Fits(more, w, InSide(name)) && w.root != name
  {
    SelPathDepth(types[w.root], w.path);
    PassthroughInhabited(TypeIn(types, w).value);
    SideTypes(types[name := PassthroughType(TypeIn(types, w).value)], name, TypeIn(types, w).value);
  }

  /** The new instance, selected at its "out" side. */
  method AddSide(def: ModuleDef, w: Wire, name: string) returns (ok: bool)
    requires def.Valid() && w in def.connected && name != "self"
    modifies def`instances, def`connected, def.iter
    ensures def.Valid() && old(def.connected.Keys) <= def.connected.Keys
    ensures ok == (name !in old(def.instances))
    ensures ok ==> AddedInstance(old(def.instances), old(def.iter.order), old(def.Types()), def.instances,
      def.iter.order, def.Types(), w, name)
    ensures ok ==> Paired(def.Types(), def.connections, w, name)
    ensures ok ==> OutSide(name) in def.connected && NoSelects(def.connected.Keys, InSide(name))
    ensures ok ==> Within(def.connections, def.connected.Keys) && Fits(def.Types(), w, InSide(name))
  {
    hide Listed, Paired, Within, NoSelects;
    if name in def.instances {
      return false;
    }
    AddedTypes(def.Types(), w, name);
    var t := TypeIn(TypesOf(def.selfType, def.instances), w).value;
    SideAdded(def.Types(), def.connected.Keys, def.connections, w, name);
    EnterPassthrough(def, name, t);
    return true;
  }

  lemma SideAdded(types: Types, k: set<Wire>, c: Conns, w: Wire, name: string)
    requires WellTyped(types) && Selected(types, k) && Joined(types, k, c) && name !in types && w in k
    ensures var more, k1 := types[name := PassthroughType(TypeIn(types, w).value)], k + {Wire(name, []), OutSide(name)};
      && Paired(more, c, w, name) && Fits(more, w, InSide(name)) && Within(c, k1) && NoSelects(k1, InSide(name))
  {
    AddedTypes(types, w, name);
    NotAnInstance(types, k, c, name);
    OneSide(name, OutSide(name));
    forall x, y | (x, y) in c ensures x in k && y in k {
      assert (y, x) in c;
    }
  }

  method EnterPassthrough(def: ModuleDef, name: string, t: Type)
    requires def.Valid() && name != "self" && name !in def.instances && PassthroughType(t).Inhabited()
    modifies def`instances, def`connected, def.iter
    ensures def.Valid() && def.connected.Keys == old(def.connected.Keys) + {Wire(name, []), OutSide(name)}
    ensures name in def.instances && def.instances[name].moduleType == PassthroughType(t)
    ensures def.instances == old(def.instances)[name := def.instances[name]]
    ensures def.iter.order == old(def.iter.order) + [def.instances[name]]
    ensures def.Types() == old(def.Types())[name := PassthroughType(t)]
  {
    hide Wiring, Listed;
    var ok := def.AddInstance(name, PassthroughType(t));
    assert def.Types()[name] == PassthroughType(t);
    SideTypes(def.Types(), name, t);
    assert Wire(name, []).At([Field("out")]) == OutSide(name);
    ok := def.Sel(Wire(name, []), Field("out"));
  }

  ghost predicate AddedInstance(instances0: map<string, Instance>, order0: seq<Instance>, types0: Types,
      instances1: map<string, Instance>, order1: seq<Instance>, types1: Types, w: Wire, name: string)
  {
    && name in instances1 && TypeIn(types0, w).Some?
    && instances1[name].moduleType == PassthroughType(TypeIn(types0, w).value)
    && instances1 == instances0[name := instances1[name]] && order1 == order0 + [instances1[name]]
    && types1 == types0[name := PassthroughType(TypeIn(types0, w).value)]
  }

  lemma NotAnInstance(types: Types, k: set<Wire>, c: Conns, name: string)
    requires Selected(types, k) && Joined(types, k, c) && name !in types
    ensures Untouched(c, name) && forall z :: z in k ==> z.root != name
  {
    forall x, y | (x, y) in c ensures x.root != name && y.root != name {
      assert (y, x) in c;
    }
  }

  /** Inserts a passthrough called `name` between `w` and all that is connected at or below it. */
  method AddPassthrough(def: ModuleDef, w: Wire, name: string) returns (ok: bool)
    requires def.Valid() && w in def.connected && name != "self"
    modifies def, def.iter
    ensures def.Valid() && old(def.connected.Keys) <= def.connected.Keys
    ensures ok == (BareAbove(old(def.connections), w) && name !in old(def.instances))
    ensures ok ==> AddedInstance(old(def.instances), old(def.iter.order), old(def.Types()), def.instances,
      def.iter.order, def.Types(), w, name)
    ensures ok ==> Added(old(def.connections), def.connections, w, name)
    ensures ok ==> NoSelects(def.connected.Keys, InSide(name))
  {
    ok := CheckParents(def, w);
    if ok {
      ok := Insert(def, w, name);
    }
  }

  method Insert(def: ModuleDef, w: Wire, name: string) returns (ok: bool)
    requires def.Valid() && w in def.connected && name != "self"
    modifies def, def.iter
    ensures def.Valid() && old(def.connected.Keys) <= def.connected.Keys
    ensures ok == (name !in old(def.instances))
    ensures ok ==> AddedInstance(old(def.instances), old(def.iter.order), old(def.Types()), def.instances,
      def.iter.order, def.Types(), w, name)
    ensures ok ==> Added(old(def.connections), def.connections, w, name) && NoSelects(def.connected.Keys, InSide(name))
  {
    hide AddedInstance, Paired, Within, NoSelects, Added, ModuleDef.Valid;
    ok := AddSide(def, w, name);
    if ok {
      TransferAll(def, w, name);
    }
  }

  method TransferAll(def: ModuleDef, w: Wire, name: string)
    requires def.Valid() && w in def.connected && OutSide(name) in def.connected
    requires Paired(def.Types(), def.connections, w, name) && Within(def.connections, def.connected.Keys)
    requires NoSelects(def.connected.Keys, InSide(name)) && Fits(def.Types(), w, InSide(name))
    modifies def`connections, def`connected, def`metaData
    ensures def.Valid() && old(def.connected.Keys) <= def.connected.Keys
    ensures Added(old(def.connections), def.connections, w, name) && NoSelects(def.connected.Keys, InSide(name))
  {
    ghost var k0, c0 := def.connected.Keys, def.connections;
    TransferredNone(c0, w, OutSide(name));
    assert w.At([]) == w && OutSide(name).At([]) == OutSide(name);
    PTTraverse(def, w, OutSide(name), k0, c0, w, name, [], iset{});
    ConnectInSide(def, w, name, k0, c0);
  }

  method ConnectInSide(def: ModuleDef, w: Wire, name: string, ghost k0: set<Wire>, ghost c0: Conns)
    requires def.Valid() && Paired(def.Types(), c0, w, name) && w in def.connected
    requires Transferring(k0, c0, def.connected.Keys, def.connections, w, OutSide(name), iset{} + AtOrBelow([]))
    requires NoSelects(k0, InSide(name)) && Fits(def.Types(), w, InSide(name))
    modifies def`connections, def`connected
    ensures def.Valid() && old(def.connected.Keys) <= def.connected.Keys
    ensures Added(c0, def.connections, w, name) && NoSelects(def.connected.Keys, InSide(name))
  {
    ghost var c1, k1 := def.connections, def.connected.Keys;
    InSideFree(c0, c1, w, name, iset{} + AtOrBelow([]));
    var ok := def.ConnectPaths(w, InSide(name));
    TransferredAdded(c0, c1, def.connections, w, name);
    forall u | u in def.connected && u.Under(InSide(name)) ensures u == InSide(name) {
      assert u in k1 || w.Under(u) || InSide(name).Under(u);
    }
  }

  lemma InSideFree(c0: Conns, c1: Conns, w: Wire, name: string, done: iset<Path>)
    requires Transferred(c0, c1, w, OutSide(name), done) && Untouched(c0, name)
    ensures (w, InSide(name)) !in c1
  {
    assert InSide(name).path[0] == Field("in") && OutSide(name).path[0] == Field("out") && |"in"| != |"out"|;
    assert !InSide(name).Under(OutSide(name));
  }

  // ----- adding and then inlining -----

  lemma SidesSeparate(name: string)
    ensures Separate(InSide(name), OutSide(name))
  {
    assert InSide(name).path[0] == Field("in") && OutSide(name).path[0] == Field("out") && |"in"| != |"out"|;
  }

  lemma AddedBare(c0: Conns, c1: Conns, w: Wire, name: string)
    requires Added(c0, c1, w, name) && Untouched(c0, name) && w.root != name
    ensures Bare(c1, Wire(name, []))
  {
  }

  lemma AddedMovable(c0: Conns, c1: Conns, w: Wire, name: string)
    requires Added(c0, c1, w, name) && Untouched(c0, name) && w.root != name && Symmetric(c1)
    requires forall x :: (x, x) !in c0
    ensures Movable(Moving(c1, w), InSide(name), OutSide(name))
  {
    SidesSeparate(name);
  }

  /** What moving back gives after a passthrough was added is what there was before. */
  lemma MovedBackRestores(c0: Conns, c1: Conns, c2: Conns, w: Wire, name: string)
    requires Added(c0, c1, w, name) && Untouched(c0, name) && w.root != name
    requires MovedBack(Moving(c1, w), name, c2)
    ensures c2 == c0
  {
    forall z ensures z in c2 <==> z in c0 {
      assert z == (z.0, z.1);
      if z.0.root != name && z.1.root != name {
        OutPlaceOrigin(w, name, z.0);
        OutPlaceOrigin(w, name, z.1);
      }
    }
  }

  lemma OutPlaceOrigin(w: Wire, name: string, x: Wire)
    requires w.root != name && x.root != name
    ensures Origin(w, OutSide(name), OutPlace(OutSide(name), w, x)) == x
    ensures !OutPlace(OutSide(name), w, x).Under(w)
  {
    if x.Under(w) {
      AtFrom(OutSide(name), x, x.From(w));
      AtFrom(w, x, []);
    }
  }

  /** Inlining the passthrough just added succeeds and restores every connection, every instance and their order. */
  method AddThenInline(def: ModuleDef, w: Wire, name: string) returns (ok: bool)
    requires def.Valid() && w in def.connected && name != "self"
    requires BareAbove(def.connections, w) && name !in def.instances
    modifies def, def.iter
    ensures ok && def.Valid()
    ensures def.connections == old(def.connections)
    ensures def.instances == old(def.instances) && def.iter.order == old(def.iter.order)
  {
    ghost var t, c0, order0, instances0 := TypeIn(def.Types(), w).value, def.connections, def.iter.order, def.instances;
    AddMovable(def, w, name);
    ghost var c1 := def.connections;
    RemovedLast(order0, def.instances[name]);
    RemovedEntry(instances0, name, def.instances[name]);
    ok := InlinePassthrough(def, name, t, Moving(c1, w));
    MovedBackRestores(c0, c1, def.connections, w, name);
  }

  lemma RemovedEntry(instances: map<string, Instance>, name: string, x: Instance)
    requires name !in instances
    ensures instances[name := x] - {name} == instances
  {
  }

  method AddMovable(def: ModuleDef, w: Wire, name: string)
    requires def.Valid() && w in def.connected && name != "self"
    requires BareAbove(def.connections, w) && name !in def.instances
    modifies def, def.iter
    ensures def.Valid()
    ensures Untouched(old(def.connections), name) && w.root != name && Symmetric(old(def.connections))
    ensures AddedInstance(old(def.instances), old(def.iter.order), old(def.Types()), def.instances, def.iter.order,
      def.Types(), w, name)
    ensures Added(old(def.connections), def.connections, w, name) && Bare(def.connections, Wire(name, []))
    ensures Movable(Moving(def.connections, w), InSide(name), OutSide(name))
    ensures NoSelects(def.connected.Keys, InSide(name))
    ensures def.instances[name] !in old(def.iter.order)
  {
    ghost var c0, types0, keys0 := def.connections, def.Types(), def.connected.Keys;
    AddedTypes(def.Types(), w, name);
    NotAnInstance(def.Types(), def.connected.Keys, c0, name);
    ListedNot(def.instances, def.iter.order, name);
    var ok := AddPassthrough(def, w, name);
    AddedBare(c0, def.connections, w, name);
    forall x ensures (x, x) !in c0 {
      NoLoop(types0, keys0, c0, x);
    }
    AddedMovable(c0, def.connections, w, name);
  }

  lemma ListedNot(instances: map<string, Instance>, order: seq<Instance>, name: string)
    requires Listed(instances, order) && name !in instances
    ensures forall x :: x in order ==> x.name != name
  {
  }

  lemma {:induction false} RemovedLast(order: seq<Instance>, x: Instance)
    ensures x !in order ==> Removed(order + [x], x) == order
  {
    if x !in order {
      var longer := order + [x];
      assert longer[|order|] == x;
      forall i | 0 <= i < |order| ensures longer[i] != x {
        assert longer[i] == order[i];
      }
      assert longer[..|order|] == order && longer[|order| + 1..] == [];
    }
  }
}
