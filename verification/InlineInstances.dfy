/** Inlining an instance: replacing it by the contents of its definition. */
module InlineInstances {
  // The definition's instances and connections are copied under a prefix, a passthrough
  // stands for each side of the boundary, and inlining the two passthroughs joins what was
  // connected to the instance with what was connected to the interface of its definition.

  import opened Wires
  import opened Chains
  import opened ModuleDefs
  import opened InstanceOrder
  import opened Inline
  import opened Passthroughs
  import opened Boundaries
  import opened Drivers
  import opened Loops
  import opened Validation
  import Collections
  import Names
  import Runs

  // ----- the steps -----

  /** `after` has the instances `before` and, under the prefix, those of `inner` whose names are in `names`. */
  ghost predicate Brought(before: map<string, Instance>, after: map<string, Instance>, inner: map<string, Instance>,
      names: set<string>, prefix: string)
  {
    && (forall r :: r in before ==> r in after && after[r] == before[r])
    && (forall r :: r in after ==> r in before || (prefix <= r && r[|prefix|..] in names))
    && (forall n :: n in names ==>
      n in inner && prefix + n !in before && prefix + n in after && after[prefix + n].moduleType == inner[n].moduleType)
  }

  lemma BroughtMore(before: map<string, Instance>, mid: map<string, Instance>, after: map<string, Instance>,
      inner: map<string, Instance>, names: set<string>, prefix: string, n: string)
    requires Brought(before, mid, inner, names, prefix) && n in inner && n !in names
    requires prefix + n !in mid && prefix + n in after && after == mid[prefix + n := after[prefix + n]]
    requires after[prefix + n].moduleType == inner[n].moduleType
    ensures Brought(before, after, inner, names + {n}, prefix)
  {
    assert (prefix + n)[|prefix|..] == n;
    forall m | m in names ensures prefix + m != prefix + n {
      assert (prefix + m)[|prefix|..] == m;
    }
  }

  /** No instance has one of the names under the prefix. */
  predicate Clear(before: map<string, Instance>, names: set<string>, prefix: string) {
    forall n :: n in names ==> prefix + n !in before
  }

  lemma NotBroughtYet(before: map<string, Instance>, mid: map<string, Instance>, inner: map<string, Instance>,
      names: set<string>, prefix: string, n: string)
    requires Brought(before, mid, inner, names, prefix) && n !in names
    ensures prefix + n in mid <==> prefix + n in before
  {
    assert (prefix + n)[|prefix|..] == n;
  }

  /** The walk after some of the names have been brought; those of `left` are still to come. */
  ghost predicate WalksOn(before: seq<string>, after: seq<string>, all: set<string>, left: set<string>, prefix: string)
  {
    exists done :: after == before + Names.UnderPrefix(prefix, done) && Names.Sorted(all) == done + Names.Sorted(left)
  }

  lemma WalksStart(before: seq<string>, all: set<string>, prefix: string)
    ensures WalksOn(before, before, all, all, prefix)
  {
    assert before == before + Names.UnderPrefix(prefix, []) && Names.Sorted(all) == [] + Names.Sorted(all);
  }

  lemma WalksNext(before: seq<string>, after: seq<string>, all: set<string>, left: set<string>, prefix: string,
      n: string)
    requires WalksOn(before, after, all, left, prefix) && Names.IsFirst(left, n)
    ensures WalksOn(before, after + [prefix + n], all, left - {n}, prefix)
  {
    hide Names.Sorted, Names.IsFirst;
    var done :| after == before + Names.UnderPrefix(prefix, done) && Names.Sorted(all) == done + Names.Sorted(left);
    Names.SortedFirst(left, n);
    var rest := Names.Sorted(left - {n});
    assert done + ([n] + rest) == done + [n] + rest;
    assert Names.UnderPrefix(prefix, done + [n]) == Names.UnderPrefix(prefix, done) + [prefix + n];
    assert after + [prefix + n] == before + Names.UnderPrefix(prefix, done + [n]);
  }

  lemma WalksEnd(before: seq<string>, after: seq<string>, all: set<string>, prefix: string)
    requires WalksOn(before, after, all, {}, prefix)
    ensures after == before + Names.UnderPrefix(prefix, Names.Sorted(all))
  {
    var done :| after == before + Names.UnderPrefix(prefix, done) && Names.Sorted(all) == done + Names.Sorted({});
    assert done + [] == done;
  }

  method BringInstances(def: ModuleDef, inner: map<string, Instance>, instance: string) returns (ok: bool)
    requires def.Valid() && forall n :: n in inner ==> inner[n].moduleType.Inhabited()
    modifies def`instances, def`connected, def.iter
    ensures def.Valid() && old(def.connected.Keys) <= def.connected.Keys
    ensures ok <==> Clear(old(def.instances), inner.Keys, Prefix(instance))
    ensures ok ==> Brought(old(def.instances), def.instances, inner, inner.Keys, Prefix(instance))
    ensures ok ==> def.Walk() == old(def.Walk()) + Names.UnderPrefix(Prefix(instance), Names.Sorted(inner.Keys))
  {
    hide ModuleDef.Valid, WalksOn, ModuleDef.Walk;
    var names := inner.Keys;
    WalksStart(def.Walk(), names, Prefix(instance));
    ghost var done: set<string> := {};
    while names != {}
      invariant def.Valid() && done + names == inner.Keys && done !! names
      invariant old(def.connected.Keys) <= def.connected.Keys
      invariant Brought(old(def.instances), def.instances, inner, done, Prefix(instance))
      invariant WalksOn(old(def.Walk()), def.Walk(), inner.Keys, names, Prefix(instance))
      decreases |names|
    {
      Names.HasFirst(names);
      var n :| Names.IsFirst(names, n);
      PrefixedNames(instance, n);
      ghost var mid, walk := def.instances, def.Walk();
      NotBroughtYet(old(def.instances), mid, inner, done, Prefix(instance), n);
      ok := BringOne(def, Prefix(instance) + n, inner[n].moduleType);
      if !ok {
        return;
      }
      BroughtMore(old(def.instances), mid, def.instances, inner, done, Prefix(instance), n);
      WalksNext(old(def.Walk()), walk, inner.Keys, names, Prefix(instance), n);
      Collections.MoveOne(inner.Keys, done, names, n);
      done, names := done + {n}, names - {n};
    }
    assert done == inner.Keys;
    WalksEnd(old(def.Walk()), def.Walk(), inner.Keys, Prefix(instance));
    return true;
  }

  method BringOne(def: ModuleDef, name: string, moduleType: Type) returns (ok: bool)
    requires def.Valid() && name != "self" && moduleType.Inhabited()
    modifies def`instances, def`connected, def.iter
    ensures def.Valid() && old(def.connected.Keys) <= def.connected.Keys
    ensures ok == (name !in old(def.instances))
    ensures ok ==> name in def.instances && def.instances == old(def.instances)[name := def.instances[name]]
    ensures ok ==> def.instances[name].moduleType == moduleType
    ensures ok ==> def.Walk() == old(def.Walk()) + [name]
  {
    hide ModuleDef.Valid;
    ok := def.AddInstance(name, moduleType);
    assert ok ==> def.Types()[name] == moduleType;
  }

  /** What can be brought: connections that fit under the prefix, where nothing is connected yet. */
  ghost predicate Bringable(types: Types, c: Conns, inner: Conns, prefix: string) {
    && Symmetric(inner)
    && (forall u, v :: (u, v) in inner && u.root != "self" && v.root != "self" ==>
      Fits(types, Copy(prefix, u), Copy(prefix, v)))
    && (forall u, v :: (u, v) in inner && u.root != "self" ==> Untouched(c, prefix + u.root))
  }

  lemma CopiedNone(c: Conns, prefix: string)
    ensures Copied(c, c, {}, prefix)
  {
  }

  lemma CopiedSelf(c0: Conns, c1: Conns, inner: Conns, prefix: string, a: Wire, b: Wire)
    requires Copied(c0, c1, inner, prefix) && (a.root == "self" || b.root == "self")
    ensures Copied(c0, c1, inner + {(a, b), (b, a)}, prefix)
  {
  }

  lemma CopiedMore(c0: Conns, c1: Conns, inner: Conns, prefix: string, a: Wire, b: Wire)
    requires Copied(c0, c1, inner, prefix) && a.root != "self" && b.root != "self"
    ensures Copied(c0, c1 + {(Copy(prefix, a), Copy(prefix, b)), (Copy(prefix, b), Copy(prefix, a))},
      inner + {(a, b), (b, a)}, prefix)
  {
    forall x: Wire, y: Wire
      ensures Prefixed(prefix, x) && Prefixed(prefix, y) && Strip(prefix, x) == a && Strip(prefix, y) == b <==>
        x == Copy(prefix, a) && y == Copy(prefix, b)
    {
      StripCopy(prefix, x);
      StripCopy(prefix, y);
      StripCopy(prefix, a);
      StripCopy(prefix, b);
    }
  }

  /** A connection not brought yet is not there. */
  lemma NotCopiedYet(types: Types, c0: Conns, c1: Conns, all: Conns, done: Conns, prefix: string, a: Wire, b: Wire)
    requires Bringable(types, c0, all, prefix) && Copied(c0, c1, done, prefix) && (a, b) in all && (a, b) !in done
    requires a.root != "self"
    ensures (Copy(prefix, a), Copy(prefix, b)) !in c1
  {
    StripCopy(prefix, a);
    StripCopy(prefix, b);
    assert Untouched(c0, prefix + a.root);
  }

  method BringConnections(def: ModuleDef, inner: Conns, prefix: string)
    requires def.Valid() && Bringable(def.Types(), def.connections, inner, prefix)
    modifies def`connections, def`connected
    ensures def.Valid() && old(def.connected.Keys) <= def.connected.Keys
    ensures Copied(old(def.connections), def.connections, inner, prefix)
  {
    hide ModuleDef.Valid, Copied;
    var todo := inner;
    ghost var c0, done: Conns := def.connections, {};
    CopiedNone(c0, prefix);
    while todo != {}
      invariant def.Valid() && old(def.connected.Keys) <= def.connected.Keys
      invariant done + todo == inner && done !! todo && Symmetric(done)
      invariant Copied(c0, def.connections, done, prefix)
      decreases |todo|
    {
      ghost var some := Collections.Pick(todo);
      var c :| c in todo;
      assert (c.0, c.1) in inner && (c.0, c.1) !in done;
      ghost var c1 := def.connections;
      if c.0.root != "self" && c.1.root != "self" {
        NotCopiedYet(def.Types(), c0, c1, inner, done, prefix, c.0, c.1);
        var ok := def.ConnectPaths(Copy(prefix, c.0), Copy(prefix, c.1));
        CopiedMore(c0, c1, done, prefix, c.0, c.1);
      } else {
        CopiedSelf(c0, c1, done, prefix, c.0, c.1);
      }
      CopyStep(inner, done, todo, c.0, c.1);
      done, todo := done + {(c.0, c.1), (c.1, c.0)}, Cut(todo, c.0, c.1);
    }
    assert done == inner;
  }

  lemma InterfaceType(selfType: Type, instances: map<string, Instance>)
    ensures TypeIn(TypesOf(selfType, instances), Wire("self", [])) == Some(selfType)
  {
  }

  lemma SameNames(selfType: Type, some: map<string, Instance>, others: map<string, Instance>)
    requires TypesOf(selfType, some) == TypesOf(selfType, others) && "self" !in some && "self" !in others
    ensures some.Keys == others.Keys
  {
    assert some.Keys == TypesOf(selfType, some).Keys - {"self"};
    assert others.Keys == TypesOf(selfType, others).Keys - {"self"};
  }

  lemma NotAnInstanceUnless(types: Types, k: set<Wire>, c: Conns, name: string)
    requires Selected(types, k) && Joined(types, k, c)
    ensures name !in types ==> Untouched(c, name)
  {
    if name !in types {
      NotAnInstance(types, k, c, name);
    }
  }

  /** A copy of the definition with a passthrough at its interface. */
  method QuarantineInside(inner: ModuleDef) returns (ok: bool, copy: ModuleDef)
    requires inner.Valid()
    ensures fresh(copy) && fresh(copy.iter) && copy.Valid()
    ensures ok <==> INSIDE !in inner.instances
    ensures ok ==> Added(inner.connections, copy.connections, Wire("self", []), INSIDE)
    ensures ok ==> Untouched(inner.connections, INSIDE)
    ensures ok ==> copy.Types() == inner.Types()[INSIDE := PassthroughType(inner.selfType)]
  {
    InterfaceType(inner.selfType, inner.instances);
    NotAnInstanceUnless(inner.Types(), inner.connected.Keys, inner.connections, INSIDE);
    assert |INSIDE| != |"self"|;
    copy := inner.Copy();
    SameNames(inner.selfType, copy.instances, inner.instances);
    assert OnConnection(inner.Types(), inner.connections, Wire("self", []));
    ok := AddPassthrough(copy, Wire("self", []), INSIDE);
  }

  lemma BroughtTypes(selfType: Type, before: map<string, Instance>, after: map<string, Instance>, innerSelf: Type,
      inner: map<string, Instance>, prefix: string, z: Wire)
    requires Brought(before, after, inner, inner.Keys, prefix) && z.root != "self" && prefix + z.root != "self"
    requires z.root in inner
    ensures TypeIn(TypesOf(selfType, after), Copy(prefix, z)) == TypeIn(TypesOf(innerSelf, inner), z)
  {
    assert TypesOf(selfType, after)[prefix + z.root] == after[prefix + z.root].moduleType;
  }

  lemma BringableAfter(selfType: Type, before: map<string, Instance>, after: map<string, Instance>, k0: set<Wire>,
      c: Conns, innerSelf: Type, inner: map<string, Instance>, k1: set<Wire>, c1: Conns, instance: string)
    requires Brought(before, after, inner, inner.Keys, Prefix(instance))
    requires Selected(TypesOf(selfType, before), k0) && Joined(TypesOf(selfType, before), k0, c)
    requires Selected(TypesOf(innerSelf, inner), k1) && Joined(TypesOf(innerSelf, inner), k1, c1)
    ensures Bringable(TypesOf(selfType, after), c, c1, Prefix(instance))
  {
    var p := Prefix(instance);
    forall u, v | (u, v) in c1 && u.root != "self" ensures u.root in inner && Untouched(c, p + u.root) {
      assert TypeIn(TypesOf(innerSelf, inner), u).Some?;
      PrefixedNames(instance, u.root);
      NotAnInstance(TypesOf(selfType, before), k0, c, p + u.root);
    }
    forall u, v | (u, v) in c1 && u.root != "self" && v.root != "self"
      ensures Fits(TypesOf(selfType, after), Copy(p, u), Copy(p, v))
    {
      assert (v, u) in c1;
      PrefixedNames(instance, u.root);
      PrefixedNames(instance, v.root);
      BroughtTypes(selfType, before, after, innerSelf, inner, p, u);
      BroughtTypes(selfType, before, after, innerSelf, inner, p, v);
    }
  }

  lemma InnerInhabited(selfType: Type, inner: map<string, Instance>)
    requires WellTyped(TypesOf(selfType, inner)) && "self" !in inner
    ensures forall n :: n in inner ==> inner[n].moduleType.Inhabited()
  {
    forall n | n in inner ensures inner[n].moduleType.Inhabited() {
      assert TypesOf(selfType, inner)[n] == inner[n].moduleType;
    }
  }

  lemma WiringOf(def: ModuleDef)
    requires def.Valid()
    ensures var types := TypesOf(def.selfType, def.instances);
      WellTyped(types) && Selected(types, def.connected.Keys) && Joined(types, def.connected.Keys, def.connections)
    ensures "self" !in def.instances
  {
  }

  /** The instances of a definition and its connections away from the interface, under the prefix. */
  method Bring(def: ModuleDef, copy: ModuleDef, instance: string) returns (ok: bool)
    requires def.Valid() && copy.Valid() && def != copy && def.iter != copy.iter
    modifies def`instances, def`connections, def`connected, def.iter
    ensures def.Valid() && old(def.connected.Keys) <= def.connected.Keys
    ensures ok <==> Clear(old(def.instances), copy.instances.Keys, Prefix(instance))
    ensures ok ==> Brought(old(def.instances), def.instances, copy.instances, copy.instances.Keys, Prefix(instance))
    ensures ok ==> Copied(old(def.connections), def.connections, copy.connections, Prefix(instance))
    ensures ok ==>
      def.Walk() == old(def.Walk()) + Names.UnderPrefix(Prefix(instance), Names.Sorted(copy.instances.Keys))
  {
    hide ModuleDef.Valid, Brought, Copied, Clear, Bringable, ModuleDef.Walk, Names.UnderPrefix;
    ghost var before, k0 := def.instances, def.connected.Keys;
    WiringOf(def);
    WiringOf(copy);
    InnerInhabited(copy.selfType, copy.instances);
    ok := BringInstances(def, copy.instances, instance);
    if ok {
      BringableAfter(def.selfType, before, def.instances, k0, def.connections, copy.selfType, copy.instances,
        copy.connected.Keys, copy.connections, instance);
      BringConnections(def, copy.connections, Prefix(instance));
    }
  }

  lemma InSidesFit(types: Types, outside: string, inside: string, t: Type)
    requires outside in types && types[outside] == PassthroughType(t.Flip())
    requires inside in types && types[inside] == PassthroughType(t)
    ensures Fits(types, InSide(outside), InSide(inside))
  {
    SideTypes(types, outside, t.Flip());
    SideTypes(types, inside, t);
  }

  lemma InSideTaken(c1: Conns, c2: Conns, w: Wire, name: string, z: Wire)
    requires Added(c1, c2, w, name) && Untouched(c1, name) && z != w
    ensures (InSide(name), z) !in c2
  {
    OneSide(name, InSide(name));
  }

  /** `d` is `c1` with a passthrough in place of the instance, joined with the one inside. */
  ghost predicate OutsideDone(instance: string, c1: Conns, c2: Conns, c3: Conns, d: Conns) {
    && Added(c1, c2, Wire(instance, []), OUTSIDE) && Untouched(c1, OUTSIDE)
    && c3 == c2 + {(InSide(OUTSIDE), InSide(Prefix(instance) + INSIDE)),
      (InSide(Prefix(instance) + INSIDE), InSide(OUTSIDE))}
    && Passthroughs.Elsewhere(c3, d, instance)
  }

  /** Puts a passthrough in the place of the instance, joins it with the one inside and removes the instance. */
  method QuarantineOutside(def: ModuleDef, instance: string, ghost t: Type)
    returns (ok: bool, ghost c2: Conns, ghost c3: Conns)
    requires def.Valid() && instance in def.instances && def.instances[instance].moduleType == t.Flip()
    requires var inside := Prefix(instance) + INSIDE;
      inside in def.instances && def.instances[inside].moduleType == PassthroughType(t)
    modifies def, def.iter
    ensures def.Valid()
    ensures ok <==> OUTSIDE !in old(def.instances)
    ensures ok ==> NoSelects(def.connected.Keys, InSide(OUTSIDE))
    ensures ok ==> OUTSIDE in def.instances && def.instances[OUTSIDE].moduleType == PassthroughType(t.Flip())
    ensures ok ==> def.instances == old(def.instances)[OUTSIDE := def.instances[OUTSIDE]] - {instance}
    ensures ok ==> OutsideDone(instance, old(def.connections), c2, c3, def.connections)
    ensures ok ==> def.Walk() == Names.Omit(old(def.Walk()) + [OUTSIDE], instance)
  {
    hide ModuleDef.Walk, Names.Omit, Added, ModuleDef.Valid, Passthroughs.Elsewhere;
    ghost var c1 := def.connections;
    ok := OutsideAdded(def, instance, t);
    c2, c3 := def.connections, {};
    if ok {
      InSideTaken(c1, c2, Wire(instance, []), OUTSIDE, InSide(Prefix(instance) + INSIDE));
      JoinInSides(def, instance, t);
      c3 := def.connections;
      Drop(def, instance);
    }
  }

  method JoinInSides(def: ModuleDef, instance: string, ghost t: Type)
    requires def.Valid() && NoSelects(def.connected.Keys, InSide(OUTSIDE))
    requires var types, inside := def.Types(), Prefix(instance) + INSIDE;
      && OUTSIDE in types && types[OUTSIDE] == PassthroughType(t.Flip())
      && inside in types && types[inside] == PassthroughType(t)
    requires (InSide(OUTSIDE), InSide(Prefix(instance) + INSIDE)) !in def.connections
    modifies def`connections, def`connected
    ensures def.Valid() && NoSelects(def.connected.Keys, InSide(OUTSIDE))
    ensures def.connections == old(def.connections) + {(InSide(OUTSIDE), InSide(Prefix(instance) + INSIDE)),
                                                       (InSide(Prefix(instance) + INSIDE), InSide(OUTSIDE))}
  {
    InSidesFit(def.Types(), OUTSIDE, Prefix(instance) + INSIDE, t);
    PrefixedNames(instance, INSIDE);
    var ok := def.ConnectPaths(InSide(OUTSIDE), InSide(Prefix(instance) + INSIDE));
  }

  method OutsideAdded(def: ModuleDef, instance: string, ghost t: Type) returns (ok: bool)
    requires def.Valid() && instance in def.instances && def.instances[instance].moduleType == t.Flip()
    requires var inside := Prefix(instance) + INSIDE;
      inside in def.instances && def.instances[inside].moduleType == PassthroughType(t)
    modifies def, def.iter
    ensures def.Valid()
    ensures ok ==> Added(old(def.connections), def.connections, Wire(instance, []), OUTSIDE)
    ensures ok ==> Untouched(old(def.connections), OUTSIDE)
    ensures ok <==> OUTSIDE !in old(def.instances)
    ensures ok ==> NoSelects(def.connected.Keys, InSide(OUTSIDE))
    ensures ok ==> OUTSIDE in def.instances && def.instances[OUTSIDE].moduleType == PassthroughType(t.Flip())
    ensures ok ==> def.instances == old(def.instances)[OUTSIDE := def.instances[OUTSIDE]]
    ensures ok ==> def.Walk() == old(def.Walk()) + [OUTSIDE]
    ensures ok ==> var types, inside := def.Types(), Prefix(instance) + INSIDE;
      && OUTSIDE in types && types[OUTSIDE] == PassthroughType(t.Flip())
      && inside in types && types[inside] == PassthroughType(t)
  {
    hide ModuleDef.Valid;
    OutsideReady(def, instance, t);
    ok := AddPassthrough(def, Wire(instance, []), OUTSIDE);
    if ok {
      def.NameKept(OUTSIDE);
    }
  }

  lemma OutsideReady(def: ModuleDef, instance: string, t: Type)
    requires def.Valid() && instance in def.instances && def.instances[instance].moduleType == t.Flip()
    requires var inside := Prefix(instance) + INSIDE;
      inside in def.instances && def.instances[inside].moduleType == PassthroughType(t)
    ensures var types, inside := def.Types(), Prefix(instance) + INSIDE;
      && inside in types && types[inside] == PassthroughType(t)
      && TypeIn(types, Wire(instance, [])) == Some(t.Flip()) && Wire(instance, []) in def.connected
      && inside != OUTSIDE && OUTSIDE != "self"
    ensures OUTSIDE !in def.instances ==> Untouched(def.connections, OUTSIDE)
  {
    ghost var types, inside := def.Types(), Prefix(instance) + INSIDE;
    assert types[instance] == t.Flip() && types[inside] == PassthroughType(t);
    PrefixedNames(instance, INSIDE);
    NotAnInstanceUnless(types, def.connected.Keys, def.connections, OUTSIDE);
    assert |OUTSIDE| != |"self"|;
  }

  // ----- what the steps come to -----

  lemma BareQuarantined(b: Boundary, k: Conns, d: Conns)
    requires b.Distinct() && Quarantined(b, k, d) && Untouched(k, b.outside) && Untouched(k, b.inside)
    ensures Bare(d, Wire(b.outside, [])) && Bare(d, Wire(b.inside, []))
  {
  }

  /** Inlining one passthrough connects nothing to the other as a whole. */
  lemma BareStays(c: Conns, d: Conns, name: string, other: string)
    requires JoinsAcross(c, d, name) && Untouched(d, name) && Bare(c, Wire(other, [])) && other != name
    ensures Bare(d, Wire(other, []))
  {
    var w := Wire(other, []);
    forall y ensures (w, y) !in d {
      if (w, y) in d {
        assert w.At([]) == w && y.At([]) == y;
        assert WiredBy(d, w, y, [], w, y);
        var k: nat :| AltSteps(Bits(c), Sides(InSide(name), OutSide(name)), w, y, k);
        var z := FirstOf(Bits(c), Sides(InSide(name), OutSide(name)), w, y, k);
        BareNotWired(c, w, z);
        assert false;
      }
    }
  }

  lemma BareNotWired(c: Conns, w: Wire, z: Wire)
    requires Bare(c, w) && w.path == []
    ensures !Wired(c, w, z)
  {
    forall u: Wire, v: Wire, p: Path ensures !WiredBy(c, u, v, p, w, z) {
      assert u.At(p) == w ==> u == w;
    }
  }

  lemma FirstOf(edges: Relation, crossings: Relation, x: Wire, y: Wire, k: nat) returns (z: Wire)
    requires AltSteps(edges, crossings, x, y, k)
    ensures (x, z) in edges
  {
    if k == 0 {
      z := y;
    } else {
      var n: Wire;
      z, n := FirstCrossing(edges, crossings, x, y, k);
    }
  }

  lemma UntouchedWired(c: Conns, name: string, x: Wire, y: Wire)
    requires Untouched(c, name) && Wired(c, x, y)
    ensures x.root != name && y.root != name
  {
    var u, v, p :| WiredBy(c, u, v, p, x, y);
  }

  lemma SummaryOf(c: Conns, d: Conns, name: string)
    requires JoinsAcross(c, d, name) && Untouched(d, name)
    ensures Summary(c, d, Sides(InSide(name), OutSide(name)), name)
  {
    forall x: Wire, y: Wire
      ensures (x, y) in Bits(d) <==>
        x.root != name && y.root != name && Alt(Bits(c), Sides(InSide(name), OutSide(name)), x, y)
    {
      if Wired(d, x, y) {
        UntouchedWired(d, name, x, y);
      }
    }
  }

  /**
   Bits that survive are wired after inlining exactly if they were wired by connections
   of the two definitions, changing from one to the other at the instance's ports.
  */
  ghost predicate Inlined(b: Boundary, k: Conns, d: Conns) {
    forall x: Wire, y: Wire :: b.Survives(x) && b.Survives(y) ==> (Wired(d, x, y) <==> Alt(Bits(k), b.Ports(), x, y))
  }

  lemma InlinedBoth(b: Boundary, k: Conns, d1: Conns, d2: Conns, d3: Conns)
    requires b.Distinct() && Quarantined(b, k, d1) && Untouched(k, b.outside) && Untouched(k, b.inside)
    requires JoinsAcross(d1, d2, b.outside) && Untouched(d2, b.outside) && JoinsAcross(d2, d3, b.inside)
    ensures Inlined(b, k, d3)
  {
    var j1, j2 := Sides(InSide(b.outside), OutSide(b.outside)), Sides(InSide(b.inside), OutSide(b.inside));
    SummaryOf(d1, d2, b.outside);
    forall x: Wire, y: Wire | b.Survives(x) && b.Survives(y)
      ensures Wired(d3, x, y) <==> Alt(Bits(k), b.Ports(), x, y)
    {
      if Wired(d3, x, y) {
        SummaryAltForth(d1, d2, j1, j2, b.outside, x, y);
        BoundaryForth(b, k, d1, x, y);
      }
      if Alt(Bits(k), b.Ports(), x, y) {
        BoundaryBack(b, k, d1, x, y);
        SummaryAltBack(d1, d2, j1, j2, b.outside, x, y);
      }
    }
  }

  /** The instances are those outside without the instance, those inside under the prefix, and the two passthroughs. */
  ghost predicate InPlace(outer: map<string, Instance>, inner: map<string, Instance>, after: map<string, Instance>,
      instance: string, t: Type)
  {
    var inside := Prefix(instance) + INSIDE;
    && instance in outer && instance !in after
    && OUTSIDE !in outer && OUTSIDE in after && after[OUTSIDE].moduleType == PassthroughType(t.Flip())
    && inside !in outer && inside in after && after[inside].moduleType == PassthroughType(t)
    && INSIDE !in inner
    && Brought(outer - {instance}, after - {OUTSIDE, inside}, inner, inner.Keys, Prefix(instance))
  }

  /** `copy` has the instances of `inner` and the passthrough at the interface. */
  ghost predicate WithInside(inner: map<string, Instance>, copy: map<string, Instance>, t: Type) {
    && INSIDE !in inner && INSIDE in copy && copy[INSIDE].moduleType == PassthroughType(t)
    && (forall n :: n in inner ==> n in copy && copy[n].moduleType == inner[n].moduleType)
    && (forall n :: n in copy ==> n in inner || n == INSIDE)
  }

  lemma CopyWithInside(t: Type, inner: map<string, Instance>, copyType: Type, copy: map<string, Instance>)
    requires TypesOf(copyType, copy) == TypesOf(t, inner)[INSIDE := PassthroughType(t)]
    requires "self" !in inner && "self" !in copy && INSIDE !in inner
    ensures WithInside(inner, copy, t)
  {
    var ts, us := TypesOf(copyType, copy), TypesOf(t, inner);
    assert |INSIDE| != |"self"|;
    assert INSIDE in ts;
    forall n | n in inner ensures n in copy && copy[n].moduleType == inner[n].moduleType {
      assert n in us && us[n] == inner[n].moduleType;
      assert n in ts && ts[n] == us[n];
    }
    forall n | n in copy ensures n in inner || n == INSIDE {
      assert n in ts;
    }
  }

  lemma BroughtInside(outer: map<string, Instance>, after: map<string, Instance>, inner: map<string, Instance>,
      copy: map<string, Instance>, instance: string, t: Type)
    requires Brought(outer, after, copy, copy.Keys, Prefix(instance)) && WithInside(inner, copy, t) && instance in outer
    ensures var inside := Prefix(instance) + INSIDE;
      inside !in outer && inside in after && after[inside].moduleType == PassthroughType(t)
    ensures instance in after && after[instance] == outer[instance]
  {
    assert INSIDE in copy.Keys;
  }

  lemma InPlaceAfter(outer: map<string, Instance>, mid: map<string, Instance>, inner: map<string, Instance>,
      copy: map<string, Instance>, after: map<string, Instance>, instance: string, t: Type)
    requires Brought(outer, mid, copy, copy.Keys, Prefix(instance)) && WithInside(inner, copy, t) && instance in outer
    requires OUTSIDE !in mid && OUTSIDE in after && after[OUTSIDE].moduleType == PassthroughType(t.Flip())
    requires after == mid[OUTSIDE := after[OUTSIDE]] - {instance}
    ensures InPlace(outer, inner, after, instance, t)
  {
    var p := Prefix(instance);
    var inside := p + INSIDE;
    BroughtInside(outer, mid, inner, copy, instance, t);
    PrefixedNames(instance, INSIDE);
    assert OUTSIDE !in outer;
    var rest := after - {OUTSIDE, inside};
    forall r | r in rest ensures r in outer - {instance} || (p <= r && r[|p|..] in inner.Keys) {
      assert p <= r ==> r == p + r[|p|..];
    }
    forall n | n in inner.Keys
      ensures p + n !in outer - {instance} && p + n in rest && rest[p + n].moduleType == inner[n].moduleType
    {
      PrefixedNames(instance, n);
      assert n in copy.Keys && (p + n)[|p|..] == n && inside[|p|..] == INSIDE;
    }
  }

  lemma CopyInside(inner: ModuleDef, copy: ModuleDef)
    requires inner.Valid() && copy.Valid() && INSIDE !in inner.instances
    requires copy.Types() == inner.Types()[INSIDE := PassthroughType(inner.selfType)]
    ensures WithInside(inner.instances, copy.instances, inner.selfType)
  {
    CopyWithInside(inner.selfType, inner.instances, copy.selfType, copy.instances);
  }

  lemma OutsideFreeIn(def: ModuleDef, instance: string, s: string)
    requires def.Valid() && s !in def.Types()
    ensures Untouched(def.connections, s)
    ensures Prefix(instance) + INSIDE !in def.instances ==> Untouched(def.connections, Prefix(instance) + INSIDE)
  {
    OutsideFree(def.selfType, def.instances, def.connected.Keys, def.connections, instance, s);
  }

  /** All names that inlining gives to instances are free. */
  predicate NamesFree(outer: map<string, Instance>, inner: map<string, Instance>, instance: string) {
    && OUTSIDE !in outer && INSIDE !in inner
    && Clear(outer, inner.Keys + {INSIDE}, Prefix(instance))
  }

  lemma BroughtOutside(outer: map<string, Instance>, mid: map<string, Instance>, copy: map<string, Instance>,
      instance: string)
    requires Brought(outer, mid, copy, copy.Keys, Prefix(instance))
    ensures OUTSIDE in mid <==> OUTSIDE in outer
  {
    PrefixedNames(instance, "");
  }

  lemma CopyNames(inner: map<string, Instance>, copy: map<string, Instance>, t: Type, outer: map<string, Instance>,
      instance: string)
    requires WithInside(inner, copy, t)
    ensures NamesFree(outer, inner, instance) <==> Clear(outer, copy.Keys, Prefix(instance)) && OUTSIDE !in outer
  {
    assert copy.Keys == inner.Keys + {INSIDE};
  }

  /** The walk with the definition's instances and the two passthroughs, and without the instance. */
  ghost function WalkInPlace(walk: seq<string>, inner: set<string>, instance: string): seq<string> {
    Names.Omit(walk + Names.UnderPrefix(Prefix(instance), Names.Sorted(inner + {INSIDE})) + [OUTSIDE], instance)
  }

  /** The walk with the definition's instances at its end, in the order of their names, and without the instance. */
  ghost function WalkInlined(walk: seq<string>, inner: set<string>, instance: string): seq<string> {
    Names.Omit(walk, instance) + Names.UnderPrefix(Prefix(instance), Names.Sorted(inner))
  }

  /** Inlining the passthroughs leaves that walk. */
  lemma WalkWithout(walk: seq<string>, inner: set<string>, instance: string)
    requires instance != OUTSIDE && OUTSIDE !in walk && Prefix(instance) + INSIDE !in walk && INSIDE !in inner
    ensures Names.Omit(Names.Omit(WalkInPlace(walk, inner, instance), OUTSIDE), Prefix(instance) + INSIDE)
         == WalkInlined(walk, inner, instance)
  {
    hide Names.Omit, Names.Sorted, Names.UnderPrefix;
    var p, ns, rest := Prefix(instance), Names.Sorted(inner + {INSIDE}), Names.Omit(walk, instance);
    var brought := Names.UnderPrefix(p, ns);
    PrefixedNames(instance, INSIDE);
    Names.UnderPrefixIn(p, ns, instance);
    Names.UnderPrefixIn(p, ns, OUTSIDE);
    WalkInPlaceIs(walk, brought, instance);
    Names.OmitIn(walk, instance);
    Names.OmitConcat(rest + brought, [OUTSIDE], OUTSIDE);
    Names.OmitAbsent(rest + brought, OUTSIDE);
    OmitOnly(OUTSIDE);
    assert rest + brought + [] == rest + brought;
    Names.OmitConcat(rest, brought, p + INSIDE);
    Names.OmitAbsent(rest, p + INSIDE);
    Names.OmitUnderPrefix(p, ns, INSIDE);
    Names.SortedOmit(inner, INSIDE);
  }

  lemma OmitOnly(n: string)
    ensures Names.Omit([n], n) == []
  {
  }

  lemma WalkInPlaceIs(walk: seq<string>, brought: seq<string>, instance: string)
    requires instance != OUTSIDE
    requires instance !in brought
    ensures Names.Omit(walk + brought + [OUTSIDE], instance) == Names.Omit(walk, instance) + brought + [OUTSIDE]
  {
    Names.OmitConcat(walk + brought, [OUTSIDE], instance);
    Names.OmitConcat(walk, brought, instance);
    Names.OmitAbsent(brought, instance);
    Names.OmitAbsent([OUTSIDE], instance);
  }

  /** The definition's contents and the two passthroughs in place, and the instance gone. */
  method Quarantine(def: ModuleDef, instance: string, inner: ModuleDef, ghost s: string) returns (ok: bool)
    requires def.Valid() && inner.Valid() && def != inner && def.iter != inner.iter
    requires instance in def.instances && def.instances[instance].moduleType == inner.selfType.Flip()
    requires FreeName(instance, s) && s !in def.Types()
    modifies def, def.iter
    ensures def.Valid()
    ensures ok <==> NamesFree(old(def.instances), inner.instances, instance)
    ensures ok ==> NoSelects(def.connected.Keys, InSide(OUTSIDE))
    ensures ok ==> QuarantineDone(instance, s, old(def.connections), inner.connections, def.connections)
    ensures ok ==> InPlace(old(def.instances), inner.instances, def.instances, instance, inner.selfType)
    ensures ok ==> def.Walk() == WalkInPlace(old(def.Walk()), inner.instances.Keys, instance)
  {
    hide ModuleDef.Valid, QuarantineDone, InPlace, Added, WithInside, Clear, Untouched;
    OutsideFreeIn(def, instance, s);
    var copy: ModuleDef;
    ok, copy := QuarantineInside(inner);
    if ok {
      CopyInside(inner, copy);
      CopyNames(inner.instances, copy.instances, inner.selfType, def.instances, instance);
      ok := QuarantineWith(def, instance, copy, inner.selfType, inner.instances, inner.connections, s);
    }
  }

  lemma OutsideFree(selfType: Type, instances: map<string, Instance>, k: set<Wire>, c: Conns, instance: string,
      s: string)
    requires Selected(TypesOf(selfType, instances), k) && Joined(TypesOf(selfType, instances), k, c)
    requires s !in TypesOf(selfType, instances)
    ensures Untouched(c, s)
    ensures Prefix(instance) + INSIDE !in instances ==> Untouched(c, Prefix(instance) + INSIDE)
  {
    PrefixedNames(instance, INSIDE);
    NotAnInstanceUnless(TypesOf(selfType, instances), k, c, s);
    NotAnInstanceUnless(TypesOf(selfType, instances), k, c, Prefix(instance) + INSIDE);
  }

  ghost predicate QuarantineDone(instance: string, s: string, outer: Conns, inner: Conns, d: Conns) {
    var b, k := BoundaryOf(instance, s), Joint(outer, inner, Prefix(instance), s);
    b.Distinct() && Quarantined(b, k, d) && Untouched(k, b.outside) && Untouched(k, b.inside)
  }

  method QuarantineWith(def: ModuleDef, instance: string, copy: ModuleDef, ghost t: Type,
      ghost inner: map<string, Instance>, ghost innerConns: Conns, ghost s: string) returns (ok: bool)
    requires def.Valid() && copy.Valid() && def != copy && def.iter != copy.iter
    requires instance in def.instances && def.instances[instance].moduleType == t.Flip()
    requires FreeName(instance, s) && Untouched(def.connections, s)
    requires Prefix(instance) + INSIDE !in def.instances ==> Untouched(def.connections, Prefix(instance) + INSIDE)
    requires WithInside(inner, copy.instances, t)
    requires Added(innerConns, copy.connections, Wire("self", []), INSIDE) && Untouched(innerConns, INSIDE)
    modifies def, def.iter
    ensures def.Valid()
    ensures ok <==> Clear(old(def.instances), copy.instances.Keys, Prefix(instance)) && OUTSIDE !in old(def.instances)
    ensures ok ==> NoSelects(def.connected.Keys, InSide(OUTSIDE))
    ensures ok ==> QuarantineDone(instance, s, old(def.connections), innerConns, def.connections)
    ensures ok ==> InPlace(old(def.instances), inner, def.instances, instance, t)
    ensures ok ==> def.Walk() == WalkInPlace(old(def.Walk()), inner.Keys, instance)
  {
    hide ModuleDef.Valid, InPlace, Brought, Added, Copied;
    ghost var c0, instances0 := def.connections, def.instances;
    assert copy.instances.Keys == inner.Keys + {INSIDE};
    ok := Bring(def, copy, instance);
    if ok {
      BroughtInside(instances0, def.instances, inner, copy.instances, instance, t);
      BroughtOutside(instances0, def.instances, copy.instances, instance);
      ghost var c1, instances1, c2, c3 := def.connections, def.instances, {}, {};
      ok, c2, c3 := QuarantineOutside(def, instance, t);
      if ok {
        InPlaceAfter(instances0, instances1, inner, copy.instances, def.instances, instance, t);
        AssembledQuarantined(instance, s, c0, innerConns, copy.connections, c1, c2, c3, def.connections);
      }
    }
  }

  /** The instances are those outside without the instance and those inside under the prefix. */
  lemma InlinedInstances(outer: map<string, Instance>, inner: map<string, Instance>,
      quarantined: map<string, Instance>, instance: string, t: Type)
    requires InPlace(outer, inner, quarantined, instance, t)
    ensures var inside := Prefix(instance) + INSIDE;
      quarantined - {OUTSIDE} - {inside} == quarantined - {OUTSIDE, inside}
  {
  }

  lemma NestFits(n: Nest, outer: map<string, Instance>, selfType: Type, k: set<Wire>, inner: map<string, Instance>,
      t: Type, l: set<Wire>)
    requires n.outer == TypesOf(selfType, outer) && n.inner == TypesOf(t, inner)
    requires Selected(n.outer, k) && Joined(n.outer, k, n.c) && Selected(n.inner, l) && Joined(n.inner, l, n.d)
    requires n.instance in outer && n.instance != "self" && outer[n.instance].moduleType == t.Flip() && "self" !in outer
    requires FreeName(n.instance, n.s) && n.s !in n.outer && NamesFree(outer, inner, n.instance)
    ensures n.Fitting()
  {
    PrefixedNames(n.instance, "self");
    PrefixedNames(n.instance, INSIDE);
    forall x, y | (x, y) in n.c ensures x.root in n.outer && y.root in n.outer {
      assert (y, x) in n.c;
    }
    forall x, y | (x, y) in n.d ensures x.root in n.inner && y.root in n.inner {
      assert (y, x) in n.d;
    }
    forall m | m in n.inner && m != "self" ensures m != INSIDE && Prefix(n.instance) + m !in n.outer {
      assert |INSIDE| != |"self"|;
      PrefixedNames(n.instance, m);
    }
  }

  /**
   Replaces the instance by the contents of its definition, unless it has none. The
   result `done` tells whether there was anything to do.
  */
  method InlineInstance(def: ModuleDef, instance: string, inner: ModuleDef?, ghost s: string)
    returns (ok: bool, done: bool)
    requires def.Valid() && instance in def.instances
    requires inner != null ==>
      inner.Valid() && def != inner && def.iter != inner.iter
      && def.instances[instance].moduleType == inner.selfType.Flip()
    requires FreeName(instance, s) && s !in def.Types()
    modifies def, def.iter
    ensures def.Valid()
    ensures inner == null ==> ok && !done && unchanged(def) && unchanged(def.iter)
    ensures ok && inner != null ==> done
    ensures inner != null ==>
      var free := NamesFree(old(def.instances), inner.instances, instance);
      var circular := Circular(instance, s, old(def.connections), inner.connections);
      var driven := SingleDrivers(old(def.Types()), old(def.connected))
        && SingleDrivers(inner.Types(), inner.connected);
      (ok ==> free && !circular) && (driven ==> (ok <==> free && !circular))
    ensures ok && inner != null ==>
      Inlined(BoundaryOf(instance, s), Joint(old(def.connections), inner.connections, instance + "$", s),
      def.connections)
    ensures ok && inner != null ==>
      Brought(old(def.instances) - {instance}, def.instances, inner.instances, inner.instances.Keys, instance + "$")
    ensures ok && inner != null ==> def.Walk() == WalkInlined(old(def.Walk()), inner.instances.Keys, instance)
  {
    hide ModuleDef.Walk, Names.Omit, Names.UnderPrefix, WalkInPlace, WalkInlined, NamesFree, Circular;
    if inner == null {
      return true, false;
    }
    done := true;
    ghost var c0, instances0, types0 := def.connections, def.instances, def.Types();
    ghost var n, walk0 := Nest(instance, s, types0, c0, inner.Types(), inner.connections), def.Walk();
    def.WalkListed();
    SingleMeansOne(types0, c0, def.connected);
    SingleMeansOne(inner.Types(), inner.connections, inner.connected);
    NestOfBoth(n, def, inner);
    ok := Quarantine(def, instance, inner, s);
    if !ok {
      return;
    }
    def.WalkListed();
    WalkWithout(walk0, inner.instances.Keys, instance);
    ghost var placed := def.instances;
    InlinedInstances(instances0, inner.instances, placed, instance, inner.selfType);
    PlacedTypes(n, instances0, inner.instances, placed, def.selfType, inner.selfType);
    ok := InlineBoth(def, instance, n, inner.selfType);
  }

  lemma NestOfBoth(n: Nest, def: ModuleDef, inner: ModuleDef)
    requires def.Valid() && inner.Valid() && n.instance in def.instances
    requires def.instances[n.instance].moduleType == inner.selfType.Flip()
    requires n.outer == def.Types() && n.c == def.connections && n.inner == inner.Types() && n.d == inner.connections
    requires FreeName(n.instance, n.s) && n.s !in n.outer
    ensures NamesFree(def.instances, inner.instances, n.instance) ==> n.Fitting()
  {
    if NamesFree(def.instances, inner.instances, n.instance) {
      NestFits(n, def.instances, def.selfType, def.connected.Keys, inner.instances, inner.selfType,
        inner.connected.Keys);
    }
  }

  /** The types once the first passthrough is inlined. */
  lemma PlacedTypes(n: Nest, outer: map<string, Instance>, inner: map<string, Instance>,
      placed: map<string, Instance>, selfType: Type, t: Type)
    requires n.outer == TypesOf(selfType, outer) && n.inner == TypesOf(t, inner) && "self" !in outer
    requires "self" !in placed
    requires InPlace(outer, inner, placed, n.instance, t)
    ensures n.Placed(TypesOf(selfType, placed) - {OUTSIDE})
  {
    var types, p := TypesOf(selfType, placed) - {OUTSIDE}, Prefix(n.instance);
    PrefixedNames(n.instance, INSIDE);
    assert |OUTSIDE| != |"self"|;
    forall r | r in n.outer && r != n.instance ensures r in types && types[r] == n.outer[r] {
      if r != "self" {
        assert r in outer - {n.instance};
        assert r in placed - {OUTSIDE, p + INSIDE};
      }
    }
    forall m | m in n.inner && m != "self" ensures p + m in types && types[p + m] == n.inner[m] {
      PrefixedNames(n.instance, m);
      assert m in inner.Keys;
      assert p + m in placed - {OUTSIDE, p + INSIDE};
    }
  }

  /** Inlines the passthrough outside, then the one inside. */
  method InlineBoth(def: ModuleDef, instance: string, ghost n: Nest, ghost t: Type) returns (ok: bool)
    requires def.Valid() && n.Bounds().Distinct() && n.instance == instance
    requires OUTSIDE in def.instances && def.instances[OUTSIDE].moduleType == PassthroughType(t.Flip())
    requires n.Bounds().inside in def.instances && def.instances[n.Bounds().inside].moduleType == PassthroughType(t)
    requires Quarantined(n.Bounds(), n.Both(), def.connections)
    requires Untouched(n.Both(), OUTSIDE) && Untouched(n.Both(), n.Bounds().inside)
    requires NoSelects(def.connected.Keys, InSide(OUTSIDE)) && n.Placed(def.Types() - {OUTSIDE})
    modifies def, def.iter
    ensures def.Valid()
    ensures ok ==> !Circular(n.instance, n.s, n.c, n.d)
    ensures n.Fitting() && n.Driven() ==> (ok <==> !Circular(n.instance, n.s, n.c, n.d))
    ensures ok ==> def.Walk() == Names.Omit(Names.Omit(old(def.Walk()), OUTSIDE), n.Bounds().inside)
    ensures ok ==> Inlined(n.Bounds(), n.Both(), def.connections)
    ensures ok ==> def.instances == old(def.instances) - {OUTSIDE} - {n.Bounds().inside}
  {
    ghost var b, d1 := n.Bounds(), def.connections;
    InlineOutside(def, n, t);
    ghost var d2, types := def.connections, def.Types();
    if n.Fitting() && n.Driven() {
      HalfwayDrivers(n, types, d2);
    }
    HalfwayLoops(b, n.Both(), d2);
    WithoutBare(d2, Wire(Prefix(instance) + INSIDE, []));
    ok := InlinePassthrough(def, Prefix(instance) + INSIDE, t, Unasked);
    if ok {
      InlinedBoth(b, n.Both(), d1, d2, def.connections);
    }
  }

  /** The first passthrough only moves connections from the one to the other. */
  method InlineOutside(def: ModuleDef, ghost n: Nest, ghost t: Type)
    requires def.Valid() && n.Bounds().Distinct()
    requires OUTSIDE in def.instances && def.instances[OUTSIDE].moduleType == PassthroughType(t.Flip())
    requires Quarantined(n.Bounds(), n.Both(), def.connections)
    requires Untouched(n.Both(), OUTSIDE) && Untouched(n.Both(), n.Bounds().inside)
    requires NoSelects(def.connected.Keys, InSide(OUTSIDE))
    modifies def, def.iter
    ensures def.Valid()
    ensures Halfway(n.Bounds(), n.Both(), def.connections)
    ensures JoinsAcross(old(def.connections), def.connections, OUTSIDE) && Untouched(def.connections, OUTSIDE)
    ensures Bare(def.connections, Wire(n.Bounds().inside, []))
    ensures def.instances == old(def.instances) - {OUTSIDE} && def.Types() == old(def.Types()) - {OUTSIDE}
    ensures def.Walk() == Names.Omit(old(def.Walk()), OUTSIDE)
  {
    ghost var b, k, d1 := n.Bounds(), n.Both(), def.connections;
    BareQuarantined(b, k, d1);
    forall x ensures (x, x) !in d1 {
      NoLoop(def.Types(), def.connected.Keys, d1, x);
    }
    HalfwayMovable(b, k, d1);
    WithoutBare(d1, Wire(OUTSIDE, []));
    var ok := InlinePassthrough(def, OUTSIDE, t.Flip(), Moving(d1, InSide(b.inside)));
    MovedHalfway(b, k, d1, def.connections);
    NotAnInstance(def.Types(), def.connected.Keys, def.connections, OUTSIDE);
    BareStays(d1, def.connections, OUTSIDE, b.inside);
  }

  // ----- an instance that feeds itself through its definition -----

  function BothWays(x: Wire, y: Wire): Conns {
    {(x, y), (y, x)}
  }

  /** The output of the instance is connected to its input, and the definition connects its input to its output. */
  function LoopNest(s: string): Nest {
    var port := Record([("in", BitIn), ("out", Bit)]);
    Nest("loop", s, map["self" := Bit, "loop" := port],
         BothWays(Wire("loop", [Field("in")]), Wire("loop", [Field("out")])),
         map["self" := port.Flip()], BothWays(Wire("self", [Field("in")]), Wire("self", [Field("out")])))
  }

  lemma LoopTypes(s: string)
    ensures var n := LoopNest(s);
      && TypeIn(n.outer, Wire("loop", [Field("in")])) == Some(BitIn)
        && TypeIn(n.outer, Wire("loop", [Field("out")])) == Some(Bit)
      && TypeIn(n.inner, Wire("self", [Field("in")])) == Some(Bit)
        && TypeIn(n.inner, Wire("self", [Field("out")])) == Some(BitIn)
  {
    var n := LoopNest(s);
    var fs := [("in", BitIn), ("out", Bit)];
    var gs := [("in", Bit), ("out", BitIn)];
    assert n.outer["loop"] == Record(fs);
    assert Record(fs).Flip().fields == gs;
    assert n.inner["self"] == Record(gs);
    assert fs[1..] == [("out", Bit)] && gs[1..] == [("out", BitIn)];
    assert Lookup(fs, "in") == Some(BitIn) && Lookup(fs, "out") == Lookup(fs[1..], "out") == Some(Bit);
    assert Lookup(gs, "in") == Some(Bit) && Lookup(gs, "out") == Lookup(gs[1..], "out") == Some(BitIn);
    assert [Field("in")][1..] == [] && [Field("out")][1..] == [];
  }

  lemma LoopDrivers(types: Types, x: Wire, y: Wire)
    requires TypeIn(types, x) == Some(BitIn) && TypeIn(types, y) == Some(Bit) && |x.path| == |y.path|
    ensures Runs.OneDriver(BothWays(x, y), InputsOf(types))
  {
    forall z, u, v, w, r | z in InputsOf(types) && Runs.Covers(BothWays(x, y), u, v, z)
      && Runs.Covers(BothWays(x, y), w, r, z)
      ensures u == w && v == r
    {
      assert u.path == w.path;
    }
  }

  /** Both definitions have one driver for every input bit. */
  lemma LoopValidated(s: string)
    requires FreeName("loop", s) && s != "self"
    ensures LoopNest(s).Fitting() && LoopNest(s).Driven()
  {
    var n := LoopNest(s);
    LoopTypes(s);
    LoopDrivers(n.outer, Wire("loop", [Field("in")]), Wire("loop", [Field("out")]));
    LoopDrivers(n.inner, Wire("self", [Field("out")]), Wire("self", [Field("in")]));
    assert n.d == BothWays(Wire("self", [Field("out")]), Wire("self", [Field("in")]));
    PrefixedNames("loop", INSIDE);
    FlipTwice(Record([("in", BitIn), ("out", Bit)]));
    assert |OUTSIDE| != |"loop"|;
    assert |Prefix("loop") + INSIDE| > |"self"| && |Prefix("loop") + INSIDE| > |"loop"|;
  }

  /** But the input of the instance is reached from itself: over its output, and through the definition. */
  lemma LoopCircular(s: string)
    requires FreeName("loop", s) && s != "self"
    ensures Circular("loop", s, LoopNest(s).c, LoopNest(s).d)
  {
    var n, edges, ports := LoopNest(s), Bits(LoopNest(s).Both()), LoopNest(s).Bounds().Ports();
    var li, lo, si, so := Wire("loop", [Field("in")]), Wire("loop", [Field("out")]), Wire(s, [Field("in")]),
      Wire(s, [Field("out")]);
    JointAt(n.c, n.d, Prefix("loop"), s, li, lo);
    JointAt(n.c, n.d, Prefix("loop"), s, so, si);
    assert WiredBy(n.Both(), li, lo, [], li, lo) && WiredBy(n.Both(), so, si, [], so, si);
    PortPlace("loop", [Field("in")]);
    PortPlace("loop", [Field("out")]);
    PortPlace(s, [Field("in")]);
    PortPlace(s, [Field("out")]);
    AltOnce(edges, ports, li, lo, so, si);
    assert LoopedAt(edges, ports, li, si);
  }

  lemma LoopFree()
    ensures FreeName("loop", "s") && "s" !in LoopNest("s").outer && "s" != "self"
  {
    assert |"s"| < |Prefix("loop")| && |"s"| < |"loop"| && |"s"| < |OUTSIDE| && |"s"| < |"self"|;
  }

  /** So inlining this instance stops. */
  method InlineLoop() returns (ok: bool)
    ensures !ok
  {
    hide *;
    LoopFree();
    LoopValidated("s");
    LoopCircular("s");
    var def := LoopOutside();
    var inner := LoopInside();
    LoopDriven(LoopNest("s"), def, inner);
    var done;
    ok, done := InlineInstance(def, "loop", inner, "s");
  }

  lemma LoopDriven(n: Nest, def: ModuleDef, inner: ModuleDef)
    requires def.Valid() && inner.Valid() && n.Driven()
    requires n.outer == def.Types() && n.c == def.connections && n.inner == inner.Types() && n.d == inner.connections
    ensures SingleDrivers(def.Types(), def.connected) && SingleDrivers(inner.Types(), inner.connected)
  {
    SingleMeansOne(n.outer, n.c, def.connected);
    SingleMeansOne(n.inner, n.d, inner.connected);
  }

  lemma LoopFits(outer: Types, inner: Types)
    requires outer == LoopNest("s").outer && inner == LoopNest("s").inner
    ensures Fits(outer, Wire("loop", [Field("in")]), Wire("loop", [Field("out")]))
    ensures Fits(inner, Wire("self", [Field("in")]), Wire("self", [Field("out")]))
  {
    LoopTypes("s");
  }

  method LoopOutside() returns (def: ModuleDef)
    ensures fresh(def) && fresh(def.iter) && def.Valid() && "loop" in def.instances
    ensures def.Types() == LoopNest("s").outer && def.connections == LoopNest("s").c
    ensures def.instances["loop"].moduleType == LoopNest("s").outer["loop"]
  {
    hide ModuleDef.Valid, Fits;
    LoopFits(LoopNest("s").outer, LoopNest("s").inner);
    def := new ModuleDef(Bit);
    var ok := def.AddInstance("loop", Record([("in", BitIn), ("out", Bit)]));
    assert def.Types() == LoopNest("s").outer;
    assert def.Types()["loop"] == def.instances["loop"].moduleType;
    ok := def.ConnectPaths(Wire("loop", [Field("in")]), Wire("loop", [Field("out")]));
  }

  method LoopInside() returns (inner: ModuleDef)
    ensures fresh(inner) && fresh(inner.iter) && inner.Valid()
    ensures inner.Types() == LoopNest("s").inner && inner.connections == LoopNest("s").d
    ensures inner.selfType.Flip() == LoopNest("s").outer["loop"]
  {
    hide ModuleDef.Valid, Fits;
    var port := Record([("in", BitIn), ("out", Bit)]);
    LoopFits(LoopNest("s").outer, LoopNest("s").inner);
    FlipTwice(port);
    inner := new ModuleDef(port.Flip());
    assert inner.Types() == LoopNest("s").inner;
    var ok := inner.ConnectPaths(Wire("self", [Field("in")]), Wire("self", [Field("out")]));
  }
}
