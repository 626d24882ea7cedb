/**
 Module definitions: instances, the wireables selected so far, and the connections
 between wireables, kept from both ends and with optional annotations.
 An assertion of the program that fails is a result `false`.
*/
module ModuleDefs {
  import opened Wires
  import opened Chains
  import opened InstanceOrder
  import Collections
  import Names

  /** The types of the roots: the interface "self" and the instances. */
  type Types = map<string, Type>

  function TypeIn(types: Types, w: Wire): Option<Type> {
    if w.root in types then types[w.root].SelPath(w.path) else None
  }

  function TypesOf(selfType: Type, instances: map<string, Instance>): Types {
    map r | r in instances.Keys + {"self"} :: if r == "self" then selfType else instances[r].moduleType
  }

  /** Whether two wireables may be connected as far as their types go. */
  predicate Fits(types: Types, a: Wire, b: Wire) {
    var s, t := TypeIn(types, a), TypeIn(types, b);
    s.Some? && t.Some? && s.value == t.value.Flip()
  }

  lemma FitsSymmetric(types: Types, a: Wire, b: Wire)
    requires Fits(types, a, b)
    ensures Fits(types, b, a)
  {
    FlipTwice(TypeIn(types, b).value);
  }

  lemma FitsDistinct(types: Types, a: Wire, b: Wire)
    requires Fits(types, a, b) && types[a.root].Inhabited()
    ensures a != b
  {
    SelPathDepth(types[a.root], a.path);
    FlipDiffers(TypeIn(types, a).value);
  }

  /** The members of an array are numbered from 0; those of a record have the names of its fields. */
  ghost predicate Member(t: Type, l: Label) {
    || (t.Array? && l.Index? && 0 <= l.i < t.len)
    || (t.Record? && l.Field? && exists i :: 0 <= i < |t.fields| && t.fields[i].0 == l.name)
  }

  lemma MemberSelects(types: Types, w: Wire, l: Label)
    requires TypeIn(types, w).Some?
    ensures TypeIn(types, w.At([l])).Some? <==> Member(TypeIn(types, w).value, l)
  {
    SelPathAppend(types[w.root], w.path, [l]);
    assert [l][1..] == [];
    var t := TypeIn(types, w).value;
    assert TypeIn(types, w.At([l])) == t.Sel(l);
  }

  // ----- what a definition keeps true of its wiring -----

  ghost predicate WellTyped(types: Types) {
    "self" in types && forall r :: r in types ==> types[r].Inhabited()
  }

  /** Every wireable has a type, and whatever it was selected from is a wireable. */
  ghost predicate Selected(types: Types, wires: set<Wire>) {
    && (forall w :: w in wires ==> TypeIn(types, w).Some?)
    && (forall w, u :: w in wires && w.Under(u) ==> u in wires)
    && (forall r :: r in types ==> Wire(r, []) in wires)
  }

  ghost predicate Joined(types: Types, wires: set<Wire>, connections: Conns) {
    Symmetric(connections) && forall x, y :: (x, y) in connections ==> x in wires && Fits(types, x, y)
  }

  /** The neighbours held at each wireable are those of the connections. */
  ghost predicate Neighbours(connections: Conns, connected: map<Wire, set<Wire>>) {
    forall x, y :: (x, y) in connections <==> x in connected && y in connected[x]
  }

  ghost predicate Annotated(connections: Conns, metaData: map<set<Wire>, string>) {
    forall k :: k in metaData ==> exists x, y :: (x, y) in connections && k == {x, y}
  }

  ghost predicate Wiring(types: Types, connections: Conns, connected: map<Wire, set<Wire>>,
      metaData: map<set<Wire>, string>)
  {
    && WellTyped(types)
    && Selected(types, connected.Keys)
    && Joined(types, connected.Keys, connections)
    && Neighbours(connections, connected)
    && Annotated(connections, metaData)
  }

  function NamesOf(order: seq<Instance>): seq<string> {
    seq(|order|, i requires 0 <= i < |order| => order[i].name)
  }

  /** The instances so far are walked in the order of their names, and the names of `rest` come after them. */
  ghost predicate InNameOrder(order: seq<Instance>, rest: set<string>) {
    Names.Ascending(NamesOf(order)) && Names.AllBefore(NamesOf(order), rest)
  }

  lemma InNameOrderMore(order: seq<Instance>, x: Instance, rest: set<string>)
    requires InNameOrder(order, rest) && Names.IsFirst(rest, x.name)
    ensures InNameOrder(order + [x], rest - {x.name})
  {
    Names.AscendingMore(NamesOf(order), rest, x.name);
    assert NamesOf(order + [x]) == NamesOf(order) + [x.name];
  }

  /** The instances by name and the instances in order are the same ones. */
  ghost predicate Listed(instances: map<string, Instance>, order: seq<Instance>) {
    && "self" !in instances
    && (forall n :: n in instances ==> instances[n].name == n && instances[n] in order)
    && (forall i :: 0 <= i < |order| ==> order[i].name in instances && instances[order[i].name] == order[i])
  }

  function Cut(connections: Conns, a: Wire, b: Wire): Conns {
    connections - {(a, b), (b, a)}
  }

  lemma SelectWiring(types: Types, connections: Conns, connected: map<Wire, set<Wire>>,
      metaData: map<set<Wire>, string>, w: Wire, l: Label)
    requires Wiring(types, connections, connected, metaData)
    requires w in connected && w.At([l]) !in connected && TypeIn(types, w.At([l])).Some?
    ensures Wiring(types, connections, connected[w.At([l]) := {}], metaData)
  {
    var v := w.At([l]);
    var more := connected[v := {}];
    forall x, u | x in more && x.Under(u) ensures u in more {
      if x == v && u != v {
        assert u.path <= w.path by {
          assert v.path == w.path + [l] && |u.path| <= |w.path|;
        }
        assert w.Under(u);
      }
    }
  }

  lemma ConnectWiring(types: Types, connections: Conns, connected: map<Wire, set<Wire>>,
      metaData: map<set<Wire>, string>, a: Wire, b: Wire)
    requires Wiring(types, connections, connected, metaData)
    requires a in connected && b in connected && Fits(types, a, b)
    ensures a != b
    ensures Wiring(types, connections + {(a, b), (b, a)},
      connected[a := connected[a] + {b}][b := connected[b] + {a}], metaData)
  {
    FitsSymmetric(types, a, b);
    FitsDistinct(types, a, b);
    var more := connections + {(a, b), (b, a)};
    forall k | k in metaData ensures exists x, y :: (x, y) in more && k == {x, y} {
      var x, y :| (x, y) in connections && k == {x, y};
      assert (x, y) in more;
    }
  }

  lemma DisconnectWiring(types: Types, connections: Conns, connected: map<Wire, set<Wire>>,
      metaData: map<set<Wire>, string>, a: Wire, b: Wire)
    requires Wiring(types, connections, connected, metaData) && (a, b) in connections
    ensures a in connected && b in connected && a != b
    ensures Wiring(types, Cut(connections, a, b), connected[a := connected[a] - {b}][b := connected[b] - {a}],
      metaData - {{a, b}})
  {
    assert (b, a) in connections;
    FitsDistinct(types, a, b);
    var fewer := Cut(connections, a, b);
    forall k | k in metaData - {{a, b}} ensures exists x, y :: (x, y) in fewer && k == {x, y} {
      var x, y :| (x, y) in connections && k == {x, y};
      assert {b, a} == {a, b};
      assert (x, y) in fewer;
    }
  }

  lemma RootSelected(types: Types, connections: Conns, connected: map<Wire, set<Wire>>,
      metaData: map<set<Wire>, string>, name: string)
    requires Wiring(types, connections, connected, metaData) && name in types
    ensures Wire(name, []) in connected
  {
  }

  /** The wireable after the first `i` selects. */
  function Upto(w: Wire, i: nat): Wire
    requires i <= |w.path|
  {
    Wire(w.root, w.path[..i])
  }

  /** `after` is `before` with `w` and everything `w` is selected from. */
  ghost predicate Reaching(before: set<Wire>, after: set<Wire>, w: Wire) {
    forall u :: u in after <==> u in before || w.Under(u)
  }

  lemma RootReached(types: Types, wires: set<Wire>, w: Wire)
    requires Selected(types, wires) && w.root in types
    ensures Upto(w, 0) in wires && Reaching(wires, wires, Upto(w, 0))
  {
    assert Upto(w, 0) == Wire(w.root, []);
  }

  lemma UptoNext(types: Types, w: Wire, i: nat)
    requires i < |w.path|
    ensures Upto(w, i).At([w.path[i]]) == Upto(w, i + 1)
    ensures TypeIn(types, Upto(w, i + 1)).None? ==> TypeIn(types, w).None?
  {
    assert w.path == w.path[..i + 1] + w.path[i + 1..];
    if w.root in types {
      SelPathAppend(types[w.root], w.path[..i + 1], w.path[i + 1..]);
    }
  }

  lemma ReachingNext(before: set<Wire>, mid: set<Wire>, w: Wire, i: nat)
    requires i < |w.path| && before <= mid && Reaching(before, mid, Upto(w, i))
    ensures before <= mid + {Upto(w, i + 1)} && Reaching(before, mid + {Upto(w, i + 1)}, Upto(w, i + 1))
  {
    assert Upto(w, i).At([w.path[i]]) == Upto(w, i + 1);
    forall u ensures u in mid + {Upto(w, i + 1)} <==> u in before || Upto(w, i + 1).Under(u) {
      UnderStep(Upto(w, i), w.path[i], u);
    }
  }

  // ----- disconnecting -----

  ghost function Subtree(w: Wire): iset<Wire> {
    iset u: Wire | u.Under(w)
  }

  /** Exactly the connections at the wireables `ws` are gone, and their annotations with them. */
  ghost predicate Detached(before: Conns, after: Conns, metaBefore: map<set<Wire>, string>,
      metaAfter: map<set<Wire>, string>, ws: iset<Wire>)
  {
    && (forall x, y :: (x, y) in after <==> (x, y) in before && x !in ws && y !in ws)
    && (forall k :: k in metaAfter <==> k in metaBefore && forall u :: u in k ==> u !in ws)
    && (forall k :: k in metaAfter ==> k in metaBefore && metaAfter[k] == metaBefore[k])
  }

  /** As `Detached`, for the connections of `w` except those to the wireables `left`. */
  ghost predicate DetachedFrom(before: Conns, after: Conns, metaBefore: map<set<Wire>, string>,
      metaAfter: map<set<Wire>, string>, w: Wire, left: set<Wire>)
  {
    && (forall x, y :: (x, y) in after <==> (x, y) in before && (x == w ==> y in left) && (y == w ==> x in left))
    && (forall k :: k in metaAfter <==> k in metaBefore && (w in k ==> k <= left + {w}))
    && (forall k :: k in metaAfter ==> k in metaBefore && metaAfter[k] == metaBefore[k])
  }

  lemma DetachedStart(c: Conns, connected: map<Wire, set<Wire>>, m: map<set<Wire>, string>, w: Wire)
    requires Symmetric(c) && Neighbours(c, connected) && Annotated(c, m) && w in connected
    ensures DetachedFrom(c, c, m, m, w, connected[w])
  {
    forall k | k in m && w in k ensures k <= connected[w] + {w} {
      var x, y :| (x, y) in c && k == {x, y};
      assert (y, x) in c;
    }
  }

  lemma DetachedStep(before: Conns, c: Conns, metaBefore: map<set<Wire>, string>, m: map<set<Wire>, string>, w: Wire,
      left: set<Wire>, other: Wire)
    requires Annotated(before, metaBefore) && w !in left && other in left
    requires DetachedFrom(before, c, metaBefore, m, w, left)
    ensures DetachedFrom(before, Cut(c, w, other), metaBefore, m - {{w, other}}, w, left - {other})
  {
    forall k ensures k in m - {{w, other}} <==> k in metaBefore && (w in k ==> k <= left - {other} + {w}) {
      if k in metaBefore && w in k {
        PairWith(before, metaBefore, k, w, other);
      }
    }
  }

  lemma PairWith(c: Conns, m: map<set<Wire>, string>, k: set<Wire>, w: Wire, other: Wire)
    requires Annotated(c, m) && k in m && w in k && w != other
    ensures other in k <==> k == {w, other}
  {
    var x, y :| (x, y) in c && k == {x, y};
    assert w == x || w == y;
  }

  lemma DetachedAll(before: Conns, after: Conns, metaBefore: map<set<Wire>, string>,
      metaAfter: map<set<Wire>, string>, w: Wire)
    requires Annotated(before, metaBefore) && (w, w) !in before
    requires DetachedFrom(before, after, metaBefore, metaAfter, w, {})
    ensures Detached(before, after, metaBefore, metaAfter, iset{w})
  {
    forall k | k in metaBefore && w in k ensures !(k <= {} + {w}) {
      var x, y :| (x, y) in before && k == {x, y};
      assert x in k && y in k;
    }
  }

  lemma DetachedNone(c: Conns, m: map<set<Wire>, string>, w: Wire)
    ensures Detached(c, c, m, m, Below(w, {}))
  {
  }

  lemma DetachedTwice(c0: Conns, c1: Conns, c2: Conns, m0: map<set<Wire>, string>, m1: map<set<Wire>, string>,
      m2: map<set<Wire>, string>, ws: iset<Wire>, vs: iset<Wire>)
    requires Detached(c0, c1, m0, m1, ws) && Detached(c1, c2, m1, m2, vs)
    ensures Detached(c0, c2, m0, m2, ws + vs)
  {
    forall k ensures k in m2 <==> k in m0 && forall u :: u in k ==> u !in ws + vs {
    }
  }

  lemma NeighboursOf(connections: Conns, connected: map<Wire, set<Wire>>, w: Wire, ws: set<Wire>)
    requires Neighbours(connections, connected) && w in connected
    requires forall u :: u in ws <==> (w, u) in connections
    ensures connected[w] == ws
  {
    forall u ensures u in connected[w] <==> u in ws {
    }
  }

  function DepthIn(types: Types, w: Wire): nat {
    var t := TypeIn(types, w);
    if t.Some? then t.value.Depth() else 0
  }

  lemma SelectDepth(types: Types, wires: set<Wire>, w: Wire, l: Label)
    requires Selected(types, wires) && w.At([l]) in wires
    ensures DepthIn(types, w.At([l])) < DepthIn(types, w)
  {
    SelPathAppend(types[w.root], w.path, [l]);
    assert [l][1..] == [];
    assert w.At([l]).Under(w);
    SelSmaller(TypeIn(types, w).value, l);
  }

  lemma ChildDepth(types: Types, connections: Conns, connected: map<Wire, set<Wire>>,
      metaData: map<set<Wire>, string>, w: Wire, l: Label)
    requires Wiring(types, connections, connected, metaData) && w.At([l]) in connected
    ensures DepthIn(types, w.At([l])) < DepthIn(types, w)
  {
    SelectDepth(types, connected.Keys, w, l);
  }

  /** The wireables below some of the selects of `w`. */
  ghost function Below(w: Wire, labels: set<Label>): iset<Wire> {
    iset u: Wire | u.Under(w) && |u.path| > |w.path| && u.path[|w.path|] in labels
  }

  lemma UnderSelect(w: Wire, l: Label, u: Wire)
    ensures u.Under(w.At([l])) <==> u.Under(w) && |u.path| > |w.path| && u.path[|w.path|] == l
  {
    if u.Under(w) && |u.path| > |w.path| && u.path[|w.path|] == l {
      assert u.path[..|w.path| + 1] == w.path + [l];
    }
    if u.Under(w.At([l])) {
      PrefixTransitive(w.path, w.path + [l], u.path);
    }
  }

  lemma BelowMore(w: Wire, labels: set<Label>, l: Label)
    ensures Below(w, labels + {l}) == Below(w, labels) + Subtree(w.At([l]))
  {
    forall u: Wire ensures u in Below(w, labels + {l}) <==> u in Below(w, labels) + Subtree(w.At([l])) {
      UnderSelect(w, l, u);
    }
  }

  lemma DetachedMore(c0: Conns, c1: Conns, c2: Conns, m0: map<set<Wire>, string>, m1: map<set<Wire>, string>,
      m2: map<set<Wire>, string>, w: Wire, labels: set<Label>, l: Label)
    requires Detached(c0, c1, m0, m1, Below(w, labels)) && Detached(c1, c2, m1, m2, Subtree(w.At([l])))
    ensures Detached(c0, c2, m0, m2, Below(w, labels + {l}))
  {
    DetachedTwice(c0, c1, c2, m0, m1, m2, Below(w, labels), Subtree(w.At([l])));
    BelowMore(w, labels, l);
  }

  /** The wireables below one are itself and those below its selects. */
  lemma SubtreeSplit(types: Types, wires: set<Wire>, w: Wire, u: Wire)
    requires Selected(types, wires) && u in wires
    ensures u in Below(w, SelectsIn(wires, w)) + iset{w} <==> u.Under(w)
  {
    if u.Under(w) && u != w {
      assert |u.path| > |w.path|;
      UnderSelect(w, u.path[|w.path|], u);
      assert u.Under(w.At([u.path[|w.path|]]));
    }
  }

  /** Which wireables are named matters only for those with connections. */
  lemma DetachedSame(before: Conns, after: Conns, metaBefore: map<set<Wire>, string>,
      metaAfter: map<set<Wire>, string>, ws: iset<Wire>, vs: iset<Wire>)
    requires Annotated(before, metaBefore) && Detached(before, after, metaBefore, metaAfter, ws)
    requires forall x, y :: (x, y) in before ==> (x in ws <==> x in vs) && (y in ws <==> y in vs)
    ensures Detached(before, after, metaBefore, metaAfter, vs)
  {
    forall k | k in metaBefore ensures (forall u :: u in k ==> u !in ws) <==> (forall u :: u in k ==> u !in vs) {
      var x, y :| (x, y) in before && k == {x, y};
      assert forall u :: u in k <==> u == x || u == y;
    }
  }

  lemma DetachedSubtree(types: Types, wires: set<Wire>, before: Conns, after: Conns,
      metaBefore: map<set<Wire>, string>, metaAfter: map<set<Wire>, string>, w: Wire)
    requires Selected(types, wires) && Joined(types, wires, before) && Annotated(before, metaBefore)
    requires Detached(before, after, metaBefore, metaAfter, Below(w, SelectsIn(wires, w)) + iset{w})
    ensures Detached(before, after, metaBefore, metaAfter, Subtree(w))
  {
    var done := Below(w, SelectsIn(wires, w)) + iset{w};
    forall x, y | (x, y) in before
      ensures (x in done <==> x in Subtree(w)) && (y in done <==> y in Subtree(w))
    {
      assert (y, x) in before;
      SubtreeSplit(types, wires, w, x);
      SubtreeSplit(types, wires, w, y);
    }
    DetachedSame(before, after, metaBefore, metaAfter, done, Subtree(w));
  }

  lemma NoLoop(types: Types, wires: set<Wire>, c: Conns, w: Wire)
    requires WellTyped(types) && Joined(types, wires, c)
    ensures (w, w) !in c
  {
    if (w, w) in c {
      FitsDistinct(types, w, w);
    }
  }

  // ----- adding and removing instances -----

  function Elsewhere(connected: map<Wire, set<Wire>>, name: string): map<Wire, set<Wire>> {
    map w | w in connected && w.root != name :: connected[w]
  }

  lemma ListedAdd(instances: map<string, Instance>, order: seq<Instance>, instance: Instance)
    requires Listed(instances, order) && instance.name !in instances && instance.name != "self"
    ensures instance !in order
    ensures Listed(instances[instance.name := instance], order + [instance])
  {
    var longer := order + [instance];
    var more := instances[instance.name := instance];
    forall n | n in more ensures more[n].name == n && more[n] in longer {
      if n == instance.name {
        assert longer[|order|] == instance;
      }
    }
  }

  lemma ListedRemove(instances: map<string, Instance>, order: seq<Instance>, name: string)
    requires Listed(instances, order) && Distinct(order) && name in instances
    ensures Listed(instances - {name}, Removed(order, instances[name]))
  {
    var k := Place(order, instances[name]);
    var rest, fewer := Removed(order, instances[name]), instances - {name};
    forall n | n in fewer ensures fewer[n].name == n && fewer[n] in rest {
      var i :| 0 <= i < |order| && order[i] == instances[n];
      assert rest[if i < k then i else i - 1] == order[i];
    }
    forall i | 0 <= i < |rest| ensures rest[i].name in fewer && fewer[rest[i].name] == rest[i] {
      var j := if i < k then i else i + 1;
      assert rest[i] == order[j] && order[j] != order[k];
    }
  }

  lemma NamesRemoved(instances: map<string, Instance>, order: seq<Instance>, name: string)
    requires Listed(instances, order) && Distinct(order) && name in instances
    ensures NamesOf(Removed(order, instances[name])) == Names.Omit(NamesOf(order), name)
  {
    hide Names.Omit, Place;
    var names, k := NamesOf(order), Place(order, instances[name]);
    forall i | 0 <= i < |names| && i != k ensures names[i] != names[k] {
      NamesDiffer(instances, order, i, k);
    }
    Names.OmitAt(names, k);
    NamesWithout(order, k);
  }

  lemma NamesDiffer(instances: map<string, Instance>, order: seq<Instance>, i: nat, k: nat)
    requires Listed(instances, order) && Distinct(order) && i < |order| && k < |order| && i != k
    ensures order[i].name != order[k].name
  {
    assert instances[order[i].name] == order[i] && instances[order[k].name] == order[k];
  }

  lemma NamesWithout(order: seq<Instance>, k: nat)
    requires k < |order|
    ensures NamesOf(Without(order, k)) == NamesOf(order)[..k] + NamesOf(order)[k + 1..]
  {
  }

  lemma TypesAdd(selfType: Type, instances: map<string, Instance>, instance: Instance)
    requires instance.name != "self"
    ensures TypesOf(selfType, instances[instance.name := instance]) ==
      TypesOf(selfType, instances)[instance.name := instance.moduleType]
  {
  }

  lemma TypesRemove(selfType: Type, instances: map<string, Instance>, name: string)
    requires name != "self"
    ensures TypesOf(selfType, instances - {name}) == TypesOf(selfType, instances) - {name}
  {
  }

  lemma AddWiring(types: Types, connections: Conns, connected: map<Wire, set<Wire>>,
      metaData: map<set<Wire>, string>, name: string, t: Type)
    requires Wiring(types, connections, connected, metaData) && name !in types && t.Inhabited()
    ensures Wire(name, []) !in connected
    ensures Wiring(types[name := t], connections, connected[Wire(name, []) := {}], metaData)
  {
    var more, ts := connected[Wire(name, []) := {}], types[name := t];
    forall w | w in connected ensures TypeIn(ts, w) == TypeIn(types, w) {
      assert TypeIn(types, w).Some?;
    }
    assert TypeIn(ts, Wire(name, [])) == Some(t);
    forall w, u | w in more && w.Under(u) ensures u in more {
      if w == Wire(name, []) {
        assert u == w;
      }
    }
    forall x, y | (x, y) in connections ensures x in more && Fits(ts, x, y) {
      assert (y, x) in connections;
    }
  }

  function WiresElsewhere(wires: set<Wire>, name: string): set<Wire> {
    set w | w in wires && w.root != name
  }

  ghost predicate NoneAt(connections: Conns, name: string) {
    forall x, y :: (x, y) in connections ==> x.root != name && y.root != name
  }

  lemma NoneLeft(before: Conns, after: Conns, metaBefore: map<set<Wire>, string>, metaAfter: map<set<Wire>, string>,
      name: string)
    requires Detached(before, after, metaBefore, metaAfter, Subtree(Wire(name, [])))
    ensures NoneAt(after, name)
  {
  }

  lemma RemoveWiring(types: Types, connections: Conns, connected: map<Wire, set<Wire>>,
      metaData: map<set<Wire>, string>, name: string)
    requires Wiring(types, connections, connected, metaData) && name != "self"
    requires NoneAt(connections, name)
    ensures Elsewhere(connected, name).Keys == WiresElsewhere(connected.Keys, name)
    ensures Wiring(types - {name}, connections, Elsewhere(connected, name), metaData)
  {
    var fewer, ts := Elsewhere(connected, name), types - {name};
    forall w | w in fewer ensures TypeIn(ts, w) == TypeIn(types, w) {
    }
    forall x, y | (x, y) in connections ensures x in fewer && Fits(ts, x, y) {
      assert (y, x) in connections;
      assert x in connected && y in connected;
    }
  }

  // ----- copying -----

  /** The instances whose names are not left to copy. */
  function Restricted(others: map<string, Instance>, left: set<string>): map<string, Instance> {
    map n | n in others && n !in left :: others[n]
  }

  lemma RestrictedEnds(others: map<string, Instance>)
    ensures Restricted(others, others.Keys) == map[] && Restricted(others, {}) == others
  {
  }

  lemma RestrictedMore(selfType: Type, others: map<string, Instance>, left: set<string>, n: string)
    requires WellTyped(TypesOf(selfType, others)) && "self" !in others && n in left && left <= others.Keys
    ensures n !in TypesOf(selfType, Restricted(others, left)) && n != "self" && others[n].moduleType.Inhabited()
    ensures TypesOf(selfType, Restricted(others, left - {n})) ==
      TypesOf(selfType, Restricted(others, left))[n := others[n].moduleType]
  {
    assert TypesOf(selfType, others)[n] == others[n].moduleType;
  }

  /** `w` is a root, or an end of a connection was selected from it. */
  ghost predicate OnConnection(types: Types, connections: Conns, w: Wire) {
    (w.root in types && w.path == []) || exists x, y :: (x, y) in connections && x.Under(w)
  }

  lemma OnConnectionMore(types: Types, connections: Conns, a: Wire, b: Wire)
    ensures forall w :: OnConnection(types, connections + {(a, b), (b, a)}, w) <==>
      OnConnection(types, connections, w) || a.Under(w) || b.Under(w)
  {
    var more := connections + {(a, b), (b, a)};
    assert (a, b) in more && (b, a) in more;
    forall w ensures OnConnection(types, more, w) <==> OnConnection(types, connections, w) || a.Under(w) || b.Under(w) {
      if exists x, y :: (x, y) in connections && x.Under(w) {
        var x, y :| (x, y) in connections && x.Under(w);
        assert (x, y) in more;
      }
    }
  }

  lemma CopyStep(all: Conns, done: Conns, left: Conns, a: Wire, b: Wire)
    requires Symmetric(all) && Symmetric(done) && done + left == all && done !! left && (a, b) in left
    ensures var more := done + {(a, b), (b, a)}; more + Cut(left, a, b) == all && more !! Cut(left, a, b)
    ensures |Cut(left, a, b)| < |left|
  {
    assert (b, a) in all && (b, a) !in done;
    Collections.SubsetCount(Cut(left, a, b), left - {(a, b)});
    Collections.OneFewer(left, (a, b));
  }

  class ModuleDef {
    const selfType: Type
    const iter: InstanceIter
    var instances: map<string, Instance>
    var connections: Conns
    var connected: map<Wire, set<Wire>>  // the neighbours of every wireable selected so far
    var metaData: map<set<Wire>, string>

    constructor (selfType: Type)
      requires selfType.Inhabited()
      ensures Valid() && fresh(iter)
      ensures this.selfType == selfType && instances == map[] && connections == {} && metaData == map[]
      ensures connected == map[Wire("self", []) := {}] && iter.order == []
    {
      this.selfType := selfType;
      iter := new InstanceIter();
      instances, connections, metaData := map[], {}, map[];
      connected := map[Wire("self", []) := {}];
    }

    ghost predicate Valid()
      reads this, iter
    {
      iter.Valid() && Listed(instances, iter.order) && Wiring(Types(), connections, connected, metaData)
    }

    ghost function Types(): Types
      reads this`instances
    {
      TypesOf(selfType, instances)
    }

    /** The names of the instances in the order in which they are walked. */
    ghost function Walk(): seq<string>
      reads iter
    {
      NamesOf(iter.order)
    }

    lemma WalkListed()
      requires Valid()
      ensures forall n :: n in Walk() <==> n in instances
    {
      forall n | n in instances ensures n in Walk() {
        var i :| 0 <= i < |iter.order| && iter.order[i] == instances[n];
        assert Walk()[i] == n;
      }
    }

    lemma NameKept(name: string)
      requires Valid() && name in instances
      ensures instances[name].name == name
    {
    }

    lemma WalkRemoved(name: string)
      requires Valid() && name in instances
      ensures NamesOf(Removed(iter.order, instances[name])) == Names.Omit(Walk(), name)
    {
      NamesRemoved(instances, iter.order, name);
    }

    // ----- selecting -----

    /** Selects are made on first use and remembered. */
    method Sel(w: Wire, l: Label) returns (ok: bool)
      requires Valid() && w in connected
      modifies this`connected
      ensures Valid()
      ensures ok == TypeIn(Types(), w.At([l])).Some?
      ensures TypeIn(Types(), w).Some? && (ok <==> Member(TypeIn(Types(), w).value, l))
      ensures connected == if ok && w.At([l]) !in old(connected) then old(connected)[w.At([l]) := {}]
        else old(connected)
      ensures ok ==> connected.Keys == old(connected.Keys) + {w.At([l])}
    {
      hide Member;
      MemberSelects(Types(), w, l);
      var v := w.At([l]);
      if v in connected {
        return true;
      }
      var type_ := TypeIn(TypesOf(selfType, instances), w);
      SelPathAppend(TypesOf(selfType, instances)[w.root], w.path, [l]);
      assert [l][1..] == [];
      if type_.value.Sel(l).None? {
        return false;
      }
      SelectWiring(Types(), connections, connected, metaData, w, l);
      connected := connected[v := {}];
      return true;
    }

    method SelPath(w: Wire) returns (ok: bool)
      requires Valid()
      modifies this`connected
      ensures Valid()
      ensures ok == TypeIn(Types(), w).Some?
      ensures old(connected.Keys) <= connected.Keys
      ensures ok ==> Reaching(old(connected.Keys), connected.Keys, w)
    {
      if w.root != "self" && w.root !in instances {
        return false;
      }
      var i := 0;
      RootReached(Types(), connected.Keys, w);
      while i < |w.path|
        invariant 0 <= i <= |w.path| && Valid()
        invariant old(connected.Keys) <= connected.Keys
        invariant Upto(w, i) in connected && Reaching(old(connected.Keys), connected.Keys, Upto(w, i))
      {
        ReachingNext(old(connected.Keys), connected.Keys, w, i);
        ok := SelNext(w, i);
        if !ok {
          return false;
        }
        i := i + 1;
      }
      assert w.path[..i] == w.path;
      return true;
    }

    /** One more select of a path. */
    method SelNext(w: Wire, i: nat) returns (ok: bool)
      requires Valid() && i < |w.path| && Upto(w, i) in connected
      modifies this`connected
      ensures Valid()
      ensures ok ==> connected.Keys == old(connected.Keys) + {Upto(w, i + 1)}
      ensures !ok ==> TypeIn(Types(), w).None? && connected == old(connected)
    {
      UptoNext(Types(), w, i);
      ok := Sel(Upto(w, i), w.path[i]);
    }

    /** The labels under which something was selected from a wireable. */
    function Selects(w: Wire): (r: set<Label>)
      reads this`connected
      ensures forall l :: l in r <==> w.At([l]) in connected
    {
      SelectsIn(connected.Keys, w)
    }

    // ----- connecting -----

    method Connect(a: Wire, b: Wire) returns (ok: bool)
      requires Valid() && a in connected && b in connected
      modifies this`connections, this`connected
      ensures Valid() && connected.Keys == old(connected.Keys)
      ensures var s, t := TypeIn(Types(), a), TypeIn(Types(), b);
        ok <==> s.Some? && t.Some? && s.value == t.value.Flip() && (a, b) !in old(connections)
      ensures connections == if ok then old(connections) + {(a, b), (b, a)} else old(connections)
    {
      if !Fits(TypesOf(selfType, instances), a, b) || (a, b) in connections {
        return false;
      }
      Join(a, b);
      return true;
    }

    /** Adds a connection that fits, and each end to the neighbours of the other. */
    method Join(a: Wire, b: Wire)
      requires Valid() && a in connected && b in connected && Fits(Types(), a, b)
      modifies this`connections, this`connected
      ensures Valid() && connected.Keys == old(connected.Keys)
      ensures connections == old(connections) + {(a, b), (b, a)}
    {
      hide Wiring, Listed;
      ConnectWiring(Types(), connections, connected, metaData, a, b);
      connected := connected[a := connected[a] + {b}];
      connected := connected[b := connected[b] + {a}];
      connections := connections + {(a, b), (b, a)};
    }

    method ConnectPaths(a: Wire, b: Wire) returns (ok: bool)
      requires Valid()
      modifies this`connections, this`connected
      ensures Valid() && old(connected.Keys) <= connected.Keys
      ensures ok == (Fits(Types(), a, b) && (a, b) !in old(connections))
      ensures connections == if ok then old(connections) + {(a, b), (b, a)} else old(connections)
      ensures ok ==> forall u :: u in connected <==> u in old(connected) || a.Under(u) || b.Under(u)
      ensures ok ==> a in connected && b in connected
    {
      ok := SelPath(a);
      if ok {
        ok := SelPath(b);
      }
      if ok {
        ok := Connect(a, b);
      }
    }

    method Disconnect(a: Wire, b: Wire) returns (ok: bool)
      requires Valid()
      modifies this`connections, this`connected, this`metaData
      ensures Valid() && connected.Keys == old(connected.Keys)
      ensures ok == ((a, b) in old(connections))
      ensures connections == if ok then old(connections) - {(a, b), (b, a)} else old(connections)
      ensures metaData == if ok then old(metaData) - {{a, b}} else old(metaData)
    {
      hide Wiring, Listed;
      if (a, b) !in connections {
        return false;
      }
      DisconnectWiring(Types(), connections, connected, metaData, a, b);
      connected := connected[a := connected[a] - {b}];
      connected := connected[b := connected[b] - {a}];
      connections := Cut(connections, a, b);
      metaData := metaData - {{a, b}};
      return true;
    }

    /** Disconnects a wireable from each of its neighbours. */
    method DisconnectWire(w: Wire)
      requires Valid() && w in connected
      modifies this`connections, this`connected, this`metaData
      ensures Valid() && connected.Keys == old(connected.Keys)
      ensures Detached(old(connections), connections, old(metaData), metaData, iset{w})
    {
      var toDelete := connected[w];
      NoLoop(Types(), connected.Keys, connections, w);
      DetachedStart(connections, connected, metaData, w);
      while toDelete != {}
        invariant Valid() && connected.Keys == old(connected.Keys)
        invariant toDelete == connected[w]
        invariant DetachedFrom(old(connections), connections, old(metaData), metaData, w, toDelete)
        decreases |toDelete|
      {
        ghost var some := Collections.Pick(toDelete);
        var other :| other in toDelete;
        assert (w, other) in connections;
        ghost var c, m := connections, metaData;
        var ok := Disconnect(w, other);
        DetachedStep(old(connections), c, old(metaData), m, w, toDelete, other);
        Collections.OneFewer(toDelete, other);
        toDelete := toDelete - {other};
        NeighboursOf(connections, connected, w, toDelete);
      }
      DetachedAll(old(connections), connections, old(metaData), metaData, w);
    }

    /** Disconnects everything selected from a wireable, and the wireable itself. */
    method DisconnectAll(w: Wire)
      requires Valid() && w in connected
      modifies this`connections, this`connected, this`metaData
      ensures Valid() && connected.Keys == old(connected.Keys)
      ensures Detached(old(connections), connections, old(metaData), metaData, Subtree(w))
      decreases DepthIn(Types(), w), 1
    {
      DisconnectSelects(w);
      label middle:
      DisconnectWire(w);
      DetachedTwice(old(connections), old@middle(connections), connections, old(metaData), old@middle(metaData),
        metaData,
                    Below(w, SelectsIn(connected.Keys, w)), iset{w});
      DetachedSubtree(Types(), connected.Keys, old(connections), connections, old(metaData), metaData, w);
    }

    method DisconnectSelects(w: Wire)
      requires Valid() && w in connected
      modifies this`connections, this`connected, this`metaData
      ensures Valid() && connected.Keys == old(connected.Keys)
      ensures Detached(old(connections), connections, old(metaData), metaData, Below(w, SelectsIn(connected.Keys, w)))
      decreases DepthIn(Types(), w), 0
    {
      hide Detached, Wiring, Listed;
      var labels := Selects(w);
      ghost var done: set<Label> := {};
      DetachedNone(connections, metaData, w);
      while labels != {}
        invariant Valid() && connected.Keys == old(connected.Keys)
        invariant done + labels == SelectsIn(old(connected.Keys), w) && done !! labels
        invariant Detached(old(connections), connections, old(metaData), metaData, Below(w, done))
        decreases |labels|
      {
        ghost var some := Collections.Pick(labels);
        var l :| l in labels;
        ChildDepth(Types(), connections, connected, metaData, w, l);
        label before:
        DisconnectAll(w.At([l]));
        DetachedMore(old(connections), old@before(connections), connections, old(metaData), old@before(metaData),
          metaData, w, done, l);
        Collections.MoveOne(SelectsIn(old(connected.Keys), w), done, labels, l);
        done, labels := done + {l}, labels - {l};
      }
    }

    method SetMetaData(a: Wire, b: Wire, data: string) returns (ok: bool)
      requires Valid()
      modifies this`metaData
      ensures Valid()
      ensures ok == ((a, b) in connections)
      ensures metaData == if ok then old(metaData)[{a, b} := data] else old(metaData)
    {
      if (a, b) !in connections {
        return false;
      }
      metaData := metaData[{a, b} := data];
      return true;
    }

    // ----- instances -----

    method AddInstance(name: string, moduleType: Type) returns (ok: bool)
      requires Valid() && name != "self" && moduleType.Inhabited()
      modifies this`instances, this`connected, iter
      ensures Valid()
      ensures ok == (name !in old(instances))
      ensures Types() == if ok then old(Types())[name := moduleType] else old(Types())
      ensures connected == if ok then old(connected)[Wire(name, []) := {}] else old(connected)
      ensures instances == if ok then old(instances)[name := instances[name]] else old(instances)
      ensures ok ==> instances[name].name == name
      ensures iter.order == if ok then old(iter.order) + [instances[name]] else old(iter.order)
    {
      if name in instances {
        return false;
      }
      var instance := new Instance(name, moduleType);
      TypesAdd(selfType, instances, instance);
      Enter(instance);
      return true;
    }

    /** Takes in an instance with an unused name. */
    method Enter(instance: Instance)
      requires Valid() && instance.name !in instances && instance.name != "self" && instance.moduleType.Inhabited()
      modifies this`instances, this`connected, iter
      ensures Valid()
      ensures instances == old(instances)[instance.name := instance]
      ensures connected == old(connected)[Wire(instance.name, []) := {}]
      ensures iter.order == old(iter.order) + [instance]
    {
      hide Wiring, Listed;
      ListedAdd(instances, iter.order, instance);
      AddWiring(Types(), connections, connected, metaData, instance.name, instance.moduleType);
      TypesAdd(selfType, instances, instance);
      instances := instances[instance.name := instance];
      connected := connected[Wire(instance.name, []) := {}];
      iter.Append(instance);
    }

    method RemoveInstance(name: string) returns (ok: bool)
      requires Valid()
      modifies this, iter
      ensures Valid()
      ensures ok == (name in old(instances))
      ensures !ok ==> unchanged(this) && iter.order == old(iter.order)
      ensures ok ==> instances == old(instances) - {name} && Types() == old(Types()) - {name}
      ensures ok ==> connected.Keys == WiresElsewhere(old(connected.Keys), name)
      ensures ok ==> forall w :: w in connected <==> w in old(connected) && w.root != name
      ensures ok ==> Detached(old(connections), connections, old(metaData), metaData, Subtree(Wire(name, [])))
      ensures ok ==> iter.order == Removed(old(iter.order), old(instances)[name])
    {
      if name !in instances {
        return false;
      }
      assert Wire(name, []) in connected;
      DisconnectAll(Wire(name, []));
      NoneLeft(old(connections), connections, old(metaData), metaData, name);
      Erase(name);
      return true;
    }

    /** Removes a disconnected instance with everything selected from it. */
    method Erase(name: string)
      requires Valid() && name in instances
      requires NoneAt(connections, name)
      modifies this`instances, this`connected, iter
      ensures Valid()
      ensures instances == old(instances) - {name} && Types() == old(Types()) - {name}
      ensures connected == Elsewhere(old(connected), name)
      ensures connected.Keys == WiresElsewhere(old(connected.Keys), name)
      ensures iter.order == Removed(old(iter.order), old(instances)[name])
    {
      hide Wiring;
      var instance := instances[name];
      RemoveWiring(Types(), connections, connected, metaData, name);
      TypesRemove(selfType, instances, name);
      ListedRemove(instances, iter.order, name);
      connected := Elsewhere(connected, name);
      instances := instances - {name};
      iter.Remove(instance);
    }

    /**
     Another definition with instances of the same names and types, which are walked in
     the order of their names, and the same connections.
    */
    method Copy() returns (def: ModuleDef)
      requires Valid()
      ensures fresh(def) && fresh(def.iter) && def.Valid() && def.selfType == selfType
      ensures def.Types() == Types() && def.connections == connections
      ensures Names.Ascending(NamesOf(def.iter.order)) && def.instances.Keys == instances.Keys
      ensures forall w :: w in def.connected <==> OnConnection(Types(), connections, w)
    {
      hide Names.Before, Names.Ascending, OnConnection;
      def := new ModuleDef(selfType);
      def.CopyInstances(instances);
      RestrictedEnds(instances);
      def.CopyConnections(this);
    }

    /** All instances but those called `left` have been copied. */
    ghost predicate Copying(others: map<string, Instance>, left: set<string>)
      reads this, iter
    {
      && left <= others.Keys && instances.Keys == others.Keys - left
      && Types() == TypesOf(selfType, Restricted(others, left))
      && (forall w :: w in connected <==> w.root in Types() && w.path == [])
      && InNameOrder(iter.order, left)
    }

    method CopyInstances(others: map<string, Instance>)
      requires Valid() && instances == map[] && connected.Keys == {Wire("self", [])} && iter.order == []
      requires WellTyped(TypesOf(selfType, others)) && "self" !in others
      modifies this`instances, this`connected, iter
      ensures Valid() && Copying(others, {})
    {
      RestrictedEnds(others);
      var names := others.Keys;
      while names != {}
        invariant Valid() && Copying(others, names)
        decreases |names|
      {
        hide Valid, Copying;
        Names.HasFirst(names);
        var n :| Names.IsFirst(names, n);
        CopyInstance(others, names, n);
        Collections.OneFewer(names, n);
        names := names - {n};
      }
    }

    method CopyInstance(others: map<string, Instance>, ghost left: set<string>, n: string)
      requires Valid() && Copying(others, left) && Names.IsFirst(left, n) && n in others
      requires WellTyped(TypesOf(selfType, others)) && "self" !in others
      modifies this`instances, this`connected, iter
      ensures Valid() && Copying(others, left - {n})
    {
      hide InNameOrder, WellTyped, Valid, TypesOf, Restricted, Names.Before;
      RestrictedMore(selfType, others, left, n);
      ghost var walked := iter.order;
      var ok := AddInstance(n, others[n].moduleType);
      InNameOrderMore(walked, instances[n], left);
    }

    method CopyConnections(from: ModuleDef)
      requires Valid() && from.Valid() && from != this && from.iter != iter
      requires connections == {} && Types() == from.Types()
      requires forall w :: w in connected <==> w.root in from.Types() && w.path == []
      modifies this`connections, this`connected
      ensures Valid() && connections == from.connections
      ensures forall w :: w in connected <==> OnConnection(from.Types(), from.connections, w)
    {
      hide Listed;
      var todo := from.connections;
      while todo != {}
        invariant Valid() && connections + todo == from.connections && connections !! todo
        invariant forall w :: w in connected <==> OnConnection(from.Types(), connections, w)
        decreases |todo|
      {
        ghost var some := Collections.Pick(todo);
        var c :| c in todo;
        ghost var before := connections;
        assert (c.0, c.1) in from.connections && (c.0, c.1) !in connections;
        var ok := ConnectPaths(c.0, c.1);
        OnConnectionMore(from.Types(), before, c.0, c.1);
        CopyStep(from.connections, before, todo, c.0, c.1);
        todo := Cut(todo, c.0, c.1);
      }
    }
  }

  lemma UnderStep(w: Wire, l: Label, u: Wire)
    ensures w.At([l]).Under(u) <==> w.Under(u) || u == w.At([l])
  {
    var v := w.At([l]);
    if v.Under(u) && u != v {
      assert |u.path| <= |w.path| && u.path <= v.path;
      assert u.path <= w.path;
    }
  }

  function SelectsIn(wires: set<Wire>, w: Wire): (r: set<Label>)
    ensures forall l :: l in r <==> w.At([l]) in wires
  {
    var r := set u | u in wires && u.Under(w) && |u.path| == |w.path| + 1 :: u.path[|w.path|];
    assert forall l :: l in r <==> w.At([l]) in wires by {
      forall l ensures l in r <==> w.At([l]) in wires {
        var v := w.At([l]);
        if l in r {
          var u :| u in wires && u.Under(w) && |u.path| == |w.path| + 1 && u.path[|w.path|] == l;
          assert u == v;
        }
        if v in wires {
          assert v.Under(w) && v.path[|w.path|] == l;
        }
      }
    }
    r
  }
}
