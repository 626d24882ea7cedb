/**
 The check that no input is driven twice: a walk over the selects that stops early, and
 the rule for single bits it amounts to. The connections need not fit here.
*/
module Validation {
  import opened Wires
  import opened Chains
  import opened ModuleDefs
  import Collections

  predicate HasInput(t: Type)
    decreases t
  {
    match t
    case Bit => false
    case BitIn => true
    case Array(_, e) => HasInput(e)
    case Record(fs) => exists i :: 0 <= i < |fs| && HasInput(fs[i].1)
  }

  lemma {:induction false} LookupAt(fs: seq<(string, Type)>, i: nat)
    requires i < |fs| && forall j, k :: 0 <= j < k < |fs| ==> fs[j].0 != fs[k].0
    ensures Lookup(fs, fs[i].0) == Some(fs[i].1)
    decreases |fs|
  {
    if i > 0 {
      assert fs[1..][i - 1] == fs[i];
      LookupAt(fs[1..], i - 1);
    }
  }

  /** A type with an input has a bit that is one. */
  lemma {:induction false} InputLeaf(t: Type) returns (p: Path)
    requires HasInput(t) && t.Inhabited()
    ensures t.SelPath(p) == Some(BitIn)
    decreases t
  {
    match t
    case BitIn =>
      p := [];
    case Array(_, e) =>
      var rest := InputLeaf(e);
      p := [Index(0)] + rest;
      assert p[1..] == rest;
    case Record(fs) =>
      var i :| 0 <= i < |fs| && HasInput(fs[i].1);
      var rest := InputLeaf(fs[i].1);
      p := [Field(fs[i].0)] + rest;
      assert p[1..] == rest;
      LookupAt(fs, i);
  }

  lemma {:induction false} InputBelow(t: Type, p: Path)
    requires t.SelPath(p).Some? && HasInput(t.SelPath(p).value)
    ensures HasInput(t)
    decreases |p|
  {
    if p != [] {
      InputBelow(t.Sel(p[0]).value, p[1..]);
      if t.Record? {
        var i :| 0 <= i < |t.fields| && t.fields[i] == (p[0].name, t.Sel(p[0]).value);
        assert HasInput(t.fields[i].1);
      }
    }
  }

  predicate InputAt(types: Types, w: Wire) {
    var t := TypeIn(types, w);
    t.Some? && HasInput(t.value)
  }

  predicate IsInputBit(types: Types, w: Wire) {
    TypeIn(types, w) == Some(BitIn)
  }

  ghost function InputsOf(types: Types): iset<Wire> {
    iset w: Wire | IsInputBit(types, w)
  }

  /** What the walk relies on: everything but that connections fit. */
  ghost predicate Walkable(types: Types, connections: Conns, connected: map<Wire, set<Wire>>) {
    && WellTyped(types) && Selected(types, connected.Keys)
    && Symmetric(connections) && Neighbours(connections, connected)
  }

  lemma InputAbove(types: Types, w: Wire, u: Wire)
    requires InputAt(types, u) && u.Under(w)
    ensures InputAt(types, w)
  {
    var p := u.From(w);
    AtFrom(w, u, p);
    SelPathAppend(types[w.root], w.path, p);
    InputBelow(TypeIn(types, w).value, p);
  }

  lemma InputBit(types: Types, w: Wire) returns (leaf: Wire)
    requires WellTyped(types) && InputAt(types, w)
    ensures leaf.Under(w) && IsInputBit(types, leaf)
  {
    SelPathDepth(types[w.root], w.path);
    var p := InputLeaf(TypeIn(types, w).value);
    SelPathAppend(types[w.root], w.path, p);
    leaf := w.At(p);
  }

  // ----- connections of one bit -----

  function LoadAt(connected: map<Wire, set<Wire>>, w: Wire): nat {
    if w in connected then |connected[w]| else 0
  }

  /** How many connections there are at the wireables from level `level` of `leaf` down to `leaf`. */
  function Load(connected: map<Wire, set<Wire>>, leaf: Wire, level: nat): nat
    decreases |leaf.path| + 1 - level
  {
    if level > |leaf.path| then 0 else LoadAt(connected, Upto(leaf, level)) + Load(connected, leaf, level + 1)
  }

  lemma {:induction false} LoadBelow(connected: map<Wire, set<Wire>>, leaf: Wire, level: nat, at: nat)
    requires level <= at <= |leaf.path|
    ensures Load(connected, leaf, level) >= LoadAt(connected, Upto(leaf, at))
    decreases at - level
  {
    if level < at {
      LoadBelow(connected, leaf, level + 1, at);
    }
  }

  lemma {:induction false} LoadedLevel(connected: map<Wire, set<Wire>>, leaf: Wire, level: nat) returns (at: nat)
    requires Load(connected, leaf, level) > 0
    ensures level <= at <= |leaf.path| && LoadAt(connected, Upto(leaf, at)) > 0
    decreases |leaf.path| + 1 - level
  {
    if LoadAt(connected, Upto(leaf, level)) > 0 {
      at := level;
    } else {
      at := LoadedLevel(connected, leaf, level + 1);
    }
  }

  lemma UptoUnder(leaf: Wire, w: Wire)
    requires leaf.Under(w)
    ensures |w.path| <= |leaf.path| && Upto(leaf, |w.path|) == w
  {
  }

  lemma UptoBetween(leaf: Wire, w: Wire, at: nat)
    requires leaf.Under(w) && |w.path| <= at <= |leaf.path|
    ensures Upto(leaf, at).Under(w) && leaf.Under(Upto(leaf, at)) && |Upto(leaf, at).path| == at
  {
  }

  // ----- the walk -----

  ghost predicate ConnectedInput(types: Types, connected: map<Wire, set<Wire>>, w: Wire, u: Wire) {
    u in connected && u.Under(w) && InputAt(types, u) && connected[u] != {}
  }

  ghost predicate Overloaded(types: Types, connected: map<Wire, set<Wire>>, w: Wire, leaf: Wire) {
    leaf.Under(w) && IsInputBit(types, leaf) && Load(connected, leaf, |w.path|) > 1
  }

  ghost predicate OverloadedWithin(types: Types, connected: map<Wire, set<Wire>>, w: Wire) {
    exists leaf :: Overloaded(types, connected, w, leaf)
  }

  /** A wireable below `w` is `w`, or below one of the selects of `w`. */
  lemma BelowSelect(types: Types, connected: map<Wire, set<Wire>>, w: Wire, u: Wire) returns (l: Label)
    requires Selected(types, connected.Keys) && u in connected && u.Under(w) && u != w
    ensures l in SelectsIn(connected.Keys, w) && u.Under(w.At([l]))
  {
    assert |u.path| > |w.path|;
    l := u.path[|w.path|];
    UnderSelect(w, l, u);
  }

  /** Whether some wireable with an input, at or below `w`, is connected. */
  method CheckInputConnected(def: ModuleDef, w: Wire) returns (err: bool)
    requires Walkable(def.Types(), def.connections, def.connected) && w in def.connected
    ensures err <==> exists u :: ConnectedInput(def.Types(), def.connected, w, u)
    decreases DepthIn(def.Types(), w), 1
  {
    ghost var types := def.Types();
    if !HasInput(TypeIn(TypesOf(def.selfType, def.instances), w).value) {
      forall u ensures !ConnectedInput(types, def.connected, w, u) {
        if u.Under(w) && InputAt(types, u) {
          InputAbove(types, w, u);
        }
      }
      return false;
    }
    if def.connected[w] != {} {
      assert ConnectedInput(types, def.connected, w, w);
      return true;
    }
    var labels := def.Selects(w);
    err := CheckSelectsUnconnected(def, w, labels);
    InputConnectedSplit(types, def.connected, w, labels);
  }

  ghost predicate InputConnectedBelow(types: Types, connected: map<Wire, set<Wire>>, w: Wire, l: Label) {
    exists u :: ConnectedInput(types, connected, w.At([l]), u)
  }

  lemma InputConnectedSplit(types: Types, connected: map<Wire, set<Wire>>, w: Wire, labels: set<Label>)
    requires Selected(types, connected.Keys) && w in connected && connected[w] == {}
    requires labels == SelectsIn(connected.Keys, w)
    ensures (exists u :: ConnectedInput(types, connected, w, u)) <==>
      (exists l :: l in labels && InputConnectedBelow(types, connected, w, l))
  {
    if u: Wire :| ConnectedInput(types, connected, w, u) {
      var l := BelowSelect(types, connected, w, u);
      assert ConnectedInput(types, connected, w.At([l]), u);
      assert InputConnectedBelow(types, connected, w, l);
    }
    if l :| l in labels && InputConnectedBelow(types, connected, w, l) {
      var u: Wire :| ConnectedInput(types, connected, w.At([l]), u);
      UnderSelect(w, l, u);
      assert ConnectedInput(types, connected, w, u);
    }
  }

  // ----- at most one connection for every input bit -----

  ghost predicate OverloadedBelow(types: Types, connected: map<Wire, set<Wire>>, w: Wire, l: Label) {
    OverloadedWithin(types, connected, w.At([l]))
  }

  /** Two connections at one input wireable are two for each of its bits. */
  lemma TwiceConnected(types: Types, connected: map<Wire, set<Wire>>, w: Wire)
    requires WellTyped(types) && InputAt(types, w) && LoadAt(connected, w) > 1
    ensures OverloadedWithin(types, connected, w)
  {
    var leaf := InputBit(types, w);
    UptoUnder(leaf, w);
    assert Overloaded(types, connected, w, leaf);
  }

  /** Where a wireable is not connected, its bits have only the connections below. */
  lemma OverloadedSplit(types: Types, connected: map<Wire, set<Wire>>, w: Wire, labels: set<Label>)
    requires Selected(types, connected.Keys) && w in connected && connected[w] == {}
    requires labels == SelectsIn(connected.Keys, w)
    ensures OverloadedWithin(types, connected, w) <==>
      (exists l :: l in labels && OverloadedBelow(types, connected, w, l))
  {
    if leaf: Wire :| Overloaded(types, connected, w, leaf) {
      UptoUnder(leaf, w);
      var at := LoadedLevel(connected, leaf, |w.path| + 1);
      UptoBetween(leaf, w, at);
      var l := BelowSelect(types, connected, w, Upto(leaf, at));
      PrefixTransitive(w.At([l]).path, Upto(leaf, at).path, leaf.path);
      assert Overloaded(types, connected, w.At([l]), leaf);
      assert OverloadedBelow(types, connected, w, l);
    }
    if l :| l in labels && OverloadedBelow(types, connected, w, l) {
      var leaf: Wire :| Overloaded(types, connected, w.At([l]), leaf);
      UnderSelect(w, l, leaf);
      UptoUnder(leaf, w);
      assert Overloaded(types, connected, w, leaf);
    }
  }

  /** Where a wireable is connected once, any further connected input below it is one too many. */
  lemma OnceConnected(types: Types, connected: map<Wire, set<Wire>>, w: Wire, labels: set<Label>)
    requires WellTyped(types) && Selected(types, connected.Keys) && w in connected && |connected[w]| == 1
    requires labels == SelectsIn(connected.Keys, w)
    ensures OverloadedWithin(types, connected, w) <==>
      (exists l :: l in labels && InputConnectedBelow(types, connected, w, l))
  {
    if leaf: Wire :| Overloaded(types, connected, w, leaf) {
      UptoUnder(leaf, w);
      var at := LoadedLevel(connected, leaf, |w.path| + 1);
      UptoBetween(leaf, w, at);
      InputAbove(types, Upto(leaf, at), leaf);
      var l := BelowSelect(types, connected, w, Upto(leaf, at));
      assert ConnectedInput(types, connected, w.At([l]), Upto(leaf, at));
      assert InputConnectedBelow(types, connected, w, l);
    }
    if l :| l in labels && InputConnectedBelow(types, connected, w, l) {
      var u: Wire :| ConnectedInput(types, connected, w.At([l]), u);
      OneMoreBelow(types, connected, w, l, u);
    }
  }

  lemma OneMoreBelow(types: Types, connected: map<Wire, set<Wire>>, w: Wire, l: Label, u: Wire)
    requires WellTyped(types) && w in connected && |connected[w]| == 1 && ConnectedInput(types, connected, w.At([l]), u)
    ensures OverloadedWithin(types, connected, w)
  {
    UnderSelect(w, l, u);
    var leaf := InputBit(types, u);
    PrefixTransitive(w.path, u.path, leaf.path);
    UptoUnder(leaf, u);
    UptoUnder(leaf, w);
    LoadBelow(connected, leaf, |w.path| + 1, |u.path|);
    assert |connected[u]| > 0;
    assert Overloaded(types, connected, w, leaf);
  }

  /** Whether some input bit at or below `w` has more than one connection, counted from `w` down. */
  method CheckInputOutputs(def: ModuleDef, w: Wire) returns (err: bool)
    requires Walkable(def.Types(), def.connections, def.connected) && w in def.connected
    ensures err <==> OverloadedWithin(def.Types(), def.connected, w)
    decreases DepthIn(def.Types(), w), 1
  {
    ghost var types := def.Types();
    if !HasInput(TypeIn(TypesOf(def.selfType, def.instances), w).value) {
      forall leaf ensures !Overloaded(types, def.connected, w, leaf) {
        if leaf.Under(w) && IsInputBit(types, leaf) {
          InputAbove(types, w, leaf);
        }
      }
      return false;
    }
    var numwires := |def.connected[w]|;
    if numwires > 1 {
      TwiceConnected(types, def.connected, w);
      return true;
    }
    err := false;
    var labels := def.Selects(w);
    if numwires == 0 {
      err := CheckSelects(def, w, labels);
      OverloadedSplit(types, def.connected, w, labels);
    } else {
      err := CheckSelectsUnconnected(def, w, labels);
      OnceConnected(types, def.connected, w, labels);
    }
  }

  ghost predicate AnyTooMany(types: Types, connected: map<Wire, set<Wire>>, w: Wire, labels: set<Label>) {
    exists l :: l in labels && OverloadedBelow(types, connected, w, l)
  }

  lemma AnyTooManyMeans(types: Types, connected: map<Wire, set<Wire>>, w: Wire, labels: set<Label>)
    ensures AnyTooMany(types, connected, w, labels) <==>
      exists l :: l in labels && OverloadedBelow(types, connected, w, l)
  {
  }

  lemma AnyTooManyMore(types: Types, connected: map<Wire, set<Wire>>, w: Wire, labels: set<Label>, l: Label)
    ensures AnyTooMany(types, connected, w, labels + {l}) <==>
      AnyTooMany(types, connected, w, labels) || OverloadedBelow(types, connected, w, l)
  {
    assert l in labels + {l};
  }

  method CheckSelects(def: ModuleDef, w: Wire, labels: set<Label>) returns (err: bool)
    requires Walkable(def.Types(), def.connections, def.connected) && w in def.connected
    requires labels == SelectsIn(def.connected.Keys, w)
    ensures err <==> exists l :: l in labels && OverloadedBelow(def.Types(), def.connected, w, l)
    decreases DepthIn(def.Types(), w), 0
  {
    hide AnyTooMany;
    var todo := labels;
    ghost var done: set<Label> := {};
    err := false;
    AnyTooManyMeans(def.Types(), def.connected, w, {});
    while todo != {}
      invariant done + todo == labels && done !! todo
      invariant err <==> AnyTooMany(def.Types(), def.connected, w, done)
      decreases |todo|
    {
      ghost var some := Collections.Pick(todo);
      var l :| l in todo;
      SelectDepth(def.Types(), def.connected.Keys, w, l);
      var e := CheckInputOutputs(def, w.At([l]));
      err := err || e;
      AnyTooManyMore(def.Types(), def.connected, w, done, l);
      Collections.MoveOne(labels, done, todo, l);
      done, todo := done + {l}, todo - {l};
    }
    assert done == labels;
    AnyTooManyMeans(def.Types(), def.connected, w, labels);
  }

  ghost predicate AnyConnected(types: Types, connected: map<Wire, set<Wire>>, w: Wire, labels: set<Label>) {
    exists l :: l in labels && InputConnectedBelow(types, connected, w, l)
  }

  lemma AnyConnectedMeans(types: Types, connected: map<Wire, set<Wire>>, w: Wire, labels: set<Label>)
    ensures AnyConnected(types, connected, w, labels) <==>
      exists l :: l in labels && InputConnectedBelow(types, connected, w, l)
  {
  }

  lemma AnyConnectedMore(types: Types, connected: map<Wire, set<Wire>>, w: Wire, labels: set<Label>, l: Label)
    ensures AnyConnected(types, connected, w, labels + {l}) <==>
      AnyConnected(types, connected, w, labels) || InputConnectedBelow(types, connected, w, l)
  {
    assert l in labels + {l};
  }

  method CheckSelectsUnconnected(def: ModuleDef, w: Wire, labels: set<Label>) returns (err: bool)
    requires Walkable(def.Types(), def.connections, def.connected) && w in def.connected
    requires labels == SelectsIn(def.connected.Keys, w)
    ensures err <==> exists l :: l in labels && InputConnectedBelow(def.Types(), def.connected, w, l)
    decreases DepthIn(def.Types(), w), 0
  {
    hide AnyConnected;
    var todo := labels;
    ghost var done: set<Label> := {};
    err := false;
    AnyConnectedMeans(def.Types(), def.connected, w, {});
    while todo != {}
      invariant done + todo == labels && done !! todo
      invariant err <==> AnyConnected(def.Types(), def.connected, w, done)
      decreases |todo|
    {
      ghost var some := Collections.Pick(todo);
      var l :| l in todo;
      SelectDepth(def.Types(), def.connected.Keys, w, l);
      var e := CheckInputConnected(def, w.At([l]));
      err := err || e;
      AnyConnectedMore(def.Types(), def.connected, w, done, l);
      Collections.MoveOne(labels, done, todo, l);
      done, todo := done + {l}, todo - {l};
    }
    assert done == labels;
    AnyConnectedMeans(def.Types(), def.connected, w, labels);
  }

  // ----- the whole definition -----

  /** Every input bit of a root has at most one connection at itself and at what it was selected from. */
  ghost predicate SingleDrivers(types: Types, connected: map<Wire, set<Wire>>) {
    forall leaf: Wire :: IsInputBit(types, leaf) ==> Load(connected, leaf, 0) <= 1
  }

  ghost predicate AllFitting(types: Types, connections: Conns) {
    forall x, y :: (x, y) in connections ==>
      var s, t := TypeIn(types, x), TypeIn(types, y);
      s.Some? && t.Some? && s.value == t.value.Flip()
  }

  lemma OverloadedRoots(types: Types, connected: map<Wire, set<Wire>>)
    ensures SingleDrivers(types, connected) <==> !AnyOverloaded(types, connected, types.Keys)
  {
    if !SingleDrivers(types, connected) {
      var leaf: Wire :| IsInputBit(types, leaf) && Load(connected, leaf, 0) > 1;
      assert Overloaded(types, connected, Wire(leaf.root, []), leaf);
      assert OverloadedWithin(types, connected, Wire(leaf.root, []));
    }
  }

  ghost predicate AnyOverloaded(types: Types, connected: map<Wire, set<Wire>>, roots: set<string>) {
    exists r :: r in roots && OverloadedWithin(types, connected, Wire(r, []))
  }

  lemma AnyMore(types: Types, connected: map<Wire, set<Wire>>, roots: set<string>, r: string)
    ensures AnyOverloaded(types, connected, roots + {r}) <==>
      AnyOverloaded(types, connected, roots) || OverloadedWithin(types, connected, Wire(r, []))
  {
    assert r in roots + {r};
  }

  method CheckConnections(def: ModuleDef) returns (err: bool)
    requires Walkable(def.Types(), def.connections, def.connected)
    ensures err <==> !AllFitting(def.Types(), def.connections)
  {
    var todo := def.connections;
    ghost var types := def.Types();
    err := false;
    while todo != {}
      invariant todo <= def.connections
      invariant err <==> exists x, y :: (x, y) in def.connections - todo && !Fits(types, x, y)
      decreases |todo|
    {
      ghost var some := Collections.Pick(todo);
      var c :| c in todo;
      assert c == (c.0, c.1);
      var bad := !Fits(TypesOf(def.selfType, def.instances), c.0, c.1);
      assert (c.0, c.1) in def.connections - (todo - {c});
      err := err || bad;
      Collections.OneFewer(todo, c);
      todo := todo - {c};
    }
  }

  /** No error exactly if all connections fit and no input bit is driven twice. */
  method Validate(def: ModuleDef) returns (err: bool)
    requires Walkable(def.Types(), def.connections, def.connected)
    ensures !err <==> AllFitting(def.Types(), def.connections) && SingleDrivers(def.Types(), def.connected)
  {
    ghost var types := def.Types();
    err := CheckConnections(def);
    ghost var unfit := err;
    var work := def.instances.Keys + {"self"};
    ghost var roots, done: set<string> := types.Keys, {};
    assert work == roots;
    assert !AnyOverloaded(types, def.connected, done);
    while work != {}
      invariant done + work == roots && done !! work
      invariant err <==> unfit || AnyOverloaded(types, def.connected, done)
      decreases |work|
    {
      ghost var some := Collections.Pick(work);
      var r :| r in work;
      var e := CheckInputOutputs(def, Wire(r, []));
      AnyMore(types, def.connected, done, r);
      err := err || e;
      Collections.MoveOne(roots, done, work, r);
      done, work := done + {r}, work - {r};
    }
    assert done == roots;
    OverloadedRoots(types, def.connected);
  }
}
