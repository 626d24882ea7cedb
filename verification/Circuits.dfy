/** Circuits, and what the simulator's passes compute on the values of their ports. */
module Circuits {
  // A circuit is a graph of operators, registers and memories. Every sequential instance is two
  // vertices: one for its output and one that receives its inputs.

  import opened BitVectors
  import Walks

  /** A level-sensitive reset of a register. */
  datatype Reset = NoReset | Reset(posedge: bool, init: BitVec)

  datatype Kind =
    | Input
    | Clock
    | Output
    | Constant
    | Operator
    | RegisterOut(name: string)
    | RegisterIn(name: string, reset: Reset)
    | MemoryOut(name: string, width: nat)
    | MemoryIn(name: string)

  /** `In(v, k)` is argument `k` of vertex `v`. */
  datatype Port = Out(v: nat) | In(v: nat, k: nat)

  type Memory = map<BitVec, BitVec>

  type Values = map<Port, BitVec>

  /** The values at all ports and the contents of the registers and memories. */
  datatype Data = Data(vals: Values, registers: map<string, BitVec>, memories: map<string, Memory>)

  /** Vertex `ins[v][k]` feeds argument `k` of vertex `v`; `op` computes the operators. */
  datatype Circuit = Circuit(kinds: seq<Kind>, ins: seq<seq<nat>>, op: (nat, seq<BitVec>) -> BitVec) {
    predicate Vertex(v: nat) {
      v < |kinds|
    }

    predicate HasData(v: nat)
      requires Vertex(v)
    {
      kinds[v].Input? || kinds[v].Constant? || kinds[v].Operator? || kinds[v].RegisterOut? || kinds[v].MemoryOut?
    }

    /** How many arguments carry data; the clock is the argument after the data of a register or memory. */
    function DataArity(v: nat): nat
      requires Vertex(v) && |ins| == |kinds|
    {
      match kinds[v]
      case Input => 0
      case Clock => 0
      case Constant => 0
      case Output => 1
      case Operator => |ins[v]|
      case RegisterOut(_) => 0
      case RegisterIn(_, r) => if r.Reset? then 2 else 1
      case MemoryOut(_, _) => 1
      case MemoryIn(_) => 3
    }

    predicate Clocked(v: nat)
      requires Vertex(v)
    {
      kinds[v].RegisterIn? || kinds[v].MemoryIn?
    }

    /** Arguments are fed by vertices of the right kind, and names are used by one receiver each. */
    predicate WellFormed() {
      && |ins| == |kinds|
      && (forall v :: 0 <= v < |kinds| ==> WellFed(v))
      && (forall u, v :: 0 <= u < v < |kinds| ==> !SameReceiver(u, v))
    }

    predicate WellFed(v: nat)
      requires Vertex(v) && |ins| == |kinds|
    {
      && |ins[v]| == DataArity(v) + (if Clocked(v) then 1 else 0)
      && (forall k :: 0 <= k < DataArity(v) ==> Vertex(ins[v][k]) && HasData(ins[v][k]))
      && (Clocked(v) ==> Vertex(ins[v][DataArity(v)]) && kinds[ins[v][DataArity(v)]].Clock?)
    }

    predicate SameReceiver(u: nat, v: nat)
      requires Vertex(u) && Vertex(v)
    {
      || (kinds[u].RegisterIn? && kinds[v].RegisterIn? && kinds[u].name == kinds[v].name)
      || (kinds[u].MemoryIn? && kinds[v].MemoryIn? && kinds[u].name == kinds[v].name)
    }

    /** Every vertex once, after everything that feeds it. */
    ghost predicate Ordered(order: seq<nat>) {
      && |ins| == |kinds|
      && (forall i :: 0 <= i < |order| ==> Vertex(order[i]))
      && (forall i, j :: 0 <= i < j < |order| ==> order[i] != order[j])
      && (forall v :: 0 <= v < |kinds| ==> v in order)
      && (forall j, k :: 0 <= j < |order| && 0 <= k < |ins[order[j]]| ==> ins[order[j]][k] in order[..j])
    }
  }

  function Get(vals: Values, p: Port): BitVec {
    if p in vals then vals[p] else []
  }

  function Read(memories: map<string, Memory>, name: string, addr: BitVec, width: nat): BitVec {
    if name in memories && addr in memories[name] then memories[name][addr] else Zeros(width)
  }

  function Register(d: Data, name: string): BitVec {
    if name in d.registers then d.registers[name] else []
  }

  // ----- the passes -----

  /** The first `n` arguments of a vertex take the values of what feeds them. */
  function Fed(c: Circuit, vals: Values, v: nat, n: nat): Values
    requires v < |c.ins| && n <= |c.ins[v]|
  {
    if n == 0 then vals
    else
      var some := Fed(c, vals, v, n - 1);
      some[In(v, n - 1) := Get(some, Out(c.ins[v][n - 1]))]
  }

  lemma {:induction false} FedAt(c: Circuit, vals: Values, v: nat, n: nat, p: Port)
    requires v < |c.ins| && n <= |c.ins[v]|
    ensures p in Fed(c, vals, v, n) <==> p in vals || (p.In? && p.v == v && p.k < n)
    ensures Get(Fed(c, vals, v, n), p) == if p.In? && p.v == v && p.k < n then Get(vals, Out(c.ins[v][p.k]))
      else Get(vals, p)
  {
    if n > 0 {
      FedAt(c, vals, v, n - 1, p);
      FedAt(c, vals, v, n - 1, Out(c.ins[v][n - 1]));
    }
  }

  function Args(c: Circuit, vals: Values, v: nat): seq<BitVec>
    requires v < |c.ins|
  {
    seq(|c.ins[v]|, k requires 0 <= k < |c.ins[v]| => Get(vals, Out(c.ins[v][k])))
  }

  /** The update of a vertex in the combinational part of a pass. */
  function UpdateNode(c: Circuit, d: Data, v: nat): Data
    requires c.WellFormed() && c.Vertex(v)
  {
    assert c.WellFed(v);
    match c.kinds[v]
    case Output => d.(vals := Fed(c, d.vals, v, 1))
    case Operator => d.(vals := Fed(c, d.vals, v, |c.ins[v]|)[Out(v) := c.op(v, Args(c, d.vals, v))])
    case _ => d
  }

  /** The update of the output of a register or memory. */
  function UpdateOutput(c: Circuit, d: Data, v: nat): Data
    requires c.WellFormed() && c.Vertex(v)
  {
    assert c.WellFed(v);
    match c.kinds[v]
    case RegisterOut(n) => d.(vals := d.vals[Out(v) := Register(d, n)])
    case MemoryOut(n, w) => d.(vals :=
      Fed(c, d.vals, v, 1)[Out(v) := Read(d.memories, n, Get(d.vals, Out(c.ins[v][0])), w)])
    case _ => d
  }

  predicate Vertices(c: Circuit, vs: seq<nat>) {
    forall i :: 0 <= i < |vs| ==> c.Vertex(vs[i])
  }

  function UpdateNodes(c: Circuit, d: Data, vs: seq<nat>): Data
    requires c.WellFormed() && Vertices(c, vs)
  {
    if vs == [] then d else UpdateNode(c, UpdateNodes(c, d, vs[..|vs| - 1]), vs[|vs| - 1])
  }

  function UpdateOutputs(c: Circuit, d: Data, n: nat): Data
    requires c.WellFormed() && n <= |c.kinds|
  {
    if n == 0 then d else UpdateOutput(c, UpdateOutputs(c, d, n - 1), n - 1)
  }

  /** One of the two settle passes. */
  function Settle(c: Circuit, d: Data, order: seq<nat>): Data
    requires c.WellFormed() && Vertices(c, order)
  {
    UpdateNodes(c, UpdateOutputs(c, d, |c.kinds|), order)
  }

  function Combinational(c: Circuit, d: Data, order: seq<nat>): Data
    requires c.WellFormed() && Vertices(c, order)
  {
    Settle(c, Settle(c, d, order), order)
  }

  // ----- what a settled circuit satisfies -----

  predicate NodeSettled(c: Circuit, d: Data, v: nat)
    requires c.WellFormed() && c.Vertex(v)
  {
    assert c.WellFed(v);
    match c.kinds[v]
    case Output => Get(d.vals, In(v, 0)) == Get(d.vals, Out(c.ins[v][0]))
    case Operator =>
      && Get(d.vals, Out(v)) == c.op(v, Args(c, d.vals, v))
      && forall k :: 0 <= k < |c.ins[v]| ==> Get(d.vals, In(v, k)) == Get(d.vals, Out(c.ins[v][k]))
    case RegisterOut(n) => Get(d.vals, Out(v)) == Register(d, n)
    case MemoryOut(n, w) =>
      && Get(d.vals, Out(v)) == Read(d.memories, n, Get(d.vals, Out(c.ins[v][0])), w)
      && Get(d.vals, In(v, 0)) == Get(d.vals, Out(c.ins[v][0]))
    case _ => true
  }

  /** Every operator, output, register and memory shows what its equation says. */
  predicate Settled(c: Circuit, d: Data)
    requires c.WellFormed()
  {
    forall v :: 0 <= v < |c.kinds| ==> NodeSettled(c, d, v)
  }

  /** Inputs and constants, and everything stored, are the same. */
  predicate SameSources(c: Circuit, d: Data, e: Data) {
    && d.registers == e.registers && d.memories == e.memories
    && forall v :: 0 <= v < |c.kinds| && (c.kinds[v].Input? || c.kinds[v].Constant?) ==>
      Get(d.vals, Out(v)) == Get(e.vals, Out(v))
  }

  // ----- one update at a time -----

  lemma UpdateNodeFrame(c: Circuit, d: Data, v: nat, p: Port)
    requires c.WellFormed() && c.Vertex(v)
    ensures var e := UpdateNode(c, d, v);
            && e.registers == d.registers && e.memories == d.memories
            && (p.v != v || (p.Out? && !c.kinds[v].Operator?) ==> Get(e.vals, p) == Get(d.vals, p))
  {
    assert c.WellFed(v);
    if c.kinds[v].Output? {
      FedAt(c, d.vals, v, 1, p);
    } else if c.kinds[v].Operator? {
      FedAt(c, d.vals, v, |c.ins[v]|, p);
    }
  }

  lemma UpdateOutputFrame(c: Circuit, d: Data, v: nat, p: Port)
    requires c.WellFormed() && c.Vertex(v)
    ensures var e := UpdateOutput(c, d, v);
            && e.registers == d.registers && e.memories == d.memories
            && (p.v != v || !(c.kinds[v].RegisterOut? || c.kinds[v].MemoryOut?) ==> Get(e.vals, p) == Get(d.vals, p))
  {
    assert c.WellFed(v);
    if c.kinds[v].MemoryOut? {
      FedAt(c, d.vals, v, 1, p);
    }
  }

  /** Once updated, an operator or output that does not feed itself is settled. */
  lemma UpdateNodeSettles(c: Circuit, d: Data, v: nat)
    requires c.WellFormed() && c.Vertex(v) && (c.kinds[v].Operator? || c.kinds[v].Output?)
    requires forall k :: 0 <= k < |c.ins[v]| ==> c.ins[v][k] != v
    ensures NodeSettled(c, UpdateNode(c, d, v), v)
  {
    assert c.WellFed(v);
    var e := UpdateNode(c, d, v);
    forall k | 0 <= k < |c.ins[v]|
      ensures Get(e.vals, In(v, k)) == Get(d.vals, Out(c.ins[v][k])) == Get(e.vals, Out(c.ins[v][k]))
    {
      UpdateNodeFrame(c, d, v, Out(c.ins[v][k]));
      FedAt(c, d.vals, v, |c.ins[v]|, In(v, k));
    }
    assert Args(c, e.vals, v) == Args(c, d.vals, v);
  }

  /** Whether a vertex is settled depends on its own ports and what feeds it. */
  lemma SettledDepends(c: Circuit, d: Data, e: Data, v: nat)
    requires c.WellFormed() && c.Vertex(v) && NodeSettled(c, d, v)
    requires d.registers == e.registers && d.memories == e.memories
    requires Get(e.vals, Out(v)) == Get(d.vals, Out(v))
    requires forall k :: 0 <= k < |c.ins[v]| ==>
      Get(e.vals, In(v, k)) == Get(d.vals, In(v, k)) && Get(e.vals, Out(c.ins[v][k])) == Get(d.vals, Out(c.ins[v][k]))
    ensures NodeSettled(c, e, v)
  {
    assert c.WellFed(v);
    assert Args(c, e.vals, v) == Args(c, d.vals, v);
    if c.kinds[v].MemoryOut? || c.kinds[v].Output? {
      assert Get(e.vals, In(v, 0)) == Get(d.vals, In(v, 0));
    }
  }

  // ----- the combinational part of a pass -----

  lemma {:induction false} UpdateNodesFrame(c: Circuit, d: Data, vs: seq<nat>, p: Port)
    requires c.WellFormed() && Vertices(c, vs)
    ensures var e := UpdateNodes(c, d, vs);
            && e.registers == d.registers && e.memories == d.memories
            && (p.v !in vs || (p.Out? && c.Vertex(p.v) && !c.kinds[p.v].Operator?) ==> Get(e.vals, p) == Get(d.vals, p))
    decreases |vs|
  {
    if vs != [] {
      var n := |vs| - 1;
      UpdateNodesFrame(c, d, vs[..n], p);
      UpdateNodeFrame(c, UpdateNodes(c, d, vs[..n]), vs[n], p);
    }
  }

  predicate Combinatorial(c: Circuit, v: nat)
    requires c.Vertex(v)
  {
    c.kinds[v].Operator? || c.kinds[v].Output?
  }

  /** After the first `n` updates of an order in which every vertex comes after what feeds it. */
  lemma {:induction false} UpdateNodesSettle(c: Circuit, d: Data, order: seq<nat>, n: nat)
    requires c.WellFormed() && c.Ordered(order) && n <= |order| && Vertices(c, order[..n])
    ensures forall i :: 0 <= i < n && Combinatorial(c, order[i]) ==>
      NodeSettled(c, UpdateNodes(c, d, order[..n]), order[i])
    decreases n
  {
    if n > 0 {
      var m := n - 1;
      assert order[..n][..m] == order[..m];
      UpdateNodesSettle(c, d, order, m);
      var before, after := UpdateNodes(c, d, order[..m]), UpdateNodes(c, d, order[..n]);
      assert after == UpdateNode(c, before, order[m]);
      forall i | 0 <= i < n && Combinatorial(c, order[i]) ensures NodeSettled(c, after, order[i]) {
        SourcesEarlier(c, order, i, m);
        if i < m {
          UpdateKeepsSettled(c, before, order[i], order[m]);
        } else {
          UpdateNodeSettles(c, before, order[m]);
        }
      }
    }
  }

  lemma SourcesEarlier(c: Circuit, order: seq<nat>, i: nat, m: nat)
    requires c.Ordered(order) && i <= m < |order|
    ensures forall k :: 0 <= k < |c.ins[order[i]]| ==> c.ins[order[i]][k] != order[m]
  {
    forall k | 0 <= k < |c.ins[order[i]]| ensures c.ins[order[i]][k] != order[m] {
      var j :| 0 <= j < i && order[..i][j] == c.ins[order[i]][k];
      assert order[j] != order[m];
    }
  }

  lemma UpdateKeepsSettled(c: Circuit, d: Data, u: nat, v: nat)
    requires c.WellFormed() && c.Vertex(u) && c.Vertex(v) && u != v && NodeSettled(c, d, u)
    requires forall k :: 0 <= k < |c.ins[u]| ==> c.ins[u][k] != v
    ensures NodeSettled(c, UpdateNode(c, d, v), u)
  {
    var e := UpdateNode(c, d, v);
    UpdateNodeFrame(c, d, v, Out(u));
    forall k | 0 <= k < |c.ins[u]|
      ensures Get(e.vals, In(u, k)) == Get(d.vals, In(u, k))
      ensures Get(e.vals, Out(c.ins[u][k])) == Get(d.vals, Out(c.ins[u][k]))
    {
      UpdateNodeFrame(c, d, v, In(u, k));
      UpdateNodeFrame(c, d, v, Out(c.ins[u][k]));
    }
    SettledDepends(c, d, e, u);
  }

  // ----- the sequential outputs -----

  lemma {:induction false} UpdateOutputsFrame(c: Circuit, d: Data, n: nat, p: Port)
    requires c.WellFormed() && n <= |c.kinds|
    ensures var e := UpdateOutputs(c, d, n);
            && e.registers == d.registers && e.memories == d.memories
            && (p.v >= n || !(c.kinds[p.v].RegisterOut? || c.kinds[p.v].MemoryOut?) ==>
              Get(e.vals, p) == Get(d.vals, p))
    decreases n
  {
    if n > 0 {
      UpdateOutputsFrame(c, d, n - 1, p);
      UpdateOutputFrame(c, UpdateOutputs(c, d, n - 1), n - 1, p);
    }
  }

  /** What the output of a register or memory and its read address are after all outputs were updated. */
  lemma {:induction false} UpdateOutputsShow(c: Circuit, d: Data, n: nat, v: nat)
    requires c.WellFormed() && n <= |c.kinds| && v < n
    ensures var e, before := UpdateOutputs(c, d, n), UpdateOutputs(c, d, v);
            && (c.kinds[v].RegisterOut? ==> Get(e.vals, Out(v)) == Register(d, c.kinds[v].name))
            && (c.kinds[v].MemoryOut? ==>
                  && |c.ins[v]| == 1
                  && Get(e.vals, Out(v)) ==
                    Read(d.memories, c.kinds[v].name, Get(before.vals, Out(c.ins[v][0])), c.kinds[v].width)
                  && Get(e.vals, In(v, 0)) == Get(before.vals, Out(c.ins[v][0])))
    decreases n
  {
    assert c.WellFed(v);
    var before := UpdateOutputs(c, d, n - 1);
    UpdateOutputsFrame(c, d, n - 1, Out(v));
    if v < n - 1 {
      UpdateOutputsShow(c, d, n - 1, v);
      UpdateOutputFrame(c, before, n - 1, Out(v));
      UpdateOutputFrame(c, before, n - 1, In(v, 0));
    } else if c.kinds[v].MemoryOut? {
      FedAt(c, before.vals, v, 1, In(v, 0));
    }
  }

  // ----- one pass -----

  lemma SettleNodes(c: Circuit, d: Data, order: seq<nat>, v: nat)
    requires c.WellFormed() && c.Ordered(order) && c.Vertex(v)
    requires Combinatorial(c, v) || c.kinds[v].RegisterOut?
    ensures NodeSettled(c, Settle(c, d, order), v)
  {
    var middle := UpdateOutputs(c, d, |c.kinds|);
    if c.kinds[v].RegisterOut? {
      UpdateOutputsShow(c, d, |c.kinds|, v);
      UpdateOutputsFrame(c, d, |c.kinds|, Out(v));
      UpdateNodesFrame(c, middle, order, Out(v));
    } else {
      assert v in order;
      var i :| 0 <= i < |order| && order[i] == v;
      assert order[..|order|] == order;
      UpdateNodesSettle(c, middle, order, |order|);
      assert NodeSettled(c, UpdateNodes(c, middle, order[..|order|]), order[i]);
    }
  }

  lemma SettleKeeps(c: Circuit, d: Data, order: seq<nat>)
    requires c.WellFormed() && Vertices(c, order)
    ensures SameSources(c, d, Settle(c, d, order))
  {
    var middle := UpdateOutputs(c, d, |c.kinds|);
    UpdateOutputsFrame(c, d, |c.kinds|, Out(0));
    UpdateNodesFrame(c, middle, order, Out(0));
    forall v | 0 <= v < |c.kinds| && (c.kinds[v].Input? || c.kinds[v].Constant?)
      ensures Get(d.vals, Out(v)) == Get(Settle(c, d, order).vals, Out(v))
    {
      UpdateOutputsFrame(c, d, |c.kinds|, Out(v));
      UpdateNodesFrame(c, middle, order, Out(v));
    }
  }

  // ----- read addresses -----

  /** Each vertex of `path` feeds the next, and the first shows a memory's read data. */
  predicate MemoryPath(c: Circuit, path: seq<nat>)
    requires |c.ins| == |c.kinds|
  {
    && path != []
    && (forall i :: 0 <= i < |path| ==> c.Vertex(path[i]))
    && c.kinds[path[0]].MemoryOut?
    && forall i :: 0 <= i < |path| - 1 ==> path[i] in c.ins[path[i + 1]]
  }

  ghost predicate DependsOnMemory(c: Circuit, v: nat)
    requires |c.ins| == |c.kinds|
  {
    exists path :: MemoryPath(c, path) && path[|path| - 1] == v
  }

  /** No memory's read address depends on what a memory reads. */
  ghost predicate AddressesFree(c: Circuit)
    requires c.WellFormed()
  {
    forall v :: 0 <= v < |c.kinds| && c.kinds[v].MemoryOut? && c.WellFed(v) ==> !DependsOnMemory(c, c.ins[v][0])
  }

  /** In every pass the memory is read before its address is updated. */
  predicate ReadsEarly(c: Circuit, v: nat)
    requires |c.ins| == |c.kinds| && c.Vertex(v)
  {
    && c.kinds[v].MemoryOut? && |c.ins[v]| == 1 && c.Vertex(c.ins[v][0])
    && var u := c.ins[v][0];
       c.kinds[u].Operator? || ((c.kinds[u].RegisterOut? || c.kinds[u].MemoryOut?) && u >= v)
  }

  /** What the vertex shows depends on what a memory that is read early shows. */
  ghost predicate Late(c: Circuit, v: nat)
    requires |c.ins| == |c.kinds|
  {
    exists path :: MemoryPath(c, path) && path[|path| - 1] == v && ReadsEarly(c, path[0])
  }

  ghost predicate Timely(c: Circuit, v: nat)
    requires |c.ins| == |c.kinds| && c.Vertex(v)
  {
    ReadsEarly(c, v) ==> !Late(c, c.ins[v][0])
  }

  /** No memory that is read early has an address that depends on another one that is. */
  ghost predicate AddressesTimely(c: Circuit)
    requires c.WellFormed()
  {
    forall v :: 0 <= v < |c.kinds| ==> Timely(c, v)
  }

  lemma LateDepends(c: Circuit, v: nat)
    requires |c.ins| == |c.kinds|
    ensures Late(c, v) ==> DependsOnMemory(c, v)
  {
    if Late(c, v) {
      var path :| MemoryPath(c, path) && path[|path| - 1] == v && ReadsEarly(c, path[0]);
    }
  }

  lemma FreeIsTimely(c: Circuit)
    requires c.WellFormed() && AddressesFree(c)
    ensures AddressesTimely(c)
  {
    forall v | 0 <= v < |c.kinds| && ReadsEarly(c, v) ensures !Late(c, c.ins[v][0]) {
      assert c.WellFed(v);
      LateDepends(c, c.ins[v][0]);
    }
  }

  ghost predicate Clean(c: Circuit, v: nat)
    requires |c.ins| == |c.kinds|
  {
    c.Vertex(v) && c.HasData(v) && !Late(c, v)
  }

  lemma CleanSource(c: Circuit, v: nat, k: nat)
    requires c.WellFormed() && Clean(c, v) && k < c.DataArity(v)
    ensures c.WellFed(v) && Clean(c, c.ins[v][k])
  {
    assert c.WellFed(v);
    LateOnward(c, c.ins[v][k], v);
  }

  lemma LateOnward(c: Circuit, u: nat, v: nat)
    requires |c.ins| == |c.kinds| && c.Vertex(v) && u in c.ins[v]
    ensures Late(c, u) ==> Late(c, v)
  {
    if Late(c, u) {
      var path :| MemoryPath(c, path) && path[|path| - 1] == u && ReadsEarly(c, path[0]);
      var longer := path + [v];
      assert MemoryPath(c, longer) && longer[|longer| - 1] == v && longer[0] == path[0];
    }
  }

  lemma EarlyIsLate(c: Circuit, v: nat)
    requires |c.ins| == |c.kinds| && c.Vertex(v) && ReadsEarly(c, v)
    ensures Late(c, v)
  {
    assert MemoryPath(c, [v]) && [v][|[v]| - 1] == v;
  }

  /** A late vertex is a memory that is read early, or something late feeds it. */
  lemma LateSource(c: Circuit, v: nat) returns (u: nat)
    requires c.WellFormed() && Late(c, v)
    ensures c.Vertex(v) && (ReadsEarly(c, v) || (u in c.ins[v] && Late(c, u)))
  {
    var path :| MemoryPath(c, path) && path[|path| - 1] == v && ReadsEarly(c, path[0]);
    u := v;
    if |path| > 1 {
      u := path[|path| - 2];
      var shorter := path[..|path| - 1];
      assert path[|path| - 2] in c.ins[path[|path| - 2 + 1]];
      assert MemoryPath(c, shorter) && shorter[|shorter| - 1] == u && shorter[0] == path[0];
    }
  }

  ghost predicate CleanAgree(c: Circuit, d: Data, e: Data)
    requires |c.ins| == |c.kinds|
  {
    forall v: nat :: Clean(c, v) ==> Get(d.vals, Out(v)) == Get(e.vals, Out(v))
  }

  /** All but the outputs of late memories is settled. */
  ghost predicate NearlySettled(c: Circuit, d: Data)
    requires c.WellFormed()
  {
    forall v :: 0 <= v < |c.kinds| && (c.kinds[v].MemoryOut? ==> Clean(c, v)) ==> NodeSettled(c, d, v)
  }

  lemma OutputKeeps(c: Circuit, d: Data, e: Data, v: nat)
    requires c.WellFormed() && c.Vertex(v) && NodeSettled(c, d, v)
    requires e.registers == d.registers && e.memories == d.memories && Get(e.vals, Out(v)) == Get(d.vals, Out(v))
    requires c.kinds[v].MemoryOut? ==> |c.ins[v]| == 1 && Get(e.vals, Out(c.ins[v][0])) == Get(d.vals, Out(c.ins[v][0]))
    ensures Get(UpdateOutput(c, e, v).vals, Out(v)) == Get(d.vals, Out(v))
  {
  }

  lemma CleanOutputKeeps(c: Circuit, d: Data, e: Data, v: nat)
    requires c.WellFormed() && NearlySettled(c, d) && Clean(c, v)
    requires e.registers == d.registers && e.memories == d.memories && Get(e.vals, Out(v)) == Get(d.vals, Out(v))
    requires forall k :: 0 <= k < c.DataArity(v) && k < |c.ins[v]| ==>
      Get(e.vals, Out(c.ins[v][k])) == Get(d.vals, Out(c.ins[v][k]))
    ensures Get(UpdateOutput(c, e, v).vals, Out(v)) == Get(d.vals, Out(v))
  {
    assert c.WellFed(v) && NodeSettled(c, d, v);
    OutputKeeps(c, d, e, v);
  }

  lemma CleanOutput(c: Circuit, d: Data, e: Data, u: nat)
    requires c.WellFormed() && c.Vertex(u) && NearlySettled(c, d) && CleanAgree(c, d, e)
    requires e.registers == d.registers && e.memories == d.memories
    ensures CleanAgree(c, d, UpdateOutput(c, e, u))
  {
    forall v: nat | Clean(c, v) ensures Get(d.vals, Out(v)) == Get(UpdateOutput(c, e, u).vals, Out(v)) {
      UpdateOutputFrame(c, e, u, Out(v));
      if v == u {
        forall k | 0 <= k < c.DataArity(v) && k < |c.ins[v]|
          ensures Get(e.vals, Out(c.ins[v][k])) == Get(d.vals, Out(c.ins[v][k]))
        {
          CleanSource(c, v, k);
        }
        CleanOutputKeeps(c, d, e, v);
      }
    }
  }

  lemma CleanAgreeSelf(c: Circuit, d: Data)
    requires |c.ins| == |c.kinds|
    ensures CleanAgree(c, d, d)
  {
  }

  lemma {:induction false} OutputsKeepClean(c: Circuit, d: Data, n: nat)
    requires c.WellFormed() && n <= |c.kinds| && NearlySettled(c, d)
    ensures CleanAgree(c, d, UpdateOutputs(c, d, n))
    decreases n
  {
    hide CleanAgree, NearlySettled, UpdateOutput;
    CleanAgreeSelf(c, d);
    if n > 0 {
      OutputsKeepClean(c, d, n - 1);
      UpdateOutputsFrame(c, d, n - 1, Out(0));
      CleanOutput(c, d, UpdateOutputs(c, d, n - 1), n - 1);
    }
  }

  lemma {:induction false} NodesKeepClean(c: Circuit, d: Data, e: Data, order: seq<nat>)
    requires c.WellFormed() && Vertices(c, order) && NearlySettled(c, d) && CleanAgree(c, d, e)
    ensures CleanAgree(c, d, UpdateNodes(c, e, order))
    decreases |order|
  {
    if order != [] {
      var n := |order| - 1;
      NodesKeepClean(c, d, e, order[..n]);
      var before := UpdateNodes(c, e, order[..n]);
      forall v: nat | Clean(c, v) ensures Get(d.vals, Out(v)) == Get(UpdateNodes(c, e, order).vals, Out(v)) {
        UpdateNodeFrame(c, before, order[n], Out(v));
        if v == order[n] && c.kinds[v].Operator? {
          CleanUpdate(c, d, before, v);
        }
      }
    }
  }

  lemma CleanUpdate(c: Circuit, d: Data, e: Data, v: nat)
    requires c.WellFormed() && Clean(c, v) && c.kinds[v].Operator? && NearlySettled(c, d) && CleanAgree(c, d, e)
    ensures Get(UpdateNode(c, e, v).vals, Out(v)) == Get(d.vals, Out(v))
  {
    assert c.WellFed(v) && NodeSettled(c, d, v);
    forall k | 0 <= k < |c.ins[v]| ensures Get(d.vals, Out(c.ins[v][k])) == Get(e.vals, Out(c.ins[v][k])) {
      CleanSource(c, v, k);
    }
    assert Args(c, d.vals, v) == Args(c, e.vals, v);
  }

  // ----- two passes -----

  /** A memory that is not read early reads at the address that is there in the end. */
  lemma OrderlySettles(c: Circuit, d: Data, order: seq<nat>, v: nat)
    requires c.WellFormed() && Vertices(c, order) && c.Vertex(v) && c.kinds[v].MemoryOut? && !ReadsEarly(c, v)
    ensures NodeSettled(c, Settle(c, d, order), v)
  {
    assert c.WellFed(v);
    var u := c.ins[v][0];
    var middle := UpdateOutputs(c, d, |c.kinds|);
    UpdateOutputsShow(c, d, |c.kinds|, v);
    UpdateOutputsFrame(c, d, |c.kinds|, Out(u));
    UpdateOutputsFrame(c, d, v, Out(u));
    if u < v {
      UpdateOutputsShow(c, d, v, u);
      UpdateOutputsShow(c, d, |c.kinds|, u);
    }
    assert Get(middle.vals, Out(u)) == Get(UpdateOutputs(c, d, v).vals, Out(u));
    UpdateNodesFrame(c, middle, order, Out(v));
    UpdateNodesFrame(c, middle, order, Out(u));
    NodesKeepIn(c, middle, order, v);
  }

  /** In the second pass timely memories read at the addresses that are there in the end. */
  lemma MemorySettles(c: Circuit, d: Data, order: seq<nat>, v: nat)
    requires c.WellFormed() && c.Ordered(order) && NearlySettled(c, d)
    requires c.Vertex(v) && c.kinds[v].MemoryOut? && Timely(c, v)
    ensures NodeSettled(c, Settle(c, d, order), v)
  {
    if ReadsEarly(c, v) {
      assert c.WellFed(v);
      var u := c.ins[v][0];
      var middle, after := UpdateOutputs(c, d, |c.kinds|), Settle(c, d, order);
      assert Clean(c, u);
      OutputsKeepClean(c, d, v);
      OutputsKeepClean(c, d, |c.kinds|);
      NodesKeepClean(c, d, middle, order);
      UpdateOutputsShow(c, d, |c.kinds|, v);
      UpdateOutputsFrame(c, d, |c.kinds|, Out(v));
      UpdateNodesFrame(c, middle, order, Out(v));
      NodesKeepIn(c, middle, order, v);
      assert Get(after.vals, Out(u)) == Get(d.vals, Out(u)) == Get(UpdateOutputs(c, d, v).vals, Out(u));
    } else {
      OrderlySettles(c, d, order, v);
    }
  }

  /** The combinational part of a pass leaves the read address of a memory alone. */
  lemma {:induction false} NodesKeepIn(c: Circuit, d: Data, vs: seq<nat>, v: nat)
    requires c.WellFormed() && Vertices(c, vs) && c.Vertex(v) && !Combinatorial(c, v)
    ensures forall k :: Get(UpdateNodes(c, d, vs).vals, In(v, k)) == Get(d.vals, In(v, k))
    decreases |vs|
  {
    if vs != [] {
      var n := |vs| - 1;
      NodesKeepIn(c, d, vs[..n], v);
      var before := UpdateNodes(c, d, vs[..n]);
      forall k ensures Get(UpdateNodes(c, d, vs).vals, In(v, k)) == Get(d.vals, In(v, k)) {
        UpdateNodeFrame(c, before, vs[n], In(v, k));
      }
    }
  }

  lemma SettledOnce(c: Circuit, d: Data, order: seq<nat>)
    requires c.WellFormed() && c.Ordered(order)
    ensures NearlySettled(c, Settle(c, d, order))
  {
    forall v | 0 <= v < |c.kinds| && (c.kinds[v].MemoryOut? ==> Clean(c, v))
      ensures NodeSettled(c, Settle(c, d, order), v)
    {
      if Combinatorial(c, v) || c.kinds[v].RegisterOut? {
        SettleNodes(c, d, order, v);
      } else if c.kinds[v].MemoryOut? {
        if ReadsEarly(c, v) {
          EarlyIsLate(c, v);
          assert false;
        }
        OrderlySettles(c, d, order, v);
      }
    }
  }

  /** Two passes settle every node, if no memory read early depends on another one. */
  lemma CombinationalSettles(c: Circuit, d: Data, order: seq<nat>)
    requires c.WellFormed() && c.Ordered(order) && AddressesTimely(c)
    ensures Settled(c, Combinational(c, d, order)) && SameSources(c, d, Combinational(c, d, order))
  {
    var once := Settle(c, d, order);
    SettledOnce(c, d, order);
    SettledOnce(c, once, order);
    forall v | 0 <= v < |c.kinds| ensures NodeSettled(c, Settle(c, once, order), v) {
      if c.kinds[v].MemoryOut? {
        MemorySettles(c, once, order, v);
      }
    }
    SettleKeeps(c, d, order);
    SettleKeeps(c, once, order);
  }

  // ----- exactly when two passes settle -----

  type Operators = (nat, seq<BitVec>) -> BitVec

  function With(c: Circuit, op: Operators): Circuit {
    c.(op := op)
  }

  lemma WithWellFormed(c: Circuit, op: Operators)
    requires c.WellFormed()
    ensures With(c, op).WellFormed()
  {
    var w := With(c, op);
    forall v | 0 <= v < |w.kinds| ensures w.WellFed(v) {
      assert c.WellFed(v);
    }
    forall u, v | 0 <= u < v < |w.kinds| ensures !w.SameReceiver(u, v) {
      assert !c.SameReceiver(u, v);
    }
  }

  lemma WithLate(c: Circuit, op: Operators, v: nat)
    requires |c.ins| == |c.kinds|
    ensures Late(With(c, op), v) <==> Late(c, v)
  {
    var w := With(c, op);
    if Late(c, v) {
      var path :| MemoryPath(c, path) && path[|path| - 1] == v && ReadsEarly(c, path[0]);
      assert MemoryPath(w, path) && ReadsEarly(w, path[0]);
    }
    if Late(w, v) {
      var path :| MemoryPath(w, path) && path[|path| - 1] == v && ReadsEarly(w, path[0]);
      assert MemoryPath(c, path) && ReadsEarly(c, path[0]);
    }
  }

  /** With these operators the two passes settle these data. */
  ghost predicate SettlesWith(c: Circuit, op: Operators, d: Data, order: seq<nat>)
    requires c.WellFormed() && c.Ordered(order)
  {
    WithWellFormed(c, op);
    Settled(With(c, op), Combinational(With(c, op), d, order))
  }

  /** One exactly if all arguments are one. */
  function AllOnes(v: nat, args: seq<BitVec>): BitVec {
    if forall k :: 0 <= k < |args| ==> args[k] == [One] then [One] else [Zero]
  }

  function Identity(): Memory {
    map[[Zero] := [Zero], [One] := [One]]
  }

  /** What is stored is one, memories copy, and everything that is computed still shows zero. */
  ghost function StaleData(c: Circuit): Data {
    Data(map v: nat | v < |c.kinds| :: Out(v) := if c.kinds[v].Input? || c.kinds[v].Constant? then [One] else [Zero],
         map v: nat | v < |c.kinds| && c.kinds[v].RegisterOut? :: c.kinds[v].name := [One],
         map v: nat | v < |c.kinds| && c.kinds[v].MemoryOut? :: c.kinds[v].name := Identity())
  }

  ghost predicate StaleAt(c: Circuit, d: Data, v: nat)
    requires c.Vertex(v)
  {
    && Get(d.vals, Out(v)) == (if c.kinds[v].Input? || c.kinds[v].Constant? then [One] else [Zero])
    && CopiesAt(c, d, v)
  }

  /** What is stored at the vertex is one, or copies the address. */
  ghost predicate CopiesAt(c: Circuit, d: Data, v: nat)
    requires c.Vertex(v)
  {
    && (c.kinds[v].RegisterOut? ==> Register(d, c.kinds[v].name) == [One])
    && (c.kinds[v].MemoryOut? ==> c.kinds[v].name in d.memories && d.memories[c.kinds[v].name] == Identity())
  }

  ghost predicate Stale(c: Circuit, d: Data) {
    forall v :: 0 <= v < |c.kinds| ==> StaleAt(c, d, v)
  }

  lemma StaleShows(c: Circuit)
    ensures Stale(c, StaleData(c))
  {
    var d := StaleData(c);
    forall v | 0 <= v < |c.kinds| ensures StaleAt(c, d, v) {
      assert Out(v) in d.vals;
      assert c.kinds[v].RegisterOut? ==> c.kinds[v].name in d.registers;
      assert c.kinds[v].MemoryOut? ==> c.kinds[v].name in d.memories;
    }
  }

  /** A memory that is read early shows what it holds at the address from before the pass. */
  lemma EarlyRead(c: Circuit, d: Data, order: seq<nat>, v: nat)
    requires c.WellFormed() && Vertices(c, order) && c.Vertex(v) && ReadsEarly(c, v)
    ensures Get(Settle(c, d, order).vals, Out(v))
         == Read(d.memories, c.kinds[v].name, Get(d.vals, Out(c.ins[v][0])), c.kinds[v].width)
  {
    UpdateOutputsShow(c, d, |c.kinds|, v);
    UpdateOutputsFrame(c, d, v, Out(c.ins[v][0]));
    UpdateNodesFrame(c, UpdateOutputs(c, d, |c.kinds|), order, Out(v));
  }

  /** Any other vertex is settled after every pass. */
  lemma OthersSettle(c: Circuit, d: Data, order: seq<nat>, v: nat)
    requires c.WellFormed() && c.Ordered(order) && c.Vertex(v) && !ReadsEarly(c, v)
    ensures NodeSettled(c, Settle(c, d, order), v)
  {
    if Combinatorial(c, v) || c.kinds[v].RegisterOut? {
      SettleNodes(c, d, order, v);
    } else if c.kinds[v].MemoryOut? {
      OrderlySettles(c, d, order, v);
    }
  }

  lemma EarlierSource(c: Circuit, order: seq<nat>, i: nat, u: nat) returns (j: nat)
    requires c.WellFormed() && c.Ordered(order) && i < |order| && u in c.ins[order[i]]
    ensures j < i && order[j] == u
  {
    var k :| 0 <= k < |c.ins[order[i]]| && c.ins[order[i]][k] == u;
    j :| 0 <= j < i && order[..i][j] == u;
  }

  lemma LateKind(c: Circuit, v: nat)
    requires c.WellFormed() && Late(c, v) && c.Vertex(v) && c.HasData(v)
    ensures c.kinds[v].MemoryOut? || c.kinds[v].Operator?
  {
    assert c.WellFed(v);
    var u := LateSource(c, v);
  }

  lemma ZeroOnward(c: Circuit, d: Data, v: nat, u: nat)
    requires c.WellFormed() && c.op == AllOnes && c.Vertex(v) && (c.kinds[v].MemoryOut? || c.kinds[v].Operator?)
    requires NodeSettled(c, d, v) && CopiesAt(c, d, v) && u in c.ins[v] && Get(d.vals, Out(u)) == [Zero]
    ensures Get(d.vals, Out(v)) == [Zero]
  {
    assert c.WellFed(v);
    var k :| 0 <= k < |c.ins[v]| && c.ins[v][k] == u;
    if c.kinds[v].Operator? {
      assert Args(c, d.vals, v)[k] == [Zero];
    }
  }

  lemma OneOnward(c: Circuit, d: Data, v: nat)
    requires c.WellFormed() && c.op == AllOnes && c.Vertex(v) && c.HasData(v)
    requires NodeSettled(c, d, v) && CopiesAt(c, d, v)
    requires c.kinds[v].Input? || c.kinds[v].Constant? ==> Get(d.vals, Out(v)) == [One]
    requires forall k :: 0 <= k < |c.ins[v]| ==> Get(d.vals, Out(c.ins[v][k])) == [One]
    ensures Get(d.vals, Out(v)) == [One]
  {
    assert c.WellFed(v);
    if c.kinds[v].Operator? {
      assert forall k :: 0 <= k < |c.ins[v]| ==> Args(c, d.vals, v)[k] == [One];
    }
  }

  /** After the first pass everything late shows zero. */
  lemma {:induction false} LateStale(c: Circuit, d: Data, order: seq<nat>, i: nat)
    requires c.WellFormed() && c.Ordered(order) && c.op == AllOnes && Stale(c, d)
    requires i < |order| && c.HasData(order[i]) && Late(c, order[i])
    ensures Get(Settle(c, d, order).vals, Out(order[i])) == [Zero]
    decreases i
  {
    var v := order[i];
    assert StaleAt(c, d, v) && c.WellFed(v);
    var u := LateSource(c, v);
    if ReadsEarly(c, v) {
      EarlyRead(c, d, order, v);
      assert StaleAt(c, d, c.ins[v][0]);
    } else {
      var j := EarlierSource(c, order, i, u);
      LateKind(c, v);
      LateStale(c, d, order, j);
      OthersSettle(c, d, order, v);
      SettleKeeps(c, d, order);
      ZeroOnward(c, Settle(c, d, order), v, u);
    }
  }

  /** After the second pass everything before the first untimely memory shows one. */
  lemma {:induction false} TimelyOnes(c: Circuit, d: Data, order: seq<nat>, i: nat, n: nat)
    requires c.WellFormed() && c.Ordered(order) && c.op == AllOnes && Stale(c, d)
    requires i < n <= |order| && c.HasData(order[i]) && forall j :: 0 <= j < n ==> Timely(c, order[j])
    ensures Get(Combinational(c, d, order).vals, Out(order[i])) == [One]
    decreases i
  {
    var v := order[i];
    var once, twice := Settle(c, d, order), Combinational(c, d, order);
    assert StaleAt(c, d, v) && c.WellFed(v);
    SettledOnce(c, d, order);
    SettleKeeps(c, d, order);
    SettleKeeps(c, once, order);
    if c.kinds[v].MemoryOut? {
      MemorySettles(c, once, order, v);
    } else {
      OthersSettle(c, once, order, v);
    }
    forall k | 0 <= k < |c.ins[v]| ensures Get(twice.vals, Out(c.ins[v][k])) == [One] {
      var j := EarlierSource(c, order, i, c.ins[v][k]);
      TimelyOnes(c, d, order, j, n);
    }
    OneOnward(c, twice, v);
  }

  lemma {:induction false} FirstUntimely(c: Circuit, order: seq<nat>, n: nat) returns (i: nat)
    requires |c.ins| == |c.kinds| && Vertices(c, order) && n < |order| && !Timely(c, order[n])
    ensures i < |order| && !Timely(c, order[i]) && forall j :: 0 <= j < i ==> Timely(c, order[j])
    decreases n
  {
    if j :| 0 <= j < n && !Timely(c, order[j]) {
      i := FirstUntimely(c, order, j);
    } else {
      i := n;
    }
  }

  lemma SomeUntimely(c: Circuit, order: seq<nat>) returns (i: nat)
    requires c.WellFormed() && c.Ordered(order) && !AddressesTimely(c)
    ensures i < |order| && !Timely(c, order[i]) && forall j :: 0 <= j < i ==> Timely(c, order[j])
  {
    var w :| 0 <= w < |c.kinds| && !Timely(c, w);
    assert w in order;
    var n :| 0 <= n < |order| && order[n] == w;
    i := FirstUntimely(c, order, n);
  }

  lemma ReadsWrong(c: Circuit, d: Data, e: Data, v: nat)
    requires c.WellFormed() && c.Vertex(v) && c.kinds[v].MemoryOut? && |c.ins[v]| == 1
    requires CopiesAt(c, d, v) && e.memories == d.memories
    requires Get(e.vals, Out(c.ins[v][0])) == [One]
    requires Get(e.vals, Out(v)) == Read(e.memories, c.kinds[v].name, [Zero], c.kinds[v].width)
    ensures !Settled(c, e)
  {
    assert !NodeSettled(c, e, v);
  }

  /** The first untimely memory reads at zero in the second pass, and its address ends at one. */
  lemma UntimelyAt(c: Circuit, d: Data, order: seq<nat>, i: nat)
    requires c.WellFormed() && c.Ordered(order) && c.op == AllOnes && Stale(c, d)
    requires i < |order| && !Timely(c, order[i]) && forall j :: 0 <= j < i ==> Timely(c, order[j])
    ensures var v, twice := order[i], Combinational(c, d, order);
            && c.Vertex(v) && c.kinds[v].MemoryOut? && twice.memories == d.memories
            && |c.ins[v]| == 1 && Get(twice.vals, Out(c.ins[v][0])) == [One]
            && Get(twice.vals, Out(v)) == Read(twice.memories, c.kinds[v].name, [Zero], c.kinds[v].width)
  {
    var v, once := order[i], Settle(c, d, order);
    assert c.WellFed(v);
    var j := EarlierSource(c, order, i, c.ins[v][0]);
    LateStale(c, d, order, j);
    EarlyRead(c, once, order, v);
    TimelyOnes(c, d, order, j, i);
    SettleKeeps(c, d, order);
    SettleKeeps(c, once, order);
  }

  /** Where one memory that is read early depends on another one, stale data are not settled. */
  lemma UntimelyUnsettled(c: Circuit, d: Data, order: seq<nat>)
    requires c.WellFormed() && c.Ordered(order) && c.op == AllOnes && Stale(c, d) && !AddressesTimely(c)
    ensures !Settled(c, Combinational(c, d, order))
  {
    var i := SomeUntimely(c, order);
    UntimelyAt(c, d, order, i);
    assert StaleAt(c, d, order[i]);
    ReadsWrong(c, d, Combinational(c, d, order), order[i]);
  }

  lemma WithTimely(c: Circuit, op: Operators)
    requires c.WellFormed() && With(c, op).WellFormed()
    ensures AddressesTimely(With(c, op)) <==> AddressesTimely(c)
  {
    forall v | 0 <= v < |c.kinds| ensures Timely(With(c, op), v) <==> Timely(c, v) {
      if ReadsEarly(c, v) {
        WithLate(c, op, c.ins[v][0]);
      }
    }
  }

  /** Two passes settle a circuit with whatever operators and data exactly if the addresses are timely. */
  lemma SettlesExactly(c: Circuit, order: seq<nat>)
    requires c.WellFormed() && c.Ordered(order)
    ensures (forall op, d :: SettlesWith(c, op, d, order)) <==> AddressesTimely(c)
  {
    if AddressesTimely(c) {
      forall op, d ensures SettlesWith(c, op, d, order) {
        WithWellFormed(c, op);
        WithTimely(c, op);
        CombinationalSettles(With(c, op), d, order);
      }
    } else {
      WithWellFormed(c, AllOnes);
      WithTimely(c, AllOnes);
      var w := With(c, AllOnes);
      StaleShows(w);
      UntimelyUnsettled(w, StaleData(w), order);
      assert !SettlesWith(c, AllOnes, StaleData(w), order);
    }
  }

  /** Two memories of which one is read at what the other reads, through an operator that copies. */
  function ChainedMemories(): Circuit {
    Circuit([Input, MemoryOut("a", 1), MemoryOut("b", 1), Operator, Operator], [[], [3], [4], [2], [0]], AllOnes)
  }

  function ChainedData(): Data {
    Data(map[Out(0) := [One], Out(1) := [Zero], Out(2) := [Zero], Out(3) := [Zero], Out(4) := [Zero]], map[],
         map["a" := Identity(), "b" := Identity()])
  }

  lemma ChainedWellFormed()
    ensures ChainedMemories().WellFormed()
  {
    var c := ChainedMemories();
    forall v | 0 <= v < |c.kinds| ensures c.WellFed(v) {
      assert v == 0 || v == 1 || v == 2 || v == 3 || v == 4;
    }
    forall u, v | 0 <= u < v < |c.kinds| ensures !c.SameReceiver(u, v) {
    }
  }

  lemma ChainedOrdered()
    ensures ChainedMemories().Ordered([0, 4, 2, 3, 1])
  {
    var c, order := ChainedMemories(), [0, 4, 2, 3, 1];
    forall v | 0 <= v < |c.kinds| ensures v in order {
      assert order[0] == 0 && order[1] == 4 && order[2] == 2 && order[3] == 3 && order[4] == 1;
    }
    forall j, k | 0 <= j < |order| && 0 <= k < |c.ins[order[j]]| ensures c.ins[order[j]][k] in order[..j] {
      assert k == 0 && 0 < j;
      assert order[..j][j - 1] == c.ins[order[j]][0];
    }
  }

  lemma ChainedStale()
    ensures Stale(ChainedMemories(), ChainedData())
  {
    var c, d := ChainedMemories(), ChainedData();
    forall v | 0 <= v < |c.kinds| ensures StaleAt(c, d, v) {
      assert v == 0 || v == 1 || v == 2 || v == 3 || v == 4;
    }
  }

  lemma ChainedUntimely()
    requires ChainedMemories().WellFormed()
    ensures !AddressesTimely(ChainedMemories())
  {
    var c, path := ChainedMemories(), [2, 3];
    assert MemoryPath(c, path) && path[|path| - 1] == 3 && ReadsEarly(c, path[0]);
    assert Late(c, 3) && ReadsEarly(c, 1) && c.ins[1][0] == 3;
    assert !Timely(c, 1);
  }

  /** A circuit and data that two passes do not settle. */
  lemma ChainedMemoriesUnsettled()
    ensures ChainedMemories().WellFormed() && ChainedMemories().Ordered([0, 4, 2, 3, 1])
    ensures !Settled(ChainedMemories(), Combinational(ChainedMemories(), ChainedData(), [0, 4, 2, 3, 1]))
  {
    ChainedWellFormed();
    ChainedOrdered();
    ChainedStale();
    ChainedUntimely();
    UntimelyUnsettled(ChainedMemories(), ChainedData(), [0, 4, 2, 3, 1]);
  }

  function ChainedInTime(op: Operators): Circuit {
    Circuit([Input, MemoryOut("a", 1), Operator, MemoryOut("b", 1)], [[], [0], [1], [2]], op)
  }

  lemma InTimeWellFormed(op: Operators)
    ensures ChainedInTime(op).WellFormed()
  {
    var c := ChainedInTime(op);
    forall v | 0 <= v < |c.kinds| ensures c.WellFed(v) {
      assert v == 0 || v == 1 || v == 2 || v == 3;
    }
    forall u, v | 0 <= u < v < |c.kinds| ensures !c.SameReceiver(u, v) {
    }
  }

  lemma InTimeNotLate(op: Operators, v: nat)
    requires ChainedInTime(op).WellFormed() && v < 3
    ensures !Late(ChainedInTime(op), v)
    decreases v
  {
    var c := ChainedInTime(op);
    assert c.ins[0] == [] && c.ins[1] == [0] && c.ins[2] == [1] && !ReadsEarly(c, v);
    if v > 0 {
      InTimeNotLate(op, v - 1);
    }
    if Late(c, v) {
      var u := LateSource(c, v);
      assert false;
    }
  }

  /** A memory whose address depends on what another one reads, which two passes always settle. */
  lemma ChainedMemoriesSettled(op: Operators)
    ensures ChainedInTime(op).WellFormed() && !AddressesFree(ChainedInTime(op)) && AddressesTimely(ChainedInTime(op))
  {
    var c := ChainedInTime(op);
    InTimeWellFormed(op);
    InTimeNotLate(op, 2);
    assert MemoryPath(c, [1, 2]) && [1, 2][|[1, 2]| - 1] == 2;
    assert c.WellFed(3) && c.ins[3][0] == 2;
  }

  // ----- where the order comes from -----

  /** The graph in which every vertex has an edge from each vertex that feeds it. */
  ghost predicate GraphOf(c: Circuit, m: Walks.Multigraph)
    requires |c.ins| == |c.kinds|
  {
    && (forall v :: v in m.verts <==> 0 <= v < |c.kinds|)
    && (forall v, k :: 0 <= v < |c.kinds| && 0 <= k < |c.ins[v]| ==> m.HasEdge(c.ins[v][k], v))
  }

  /** What a topological sort of a graph without cycles lists is an order for the passes. */
  lemma SortedIsOrdered(c: Circuit, m: Walks.Multigraph, order: seq<nat>)
    requires |c.ins| == |c.kinds| && GraphOf(c, m) && m.Acyclic()
    requires Walks.NoDuplicates(order) && Walks.Respects(m, order)
    requires forall v: int :: v in order <==> v in m.verts && !m.ReachedByCycle(v)
    ensures c.Ordered(order)
  {
    Walks.CycleMeansReached(m);
    forall i | 0 <= i < |order| ensures c.Vertex(order[i]) {
      assert order[i] in m.verts;
    }
    forall v | 0 <= v < |c.kinds| ensures v in order {
      assert v in m.verts;
    }
    forall j, k | 0 <= j < |order| && 0 <= k < |c.ins[order[j]]| ensures c.ins[order[j]][k] in order[..j] {
      assert m.HasEdge(c.ins[order[j]][k], order[j]);
    }
  }

  // ----- uniqueness -----

  predicate AgreeAt(c: Circuit, d: Data, e: Data, v: nat)
    requires c.Vertex(v)
  {
    c.HasData(v) ==> Get(d.vals, Out(v)) == Get(e.vals, Out(v))
  }

  lemma {:induction false} SettledAgree(c: Circuit, d: Data, e: Data, order: seq<nat>, n: nat)
    requires c.WellFormed() && c.Ordered(order) && n <= |order|
    requires Settled(c, d) && Settled(c, e) && SameSources(c, d, e)
    ensures forall i :: 0 <= i < n ==> AgreeAt(c, d, e, order[i])
    decreases n
  {
    if n > 0 {
      SettledAgree(c, d, e, order, n - 1);
      var v := order[n - 1];
      assert c.WellFed(v) && NodeSettled(c, d, v) && NodeSettled(c, e, v);
      forall k | 0 <= k < |c.ins[v]| ensures c.Vertex(c.ins[v][k]) && AgreeAt(c, d, e, c.ins[v][k]) {
        var j :| 0 <= j < n - 1 && order[..n - 1][j] == c.ins[v][k];
        assert AgreeAt(c, d, e, order[j]);
      }
      if c.kinds[v].Operator? {
        assert Args(c, d.vals, v) == Args(c, e.vals, v);
      } else if c.kinds[v].MemoryOut? {
        assert AgreeAt(c, d, e, c.ins[v][0]);
      }
    }
  }

  /** A settled valuation is determined by inputs, constants, registers and memories. */
  lemma SettledUnique(c: Circuit, d: Data, e: Data, order: seq<nat>)
    requires c.WellFormed() && c.Ordered(order)
    requires Settled(c, d) && Settled(c, e) && SameSources(c, d, e)
    ensures forall v: nat :: c.Vertex(v) ==> AgreeAt(c, d, e, v)
  {
    SettledAgree(c, d, e, order, |order|);
    forall v: nat | c.Vertex(v) ensures AgreeAt(c, d, e, v) {
      assert v in order;
      var i :| 0 <= i < |order| && order[i] == v;
      assert AgreeAt(c, d, e, order[i]);
    }
  }

  // ----- the passes as functions of the sources alone -----

  /** The ports the combinational part of a pass writes. */
  predicate WrittenByNode(c: Circuit, p: Port)
    requires |c.ins| == |c.kinds|
  {
    c.Vertex(p.v) && Combinatorial(c, p.v) && (if p.In? then p.k < |c.ins[p.v]| else c.kinds[p.v].Operator?)
  }

  /** The ports the update of the sequential outputs writes. */
  predicate WrittenByOutput(c: Circuit, p: Port)
    requires |c.ins| == |c.kinds|
  {
    c.Vertex(p.v) && (if p.In? then c.kinds[p.v].MemoryOut? && p.k < 1
      else c.kinds[p.v].RegisterOut? || c.kinds[p.v].MemoryOut?)
  }

  lemma UpdateNodeWrites(c: Circuit, d: Data, v: nat, p: Port)
    requires c.WellFormed() && c.Vertex(v)
    ensures p in UpdateNode(c, d, v).vals <==> p in d.vals || (p.v == v && WrittenByNode(c, p))
    ensures p.v != v || !WrittenByNode(c, p) ==> Get(UpdateNode(c, d, v).vals, p) == Get(d.vals, p)
  {
    assert c.WellFed(v);
    if c.kinds[v].Output? {
      FedAt(c, d.vals, v, 1, p);
    } else if c.kinds[v].Operator? {
      FedAt(c, d.vals, v, |c.ins[v]|, p);
    }
  }

  lemma UpdateOutputWrites(c: Circuit, d: Data, v: nat, p: Port)
    requires c.WellFormed() && c.Vertex(v)
    ensures p in UpdateOutput(c, d, v).vals <==> p in d.vals || (p.v == v && WrittenByOutput(c, p))
    ensures p.v != v || !WrittenByOutput(c, p) ==> Get(UpdateOutput(c, d, v).vals, p) == Get(d.vals, p)
  {
    assert c.WellFed(v);
    if c.kinds[v].MemoryOut? {
      FedAt(c, d.vals, v, 1, p);
    }
  }

  lemma {:induction false} UpdateNodesWrite(c: Circuit, d: Data, vs: seq<nat>, p: Port)
    requires c.WellFormed() && Vertices(c, vs)
    ensures p in UpdateNodes(c, d, vs).vals <==> p in d.vals || (p.v in vs && WrittenByNode(c, p))
    ensures !WrittenByNode(c, p) ==> Get(UpdateNodes(c, d, vs).vals, p) == Get(d.vals, p)
    decreases |vs|
  {
    if vs != [] {
      var n := |vs| - 1;
      UpdateNodesWrite(c, d, vs[..n], p);
      UpdateNodeWrites(c, UpdateNodes(c, d, vs[..n]), vs[n], p);
      assert vs == vs[..n] + [vs[n]];
    }
  }

  lemma {:induction false} UpdateOutputsWrite(c: Circuit, d: Data, n: nat, p: Port)
    requires c.WellFormed() && n <= |c.kinds|
    ensures p in UpdateOutputs(c, d, n).vals <==> p in d.vals || (p.v < n && WrittenByOutput(c, p))
    ensures !WrittenByOutput(c, p) ==> Get(UpdateOutputs(c, d, n).vals, p) == Get(d.vals, p)
    decreases n
  {
    if n > 0 {
      UpdateOutputsWrite(c, d, n - 1, p);
      UpdateOutputWrites(c, UpdateOutputs(c, d, n - 1), n - 1, p);
    }
  }

  predicate Written(c: Circuit, p: Port)
    requires |c.ins| == |c.kinds|
  {
    WrittenByNode(c, p) || WrittenByOutput(c, p)
  }

  lemma CombinationalWrites(c: Circuit, d: Data, order: seq<nat>, p: Port)
    requires c.WellFormed() && c.Ordered(order)
    ensures p in Combinational(c, d, order).vals <==> p in d.vals || Written(c, p)
    ensures !Written(c, p) ==> Get(Combinational(c, d, order).vals, p) == Get(d.vals, p)
  {
    var once := Settle(c, d, order);
    UpdateOutputsWrite(c, d, |c.kinds|, p);
    UpdateNodesWrite(c, UpdateOutputs(c, d, |c.kinds|), order, p);
    UpdateOutputsWrite(c, once, |c.kinds|, p);
    UpdateNodesWrite(c, UpdateOutputs(c, once, |c.kinds|), order, p);
  }

  /** Two settled valuations with the same sources agree at every port the passes write. */
  lemma WrittenAgree(c: Circuit, d: Data, e: Data, order: seq<nat>, p: Port)
    requires c.WellFormed() && c.Ordered(order) && Written(c, p)
    requires Settled(c, d) && Settled(c, e) && SameSources(c, d, e)
    ensures Get(d.vals, p) == Get(e.vals, p)
  {
    var v := p.v;
    assert c.WellFed(v);
    SettledUnique(c, d, e, order);
    assert AgreeAt(c, d, e, v);
    if p.In? {
      assert NodeSettled(c, d, v) && NodeSettled(c, e, v);
      assert AgreeAt(c, d, e, c.ins[v][p.k]);
    }
  }

  lemma SameData(d: Data, e: Data)
    requires d.registers == e.registers && d.memories == e.memories
    requires forall p: Port :: (p in d.vals <==> p in e.vals) && Get(d.vals, p) == Get(e.vals, p)
    ensures d == e
  {
    assert d.vals.Keys == e.vals.Keys;
    forall p | p in d.vals ensures d.vals[p] == e.vals[p] {
      assert Get(d.vals, p) == Get(e.vals, p);
    }
    assert d.vals == e.vals;
  }

  /** The result does not depend on which topological order is used. */
  lemma OrderIndependent(c: Circuit, d: Data, order: seq<nat>, other: seq<nat>)
    requires c.WellFormed() && c.Ordered(order) && c.Ordered(other) && AddressesTimely(c)
    ensures Combinational(c, d, order) == Combinational(c, d, other)
  {
    var x, y := Combinational(c, d, order), Combinational(c, d, other);
    CombinationalSettles(c, d, order);
    CombinationalSettles(c, d, other);
    forall p: Port ensures (p in x.vals <==> p in y.vals) && Get(x.vals, p) == Get(y.vals, p) {
      CombinationalWrites(c, d, order, p);
      CombinationalWrites(c, d, other, p);
      if Written(c, p) {
        WrittenAgree(c, x, y, order, p);
      }
    }
    SameData(x, y);
  }

  /** Settling again changes nothing. */
  lemma SettledStays(c: Circuit, d: Data, order: seq<nat>)
    requires c.WellFormed() && c.Ordered(order) && AddressesTimely(c)
    ensures Combinational(c, Combinational(c, d, order), order) == Combinational(c, d, order)
  {
    var x := Combinational(c, d, order);
    var y := Combinational(c, x, order);
    CombinationalSettles(c, d, order);
    CombinationalSettles(c, x, order);
    forall p: Port ensures (p in x.vals <==> p in y.vals) && Get(x.vals, p) == Get(y.vals, p) {
      CombinationalWrites(c, d, order, p);
      CombinationalWrites(c, x, order, p);
      if Written(c, p) {
        WrittenAgree(c, x, y, order, p);
      }
    }
    SameData(x, y);
  }

  // ----- the clocked update -----

  function Bits1(b: bool): BitVec {
    [if b then One else Zero]
  }

  /** A register's next content from what feeds it: loaded on a rising clock, but the level of a reset goes first. */
  function NextRegister(c: Circuit, d: Data, v: nat, rising: bool): BitVec
    requires c.WellFormed() && c.Vertex(v) && c.kinds[v].RegisterIn?
  {
    assert c.WellFed(v);
    var reset := c.kinds[v].reset;
    if reset.Reset? && Get(d.vals, Out(c.ins[v][1])) == Bits1(reset.posedge) then reset.init
    else if rising then Get(d.vals, Out(c.ins[v][0]))
    else Register(d, c.kinds[v].name)
  }

  function MemoryOf(d: Data, name: string): Memory {
    if name in d.memories then d.memories[name] else map[]
  }

  /** A memory's next content: written on a rising clock with the write enable. */
  function NextMemory(c: Circuit, d: Data, v: nat, rising: bool): Memory
    requires c.WellFormed() && c.Vertex(v) && c.kinds[v].MemoryIn?
  {
    assert c.WellFed(v);
    var m := MemoryOf(d, c.kinds[v].name);
    if rising && Get(d.vals, Out(c.ins[v][2])) == Bits1(true)
      then m[Get(d.vals, Out(c.ins[v][0])) := Get(d.vals, Out(c.ins[v][1]))] else m
  }

  /** The update of one receiver: its inputs first, then a load, then a reset. */
  function UpdateReceiver(c: Circuit, d: Data, v: nat, rising: bool): Data
    requires c.WellFormed() && c.Vertex(v)
  {
    assert c.WellFed(v);
    match c.kinds[v]
    case RegisterIn(n, reset) =>
      var fed := Fed(c, d.vals, v, c.DataArity(v));
      var loaded := if rising then d.registers[n := Get(fed, In(v, 0))] else d.registers;
      Data(fed, if reset.Reset? && Get(fed, In(v, 1)) == Bits1(reset.posedge) then loaded[n := reset.init]
        else loaded, d.memories)
    case MemoryIn(n) =>
      var fed := Fed(c, d.vals, v, 3);
      var write := rising && Get(fed, In(v, 2)) == Bits1(true);
      Data(fed, d.registers, if write then d.memories[n := MemoryOf(d, n)[Get(fed, In(v, 0)) := Get(fed, In(v, 1))]]
        else d.memories)
    case _ => d
  }

  function Sequential(c: Circuit, d: Data, vs: seq<nat>, rising: bool): Data
    requires c.WellFormed() && Vertices(c, vs)
  {
    if vs == [] then d else UpdateReceiver(c, Sequential(c, d, vs[..|vs| - 1], rising), vs[|vs| - 1], rising)
  }

  predicate WrittenByReceiver(c: Circuit, p: Port)
    requires |c.ins| == |c.kinds|
  {
    c.Vertex(p.v) && p.In? && c.Clocked(p.v) && p.k < c.DataArity(p.v)
  }

  /** Whatever is stored under the name of a register or memory exists. */
  predicate Stored(c: Circuit, d: Data) {
    forall v :: 0 <= v < |c.kinds| ==>
      && (c.kinds[v].RegisterIn? ==> c.kinds[v].name in d.registers)
      && (c.kinds[v].MemoryIn? ==> c.kinds[v].name in d.memories)
  }

  lemma ReceiverPort(c: Circuit, d: Data, v: nat, rising: bool, p: Port)
    requires c.WellFormed() && c.Vertex(v)
    ensures var e := UpdateReceiver(c, d, v, rising);
            && (p in e.vals <==> p in d.vals || (p.v == v && WrittenByReceiver(c, p)))
            && (if p.v == v && WrittenByReceiver(c, p) then c.WellFed(v)
              && Get(e.vals, p) == Get(d.vals, Out(c.ins[v][p.k])) else Get(e.vals, p) == Get(d.vals, p))
  {
    assert c.WellFed(v);
    if c.Clocked(v) {
      FedAt(c, d.vals, v, c.DataArity(v), p);
    }
  }

  lemma ReceiverStores(c: Circuit, d: Data, v: nat, rising: bool)
    requires c.WellFormed() && c.Vertex(v) && Stored(c, d)
    ensures var e := UpdateReceiver(c, d, v, rising);
            && (c.kinds[v].RegisterIn? ==>
              e.registers == d.registers[c.kinds[v].name := NextRegister(c, d, v, rising)] && e.memories == d.memories)
            && (c.kinds[v].MemoryIn? ==>
              e.memories == d.memories[c.kinds[v].name := NextMemory(c, d, v, rising)] && e.registers == d.registers)
            && (!c.Clocked(v) ==> e == d)
            && e.registers.Keys == d.registers.Keys && e.memories.Keys == d.memories.Keys
  {
    assert c.WellFed(v);
    if c.Clocked(v) {
      forall k | 0 <= k < c.DataArity(v)
        ensures Get(Fed(c, d.vals, v, c.DataArity(v)), In(v, k)) == Get(d.vals, Out(c.ins[v][k]))
      {
        FedAt(c, d.vals, v, c.DataArity(v), In(v, k));
      }
    }
  }

  lemma {:induction false} SequentialPort(c: Circuit, d: Data, vs: seq<nat>, rising: bool, p: Port)
    requires c.WellFormed() && Vertices(c, vs)
    ensures var e := Sequential(c, d, vs, rising);
            && (p in e.vals <==> p in d.vals || (p.v in vs && WrittenByReceiver(c, p)))
            && (if p.v in vs && WrittenByReceiver(c, p) then c.WellFed(p.v)
              && Get(e.vals, p) == Get(d.vals, Out(c.ins[p.v][p.k])) else Get(e.vals, p) == Get(d.vals, p))
    decreases |vs|
  {
    if vs != [] {
      var n := |vs| - 1;
      var before := Sequential(c, d, vs[..n], rising);
      assert vs == vs[..n] + [vs[n]];
      SequentialPort(c, d, vs[..n], rising, p);
      ReceiverPort(c, before, vs[n], rising, p);
      if p.v == vs[n] && WrittenByReceiver(c, p) {
        assert c.WellFed(p.v);
        SequentialPort(c, d, vs[..n], rising, Out(c.ins[p.v][p.k]));
      }
    }
  }

  /** A receiver computes the same from any data with the same outputs and the same content. */
  lemma NextSame(c: Circuit, d: Data, e: Data, v: nat, rising: bool)
    requires c.WellFormed() && c.Vertex(v) && forall u: nat :: c.Vertex(u) ==> AgreeAt(c, d, e, u)
    ensures c.kinds[v].RegisterIn? && Register(d, c.kinds[v].name) == Register(e, c.kinds[v].name) ==>
      NextRegister(c, d, v, rising) == NextRegister(c, e, v, rising)
    ensures c.kinds[v].MemoryIn? && MemoryOf(d, c.kinds[v].name) == MemoryOf(e, c.kinds[v].name) ==>
      NextMemory(c, d, v, rising) == NextMemory(c, e, v, rising)
  {
    assert c.WellFed(v);
    if c.Clocked(v) {
      forall k | 0 <= k < c.DataArity(v) ensures AgreeAt(c, d, e, c.ins[v][k]) {
      }
    }
  }

  lemma SequentialOuts(c: Circuit, d: Data, vs: seq<nat>, rising: bool)
    requires c.WellFormed() && Vertices(c, vs)
    ensures forall u: nat :: c.Vertex(u) ==> AgreeAt(c, d, Sequential(c, d, vs, rising), u)
  {
    forall u: nat | c.Vertex(u) ensures AgreeAt(c, d, Sequential(c, d, vs, rising), u) {
      SequentialPort(c, d, vs, rising, Out(u));
    }
  }

  predicate Distinct(vs: seq<nat>) {
    forall i, j :: 0 <= i < j < |vs| ==> vs[i] != vs[j]
  }

  /** Registers and memories after some receivers were updated, one after the other. */
  ghost predicate Stepped(c: Circuit, d: Data, e: Data, vs: seq<nat>, rising: bool)
    requires c.WellFormed() && Vertices(c, vs)
  {
    && e.registers.Keys == d.registers.Keys && e.memories.Keys == d.memories.Keys
    && RegistersStepped(c, d, e, vs, rising) && MemoriesStepped(c, d, e, vs, rising)
  }

  ghost predicate RegistersStepped(c: Circuit, d: Data, e: Data, vs: seq<nat>, rising: bool)
    requires c.WellFormed() && Vertices(c, vs)
  {
    && (forall v :: v in vs && c.kinds[v].RegisterIn? ==> Register(e, c.kinds[v].name) == NextRegister(c, d, v, rising))
    && (forall n :: (forall v :: v in vs && c.kinds[v].RegisterIn? ==> c.kinds[v].name != n) ==>
      Register(e, n) == Register(d, n))
  }

  ghost predicate MemoriesStepped(c: Circuit, d: Data, e: Data, vs: seq<nat>, rising: bool)
    requires c.WellFormed() && Vertices(c, vs)
  {
    && (forall v :: v in vs && c.kinds[v].MemoryIn? ==> MemoryOf(e, c.kinds[v].name) == NextMemory(c, d, v, rising))
    && (forall n :: (forall v :: v in vs && c.kinds[v].MemoryIn? ==> c.kinds[v].name != n) ==>
      MemoryOf(e, n) == MemoryOf(d, n))
  }

  lemma {:induction false} SequentialStepped(c: Circuit, d: Data, vs: seq<nat>, rising: bool)
    requires c.WellFormed() && Vertices(c, vs) && Distinct(vs) && Stored(c, d)
    ensures Stepped(c, d, Sequential(c, d, vs, rising), vs, rising)
    decreases |vs|
  {
    if vs != [] {
      var n := |vs| - 1;
      var before, v := Sequential(c, d, vs[..n], rising), vs[n];
      assert vs == vs[..n] + [v];
      SequentialStepped(c, d, vs[..n], rising);
      SequentialOuts(c, d, vs[..n], rising);
      ReceiverStores(c, before, v, rising);
      OthersDiffer(c, vs, n);
      NextSame(c, d, before, v, rising);
      RegistersMore(c, d, before, Sequential(c, d, vs, rising), vs[..n], v, rising);
      MemoriesMore(c, d, before, Sequential(c, d, vs, rising), vs[..n], v, rising);
    }
  }

  lemma OthersDiffer(c: Circuit, vs: seq<nat>, n: nat)
    requires c.WellFormed() && Vertices(c, vs) && Distinct(vs) && n < |vs|
    ensures forall u :: u in vs[..n] ==> !c.SameReceiver(u, vs[n])
  {
    forall u | u in vs[..n] ensures !c.SameReceiver(u, vs[n]) {
      var i :| 0 <= i < n && vs[..n][i] == u;
      var v := vs[n];
      assert vs[i] != vs[n];
      assert u < v ==> !c.SameReceiver(u, v);
      assert v < u ==> !c.SameReceiver(v, u);
    }
  }

  lemma RegistersMore(c: Circuit, d: Data, before: Data, after: Data, vs: seq<nat>, v: nat, rising: bool)
    requires c.WellFormed() && Vertices(c, vs) && c.Vertex(v) && RegistersStepped(c, d, before, vs, rising)
    requires forall u :: u in vs ==> !c.SameReceiver(u, v)
    requires if c.kinds[v].RegisterIn?
      then after.registers == before.registers[c.kinds[v].name := NextRegister(c, d, v, rising)]
      else after.registers == before.registers
    ensures RegistersStepped(c, d, after, vs + [v], rising)
  {
    forall n | forall u :: u in vs + [v] && c.kinds[u].RegisterIn? ==> c.kinds[u].name != n
      ensures Register(after, n) == Register(d, n)
    {
      assert v in vs + [v];
      assert forall u :: u in vs ==> u in vs + [v];
    }
  }

  lemma MemoriesMore(c: Circuit, d: Data, before: Data, after: Data, vs: seq<nat>, v: nat, rising: bool)
    requires c.WellFormed() && Vertices(c, vs) && c.Vertex(v) && MemoriesStepped(c, d, before, vs, rising)
    requires forall u :: u in vs ==> !c.SameReceiver(u, v)
    requires if c.kinds[v].MemoryIn?
      then after.memories == before.memories[c.kinds[v].name := NextMemory(c, d, v, rising)]
      else after.memories == before.memories
    ensures MemoriesStepped(c, d, after, vs + [v], rising)
  {
    forall n | forall u :: u in vs + [v] && c.kinds[u].MemoryIn? ==> c.kinds[u].name != n
      ensures MemoryOf(after, n) == MemoryOf(d, n)
    {
      assert v in vs + [v];
      assert forall u :: u in vs ==> u in vs + [v];
    }
  }

  /** All registers and memories updated at once from what their inputs were before. */
  ghost predicate AtOnce(c: Circuit, d: Data, e: Data, rising: bool)
    requires c.WellFormed()
  {
    && (forall p: Port :: (p in e.vals <==> p in d.vals || WrittenByReceiver(c, p)) && PortAtOnce(c, d, e, p))
    && MachineStep(c, d, e, rising)
  }

  predicate PortAtOnce(c: Circuit, d: Data, e: Data, p: Port)
    requires c.WellFormed()
  {
    if WrittenByReceiver(c, p) then c.WellFed(p.v) && Get(e.vals, p) == Get(d.vals, Out(c.ins[p.v][p.k]))
      else Get(e.vals, p) == Get(d.vals, p)
  }

  /** The registers and memories of `e` are the next ones, as computed from the values in `d`. */
  ghost predicate MachineStep(c: Circuit, d: Data, e: Data, rising: bool)
    requires c.WellFormed()
  {
    && e.registers.Keys == d.registers.Keys && e.memories.Keys == d.memories.Keys
    && (forall v: nat :: c.Vertex(v) && c.kinds[v].RegisterIn? ==>
      Register(e, c.kinds[v].name) == NextRegister(c, d, v, rising))
    && (forall v: nat :: c.Vertex(v) && c.kinds[v].MemoryIn? ==>
      MemoryOf(e, c.kinds[v].name) == NextMemory(c, d, v, rising))
    && (forall n :: !IsRegister(c, n) ==> Register(e, n) == Register(d, n))
    && (forall n :: !IsMemory(c, n) ==> MemoryOf(e, n) == MemoryOf(d, n))
  }

  predicate IsRegister(c: Circuit, n: string) {
    exists v :: 0 <= v < |c.kinds| && c.kinds[v].RegisterIn? && c.kinds[v].name == n
  }

  predicate IsMemory(c: Circuit, n: string) {
    exists v :: 0 <= v < |c.kinds| && c.kinds[v].MemoryIn? && c.kinds[v].name == n
  }

  ghost predicate Lists(c: Circuit, vs: seq<nat>) {
    Vertices(c, vs) && Distinct(vs) && forall v :: 0 <= v < |c.kinds| ==> v in vs
  }

  /** Updating the receivers one after the other, in any order, is updating them at once. */
  lemma SequentialAtOnce(c: Circuit, d: Data, vs: seq<nat>, rising: bool)
    requires c.WellFormed() && Lists(c, vs) && Stored(c, d)
    ensures AtOnce(c, d, Sequential(c, d, vs, rising), rising)
  {
    var e := Sequential(c, d, vs, rising);
    forall p: Port ensures (p in e.vals <==> p in d.vals || WrittenByReceiver(c, p)) && PortAtOnce(c, d, e, p) {
      SequentialPort(c, d, vs, rising, p);
    }
    SequentialStepped(c, d, vs, rising);
    forall v: nat | c.Vertex(v) ensures v in vs {
    }
    forall n | !IsRegister(c, n) ensures Register(e, n) == Register(d, n) {
      forall v | v in vs && c.kinds[v].RegisterIn? ensures c.kinds[v].name != n {
      }
    }
    forall n | !IsMemory(c, n) ensures MemoryOf(e, n) == MemoryOf(d, n) {
      forall v | v in vs && c.kinds[v].MemoryIn? ensures c.kinds[v].name != n {
      }
    }
  }

  lemma MachineStepUnique(c: Circuit, d: Data, e: Data, f: Data, rising: bool)
    requires c.WellFormed() && MachineStep(c, d, e, rising) && MachineStep(c, d, f, rising)
    ensures e.registers == f.registers && e.memories == f.memories
  {
    forall n | n in e.registers ensures e.registers[n] == f.registers[n] {
      assert Register(e, n) == Register(f, n) by {
        if v :| 0 <= v < |c.kinds| && c.kinds[v].RegisterIn? && c.kinds[v].name == n {
          assert Register(e, n) == NextRegister(c, d, v, rising);
        } else {
          assert !IsRegister(c, n);
        }
      }
    }
    forall n | n in e.memories ensures e.memories[n] == f.memories[n] {
      assert MemoryOf(e, n) == MemoryOf(f, n) by {
        if v :| 0 <= v < |c.kinds| && c.kinds[v].MemoryIn? && c.kinds[v].name == n {
          assert MemoryOf(e, n) == NextMemory(c, d, v, rising);
        } else {
          assert !IsMemory(c, n);
        }
      }
    }
  }

  lemma AtOnceUnique(c: Circuit, d: Data, e: Data, f: Data, rising: bool)
    requires c.WellFormed() && AtOnce(c, d, e, rising) && AtOnce(c, d, f, rising)
    ensures e == f
  {
    MachineStepUnique(c, d, e, f, rising);
    forall p: Port ensures (p in e.vals <==> p in f.vals) && Get(e.vals, p) == Get(f.vals, p) {
      assert PortAtOnce(c, d, e, p) && PortAtOnce(c, d, f, p);
    }
    SameData(e, f);
  }

  lemma SequentialOrderIndependent(c: Circuit, d: Data, vs: seq<nat>, ws: seq<nat>, rising: bool)
    requires c.WellFormed() && Lists(c, vs) && Lists(c, ws) && Stored(c, d)
    ensures Sequential(c, d, vs, rising) == Sequential(c, d, ws, rising)
  {
    SequentialAtOnce(c, d, vs, rising);
    SequentialAtOnce(c, d, ws, rising);
    AtOnceUnique(c, d, Sequential(c, d, vs, rising), Sequential(c, d, ws, rising), rising);
  }

  // ----- one step of the simulation -----

  function Upwards(n: nat): (vs: seq<nat>)
    ensures |vs| == n && forall i :: 0 <= i < n ==> vs[i] == i
  {
    seq(n, i => i)
  }

  lemma UpwardsLists(c: Circuit)
    ensures Lists(c, Upwards(|c.kinds|))
  {
    var vs := Upwards(|c.kinds|);
    forall v | 0 <= v < |c.kinds| ensures v in vs {
      assert vs[v] == v;
    }
  }

  function Step(c: Circuit, d: Data, order: seq<nat>, rising: bool): Data
    requires c.WellFormed() && Vertices(c, order)
  {
    Combinational(c, Sequential(c, Combinational(c, d, order), Upwards(|c.kinds|), rising), order)
  }

  /**
   One step is one step of a synchronous machine: whatever settled valuation `w` the
   circuit has for the inputs, registers and memories of `d`, the registers and memories
   afterwards are the next ones computed from `w`, the inputs are the same, and all
   values are settled again.
  */
  lemma StepRefines(c: Circuit, d: Data, w: Data, order: seq<nat>, rising: bool)
    requires c.WellFormed() && c.Ordered(order) && AddressesTimely(c) && Stored(c, d)
    requires Settled(c, w) && SameSources(c, d, w)
    ensures var e := Step(c, d, order, rising);
            Settled(c, e) && MachineStep(c, w, e, rising)
              && SameSources(c, w.(registers := e.registers, memories := e.memories), e)
  {
    var x := Combinational(c, d, order);
    var y := Sequential(c, x, Upwards(|c.kinds|), rising);
    var e := Combinational(c, y, order);
    CombinationalSettles(c, d, order);
    SettledUnique(c, x, w, order);
    UpwardsLists(c);
    SequentialAtOnce(c, x, Upwards(|c.kinds|), rising);
    CombinationalSettles(c, y, order);
    MachineStepFrom(c, x, w, y, rising);
    forall v: nat | c.Vertex(v) && (c.kinds[v].Input? || c.kinds[v].Constant?)
      ensures Get(y.vals, Out(v)) == Get(w.vals, Out(v))
    {
      assert PortAtOnce(c, x, y, Out(v));
    }
  }

  /**
   What a step leaves in a register, in terms of the settled values `w` before it: a reset
   at its level gives the initial value, otherwise a rising clock loads what is fed, and
   without one the content stays.
  */
  lemma RegisterHolds(c: Circuit, d: Data, w: Data, order: seq<nat>, rising: bool, v: nat)
    requires c.WellFormed() && c.Ordered(order) && AddressesTimely(c) && Stored(c, d)
    requires Settled(c, w) && SameSources(c, d, w)
    requires c.Vertex(v) && c.kinds[v].RegisterIn?
    requires |c.ins[v]| > 1 && forall k :: 0 <= k < |c.ins[v]| - 1 ==> Out(c.ins[v][k]) in w.vals
    ensures var r, n := Step(c, d, order, rising).registers, c.kinds[v].name;
      && n in r && n in d.registers
      && var after := if rising then w.vals[Out(c.ins[v][0])] else d.registers[n];
      match c.kinds[v].reset {
        case NoReset => |c.ins[v]| == 2 && r[n] == after
        case Reset(true, init) =>
          |c.ins[v]| == 3 && r[n] == if w.vals[Out(c.ins[v][1])] == [One] then init else after
        case Reset(false, init) =>
          |c.ins[v]| == 3 && r[n] == if w.vals[Out(c.ins[v][1])] == [Zero] then init else after
      }
  {
    assert c.WellFed(v);
    StepRefines(c, d, w, order, rising);
    assert Register(Step(c, d, order, rising), c.kinds[v].name) == NextRegister(c, w, v, rising);
  }

  /**
   What a step leaves in a memory: one word is written, at the address and with the data
   that are fed, exactly on a rising clock with the enable at one.
  */
  lemma MemoryHolds(c: Circuit, d: Data, w: Data, order: seq<nat>, rising: bool, v: nat)
    requires c.WellFormed() && c.Ordered(order) && AddressesTimely(c) && Stored(c, d)
    requires Settled(c, w) && SameSources(c, d, w)
    requires c.Vertex(v) && c.kinds[v].MemoryIn?
    requires |c.ins[v]| == 4 && forall k :: 0 <= k < 3 ==> Out(c.ins[v][k]) in w.vals
    ensures var m, n := Step(c, d, order, rising).memories, c.kinds[v].name;
      var addr, data, enable := w.vals[Out(c.ins[v][0])], w.vals[Out(c.ins[v][1])], w.vals[Out(c.ins[v][2])];
      && n in m && n in d.memories
      && (rising && enable == [One] ==> m[n] == d.memories[n][addr := data])
      && (!rising || enable != [One] ==> m[n] == d.memories[n])
  {
    assert c.WellFed(v);
    StepRefines(c, d, w, order, rising);
    assert MemoryOf(Step(c, d, order, rising), c.kinds[v].name) == NextMemory(c, w, v, rising);
  }

  lemma HasValue(c: Circuit, d: Data, order: seq<nat>, v: nat)
    requires c.WellFormed() && c.Ordered(order) && c.Vertex(v)
    requires c.kinds[v].Operator? || c.kinds[v].RegisterOut? || c.kinds[v].MemoryOut?
    ensures Out(v) in Combinational(c, d, order).vals
  {
    CombinationalWrites(c, d, order, Out(v));
  }

  predicate ArgumentsAt(c: Circuit, d: Data, v: nat, args: seq<BitVec>)
    requires v < |c.ins|
  {
    && |args| == |c.ins[v]|
    && forall k :: 0 <= k < |args| ==> Out(c.ins[v][k]) in d.vals && args[k] == d.vals[Out(c.ins[v][k])]
  }

  /**
   What the two settle passes show at a vertex: an operator the result for its arguments in
   their order, a register its content, a memory what it holds at the address, or zeros.
  */
  lemma Shows(c: Circuit, d: Data, order: seq<nat>, v: nat, args: seq<BitVec>)
    requires c.WellFormed() && c.Ordered(order) && AddressesTimely(c) && c.Vertex(v)
    requires ArgumentsAt(c, Combinational(c, d, order), v, args)
    ensures var e := Combinational(c, d, order);
      match c.kinds[v] {
        case Operator => Out(v) in e.vals && e.vals[Out(v)] == c.op(v, args)
        case Output => |args| == 1 && Get(e.vals, In(v, 0)) == args[0]
        case RegisterOut(n) => n in d.registers ==> Out(v) in e.vals && e.vals[Out(v)] == d.registers[n]
        case MemoryOut(n, width) =>
          && |args| == 1 && Out(v) in e.vals
          && (n in d.memories && args[0] in d.memories[n] ==> e.vals[Out(v)] == d.memories[n][args[0]])
          && (n !in d.memories || args[0] !in d.memories[n] ==>
               |e.vals[Out(v)]| == width && forall i :: 0 <= i < width ==> e.vals[Out(v)][i] == Zero)
        case _ => true
      }
  {
    var e := Combinational(c, d, order);
    assert c.WellFed(v);
    CombinationalSettles(c, d, order);
    assert NodeSettled(c, e, v);
    if c.kinds[v].Operator? {
      assert Args(c, e.vals, v) == args;
    }
    if c.kinds[v].Operator? || c.kinds[v].RegisterOut? || c.kinds[v].MemoryOut? {
      HasValue(c, d, order, v);
    }
  }

  /** What a step writes is read in the state it leads to, where the read address is that of the write. */
  lemma ReadsWritten(c: Circuit, d: Data, w: Data, order: seq<nat>, v: nat, u: nat)
    requires c.WellFormed() && c.Ordered(order) && AddressesTimely(c) && Stored(c, d)
    requires Settled(c, w) && SameSources(c, d, w)
    requires c.Vertex(v) && c.kinds[v].MemoryIn? && c.Vertex(u) && c.kinds[u].MemoryOut?
    requires c.kinds[u].name == c.kinds[v].name && |c.ins[u]| == 1
    requires |c.ins[v]| == 4 && forall k :: 0 <= k < 3 ==> Out(c.ins[v][k]) in w.vals
    requires w.vals[Out(c.ins[v][2])] == [One]
    ensures var vals := Step(c, d, order, true).vals;
      Out(c.ins[u][0]) in vals && vals[Out(c.ins[u][0])] == w.vals[Out(c.ins[v][0])] ==>
      Out(u) in vals && vals[Out(u)] == w.vals[Out(c.ins[v][1])]
  {
    var e := Step(c, d, order, true);
    assert c.WellFed(u);
    StepRefines(c, d, w, order, true);
    MemoryHolds(c, d, w, order, true, v);
    assert NodeSettled(c, e, u);
    HasValue(c, Sequential(c, Combinational(c, d, order), Upwards(|c.kinds|), true), order, u);
  }

  lemma MachineStepFrom(c: Circuit, d: Data, w: Data, e: Data, rising: bool)
    requires c.WellFormed() && MachineStep(c, d, e, rising)
    requires d.registers == w.registers && d.memories == w.memories
    requires forall v: nat :: c.Vertex(v) ==> AgreeAt(c, d, w, v)
    ensures MachineStep(c, w, e, rising)
  {
    forall v: nat | c.Vertex(v) && (c.kinds[v].RegisterIn? || c.kinds[v].MemoryIn?)
      ensures c.kinds[v].RegisterIn? ==> Register(e, c.kinds[v].name) == NextRegister(c, w, v, rising)
      ensures c.kinds[v].MemoryIn? ==> MemoryOf(e, c.kinds[v].name) == NextMemory(c, w, v, rising)
    {
      NextSame(c, d, w, v, rising);
    }
  }
}
