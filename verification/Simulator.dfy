/**
 The simulator: recorded states of a circuit, of which one is current, and the passes
 that compute the next one. Clock values are objects that the states refer to.
*/
module Simulator {
  import opened BitVectors
  import opened Circuits

  /** The last and the current value of a clock, and the half cycles it has gone through. */
  datatype Tick = Tick(lastVal: int, val: int, halfCycleCount: int) {
    function Flip(): Tick {
      Tick(val, lastVal, halfCycleCount + 1)
    }

    predicate Rising() {
      lastVal == 0 && val == 1
    }
  }

  class ClockValue {
    var lastVal: int
    var val: int
    var halfCycleCount: int

    constructor (lastVal: int, val: int, halfCycleCount: int)
      ensures Shown() == Tick(lastVal, val, halfCycleCount)
    {
      this.lastVal, this.val, this.halfCycleCount := lastVal, val, halfCycleCount;
    }

    function Shown(): Tick
      reads this
    {
      Tick(lastVal, val, halfCycleCount)
    }

    method Flip()
      modifies this
      ensures lastVal == old(val) && val == old(lastVal) && halfCycleCount == old(halfCycleCount) + 1
      ensures Shown() == old(Shown()).Flip()
    {
      var tmp := lastVal;
      lastVal := val;
      val := tmp;
      halfCycleCount := halfCycleCount + 1;
    }
  }

  /** The values of all ports: data in `data`, clocks by reference. */
  datatype CircuitState = CircuitState(data: Data, clocks: map<Port, ClockValue>)

  /** What a state shows, with the clock objects read out. */
  datatype Record = Record(data: Data, clocks: map<Port, Tick>)

  // ----- the next record, as a function of the current one -----

  predicate IsClockPort(c: Circuit, p: Port)
    requires |c.ins| == |c.kinds|
  {
    p.In? && c.Vertex(p.v) && c.Clocked(p.v) && p.k == c.DataArity(p.v)
  }

  /** A register's clock comes after its data and reset, a memory's after addresses, data and enable. */
  predicate ClockArgument(kind: Kind, k: nat) {
    match kind
    case RegisterIn(_, NoReset) => k == 1
    case RegisterIn(_, Reset(_, _)) => k == 2
    case MemoryIn(_) => k == 3
    case _ => false
  }

  function ClockPorts(c: Circuit, n: nat): (ps: set<Port>)
    requires |c.ins| == |c.kinds| && n <= |c.kinds|
    ensures forall p :: p in ps <==> IsClockPort(c, p) && p.v < n
  {
    if n == 0 then {}
    else if c.Clocked(n - 1) then ClockPorts(c, n - 1) + {In(n - 1, c.DataArity(n - 1))}
    else ClockPorts(c, n - 1)
  }

  /** The clocks after a step: all receivers see the main clock, which has flipped. */
  function NextClocks(c: Circuit, main: nat, clocks: map<Port, Tick>): map<Port, Tick>
    requires |c.ins| == |c.kinds| && Out(main) in clocks
  {
    map p | p in clocks.Keys + ClockPorts(c, |c.kinds|) ::
      if p == Out(main) || IsClockPort(c, p) then clocks[Out(main)].Flip() else clocks[p]
  }

  function NextRecord(c: Circuit, order: seq<nat>, main: nat, r: Record): Record
    requires c.WellFormed() && Vertices(c, order) && Out(main) in r.clocks
  {
    Record(Step(c, r.data, order, r.clocks[Out(main)].Rising()), NextClocks(c, main, r.clocks))
  }

  /** The next record's clock has its two values exchanged, and so has every clock argument. */
  lemma NextClock(c: Circuit, order: seq<nat>, main: nat, r: Record)
    requires c.WellFormed() && Vertices(c, order) && Out(main) in r.clocks
    ensures var before, clocks := r.clocks[Out(main)], NextRecord(c, order, main, r).clocks;
      && Out(main) in clocks
      && clocks[Out(main)] == Tick(before.val, before.lastVal, before.halfCycleCount + 1)
      && forall v: nat, k: nat :: c.Vertex(v) && ClockArgument(c.kinds[v], k) ==>
        In(v, k) in clocks && clocks[In(v, k)] == clocks[Out(main)]
  {
    var clocks := NextRecord(c, order, main, r).clocks;
    forall v: nat, k: nat | c.Vertex(v) && ClockArgument(c.kinds[v], k)
      ensures In(v, k) in clocks && clocks[In(v, k)] == clocks[Out(main)]
    {
      assert IsClockPort(c, In(v, k)) && In(v, k) in ClockPorts(c, |c.kinds|);
    }
  }

  /** Two half cycles bring the values of the clock back. */
  lemma TwoHalfCycles(c: Circuit, order: seq<nat>, main: nat, r: Record)
    requires c.WellFormed() && Vertices(c, order) && Out(main) in r.clocks
    ensures Out(main) in NextRecord(c, order, main, r).clocks
    ensures var before := r.clocks[Out(main)];
      var after := NextRecord(c, order, main, NextRecord(c, order, main, r)).clocks;
      Out(main) in after && after[Out(main)] == Tick(before.lastVal, before.val, before.halfCycleCount + 2)
  {
    NextClock(c, order, main, r);
    NextClock(c, order, main, NextRecord(c, order, main, r));
  }

  /**
   From a clock that has just fallen, the first half cycle leaves a register without reset
   as it was, and the second loads what the first one shows at its input.
  */
  lemma LoadsOnRise(c: Circuit, order: seq<nat>, main: nat, r: Record, v: nat)
    requires c.WellFormed() && c.Ordered(order) && AddressesTimely(c) && Stored(c, r.data)
    requires Out(main) in r.clocks && r.clocks[Out(main)].lastVal == 1 && r.clocks[Out(main)].val == 0
    requires c.Vertex(v) && c.kinds[v].RegisterIn? && c.kinds[v].reset == NoReset && |c.ins[v]| == 2
    ensures var n, once := c.kinds[v].name, NextRecord(c, order, main, r);
      && Out(main) in once.clocks && n in r.data.registers && n in once.data.registers
      && once.data.registers[n] == r.data.registers[n]
      && var twice := NextRecord(c, order, main, once);
         n in twice.data.registers && (Out(c.ins[v][0]) in once.data.vals ==>
           twice.data.registers[n] == once.data.vals[Out(c.ins[v][0])])
  {
    var n, once := c.kinds[v].name, NextRecord(c, order, main, r);
    assert c.WellFed(v);
    NextClock(c, order, main, r);
    var w := Combinational(c, r.data, order);
    CombinationalSettles(c, r.data, order);
    StepRefines(c, r.data, w, order, false);
    assert Register(once.data, n) == NextRegister(c, w, v, false);
    StepRefines(c, once.data, once.data, order, true);
    assert Register(NextRecord(c, order, main, once).data, n) == NextRegister(c, once.data, v, true);
  }

  // ----- recorded states and what the commands do to them -----

  /** The records so far, of which one is current. */
  datatype Timeline = Timeline(records: seq<Record>, index: int) {
    predicate InRange() {
      0 <= index < |records|
    }

    predicate AtLast() {
      index == |records| - 1
    }
  }

  datatype Command = HalfCycle | Rewind(halfCycles: nat) | Set(port: Port, bits: BitVec) | SetClock(lastVal: int,
      val: int)

  predicate Clocking(main: nat, t: Timeline) {
    forall i :: 0 <= i < |t.records| ==> Out(main) in t.records[i].clocks
  }

  function WithPort(r: Record, p: Port, bits: BitVec): Record {
    r.(data := r.data.(vals := r.data.vals[p := bits]))
  }

  function Apply(c: Circuit, order: seq<nat>, main: nat, t: Timeline, command: Command): Timeline
    requires c.WellFormed() && Vertices(c, order) && t.InRange() && Clocking(main, t)
  {
    match command
    case HalfCycle =>
      if t.AtLast() then Timeline(t.records + [NextRecord(c, order, main, t.records[t.index])], t.index + 1)
        else t.(index := t.index + 1)
    case Rewind(k) => if t.index - k >= 0 then t.(index := t.index - k) else t
    case Set(p, bits) => t.(records := t.records[..t.index] + [WithPort(t.records[t.index], p, bits)])
    case SetClock(lastVal, val) =>
      var r := t.records[t.index];
      t.(records := t.records[t.index := r.(clocks := r.clocks[Out(main) := Tick(lastVal, val, 0)])])
  }

  lemma ApplyKeeps(c: Circuit, order: seq<nat>, main: nat, t: Timeline, command: Command)
    requires c.WellFormed() && Vertices(c, order) && t.InRange() && Clocking(main, t)
    ensures Apply(c, order, main, t, command).InRange() && Clocking(main, Apply(c, order, main, t, command))
  {
  }

  function Play(c: Circuit, order: seq<nat>, main: nat, t: Timeline, commands: seq<Command>): (r: Timeline)
    requires c.WellFormed() && Vertices(c, order) && t.InRange() && Clocking(main, t)
    ensures r.InRange() && Clocking(main, r)
    decreases |commands|
  {
    if commands == [] then t
    else
      ApplyKeeps(c, order, main, t, commands[0]);
      Play(c, order, main, Apply(c, order, main, t, commands[0]), commands[1..])
  }

  /** A half cycle that computes a state finds all inputs set. */
  predicate Possible(c: Circuit, t: Timeline, command: Command)
    requires t.InRange()
  {
    command.HalfCycle? && t.AtLast() ==> SetIn(c, t.records[t.index].data)
  }

  /** Every half cycle of a run that computes a state finds all inputs set. */
  predicate Runnable(c: Circuit, order: seq<nat>, main: nat, t: Timeline, commands: seq<Command>)
    requires c.WellFormed() && Vertices(c, order) && t.InRange() && Clocking(main, t)
  {
    forall k :: 0 <= k < |commands| ==> Possible(c, Play(c, order, main, t, commands[..k]), commands[k])
  }

  predicate Harmless(commands: seq<Command>) {
    forall i :: 0 <= i < |commands| ==> commands[i].HalfCycle? || commands[i].Rewind?
  }

  /** Each record is the next one after the record before it. */
  ghost predicate Consecutive(c: Circuit, order: seq<nat>, main: nat, t: Timeline, base: nat)
    requires c.WellFormed() && Vertices(c, order) && Clocking(main, t)
  {
    forall i :: base <= i < |t.records| - 1 ==> t.records[i + 1] == NextRecord(c, order, main, t.records[i])
  }

  /** Without sets, no record is ever changed or lost, and what is added follows on. */
  lemma {:induction false} PlayOnlyAdds(c: Circuit, order: seq<nat>, main: nat, t: Timeline, commands: seq<Command>,
      base: nat)
    requires c.WellFormed() && Vertices(c, order) && t.InRange() && Clocking(main, t)
    requires Harmless(commands) && Consecutive(c, order, main, t, base)
    ensures t.records <= Play(c, order, main, t, commands).records
    ensures Consecutive(c, order, main, Play(c, order, main, t, commands), base)
    decreases |commands|
  {
    if commands != [] {
      ApplyKeeps(c, order, main, t, commands[0]);
      var next := Apply(c, order, main, t, commands[0]);
      assert t.records <= next.records;
      forall i | 0 <= i < |commands[1..]| ensures commands[1..][i].HalfCycle? || commands[1..][i].Rewind? {
        assert commands[1..][i] == commands[i + 1];
      }
      PlayOnlyAdds(c, order, main, next, commands[1..], base);
    }
  }

  function HalfCycles(k: nat): (commands: seq<Command>)
    ensures |commands| == k && forall i :: 0 <= i < k ==> commands[i] == HalfCycle
  {
    seq(k, _ => HalfCycle)
  }

  lemma {:induction false} ForwardAgain(c: Circuit, order: seq<nat>, main: nat, t: Timeline, k: nat)
    requires c.WellFormed() && Vertices(c, order) && t.InRange() && Clocking(main, t) && t.index + k < |t.records|
    ensures Play(c, order, main, t, HalfCycles(k)) == t.(index := t.index + k)
    decreases k
  {
    if k > 0 {
      assert HalfCycles(k)[1..] == HalfCycles(k - 1);
      ForwardAgain(c, order, main, t.(index := t.index + 1), k - 1);
    }
  }

  /** Going back and forward again by as many half cycles leaves everything as it was. */
  lemma BackAndForth(c: Circuit, order: seq<nat>, main: nat, t: Timeline, k: nat)
    requires c.WellFormed() && Vertices(c, order) && t.InRange() && Clocking(main, t)
    ensures Play(c, order, main, t, [Rewind(k)] + HalfCycles(k)) == t <==> k <= t.index
  {
    var commands := [Rewind(k)] + HalfCycles(k);
    assert commands[0] == Rewind(k) && commands[1..] == HalfCycles(k);
    if k <= t.index {
      ForwardAgain(c, order, main, t.(index := t.index - k), k);
    } else {
      AlwaysForward(c, order, main, t, k);
    }
  }

  lemma {:induction false} AlwaysForward(c: Circuit, order: seq<nat>, main: nat, t: Timeline, k: nat)
    requires c.WellFormed() && Vertices(c, order) && t.InRange() && Clocking(main, t)
    ensures Play(c, order, main, t, HalfCycles(k)).index == t.index + k
    decreases k
  {
    if k > 0 {
      assert HalfCycles(k)[1..] == HalfCycles(k - 1);
      ApplyKeeps(c, order, main, t, HalfCycle);
      AlwaysForward(c, order, main, Apply(c, order, main, t, HalfCycle), k - 1);
    }
  }

  /** A set after going back discards exactly the later records. */
  lemma SetDiscardsLater(c: Circuit, order: seq<nat>, main: nat, t: Timeline, k: nat, p: Port, bits: BitVec)
    requires c.WellFormed() && Vertices(c, order) && t.InRange() && Clocking(main, t) && k <= t.index
    ensures var r := Play(c, order, main, t, [Rewind(k), Set(p, bits)]);
      && r.AtLast() && r.index == t.index - k
      && r.records[..r.index] == t.records[..r.index]
      && r.records[r.index] == WithPort(t.records[r.index], p, bits)
  {
    var commands := [Rewind(k), Set(p, bits)];
    assert commands[1..] == [Set(p, bits)] && commands[1..][1..] == [];
    var back := t.(index := t.index - k);
    var r := Apply(c, order, main, back, Set(p, bits));
    assert Play(c, order, main, back, commands[1..]) == Play(c, order, main, r, []) == r;
  }

  // ----- who refers to which clock object -----

  /** All clock objects are allocated ones, and every state has a main clock. */
  ghost predicate Owned(states: seq<CircuitState>, allocatedValues: set<ClockValue>, main: nat) {
    forall i :: 0 <= i < |states| ==> Out(main) in states[i].clocks && states[i].clocks.Values <= allocatedValues
  }

  /** No state refers to the main clock object of a later one. */
  ghost predicate Unshared(states: seq<CircuitState>, main: nat) {
    forall i, j, p :: 0 <= i < j < |states| && p in states[i].clocks && Out(main) in states[j].clocks ==>
      states[i].clocks[p] != states[j].clocks[Out(main)]
  }

  lemma OneMoreState(states: seq<CircuitState>, allocatedValues: set<ClockValue>, main: nat, next: CircuitState,
      copy: ClockValue)
    requires Owned(states, allocatedValues, main) && Unshared(states, main) && copy !in allocatedValues
    requires Out(main) in next.clocks && next.clocks[Out(main)] == copy
    requires next.clocks.Values <= allocatedValues + {copy}
    ensures Owned(states + [next], allocatedValues + {copy}, main) && Unshared(states + [next], main)
  {
    var more := states + [next];
    forall i, j, p | 0 <= i < j < |more| && p in more[i].clocks && Out(main) in more[j].clocks
      ensures more[i].clocks[p] != more[j].clocks[Out(main)]
    {
      assert more[i] == states[i] && states[i].clocks[p] in states[i].clocks.Values;
    }
  }

  class SimulatorState {
    const circuit: Circuit
    const order: seq<nat>
    const mainClock: nat
    var circStates: seq<CircuitState>
    var stateIndex: int
    var allocatedValues: set<ClockValue>
    ghost var history: seq<Record>  // what each recorded state shows

    /** Starts with one state, whose clock is at its given values. */
    constructor (circuit: Circuit, order: seq<nat>, mainClock: nat, data: Data, clkLast: int, clk: int)
      requires circuit.WellFormed() && Vertices(circuit, order)
      requires circuit.Vertex(mainClock) && circuit.kinds[mainClock].Clock?
      requires forall v :: 0 <= v < |circuit.kinds| && circuit.Clocked(v) && circuit.WellFed(v) ==>
        circuit.ins[v][circuit.DataArity(v)] == mainClock
      ensures Valid() && fresh(allocatedValues)
      ensures this.circuit == circuit && this.order == order && this.mainClock == mainClock
      ensures history == [Record(data, map[Out(mainClock) := Tick(clkLast, clk, 0)])] && stateIndex == 0
    {
      this.circuit, this.order, this.mainClock := circuit, order, mainClock;
      var clkVal := new ClockValue(clkLast, clk, 0);
      allocatedValues := {clkVal};
      circStates, stateIndex := [CircuitState(data, map[Out(mainClock) := clkVal])], 0;
      history := [Record(data, map[Out(mainClock) := Tick(clkLast, clk, 0)])];
    }

    predicate Wired() {
      && circuit.WellFormed() && Vertices(circuit, order)
      && circuit.Vertex(mainClock) && circuit.kinds[mainClock].Clock?
      && forall v :: 0 <= v < |circuit.kinds| && circuit.Clocked(v) && circuit.WellFed(v) ==>
        circuit.ins[v][circuit.DataArity(v)] == mainClock
    }

    predicate InRange()
      reads this
    {
      0 <= stateIndex < |circStates|
    }

    // ----- the passes on the current state -----

    function Current(): CircuitState
      reads this
      requires InRange()
    {
      circStates[stateIndex]
    }

    method SetData(data: Data)
      requires InRange()
      modifies this`circStates
      ensures circStates == old(circStates)[stateIndex := old(Current()).(data := data)]
    {
      circStates := circStates[stateIndex := circStates[stateIndex].(data := data)];
    }

    method SetPort(p: Port, val: BitVec)
      requires InRange()
      modifies this`circStates
      ensures circStates == old(circStates)[stateIndex :=
        old(Current()).(data := old(Current().data).(vals := old(Current().data.vals)[p := val]))]
    {
      var d := circStates[stateIndex].data;
      SetData(d.(vals := d.vals[p := val]));
    }

    /** A vertex's clock argument refers to the main clock's object. */
    function FedClock(clocks: map<Port, ClockValue>, v: nat): map<Port, ClockValue>
      requires Wired() && circuit.Vertex(v)
    {
      if circuit.Clocked(v) && Out(mainClock) in clocks
        then clocks[In(v, circuit.DataArity(v)) := clocks[Out(mainClock)]] else clocks
    }

    /** Copies what feeds the arguments of a vertex. */
    method UpdateInputs(v: nat)
      requires Wired() && InRange() && circuit.Vertex(v)
      requires circuit.Clocked(v) ==> Out(mainClock) in Current().clocks
      modifies this`circStates
      ensures circuit.WellFed(v)
      ensures var s := old(Current());
              circStates == old(circStates)[stateIndex :=
                CircuitState(s.data.(vals := Fed(circuit, s.data.vals, v, circuit.DataArity(v))),
                FedClock(s.clocks, v))]
    {
      assert circuit.WellFed(v);
      ghost var s := Current();
      var k := 0;
      while k < circuit.DataArity(v)
        invariant 0 <= k <= circuit.DataArity(v)
        invariant circStates == old(circStates)[stateIndex :=
          s.(data := s.data.(vals := Fed(circuit, s.data.vals, v, k)))]
      {
        FedAt(circuit, s.data.vals, v, k, Out(circuit.ins[v][k]));
        SetPort(In(v, k), Get(circStates[stateIndex].data.vals, Out(circuit.ins[v][k])));
        k := k + 1;
      }
      if circuit.Clocked(v) {
        var now := circStates[stateIndex];
        circStates := circStates[stateIndex :=
          now.(clocks := now.clocks[In(v, k) := now.clocks[Out(circuit.ins[v][k])]])];
      }
    }

    method UpdateNodeValues(v: nat)
      requires Wired() && InRange() && circuit.Vertex(v)
      modifies this`circStates
      ensures var s := old(Current());
        circStates == old(circStates)[stateIndex := s.(data := UpdateNode(circuit, s.data, v))]
    {
      ghost var s := Current();
      assert circuit.WellFed(v);
      match circuit.kinds[v] {
        case Output =>
          UpdateInputs(v);
        case Operator =>
          UpdateInputs(v);
          var n := |circuit.ins[v]|;
          var vals := circStates[stateIndex].data.vals;
          var args := seq(n, k requires 0 <= k < n => Get(vals, In(v, k)));
          forall k | 0 <= k < n ensures args[k] == Args(circuit, s.data.vals, v)[k] {
            FedAt(circuit, s.data.vals, v, n, In(v, k));
          }
          assert args == Args(circuit, s.data.vals, v);
          SetPort(Out(v), circuit.op(v, args));
        case _ =>
      }
    }

    method UpdateRegisterOutput(v: nat)
      requires Wired() && InRange() && circuit.Vertex(v) && circuit.kinds[v].RegisterOut?
      modifies this`circStates
      ensures var s := old(Current());
        circStates == old(circStates)[stateIndex := s.(data := UpdateOutput(circuit, s.data, v))]
    {
      SetPort(Out(v), Register(circStates[stateIndex].data, circuit.kinds[v].name));
    }

    method UpdateMemoryOutput(v: nat)
      requires Wired() && InRange() && circuit.Vertex(v) && circuit.kinds[v].MemoryOut?
      modifies this`circStates
      ensures var s := old(Current());
        circStates == old(circStates)[stateIndex := s.(data := UpdateOutput(circuit, s.data, v))]
    {
      ghost var s := Current();
      assert circuit.WellFed(v);
      UpdateInputs(v);
      FedAt(circuit, s.data.vals, v, 1, In(v, 0));
      var d := circStates[stateIndex].data;
      SetPort(Out(v), Read(d.memories, circuit.kinds[v].name, Get(d.vals, In(v, 0)), circuit.kinds[v].width));
    }

    /** One pass: the outputs of registers and memories, then the nodes in topological order. */
    method SettlePass()
      requires Wired() && InRange()
      modifies this`circStates
      ensures var s := old(Current());
        circStates == old(circStates)[stateIndex := s.(data := Settle(circuit, s.data, order))]
    {
      ghost var s := Current();
      var v := 0;
      while v < |circuit.kinds|
        invariant 0 <= v <= |circuit.kinds|
        invariant circStates == old(circStates)[stateIndex := s.(data := UpdateOutputs(circuit, s.data, v))]
      {
        if circuit.kinds[v].MemoryOut? {
          UpdateMemoryOutput(v);
        }
        if circuit.kinds[v].RegisterOut? {
          UpdateRegisterOutput(v);
        }
        v := v + 1;
      }
      ghost var d := UpdateOutputs(circuit, s.data, |circuit.kinds|);
      var i := 0;
      while i < |order|
        invariant 0 <= i <= |order| && Vertices(circuit, order[..i])
        invariant circStates == old(circStates)[stateIndex := s.(data := UpdateNodes(circuit, d, order[..i]))]
      {
        assert order[..i + 1][..i] == order[..i];
        UpdateNodeValues(order[i]);
        i := i + 1;
      }
      assert order[..i] == order;
    }

    method ExeCombinational()
      requires Wired() && InRange()
      modifies this`circStates
      ensures var s := old(Current());
        circStates == old(circStates)[stateIndex := s.(data := Combinational(circuit, s.data, order))]
    {
      var i := 0;
      ghost var s := Current();
      while i < 2
        invariant 0 <= i <= 2
        invariant i == 0 ==> circStates == old(circStates)
        invariant i == 1 ==> circStates == old(circStates)[stateIndex := s.(data := Settle(circuit, s.data, order))]
        invariant i == 2 ==>
          circStates == old(circStates)[stateIndex := s.(data := Combinational(circuit, s.data, order))]
      {
        SettlePass();
        i := i + 1;
      }
    }

    // ----- the clocked update -----

    predicate HasClock()
      reads this
      requires InRange()
    {
      Out(mainClock) in Current().clocks
    }

    function Rising(): bool
      reads this, Current().clocks.Values
      requires InRange() && HasClock()
    {
      Current().clocks[Out(mainClock)].Shown().Rising()
    }

    method UpdateRegisterValue(v: nat)
      requires Wired() && InRange() && HasClock() && circuit.Vertex(v) && circuit.kinds[v].RegisterIn?
      modifies this`circStates
      ensures var s := old(Current());
              circStates == old(circStates)[stateIndex :=
                CircuitState(UpdateReceiver(circuit, s.data, v, old(Rising())), FedClock(s.clocks, v))]
    {
      UpdateInputs(v);
      var name := circuit.kinds[v].name;
      var now := circStates[stateIndex];
      var clkVal := now.clocks[In(v, circuit.DataArity(v))];
      var bits := Get(now.data.vals, In(v, 0));
      if clkVal.lastVal == 0 && clkVal.val == 1 {
        SetData(now.data.(registers := now.data.registers[name := bits]));
      }
      var reset := circuit.kinds[v].reset;
      if reset.Reset? {
        now := circStates[stateIndex];
        var arst := Get(now.data.vals, In(v, 1));
        if (reset.posedge && arst == [One]) || (!reset.posedge && arst == [Zero]) {
          SetData(now.data.(registers := now.data.registers[name := reset.init]));
        }
      }
    }

    method UpdateMemoryValue(v: nat)
      requires Wired() && InRange() && HasClock() && circuit.Vertex(v) && circuit.kinds[v].MemoryIn?
      modifies this`circStates
      ensures var s := old(Current());
              circStates == old(circStates)[stateIndex :=
                CircuitState(UpdateReceiver(circuit, s.data, v, old(Rising())), FedClock(s.clocks, v))]
    {
      UpdateInputs(v);
      var name := circuit.kinds[v].name;
      var now := circStates[stateIndex];
      var clkVal := now.clocks[In(v, 3)];
      var waddr, wdata, wen := Get(now.data.vals, In(v, 0)), Get(now.data.vals, In(v, 1)), Get(now.data.vals, In(v, 2));
      if clkVal.lastVal == 0 && clkVal.val == 1 && wen == [One] {
        SetData(now.data.(memories := now.data.memories[name := MemoryOf(now.data, name)[waddr := wdata]]));
      }
    }

    function FedClocks(clocks: map<Port, ClockValue>, n: nat): map<Port, ClockValue>
      requires Wired() && n <= |circuit.kinds|
    {
      if n == 0 then clocks else FedClock(FedClocks(clocks, n - 1), n - 1)
    }

    lemma FedClocksAt(clocks: map<Port, ClockValue>, n: nat, p: Port)
      requires Wired() && n <= |circuit.kinds| && Out(mainClock) in clocks
      ensures p in FedClocks(clocks, n) <==> p in clocks || (IsClockPort(circuit, p) && p.v < n)
      ensures p in FedClocks(clocks, n) ==>
        FedClocks(clocks, n)[p] == if IsClockPort(circuit, p) && p.v < n then clocks[Out(mainClock)] else clocks[p]
      decreases n
    {
      if n > 0 {
        FedClocksAt(clocks, n - 1, p);
        FedClocksAt(clocks, n - 1, Out(mainClock));
      }
    }

    method ExeSequential()
      requires Wired() && InRange() && HasClock()
      modifies this`circStates
      ensures var s := old(Current());
              circStates == old(circStates)[stateIndex :=
                CircuitState(Sequential(circuit, s.data, Upwards(|circuit.kinds|), old(Rising())),
                FedClocks(s.clocks, |circuit.kinds|))]
    {
      ghost var s, rising := Current(), Rising();
      var v := 0;
      while v < |circuit.kinds|
        invariant 0 <= v <= |circuit.kinds| && Vertices(circuit, Upwards(v))
        invariant circStates == old(circStates)[stateIndex :=
          CircuitState(Sequential(circuit, s.data, Upwards(v), rising), FedClocks(s.clocks, v))]
      {
        FedClocksAt(s.clocks, v, Out(mainClock));
        assert Upwards(v + 1)[..v] == Upwards(v);
        if circuit.kinds[v].RegisterIn? {
          UpdateRegisterValue(v);
        }
        if circuit.kinds[v].MemoryIn? {
          UpdateMemoryValue(v);
        }
        v := v + 1;
      }
    }

    // ----- recorded states -----

    ghost function RecordOf(s: CircuitState): Record
      reads s.clocks.Values
    {
      Record(s.data, map p | p in s.clocks :: s.clocks[p].Shown())
    }

    ghost predicate Valid()
      reads this, allocatedValues
    {
      && Wired() && InRange() && Owned(circStates, allocatedValues, mainClock) && Unshared(circStates, mainClock)
      && |history| == |circStates|
      && forall i :: 0 <= i < |circStates| ==> history[i] == RecordOf(circStates[i])
    }

    function AtLastState(): bool
      reads this
    {
      stateIndex == |circStates| - 1
    }

    predicate InputsSet()
      reads this
      requires Wired() && InRange()
    {
      SetIn(circuit, Current().data)
    }

    /**
     Computes the next state after the last one; its main clock is an object of its own.
     If some input is not set, the new state is the old one, with the same clock objects.
    */
    method Execute()
      requires Valid() && AtLastState()
      modifies this`circStates, this`stateIndex, this`allocatedValues
      ensures stateIndex == old(stateIndex) + 1 && |circStates| == |old(circStates)| + 1
      ensures circStates[..stateIndex] == old(circStates) && InRange() && HasClock()
      ensures old(InputsSet()) <==>
        forall v :: 0 <= v < |circuit.kinds| && circuit.kinds[v].Input? ==> Out(v) in old(Current()).data.vals
      ensures !old(InputsSet()) ==> Current() == old(Current()) && allocatedValues == old(allocatedValues)
      ensures old(InputsSet()) ==>
        var s, copy := old(Current()), Current().clocks[Out(mainClock)];
        && fresh(copy) && allocatedValues == old(allocatedValues) + {copy}
        && copy.Shown() == old(s.clocks[Out(mainClock)].Shown())
        && Current() == CircuitState(Step(circuit, s.data, order, copy.lastVal == 0 && copy.val == 1),
          FedClocks(s.clocks[Out(mainClock) := copy], |circuit.kinds|))
    {
      var next := circStates[stateIndex];
      circStates := circStates + [next];
      stateIndex := stateIndex + 1;
      if !InputsSet() {
        return;
      }
      var main := next.clocks[Out(mainClock)];
      var clockCopy := new ClockValue(main.lastVal, main.val, main.halfCycleCount);
      allocatedValues := allocatedValues + {clockCopy};
      circStates := circStates[stateIndex := next.(clocks := next.clocks[Out(mainClock) := clockCopy])];
      ghost var clocks := next.clocks[Out(mainClock) := clockCopy];
      ExeCombinational();
      ExeSequential();
      FedClocksAt(clocks, |circuit.kinds|, Out(mainClock));
      ExeCombinational();
    }

    ghost function Now(): Timeline
      reads this
    {
      Timeline(history, stateIndex)
    }

    /** The clocks of the new state show the flipped main clock wherever the main clock reaches. */
    lemma NextClocksShown(clocks: map<Port, ClockValue>, copy: ClockValue, shown: map<Port, Tick>)
      requires Wired() && Out(mainClock) in clocks && shown.Keys == clocks.Keys
      requires copy.Shown() == shown[Out(mainClock)].Flip()
      requires forall p :: p in clocks ==> clocks[p].Shown() == shown[p]
      ensures var fed := FedClocks(clocks[Out(mainClock) := copy], |circuit.kinds|);
              (map p | p in fed :: fed[p].Shown()) == NextClocks(circuit, mainClock, shown)
    {
      var with_ := clocks[Out(mainClock) := copy];
      var fed, next := FedClocks(with_, |circuit.kinds|), NextClocks(circuit, mainClock, shown);
      forall p: Port ensures (p in fed <==> p in next) && (p in fed ==> fed[p].Shown() == next[p]) {
        FedClocksAt(with_, |circuit.kinds|, p);
      }
    }

    method StepMainClock()
      requires InRange() && HasClock()
      modifies Current().clocks[Out(mainClock)]
      ensures Current().clocks[Out(mainClock)].Shown() == old(Current().clocks[Out(mainClock)].Shown()).Flip()
    {
      var clkVal := circStates[stateIndex].clocks[Out(mainClock)];
      clkVal.Flip();
    }

    /**
     Goes to the next recorded state, or computes one. If that fails because some input is
     not set, the clock is stepped nevertheless, and it is that of the state before: exactly
     then the half cycle changes a recorded state.
    */
    method RunHalfCycle()
      requires Valid()
      modifies this`circStates, this`stateIndex, this`allocatedValues, this`history
      modifies if AtLastState() && !InputsSet() then {Current().clocks[Out(mainClock)]} else {}
      ensures Wired() && InRange() && old(stateIndex) + 1 == stateIndex && |old(circStates)| <= |circStates|
      ensures Owned(circStates, allocatedValues, mainClock) && old(allocatedValues) <= allocatedValues
      ensures !old(AtLastState()) || old(InputsSet()) ==> Valid()
      ensures !old(AtLastState()) || old(InputsSet()) ==>
        Now() == Apply(circuit, order, mainClock, old(Now()), HalfCycle)
      ensures !old(AtLastState()) || old(InputsSet()) <==>
        forall i :: 0 <= i < |old(circStates)| ==> RecordOf(circStates[i]) == old(history)[i]
      ensures old(AtLastState()) && !old(InputsSet()) ==> circStates == old(circStates) + [old(Current())]
      ensures old(AtLastState()) ==>
        var clock := Current().clocks[Out(mainClock)];
        && clock.lastVal == old(Current().clocks[Out(mainClock)].val)
        && clock.val == old(Current().clocks[Out(mainClock)].lastVal)
        && clock.halfCycleCount == old(Current().clocks[Out(mainClock)].halfCycleCount) + 1
      ensures old(AtLastState()) && old(InputsSet()) ==>
        forall v: nat, k: nat :: circuit.Vertex(v) && ClockArgument(circuit.kinds[v], k) ==>
          In(v, k) in Current().clocks && Current().clocks[In(v, k)] == Current().clocks[Out(mainClock)]
    {
      if !AtLastState() {
        stateIndex := stateIndex + 1;
      } else if InputsSet() {
        RunOn();
      } else {
        StepOnly();
      }
    }

    /** A half cycle that finds an input that is not set. */
    method StepOnly()
      requires Valid() && AtLastState() && !InputsSet()
      modifies this`circStates, this`stateIndex, this`allocatedValues, Current().clocks[Out(mainClock)]
      ensures Wired() && InRange() && old(stateIndex) + 1 == stateIndex
      ensures Owned(circStates, allocatedValues, mainClock) && allocatedValues == old(allocatedValues)
      ensures circStates == old(circStates) + [old(Current())]
      ensures var clock := Current().clocks[Out(mainClock)];
        && clock.lastVal == old(Current().clocks[Out(mainClock)].val)
        && clock.val == old(Current().clocks[Out(mainClock)].lastVal)
        && clock.halfCycleCount == old(Current().clocks[Out(mainClock)].halfCycleCount) + 1
      ensures RecordOf(circStates[old(stateIndex)]) != old(history)[old(stateIndex)]
    {
      ghost var r := history[stateIndex];
      assert r.clocks[Out(mainClock)] == Current().clocks[Out(mainClock)].Shown();
      Execute();
      StepMainClock();
      assert RecordOf(circStates[old(stateIndex)]).clocks[Out(mainClock)] == r.clocks[Out(mainClock)].Flip();
    }

    method RunOn()
      requires Valid() && AtLastState() && InputsSet()
      modifies this`circStates, this`stateIndex, this`allocatedValues, this`history
      ensures Valid() && old(allocatedValues) <= allocatedValues
      ensures Now() == Apply(circuit, order, mainClock, old(Now()), HalfCycle)
      ensures var clock := Current().clocks[Out(mainClock)];
        && clock.lastVal == old(Current().clocks[Out(mainClock)].val)
        && clock.val == old(Current().clocks[Out(mainClock)].lastVal)
        && clock.halfCycleCount == old(Current().clocks[Out(mainClock)].halfCycleCount) + 1
      ensures forall v: nat, k: nat :: circuit.Vertex(v) && ClockArgument(circuit.kinds[v], k) ==>
        In(v, k) in Current().clocks && Current().clocks[In(v, k)] == Current().clocks[Out(mainClock)]
    {
      hide NextRecord;
      ghost var states, s, r, owned := circStates, Current(), history[stateIndex], allocatedValues;
      ghost var copy := ExecuteAndStep();
      OneMoreState(states, owned, mainClock, Current(), copy);
      assert circStates == states + [Current()];
      history := history + [NextRecord(circuit, order, mainClock, r)];
    }

    /** The next state, after which the main clock flips. */
    method ExecuteAndStep() returns (ghost copy: ClockValue)
      requires Valid() && AtLastState() && InputsSet()
      modifies this`circStates, this`stateIndex, this`allocatedValues
      ensures stateIndex == old(stateIndex) + 1 && |circStates| == |old(circStates)| + 1
      ensures circStates[..stateIndex] == old(circStates)
      ensures fresh(copy) && allocatedValues == old(allocatedValues) + {copy}
      ensures InRange() && HasClock() && Current().clocks[Out(mainClock)] == copy
      ensures Current().clocks.Values <= old(Current().clocks.Values) + {copy}
      ensures RecordOf(Current()) == NextRecord(circuit, order, mainClock, old(history[stateIndex]))
      ensures var clock := Current().clocks[Out(mainClock)];
        && clock.lastVal == old(Current().clocks[Out(mainClock)].val)
        && clock.val == old(Current().clocks[Out(mainClock)].lastVal)
        && clock.halfCycleCount == old(Current().clocks[Out(mainClock)].halfCycleCount) + 1
      ensures forall v: nat, k: nat :: circuit.Vertex(v) && ClockArgument(circuit.kinds[v], k) ==>
        In(v, k) in Current().clocks && Current().clocks[In(v, k)] == copy
    {
      ghost var s, r := Current(), history[stateIndex];
      Execute();
      copy := Current().clocks[Out(mainClock)];
      FedClocksOwned(s.clocks, copy);
      ClocksFed(s.clocks, copy);
      StepMainClock();
      NextClocksShown(s.clocks, copy, r.clocks);
    }

    /** The argument after the data of every register and memory refers to the clock. */
    lemma ClocksFed(clocks: map<Port, ClockValue>, copy: ClockValue)
      requires Wired() && Out(mainClock) in clocks
      ensures var fed := FedClocks(clocks[Out(mainClock) := copy], |circuit.kinds|);
        forall v: nat, k: nat :: circuit.Vertex(v) && ClockArgument(circuit.kinds[v], k) ==>
          In(v, k) in fed && fed[In(v, k)] == copy
    {
      forall v: nat, k: nat | circuit.Vertex(v) && ClockArgument(circuit.kinds[v], k)
        ensures var fed := FedClocks(clocks[Out(mainClock) := copy], |circuit.kinds|);
          In(v, k) in fed && fed[In(v, k)] == copy
      {
        FedClocksAt(clocks[Out(mainClock) := copy], |circuit.kinds|, In(v, k));
      }
    }

    lemma FedClocksOwned(clocks: map<Port, ClockValue>, copy: ClockValue)
      requires Wired() && Out(mainClock) in clocks
      ensures FedClocks(clocks[Out(mainClock) := copy], |circuit.kinds|).Values <= clocks.Values + {copy}
    {
      var with_ := clocks[Out(mainClock) := copy];
      var fed := FedClocks(with_, |circuit.kinds|);
      forall p | p in fed ensures fed[p] in clocks.Values + {copy} {
        FedClocksAt(with_, |circuit.kinds|, p);
      }
    }

    /**
     Goes back by half cycles; not possible beyond the first state. A negative number goes
     forward, and nothing keeps it from going beyond the last state.
    */
    method Rewind(halfCycles: int) returns (ok: bool)
      requires Valid()
      modifies this`stateIndex
      ensures ok == (halfCycles <= old(stateIndex))
      ensures stateIndex == if ok then old(stateIndex) - halfCycles else old(stateIndex)
      ensures InRange() <==> old(stateIndex) - halfCycles < |circStates|
      ensures InRange() ==> Valid()
      ensures halfCycles >= 0 ==>
        InRange() && Now() == Apply(circuit, order, mainClock, old(Now()), Command.Rewind(halfCycles))
    {
      var newStateIndex := stateIndex - halfCycles;
      if newStateIndex >= 0 {
        stateIndex := newStateIndex;
        return true;
      }
      return false;
    }

    /** Sets a port in the current state, which becomes the last one. */
    method SetValue(p: Port, bits: BitVec)
      requires Valid()
      modifies this`circStates, this`stateIndex, this`history
      ensures Valid()
      ensures Now() == Apply(circuit, order, mainClock, old(Now()), Set(p, bits))
      ensures stateIndex == old(stateIndex) && circStates[..stateIndex] == old(circStates[..stateIndex])
      ensures |circStates| == stateIndex + 1 && Current().clocks == old(Current().clocks)
      ensures var d := old(Current().data);
        Current().data == Data(d.vals[p := bits], d.registers, d.memories)
    {
      hide NextRecord;
      if !AtLastState() {
        circStates := circStates[..stateIndex + 1];
        stateIndex := |circStates| - 1;
      }
      SetPort(p, bits);
      history := history[..stateIndex] + [WithPort(history[stateIndex], p, bits)];
    }

    /** Gives the current state a main clock object of its own, in place. */
    method SetMainClockValue(clkLast: int, clk: int)
      requires Valid()
      modifies this`circStates, this`allocatedValues, this`history
      ensures Valid()
      ensures Now() == Apply(circuit, order, mainClock, old(Now()), SetClock(clkLast, clk))
      ensures stateIndex == old(stateIndex) && |circStates| == |old(circStates)|
      ensures forall i :: 0 <= i < |circStates| && i != stateIndex ==> circStates[i] == old(circStates)[i]
      ensures var clock := Current().clocks[Out(mainClock)];
        && fresh(clock) && clock.lastVal == clkLast && clock.val == clk && clock.halfCycleCount == 0
        && Current() == CircuitState(old(Current().data), old(Current().clocks)[Out(mainClock) := clock])
    {
      hide NextRecord, WithPort;
      var clkVal := new ClockValue(clkLast, clk, 0);
      allocatedValues := allocatedValues + {clkVal};
      var s := circStates[stateIndex];
      circStates := circStates[stateIndex := s.(clocks := s.clocks[Out(mainClock) := clkVal])];
      ghost var r := history[stateIndex];
      history := history[stateIndex := r.(clocks := r.clocks[Out(mainClock) := Tick(clkLast, clk, 0)])];
    }

    method Do(command: Command)
      requires Valid() && Possible(circuit, Now(), command)
      modifies this`circStates, this`stateIndex, this`allocatedValues, this`history
      ensures Valid()
      ensures Now() == Apply(circuit, order, mainClock, old(Now()), command)
    {
      match command {
        case HalfCycle =>
          RunHalfCycle();
        case Rewind(k) =>
          var ok := Rewind(k);
        case Set(p, bits) =>
          SetValue(p, bits);
        case SetClock(lastVal, val) =>
          SetMainClockValue(lastVal, val);
      }
    }

    /** Any run of commands in which no state is computed while some input is not set. */
    method Run(commands: seq<Command>)
      requires Valid() && Clocking(mainClock, Now()) && Runnable(circuit, order, mainClock, Now(), commands)
      modifies this`circStates, this`stateIndex, this`allocatedValues, this`history
      ensures Valid()
      ensures Now() == Play(circuit, order, mainClock, old(Now()), commands)
    {
      var i := 0;
      assert commands[..0] == [];
      while i < |commands|
        invariant 0 <= i <= |commands| && Valid()
        invariant Now() == Play(circuit, order, mainClock, old(Now()), commands[..i])
      {
        PlayOneMore(circuit, order, mainClock, old(Now()), commands[..i], commands[i]);
        assert commands[..i] + [commands[i]] == commands[..i + 1];
        Do(commands[i]);
        i := i + 1;
      }
      assert commands[..i] == commands;
    }
  }

  predicate SetIn(c: Circuit, d: Data) {
    forall v :: 0 <= v < |c.kinds| && c.kinds[v].Input? ==> Out(v) in d.vals
  }

  lemma StepSetsInputs(c: Circuit, d: Data, order: seq<nat>, rising: bool)
    requires c.WellFormed() && Vertices(c, order) && SetIn(c, d)
    ensures SetIn(c, Step(c, d, order, rising))
  {
    var x := Combinational(c, d, order);
    var y := Sequential(c, x, Upwards(|c.kinds|), rising);
    forall v | 0 <= v < |c.kinds| && c.kinds[v].Input? ensures Out(v) in Combinational(c, y, order).vals {
      StaysSet(c, d, order, Out(v));
      SequentialPort(c, x, Upwards(|c.kinds|), rising, Out(v));
      StaysSet(c, y, order, Out(v));
    }
  }

  lemma StaysSet(c: Circuit, d: Data, order: seq<nat>, p: Port)
    requires c.WellFormed() && Vertices(c, order) && p in d.vals
    ensures p in Combinational(c, d, order).vals
  {
    var once := Settle(c, d, order);
    UpdateOutputsWrite(c, d, |c.kinds|, p);
    UpdateNodesWrite(c, UpdateOutputs(c, d, |c.kinds|), order, p);
    UpdateOutputsWrite(c, once, |c.kinds|, p);
    UpdateNodesWrite(c, UpdateOutputs(c, once, |c.kinds|), order, p);
  }

  predicate AllSet(c: Circuit, t: Timeline) {
    forall i :: 0 <= i < |t.records| ==> SetIn(c, t.records[i].data)
  }

  lemma ApplyKeepsSet(c: Circuit, order: seq<nat>, main: nat, t: Timeline, command: Command)
    requires c.WellFormed() && Vertices(c, order) && t.InRange() && Clocking(main, t) && AllSet(c, t)
    ensures AllSet(c, Apply(c, order, main, t, command))
  {
    if command.HalfCycle? {
      var r := t.records[t.index];
      StepSetsInputs(c, r.data, order, r.clocks[Out(main)].Rising());
    }
  }

  /** Once all inputs are set in all records, every run is possible. */
  lemma {:induction false} SetOnceRunnable(c: Circuit, order: seq<nat>, main: nat, t: Timeline, commands: seq<Command>)
    requires c.WellFormed() && Vertices(c, order) && t.InRange() && Clocking(main, t) && AllSet(c, t)
    ensures Runnable(c, order, main, t, commands) && AllSet(c, Play(c, order, main, t, commands))
    decreases |commands|
  {
    if commands != [] {
      var n := |commands| - 1;
      var front, last := commands[..n], commands[n];
      SetOnceRunnable(c, order, main, t, front);
      var r := Play(c, order, main, t, front);
      PlayOneMore(c, order, main, t, front, last);
      assert front + [last] == commands;
      ApplyKeepsSet(c, order, main, r, last);
      forall k | 0 <= k < |commands| ensures Possible(c, Play(c, order, main, t, commands[..k]), commands[k]) {
        if k < n {
          assert commands[..k] == front[..k] && commands[k] == front[k];
        }
      }
    }
  }

  lemma {:induction false} PlayOneMore(c: Circuit, order: seq<nat>, main: nat, t: Timeline, commands: seq<Command>,
      command: Command)
    requires c.WellFormed() && Vertices(c, order) && t.InRange() && Clocking(main, t)
    ensures Play(c, order, main, t, commands + [command]) ==
      Apply(c, order, main, Play(c, order, main, t, commands), command)
    decreases |commands|
  {
    if commands == [] {
      assert ([] + [command])[1..] == [];
    } else {
      ApplyKeeps(c, order, main, t, commands[0]);
      assert (commands + [command])[1..] == commands[1..] + [command];
      PlayOneMore(c, order, main, Apply(c, order, main, t, commands[0]), commands[1..], command);
    }
  }
}
