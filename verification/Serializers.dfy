/**
 The counter and the serializer as clocked circuits, and their runs over any sequence of
 inputs. The serializer's output goes through the generated multiplexer.
*/
module Serializers {
  import opened Arithmetic
  import opened BitVectors
  import opened MuxTrees

  // ----- numbers as bits -----

  function ToBits(n: nat, w: nat): (v: BitVec)
    ensures |v| == w
    decreases w
  {
    if w == 0 then [] else ToBits(n, w - 1) + [if (n / Pow2(w - 1)) % 2 == 1 then One else Zero]
  }

  lemma {:induction false} ToBitsValue(n: nat, w: nat)
    ensures Binary(ToBits(n, w)) && Val(ToBits(n, w)) == n % Pow2(w)
    decreases w
  {
    if w > 0 {
      ToBitsValue(n, w - 1);
      var v, rest := ToBits(n, w), ToBits(n, w - 1);
      LowCongruence(v, rest, w - 1);
      NextBit(n, Pow2(w - 1));
    }
  }

  // ----- the counter -----

  /** The two inputs of a counter in one cycle. */
  datatype Pulse = Pulse(en: bool, reset: bool)

  datatype Counter = Counter(width: nat, min: nat, max: nat, inc: nat) {
    /** What the generator asserts, and that the constants fit into the width. */
    predicate Accepted() {
      width > 0 && min <= max < Pow2(width) && inc < Pow2(width)
    }

    /** The value of a register with clear and enable: cleared to zero, else loaded if enabled. */
    static function Register(value: nat, in_: nat, en: bool, clr: bool): nat {
      if clr then 0 else if en then in_ else value
    }

    function Sum(count: nat): nat {
      (count + inc) % Pow2(width)
    }

    function Overflow(count: nat, en: bool): bool {
      max < Sum(count) && en
    }

    function Next(count: nat, en: bool, reset: bool): nat {
      Register(count, Sum(count), en, Overflow(count, en) || reset)
    }

    /** The register at the start of cycle `t`. */
    function CountAt(pulses: seq<Pulse>, t: nat): nat
      requires t <= |pulses|
    {
      if t == 0 then min else Next(CountAt(pulses, t - 1), pulses[t - 1].en, pulses[t - 1].reset)
    }

    /** What the counter shows in cycle `t`; with one value to count, it is a constant. */
    function Shown(pulses: seq<Pulse>, t: nat): nat
      requires t <= |pulses|
    {
      if max == min then max else CountAt(pulses, t)
    }

    predicate InRange(pulses: seq<Pulse>, t: nat)
      requires t <= |pulses|
    {
      min <= Shown(pulses, t) <= max
    }

    /** An enabled cycle adds the increment, or restarts with an overflow past the maximum. */
    predicate StepsAt(pulses: seq<Pulse>, t: nat)
      requires t < |pulses|
    {
      var count := CountAt(pulses, t);
      pulses[t].en ==>
        && (Overflow(count, true) <==> count + inc > max)
        && (!pulses[t].reset && count + inc <= max ==> CountAt(pulses, t + 1) == count + inc)
        && (count + inc > max ==> CountAt(pulses, t + 1) == 0)
    }

    /** The last number up to the maximum that is reached by adding the increment to `s`. */
    function LastFrom(s: nat): nat
      requires s <= max
    {
      if inc == 0 then s else s + inc * ((max - s) / inc)
    }
  }

  lemma {:induction false} CountAtMost(c: Counter, pulses: seq<Pulse>, t: nat)
    requires c.Accepted() && t <= |pulses|
    ensures c.CountAt(pulses, t) <= c.max
    decreases t
  {
    if t > 0 {
      CountAtMost(c, pulses, t - 1);
    }
  }

  /** In all runs the counter stays between its bounds exactly if it has one value or starts at zero. */
  lemma StaysInRange(c: Counter)
    requires c.Accepted()
    ensures (forall pulses, t :: 0 <= t <= |pulses| ==> c.InRange(pulses, t)) <==> c.min == 0 || c.min == c.max
  {
    if c.min == 0 || c.min == c.max {
      forall pulses, t | 0 <= t <= |pulses| ensures c.InRange(pulses, t) {
        CountAtMost(c, pulses, t);
      }
    } else {
      var pulses := [Pulse(false, true)];
      assert c.CountAt(pulses, 1) == c.Next(c.CountAt(pulses, 0), false, true) == 0;
      assert !c.InRange(pulses, 1);
    }
  }

  /** A sum of start and increments, up to the maximum. */
  ghost predicate Counts(c: Counter, s: nat, k: nat, count: nat) {
    (s == 0 || s == c.min) && count == s + c.inc * k <= c.max
  }

  lemma LastFromBounds(c: Counter, s: nat, k: nat)
    requires s <= c.max && s + c.inc * k <= c.max
    ensures s + c.inc * k <= c.LastFrom(s) <= c.max
    ensures c.inc > 0 ==> c.LastFrom(s) + c.inc > c.max
  {
    if c.inc > 0 {
      var n := (c.max - s) / c.inc;
      assert c.inc * n <= c.max - s < c.inc * n + c.inc;
      OneMore(c.inc, n);
      if k > n {
        MulMonotone(n + 1, k, c.inc);
        assert false;
      }
      MulMonotone(k, n, c.inc);
    }
  }

  /** Neither from the minimum nor from zero does counting leave the width before the overflow. */
  predicate NeverWraps(c: Counter)
    requires c.min <= c.max
  {
    c.LastFrom(c.min) + c.inc < Pow2(c.width) && c.LastFrom(0) + c.inc < Pow2(c.width)
  }

  lemma OneMore(inc: nat, k: nat)
    ensures inc * (k + 1) == inc * k + inc
  {
  }

  lemma SumUpTo(c: Counter, count: nat)
    requires c.Accepted() && count + c.inc <= c.max
    ensures c.Next(count, true, false) == count + c.inc
  {
    DivModUnique(count + c.inc, count + c.inc, 0, Pow2(c.width));
  }

  lemma SumExact(c: Counter, s: nat, k: nat, count: nat)
    requires c.Accepted() && NeverWraps(c) && Counts(c, s, k, count)
    ensures c.Sum(count) == count + c.inc
    ensures count + c.inc <= c.max ==> Counts(c, s, k + 1, count + c.inc)
  {
    LastFromBounds(c, s, k);
    DivModUnique(count + c.inc, count + c.inc, 0, Pow2(c.width));
    OneMore(c.inc, k);
  }

  lemma {:induction false} RunCounts(c: Counter, pulses: seq<Pulse>, t: nat) returns (s: nat, k: nat)
    requires c.Accepted() && NeverWraps(c) && t <= |pulses|
    ensures Counts(c, s, k, c.CountAt(pulses, t))
    decreases t
  {
    s, k := c.min, 0;
    if t > 0 {
      s, k := RunCounts(c, pulses, t - 1);
      var count := c.CountAt(pulses, t - 1);
      SumExact(c, s, k, count);
      if pulses[t - 1].reset || c.Overflow(count, pulses[t - 1].en) {
        s, k := 0, 0;
      } else if pulses[t - 1].en {
        k := k + 1;
      }
    }
  }

  /** The run that resets if `s` is zero and then counts `k` times. */
  function Upward(c: Counter, s: nat, k: nat): (pulses: seq<Pulse>)
    ensures |pulses| == k + 1
  {
    if k == 0 then [Pulse(false, s == 0)] else Upward(c, s, k - 1) + [Pulse(true, false)]
  }

  lemma {:induction false} CountDepends(c: Counter, pulses: seq<Pulse>, more: seq<Pulse>, t: nat)
    requires t <= |pulses|
    ensures c.CountAt(pulses + more, t) == c.CountAt(pulses, t)
    decreases t
  {
    if t > 0 {
      CountDepends(c, pulses, more, t - 1);
    }
  }

  lemma {:induction false} UpwardCounts(c: Counter, s: nat, k: nat)
    requires c.Accepted() && (s == 0 || s == c.min) && s + c.inc * k <= c.max
    ensures c.CountAt(Upward(c, s, k), k + 1) == s + c.inc * k
    decreases k
  {
    var pulses := Upward(c, s, k);
    if k == 0 {
      assert c.CountAt(pulses, 1) == c.Next(c.CountAt(pulses, 0), false, s == 0);
    } else {
      var before := Upward(c, s, k - 1);
      OneMore(c.inc, k - 1);
      UpwardCounts(c, s, k - 1);
      CountDepends(c, before, [Pulse(true, false)], k);
      SumUpTo(c, s + c.inc * (k - 1));
    }
  }

  /** A run whose last cycle goes past the width without an overflow. */
  lemma WrapsUnnoticed(c: Counter, s: nat) returns (pulses: seq<Pulse>, t: nat)
    requires c.Accepted() && (s == 0 || s == c.min) && c.LastFrom(s) + c.inc >= Pow2(c.width)
    ensures t < |pulses| && !c.StepsAt(pulses, t)
  {
    var k := (c.max - s) / c.inc;
    LastFromBounds(c, s, 0);
    UpwardCounts(c, s, k);
    pulses, t := Upward(c, s, k) + [Pulse(true, false)], k + 1;
    CountDepends(c, Upward(c, s, k), [Pulse(true, false)], t);
    var sum := c.LastFrom(s) + c.inc;
    DivModUnique(sum, sum - Pow2(c.width), 1, Pow2(c.width));
    assert !c.Overflow(c.LastFrom(s), true);
  }

  /** In all runs every enabled cycle adds the increment or overflows, exactly if counting never wraps. */
  lemma StepsExactly(c: Counter)
    requires c.Accepted() && c.min < c.max
    ensures (forall pulses, t :: 0 <= t < |pulses| ==> c.StepsAt(pulses, t)) <==> NeverWraps(c)
  {
    if NeverWraps(c) {
      forall pulses, t | 0 <= t < |pulses| ensures c.StepsAt(pulses, t) {
        var s, k := RunCounts(c, pulses, t);
        SumExact(c, s, k, c.CountAt(pulses, t));
      }
    } else {
      var s := if c.LastFrom(0) + c.inc >= Pow2(c.width) then 0 else c.min;
      var pulses, t := WrapsUnnoticed(c, s);
    }
  }

  /** A counter from 2 to 7 in steps of 3 with three bits goes from 5 to 0 without an overflow. */
  lemma WrappingCounter()
    ensures var c, pulses := Counter(3, 2, 7, 3), [Pulse(true, false), Pulse(true, false)];
      && c.Accepted() && !NeverWraps(c)
      && c.CountAt(pulses, 1) == 5 && !c.Overflow(5, true) && c.CountAt(pulses, 2) == 0
  {
    var c, pulses := Counter(3, 2, 7, 3), [Pulse(true, false), Pulse(true, false)];
    assert Pow2(1) == 2 && Pow2(3) == 8;
    assert c.CountAt(pulses, 0) == 2;
    assert c.LastFrom(2) == 5;
  }

  // ----- the serializer -----

  datatype Cycle<T> = Cycle(en: bool, reset: bool, inputs: seq<T>)

  /** Registers hold all inputs but the first; `regs[0]` is not used. */
  datatype State<T> = State(count: nat, regs: seq<T>)

  datatype Serializer = Serializer(width: nat, rate: nat) {
    /** What the generator asserts about its arguments. */
    predicate Accepted() {
      rate > 1 && width > NumBits(rate - 1)
    }

    function Count(): Counter {
      Counter(width, 0, if rate > 0 then rate - 1 else 0, 1)
    }

    predicate Fits<T>(s: State<T>, c: Cycle<T>) {
      |s.regs| == rate && |c.inputs| == rate
    }

    function Ready<T>(s: State<T>): bool {
      s.count == 0
    }

    /** The first input goes straight to the multiplexer, the others through their registers. */
    function MuxData<T>(s: State<T>, c: Cycle<T>): (data: seq<T>)
      requires Fits(s, c) && rate > 0
      ensures |data| == rate
    {
      [c.inputs[0]] + s.regs[1..]
    }

    function Select<T>(s: State<T>): BitVec
      requires Accepted()
    {
      ToBits(s.count, width)[..NumBits(rate - 1)]
    }

    function Output<T>(s: State<T>, c: Cycle<T>): T
      requires Accepted() && Fits(s, c)
    {
      MuxFits(rate);
      EvalMux(MuxOf(rate), MuxData(s, c), Select(s))
    }

    function Next<T>(s: State<T>, c: Cycle<T>): State<T>
      requires Fits(s, c)
    {
      State(Count().Next(s.count, c.en, c.reset), if Ready(s) then c.inputs else s.regs)
    }

    /** The state at the start of cycle `t`, from the counter's minimum and any register contents. */
    function At<T>(regs: seq<T>, cycles: seq<Cycle<T>>, t: nat): (s: State<T>)
      requires |regs| == rate && t <= |cycles| && forall i :: 0 <= i < |cycles| ==> |cycles[i].inputs| == rate
      ensures |s.regs| == rate
    {
      if t == 0 then State(Count().min, regs) else Next(At(regs, cycles, t - 1), cycles[t - 1])
    }
  }

  predicate Feeds<T>(z: Serializer, regs: seq<T>, cycles: seq<Cycle<T>>) {
    z.Accepted() && |regs| == z.rate && forall i :: 0 <= i < |cycles| ==> |cycles[i].inputs| == z.rate
  }

  /** The width leaves room to count past the last input. */
  lemma NoWrap(z: Serializer, count: nat)
    requires z.Accepted() && count < z.rate
    ensures z.Count().Sum(count) == count + 1
    ensures z.rate - 1 < Pow2(NumBits(z.rate - 1)) && NumBits(z.rate - 1) < z.width
  {
    ShiftsRange(z.rate - 1);
    Pow2Monotone(NumBits(z.rate - 1), z.width);
    DivModUnique(count + 1, count + 1, 0, Pow2(z.width));
  }

  /** One cycle of the count: back to zero on reset, up by one around the inputs if enabled. */
  lemma CountNext(z: Serializer, count: nat, en: bool, reset: bool)
    requires z.Accepted() && count < z.rate
    ensures z.Count().Next(count, en, reset) == if reset then 0
      else if en then (if count + 1 == z.rate then 0 else count + 1) else count
  {
    NoWrap(z, count);
  }

  lemma {:induction false} CountInRange<T>(z: Serializer, regs: seq<T>, cycles: seq<Cycle<T>>, t: nat)
    requires Feeds(z, regs, cycles) && t <= |cycles|
    ensures z.At(regs, cycles, t).count < z.rate
    decreases t
  {
    if t > 0 {
      CountInRange(z, regs, cycles, t - 1);
      CountNext(z, z.At(regs, cycles, t - 1).count, cycles[t - 1].en, cycles[t - 1].reset);
    }
  }

  lemma Step<T>(z: Serializer, regs: seq<T>, cycles: seq<Cycle<T>>, t: nat)
    requires Feeds(z, regs, cycles) && t < |cycles|
    ensures var count, next := z.At(regs, cycles, t).count, z.At(regs, cycles, t + 1).count;
      && count < z.rate
      && (cycles[t].reset ==> next == 0)
      && (!cycles[t].reset && cycles[t].en ==> next == if count + 1 == z.rate then 0 else count + 1)
      && (!cycles[t].reset && !cycles[t].en ==> next == count)
  {
    CountInRange(z, regs, cycles, t);
    CountNext(z, z.At(regs, cycles, t).count, cycles[t].en, cycles[t].reset);
  }

  /** The last cycle up to `t` in which the count was zero. */
  function LastZero<T>(z: Serializer, regs: seq<T>, cycles: seq<Cycle<T>>, t: nat): (s: nat)
    requires Feeds(z, regs, cycles) && t <= |cycles|
    ensures s <= t && z.At(regs, cycles, s).count == 0
    ensures forall r :: s < r <= t ==> z.At(regs, cycles, r).count != 0
  {
    if z.At(regs, cycles, t).count == 0 then t else LastZero(z, regs, cycles, t - 1)
  }

  /** While the count is not zero, the registers hold the inputs of the last cycle in which it was. */
  lemma {:induction false} RegistersHold<T>(z: Serializer, regs: seq<T>, cycles: seq<Cycle<T>>, t: nat)
    requires Feeds(z, regs, cycles) && t <= |cycles| && z.At(regs, cycles, t).count != 0
    ensures z.At(regs, cycles, t).regs == cycles[LastZero(z, regs, cycles, t)].inputs
    decreases t
  {
    var before := z.At(regs, cycles, t - 1);
    if before.count != 0 {
      RegistersHold(z, regs, cycles, t - 1);
    }
  }

  lemma SelectsCount<T>(z: Serializer, s: State<T>)
    requires z.Accepted() && s.count < z.rate
    ensures Binary(z.Select(s)) && |z.Select(s)| == NumBits(z.rate - 1) && Val(z.Select(s)) == s.count
  {
    NoWrap(z, s.count);
    var v, hi := ToBits(s.count, z.width), NumBits(z.rate - 1);
    ToBitsValue(s.count, z.width);
    Pow2Monotone(hi, z.width);
    DivModUnique(s.count, s.count, 0, Pow2(z.width));
    BinaryPrefix(v, hi);
    PrefixValue(v, hi);
  }

  /** In every cycle the output is the input named by the count, as it was when the count was last zero. */
  lemma Serializes<T>(z: Serializer, regs: seq<T>, cycles: seq<Cycle<T>>, t: nat)
    requires Feeds(z, regs, cycles) && t < |cycles|
    ensures var s := z.At(regs, cycles, t);
      s.count < z.rate && z.Output(s, cycles[t]) == cycles[LastZero(z, regs, cycles, t)].inputs[s.count]
  {
    var s := z.At(regs, cycles, t);
    CountInRange(z, regs, cycles, t);
    SelectsCount(z, s);
    MuxSelects(z.rate, z.MuxData(s, cycles[t]), z.Select(s));
    if s.count != 0 {
      RegistersHold(z, regs, cycles, t);
    }
  }
}
