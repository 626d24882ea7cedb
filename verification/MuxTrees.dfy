/**
 The recursive multiplexer and reduction generators: the tree of halves they build for
 any number of inputs, and what the built circuit computes.
*/
module MuxTrees {
  import opened Arithmetic
  import opened BitVectors

  // ----- how many bits an index needs -----

  function Shifts(n: nat): nat {
    if n == 0 then 0 else 1 + Shifts(n / 2)
  }

  /** The number of bits of `n`; one bit for 0. */
  function NumBits(n: nat): nat {
    if n == 0 then 1 else Shifts(n)
  }

  method ComputeNumBits(n: nat) returns (numShifts: nat)
    ensures numShifts == NumBits(n)
  {
    if n == 0 {
      return 1;
    }
    numShifts := 0;
    var tempValue := n;
    while tempValue > 0
      invariant numShifts + Shifts(tempValue) == Shifts(n)
    {
      tempValue := tempValue / 2;
      numShifts := numShifts + 1;
    }
  }

  lemma {:induction false} ShiftsRange(n: nat)
    requires n > 0
    ensures Shifts(n) > 0 && Pow2(Shifts(n) - 1) <= n < Pow2(Shifts(n))
  {
    if n > 1 {
      ShiftsRange(n / 2);
      assert Pow2(Shifts(n)) == 2 * Pow2(Shifts(n / 2));
      assert Pow2(Shifts(n) - 1) == 2 * Pow2(Shifts(n / 2) - 1);
    } else {
      assert Shifts(1) == 1 && Pow2(1) == 2 * Pow2(0) && Pow2(0) == 1;
    }
  }

  /** The bits needed for a smaller number are not more. */
  lemma NumBitsBelow(n: nat, k: nat)
    requires k > 0 && n < Pow2(k)
    ensures NumBits(n) <= k && n < Pow2(NumBits(n)) && NumBits(n) > 0
  {
    if n > 0 {
      ShiftsRange(n);
      if Shifts(n) > k {
        Pow2Monotone(k, Shifts(n) - 1);
      }
    }
  }

  lemma NumBitsFull(k: nat)
    requires k > 0
    ensures NumBits(Pow2(k) - 1) == k
  {
    NumBitsBelow(Pow2(k) - 1, k);
    Pow2Monotone(1, k);
    ShiftsRange(Pow2(k) - 1);
    assert Pow2(k) == 2 * Pow2(k - 1);
    if Shifts(Pow2(k) - 1) < k {
      Pow2Monotone(Shifts(Pow2(k) - 1), k - 1);
    }
  }

  /** Where `n` inputs are split: the largest power of two below `n` first, then the rest. */
  function LargeHalf(n: nat): nat
    requires n > 2
  {
    ShiftsRange(n - 1);
    Pow2(NumBits(n - 1) - 1)
  }

  /** Both halves are smaller and not empty, and the first is a power of two not smaller than the second. */
  lemma Halves(n: nat)
    requires n > 2
    ensures var k := NumBits(n - 1) - 1; k > 0 && LargeHalf(n) == Pow2(k)
    ensures 0 < n - LargeHalf(n) <= LargeHalf(n) < n
    ensures NumBits(LargeHalf(n) - 1) == NumBits(n - 1) - 1
    ensures NumBits(n - LargeHalf(n) - 1) <= NumBits(n - 1) - 1
    ensures n - LargeHalf(n) - 1 < Pow2(NumBits(n - LargeHalf(n) - 1))
  {
    ShiftsRange(n - 1);
    var k := NumBits(n - 1) - 1;
    assert Pow2(k + 1) == 2 * Pow2(k);
    assert Pow2(1) == 2 * Pow2(0) && Pow2(0) == 1;
    NumBitsFull(k);
    NumBitsBelow(n - LargeHalf(n) - 1, k);
  }

  // ----- multiplexers -----

  /**
   A built multiplexer: one input, two inputs, or two smaller ones whose outputs a
   two-way multiplexer joins. `largeData[i]` is the input that feeds input `i` of the
   first half, whose select is cut from the low `largeHi` bits; `selBit` drives the join.
  */
  datatype Mux =
    | Through
    | Pair
    | Split(selBit: nat, large: Mux, largeData: seq<nat>, largeHi: nat, small: Mux, smallData: seq<nat>, smallHi: nat)

  function Range(from: nat, n: nat): (r: seq<nat>)
    ensures |r| == n && forall i :: 0 <= i < n ==> r[i] == from + i
  {
    seq(n, i => from + i)
  }

  function MuxOf(n: nat): Mux
    requires n > 0
    decreases n
  {
    if n == 1 then Through
    else if n == 2 then Pair
    else
      Halves(n);
      var large := LargeHalf(n);
      var small := n - large;
      Split(NumBits(n - 1) - 1, MuxOf(large), Range(0, large), NumBits(large - 1), MuxOf(small), Range(large, small),
        NumBits(small - 1))
  }

  method ConnectRange(from: nat, n: nat) returns (data: seq<nat>)
    ensures data == Range(from, n)
  {
    data := [];
    var i := 0;
    while i < n
      invariant 0 <= i <= n && data == Range(from, i)
    {
      data := data + [i + from];
      i := i + 1;
    }
  }

  method GenerateMux(n: nat) returns (m: Mux)
    requires n > 0
    ensures m == MuxOf(n)
    decreases n
  {
    hide NumBits, Pow2, Range;
    if n == 1 {
      m := Through;
    } else if n == 2 {
      m := Pair;
    } else {
      Halves(n);
      var nbits := ComputeNumBits(n - 1);
      var nlarge := ShiftLeft(nbits - 1);
      assert nlarge == LargeHalf(n);
      var nsmall := n - nlarge;
      var large := GenerateMux(nlarge);
      var small := GenerateMux(nsmall);
      var largeData := ConnectRange(0, nlarge);
      var smallData := ConnectRange(nlarge, nsmall);
      var largeHi := ComputeNumBits(nlarge - 1);
      var smallHi := ComputeNumBits(nsmall - 1);
      m := Split(nbits - 1, large, largeData, largeHi, small, smallData, smallHi);
    }
  }

  /** 1 shifted left. */
  method ShiftLeft(k: nat) returns (p: nat)
    ensures p == Pow2(k)
  {
    p := 1;
    var i := 0;
    while i < k
      invariant 0 <= i <= k && p == Pow2(i)
    {
      p := 2 * p;
      i := i + 1;
    }
  }

  /**
   Whether every connection of the built multiplexer, which has `n` data inputs and a
   select of `w` bits, joins ports of one width: each select slice lies within the select
   and has the width of the port it feeds. Every data input is used exactly once.
  */
  predicate Fitting(m: Mux, n: nat, w: nat)
    decreases m
  {
    match m
    case Through => n == 1 && w == 1
    case Pair => n == 2 && w == 1
    case Split(bit, large, largeData, largeHi, small, smallData, smallHi) =>
      && largeData + smallData == Range(0, n)
      && bit < w && largeHi <= w && smallHi <= w
      && Fitting(large, |largeData|, largeHi) && Fitting(small, |smallData|, smallHi)
  }

  /** The first half takes as many inputs as the select has values without its top bit, the second half the rest. */
  predicate Halved(m: Mux, n: nat, w: nat)
    decreases m
  {
    m.Split? ==>
      && w > 1 && m.selBit == w - 1 && m.largeHi == w - 1 && m.smallHi <= w - 1
      && m.largeData == Range(0, Pow2(w - 1)) && Pow2(w - 1) < n && m.smallData == Range(Pow2(w - 1), n - Pow2(w - 1))
      && n - Pow2(w - 1) <= Pow2(m.smallHi)
      && Halved(m.large, Pow2(w - 1), m.largeHi) && Halved(m.small, n - Pow2(w - 1), m.smallHi)
  }

  lemma SplitFits(k: nat, n: nat, hi: nat, large: Mux, small: Mux)
    requires k > 0 && hi <= k && Pow2(k) < n && n - Pow2(k) <= Pow2(hi)
    requires Fitting(large, Pow2(k), k) && Halved(large, Pow2(k), k)
    requires Fitting(small, n - Pow2(k), hi) && Halved(small, n - Pow2(k), hi)
    ensures var m := Split(k, large, Range(0, Pow2(k)), k, small, Range(Pow2(k), n - Pow2(k)), hi);
      Fitting(m, n, k + 1) && Halved(m, n, k + 1)
  {
    assert Range(0, Pow2(k)) + Range(Pow2(k), n - Pow2(k)) == Range(0, n);
  }

  lemma {:induction false} MuxFits(n: nat)
    requires n > 0
    ensures Fitting(MuxOf(n), n, NumBits(n - 1)) && Halved(MuxOf(n), n, NumBits(n - 1))
    decreases n
  {
    if n > 2 {
      Halves(n);
      var k, large := NumBits(n - 1) - 1, LargeHalf(n);
      MuxFits(large);
      MuxFits(n - large);
      SplitFits(k, n, NumBits(n - large - 1), MuxOf(large), MuxOf(n - large));
    } else {
      ShiftsRange(1);
    }
  }

  function Select<T>(data: seq<T>, at: seq<nat>): (r: seq<T>)
    requires forall i :: 0 <= i < |at| ==> at[i] < |data|
    ensures |r| == |at|
  {
    seq(|at|, i requires 0 <= i < |at| => data[at[i]])
  }

  /** The primitive two-way multiplexer. */
  function Mux2<T>(sel: Quad, in0: T, in1: T): T {
    if sel == Zero then in0 else in1
  }

  lemma FittingIndices(m: Mux, n: nat, w: nat)
    requires Fitting(m, n, w) && m.Split?
    ensures forall i :: 0 <= i < |m.largeData| ==> m.largeData[i] < n
    ensures forall i :: 0 <= i < |m.smallData| ==> m.smallData[i] < n
  {
    var all := m.largeData + m.smallData;
    forall i | 0 <= i < |m.largeData| ensures m.largeData[i] < n {
      assert all[i] == m.largeData[i];
    }
    forall i | 0 <= i < |m.smallData| ensures m.smallData[i] < n {
      assert all[|m.largeData| + i] == m.smallData[i];
    }
  }

  /** What a built multiplexer outputs. */
  function EvalMux<T>(m: Mux, data: seq<T>, sel: BitVec): T
    requires Fitting(m, |data|, |sel|)
    decreases m
  {
    match m
    case Through => data[0]
    case Pair => Mux2(sel[0], data[0], data[1])
    case Split(bit, large, largeData, largeHi, small, smallData, smallHi) =>
      FittingIndices(m, |data|, |sel|);
      Mux2(sel[bit], EvalMux(large, Select(data, largeData), sel[..largeHi]),
        EvalMux(small, Select(data, smallData), sel[..smallHi]))
  }

  lemma BinaryPrefix(v: BitVec, n: nat)
    requires Binary(v) && n <= |v|
    ensures Binary(v[..n]) && Val(v[..n]) == Low(v, n)
  {
    LowTruncated(v, n);
  }

  /** Bits above those a number needs are zero. */
  lemma PrefixValue(v: BitVec, n: nat)
    requires n <= |v| && Val(v) < Pow2(n)
    ensures Low(v, n) == Val(v)
  {
    LowTruncated(v, n);
    DivModUnique(Val(v), Val(v), 0, Pow2(n));
  }

  lemma TopBit(sel: BitVec, k: nat)
    requires Binary(sel) && |sel| == k + 1
    ensures Val(sel) == Low(sel, k) + if sel[k] == Zero then 0 else Pow2(k)
    ensures Low(sel, k) < Pow2(k)
  {
    LowBound(sel, k);
  }

  /** The low bits of a select name the same input of the half its top bit names. */
  lemma LowSelect(sel: BitVec, k: nat, hi: nat, n: nat)
    requires Binary(sel) && |sel| == k + 1 && hi <= k && Val(sel) < n && n - Pow2(k) <= Pow2(hi)
    ensures Binary(sel[..k]) && Binary(sel[..hi])
    ensures sel[k] == Zero ==> Val(sel[..k]) == Val(sel) < Pow2(k)
    ensures sel[k] != Zero ==> Val(sel) == Pow2(k) + Val(sel[..hi])
  {
    TopBit(sel, k);
    BinaryPrefix(sel, k);
    BinaryPrefix(sel[..k], hi);
    assert sel[..k][..hi] == sel[..hi];
    if sel[k] != Zero {
      PrefixValue(sel[..k], hi);
    }
  }

  /** The output is that of the half the top bit names. */
  lemma HalfOutput<T>(m: Mux, data: seq<T>, sel: BitVec)
    requires m.Split? && Fitting(m, |data|, |sel|) && Halved(m, |data|, |sel|)
    ensures var k := |sel| - 1;
      EvalMux(m, data, sel) == if sel[k] == Zero then EvalMux(m.large, data[..Pow2(k)], sel[..k])
        else EvalMux(m.small, data[Pow2(k)..], sel[..m.smallHi])
  {
    FittingIndices(m, |data|, |sel|);
    HalfInputs(data, |data|, Pow2(|sel| - 1), m.largeData, m.smallData);
  }

  lemma HalfInputs<T>(data: seq<T>, n: nat, p: nat, large: seq<nat>, small: seq<nat>)
    requires |data| == n && p < n && large == Range(0, p) && small == Range(p, n - p)
    ensures forall i :: 0 <= i < |large| ==> large[i] < n
    ensures forall i :: 0 <= i < |small| ==> small[i] < n
    ensures Select(data, large) == data[..p] && Select(data, small) == data[p..]
  {
  }

  lemma {:induction false} HalvedSelects<T>(m: Mux, data: seq<T>, sel: BitVec)
    requires Fitting(m, |data|, |sel|) && Halved(m, |data|, |sel|) && Binary(sel) && Val(sel) < |data|
    ensures EvalMux(m, data, sel) == data[Val(sel)]
    decreases m
  {
    if m.Split? {
      var k := |sel| - 1;
      LowSelect(sel, k, m.smallHi, |data|);
      HalfOutput(m, data, sel);
      if sel[k] == Zero {
        HalvedSelects(m.large, data[..Pow2(k)], sel[..k]);
      } else {
        HalvedSelects(m.small, data[Pow2(k)..], sel[..m.smallHi]);
      }
    } else if m.Pair? {
      TopBit(sel, 0);
    }
  }

  /** For every number of inputs, the multiplexer outputs the input its select names. */
  lemma MuxSelects<T>(n: nat, data: seq<T>, sel: BitVec)
    requires n > 0 && |data| == n && |sel| == NumBits(n - 1) && Binary(sel) && Val(sel) < n
    ensures Fitting(MuxOf(n), n, NumBits(n - 1)) && EvalMux(MuxOf(n), data, sel) == data[Val(sel)]
  {
    MuxFits(n);
    HalvedSelects(MuxOf(n), data, sel);
  }

  // ----- reduction trees -----

  /** A built reduction: one input, two joined, or two smaller ones joined. */
  datatype Tree =
    | Leaf
    | Both
    | Node(left: Tree, leftIn: seq<nat>, right: Tree, rightIn: seq<nat>)

  function TreeOf(n: nat): Tree
    requires n > 0
    decreases n
  {
    if n == 1 then Leaf
    else if n == 2 then Both
    else
      Halves(n);
      var large := LargeHalf(n);
      Node(TreeOf(large), Range(0, large), TreeOf(n - large), Range(large, n - large))
  }

  method GenerateTree(n: nat) returns (t: Tree)
    requires n > 0
    ensures t == TreeOf(n)
    decreases n
  {
    if n == 1 {
      t := Leaf;
    } else if n == 2 {
      t := Both;
    } else {
      Halves(n);
      var nbits := ComputeNumBits(n - 1);
      var nlarge := ShiftLeft(nbits - 1);
      assert nlarge == LargeHalf(n);
      var nsmall := n - nlarge;
      var left := GenerateTree(nlarge);
      var right := GenerateTree(nsmall);
      var leftIn := ConnectRange(0, nlarge);
      var rightIn := ConnectRange(nlarge, nsmall);
      t := Node(left, leftIn, right, rightIn);
    }
  }

  predicate TreeFitting(t: Tree, n: nat)
    decreases t
  {
    match t
    case Leaf => n == 1
    case Both => n == 2
    case Node(left, leftIn, right, rightIn) =>
      leftIn + rightIn == Range(0, n) && leftIn != [] && rightIn != [] && TreeFitting(left, |leftIn|)
        && TreeFitting(right, |rightIn|)
  }

  function EvalTree<T>(t: Tree, op: (T, T) -> T, data: seq<T>): T
    requires TreeFitting(t, |data|)
    decreases t
  {
    match t
    case Leaf => data[0]
    case Both => op(data[0], data[1])
    case Node(left, leftIn, right, rightIn) =>
      NodeIndices(t, |data|);
      op(EvalTree(left, op, Select(data, leftIn)), EvalTree(right, op, Select(data, rightIn)))
  }

  lemma NodeIndices(t: Tree, n: nat)
    requires TreeFitting(t, n) && t.Node?
    ensures forall i :: 0 <= i < |t.leftIn| ==> t.leftIn[i] < n
    ensures forall i :: 0 <= i < |t.rightIn| ==> t.rightIn[i] < n
  {
    var all := t.leftIn + t.rightIn;
    forall i | 0 <= i < |t.leftIn| ensures t.leftIn[i] < n {
      assert all[i] == t.leftIn[i];
    }
    forall i | 0 <= i < |t.rightIn| ensures t.rightIn[i] < n {
      assert all[|t.leftIn| + i] == t.rightIn[i];
    }
  }

  predicate AssociativeAt<T(==)>(op: (T, T) -> T, x: T, y: T, z: T) {
    op(op(x, y), z) == op(x, op(y, z))
  }

  ghost predicate Associative<T(!new)>(op: (T, T) -> T) {
    forall x, y, z :: AssociativeAt(op, x, y, z)
  }

  /** The operator between all inputs, in order. */
  function Fold<T>(op: (T, T) -> T, data: seq<T>): T
    requires data != []
  {
    if |data| == 1 then data[0] else op(Fold(op, data[..|data| - 1]), data[|data| - 1])
  }

  lemma {:induction false} FoldConcat<T(!new)>(op: (T, T) -> T, a: seq<T>, b: seq<T>)
    requires Associative(op) && a != [] && b != []
    ensures Fold(op, a + b) == op(Fold(op, a), Fold(op, b))
    decreases |b|
  {
    var n := |b| - 1;
    assert (a + b)[..|a + b| - 1] == a + b[..n];
    if n == 0 {
      assert a + b[..n] == a;
    } else {
      FoldConcat(op, a, b[..n]);
      assert AssociativeAt(op, Fold(op, a), Fold(op, b[..n]), b[n]);
    }
  }

  lemma FoldParts<T(!new)>(op: (T, T) -> T, data: seq<T>, k: nat)
    requires Associative(op) && 0 < k < |data|
    ensures Fold(op, data) == op(Fold(op, data[..k]), Fold(op, data[k..]))
  {
    FoldConcat(op, data[..k], data[k..]);
    assert data[..k] + data[k..] == data;
  }

  lemma TreeSplit<T(!new)>(n: nat, op: (T, T) -> T, data: seq<T>)
    requires n > 2 && |data| == n
    requires var large := LargeHalf(n);
      0 < large < n && TreeFitting(TreeOf(large), large) && TreeFitting(TreeOf(n - large), n - large)
    ensures TreeFitting(TreeOf(n), n)
    ensures var large := LargeHalf(n);
      EvalTree(TreeOf(n), op, data) ==
        op(EvalTree(TreeOf(large), op, data[..large]), EvalTree(TreeOf(n - large), op, data[large..]))
  {
    var large := LargeHalf(n);
    TreeFits(n);
    SelectRange(data, 0, large);
    SelectRange(data, large, n - large);
    assert data[0..large] == data[..large] && data[large..n] == data[large..];
  }

  lemma TreeFits(n: nat)
    requires n > 2
    requires var large := LargeHalf(n);
      0 < large < n && TreeFitting(TreeOf(large), large) && TreeFitting(TreeOf(n - large), n - large)
    ensures TreeFitting(TreeOf(n), n)
  {
    var large := LargeHalf(n);
    assert Range(0, large) + Range(large, n - large) == Range(0, n);
  }

  lemma SelectRange<T>(data: seq<T>, low: nat, n: nat)
    requires low + n <= |data|
    ensures Select(data, Range(low, n)) == data[low..low + n]
  {
  }

  /** For every number of inputs, the tree computes the in-order fold of an associative operator. */
  lemma {:induction false} TreeFolds<T(!new)>(n: nat, op: (T, T) -> T, data: seq<T>)
    requires n > 0 && |data| == n && Associative(op)
    ensures TreeFitting(TreeOf(n), n) && EvalTree(TreeOf(n), op, data) == Fold(op, data)
    decreases n
  {
    if n > 2 {
      Halves(n);
      var large := LargeHalf(n);
      TreeFolds(large, op, data[..large]);
      TreeFolds(n - large, op, data[large..]);
      TreeSplit(n, op, data);
      FoldParts(op, data, large);
    } else if n == 2 {
      assert data[..1][0] == data[0];
    }
  }
}
