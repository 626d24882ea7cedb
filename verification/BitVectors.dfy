/** Four-valued bit vectors of any width, and their arithmetic bit by bit. */
module BitVectors {
  // Every operation is written as the loop over bits that the simulator runs, and is proved to
  // be the integer operation on `Val`.

  import opened Arithmetic

  // ----- values -----

  /** `X` is the unknown value and `Z` high impedance. */
  datatype Quad = Zero | One | X | Z {
    predicate IsBinary() {
      this == Zero || this == One
    }
  }

  /** Equality of two bits: an unknown equals nothing; comparing high impedance aborts. */
  predicate QuadEq(a: Quad, b: Quad)
    requires a != Z && b != Z
  {
    a != X && b != X && a == b
  }

  /** Bit `i` has weight `Pow2(i)`. */
  type BitVec = seq<Quad>

  predicate Binary(v: BitVec) {
    forall i :: 0 <= i < |v| ==> v[i].IsBinary()
  }

  predicate NoHighZ(v: BitVec) {
    forall i :: 0 <= i < |v| ==> v[i] != Z
  }

  function Zeros(n: nat): (v: BitVec)
    ensures |v| == n && forall i :: 0 <= i < n ==> v[i] == Zero
  {
    seq(n, _ => Zero)
  }

  function Unknown(n: nat): (v: BitVec)
    ensures |v| == n && forall i :: 0 <= i < n ==> v[i] == X
  {
    seq(n, _ => X)
  }

  function Bit(q: Quad): nat {
    if q == One then 1 else 0
  }

  function Weight(q: Quad, i: nat): nat {
    if q == One then Pow2(i) else 0
  }

  /** The number in the `n` low bits; bits that are not 1 weigh nothing. */
  function Low(v: BitVec, n: nat): nat
    requires n <= |v|
  {
    if n == 0 then 0 else Low(v, n - 1) + Weight(v[n - 1], n - 1)
  }

  function Val(v: BitVec): nat {
    Low(v, |v|)
  }

  lemma {:induction false} LowBound(v: BitVec, n: nat)
    requires n <= |v|
    ensures Low(v, n) < Pow2(n)
  {
    if n > 0 {
      LowBound(v, n - 1);
    }
  }

  lemma {:induction false} LowCongruence(v: BitVec, w: BitVec, n: nat)
    requires n <= |v| && n <= |w|
    requires forall i :: 0 <= i < n ==> (v[i] == One <==> w[i] == One)
    ensures Low(v, n) == Low(w, n)
  {
    if n > 0 {
      LowCongruence(v, w, n - 1);
    }
  }

  lemma {:induction false} LowUpdate(v: BitVec, k: nat, q: Quad, n: nat)
    requires k < |v| && n <= |v|
    ensures Low(v[k := q], n) == Low(v, n) + if k < n then Weight(q, k) - Weight(v[k], k) else 0
  {
    if n > 0 {
      LowUpdate(v, k, q, n - 1);
    }
  }

  lemma {:induction false} LowPastZeros(v: BitVec, m: nat, n: nat)
    requires m <= n <= |v|
    requires forall i :: m <= i < n ==> v[i] != One
    ensures Low(v, n) == Low(v, m)
    decreases n
  {
    if m < n {
      LowPastZeros(v, m, n - 1);
    }
  }

  /** Vectors of one width that are both binary are determined by their value. */
  lemma {:induction false} LowInjective(v: BitVec, w: BitVec, n: nat)
    requires n <= |v| && n <= |w|
    requires forall i :: 0 <= i < n ==> v[i].IsBinary() && w[i].IsBinary()
    requires Low(v, n) == Low(w, n)
    ensures v[..n] == w[..n]
  {
    if n > 0 {
      LowBound(v, n - 1);
      LowBound(w, n - 1);
      LowInjective(v, w, n - 1);
      assert v[..n] == v[..n - 1] + [v[n - 1]];
      assert w[..n] == w[..n - 1] + [w[n - 1]];
    }
  }

  // ----- addition -----

  /**
   Ripple-carry addition at the width of `a`. Operands that are not fully binary over
   that width give an all-unknown sum, and only they do.
  */
  method Add(a: BitVec, b: BitVec) returns (res: BitVec)
    requires |a| <= |b|
    ensures |res| == |a|
    ensures Binary(a) && Binary(b[..|a|]) ==>
              Binary(res) && Val(res) == (Val(a) + Low(b, |a|)) % Pow2(|a|)
    ensures !(Binary(a) && Binary(b[..|a|])) ==> res == Unknown(|a|)
  {
    res := Zeros(|a|);
    var carry := 0;
    var i := 0;
    while i < |a|
      invariant 0 <= i <= |a| == |res|
      invariant 0 <= carry <= 1
      invariant Binary(res)
      invariant forall k :: 0 <= k < i ==> a[k].IsBinary() && b[k].IsBinary()
      invariant Low(res, i) + (if carry == 1 then Pow2(i) else 0) == Low(a, i) + Low(b, i)
    {
      if !a[i].IsBinary() || !b[i].IsBinary() {
        assert !b[i].IsBinary() ==> !b[..|a|][i].IsBinary();
        return Unknown(|a|);
      }
      var sum := Bit(a[i]) + Bit(b[i]) + carry;
      ghost var before := res;
      res := res[i := if sum == 1 || sum == 3 then One else Zero];
      LowCongruence(before, res, i);
      carry := if sum >= 2 then 1 else 0;
      i := i + 1;
    }
    LowBound(res, |a|);
    ModOnce(Val(a) + Low(b, |a|), Pow2(|a|));
  }

  // ----- subtraction -----

  /** Bit `k` once one has been taken from the bits from `i` on: the lowest one there is cleared, those below set. */
  ghost function Lent(a: BitVec, i: nat, k: nat): Quad
    requires i <= k < |a|
  {
    if exists j :: i <= j < k && a[j] == One then a[k]
    else if a[k] == One then Zero
    else One
  }

  /** Whether bits below `i` have taken one from those at `i` and above. */
  ghost predicate Borrowing(a: BitVec, b: BitVec, i: nat)
    requires i <= |a| <= |b|
  {
    i > 0 &&
    if Borrowing(a, b, i - 1) then a[i - 1] != One || b[i - 1] == One
    else a[i - 1] == Zero && b[i - 1] == One
  }

  /** Whether bit `i` of the difference is known: an unknown bit of the minuend is overwritten by a borrow. */
  ghost predicate Decided(a: BitVec, b: BitVec, i: nat)
    requires i < |a| <= |b|
  {
    b[i].IsBinary() && (a[i].IsBinary() || Borrowing(a, b, i))
  }

  /** What bit `k` of the copy is when the bits below `i` have been subtracted. */
  ghost function CopyBit(a: BitVec, b: BitVec, i: nat, k: nat): Quad
    requires i <= k < |a| <= |b|
  {
    if Borrowing(a, b, i) then Lent(a, i, k) else a[k]
  }

  lemma CopyFirst(a: BitVec, b: BitVec)
    requires |a| <= |b|
    ensures forall k :: 0 <= k < |a| ==> a[k] == CopyBit(a, b, 0, k)
  {
  }

  lemma DecidedByCopy(a: BitVec, b: BitVec, copy: BitVec, i: nat)
    requires i < |a| <= |b| && |copy| == |a| && copy[i] == CopyBit(a, b, i, i)
    ensures Decided(a, b, i) <==> copy[i].IsBinary() && b[i].IsBinary()
  {
  }

  lemma CopyNext(a: BitVec, b: BitVec, copy: BitVec, i: nat, next: BitVec)
    requires i < |a| <= |b| && |copy| == |next| == |a| && NoHighZ(a) && NoHighZ(b)
    requires forall k :: i <= k < |a| ==> copy[k] == CopyBit(a, b, i, k)
    requires if copy[i] == Zero && b[i] == One then forall k :: i < k < |a| ==> next[k] == Lent(copy, i + 1, k)
             else next == copy
    ensures forall k :: i < k < |a| ==> next[k] == CopyBit(a, b, i + 1, k)
  {
    assert copy[i] == CopyBit(a, b, i, i);
    forall k | i < k < |a| ensures next[k] == CopyBit(a, b, i + 1, k) {
      assert copy[k] == CopyBit(a, b, i, k);
      if copy[i] == Zero && b[i] == One {
        assert forall j :: i < j <= k ==> copy[j] == a[j];
      }
    }
  }


  /**
   The borrow of `Sub`: the run of bits above `i` that are not 1 becomes ones, up to
   the first 1, which is cleared. With no 1 above, the borrow runs off the top.
  */
  method Borrow(a: BitVec, i: nat) returns (copy: BitVec, wrapped: bool)
    requires i < |a| && NoHighZ(a)
    ensures |copy| == |a| && copy[..i + 1] == a[..i + 1]
    ensures forall k :: i < k < |a| ==> copy[k] == Lent(a, i + 1, k)
    ensures NoHighZ(copy) && (Binary(a) ==> Binary(copy))
    ensures wrapped ==> forall k :: i < k < |a| ==> a[k] != One && copy[k] == One
    ensures Val(copy) == Val(a) - Pow2(i + 1) + if wrapped then Pow2(|a|) else 0
  {
    copy := a;
    var j := i + 1;
    while j < |a| && !QuadEq(copy[j], One)
      invariant i < j <= |a| == |copy|
      invariant NoHighZ(copy) && (Binary(a) ==> Binary(copy))
      invariant forall k :: 0 <= k <= i || j <= k < |a| ==> copy[k] == a[k]
      invariant forall k :: i < k < j ==> a[k] != One && copy[k] == One
      invariant Val(copy) == Val(a) + Pow2(j) - Pow2(i + 1)
    {
      LowUpdate(copy, j, One, |a|);
      copy := copy[j := One];
      j := j + 1;
    }
    wrapped := j >= |a|;
    if !wrapped {
      LowUpdate(copy, j, Zero, |a|);
      copy := copy[j := Zero];
    }
  }

  lemma SamePrefix(v: BitVec, w: BitVec, i: nat)
    requires i < |v| && i < |w| && v[..i + 1] == w[..i + 1]
    ensures v[i] == w[i] && Low(v, i) == Low(w, i)
  {
    assert forall k :: 0 <= k <= i ==> v[k] == v[..i + 1][k] == w[..i + 1][k] == w[k];
    LowCongruence(v, w, i);
  }

  /** The bits below `i` are subtracted; `wrapped` if a borrow has run off the top. */
  ghost predicate Subtracting(a: BitVec, b: BitVec, copy: BitVec, diff: BitVec, wrapped: bool, i: nat)
    requires i <= |a| <= |b| && |copy| == |diff| == |a|
  {
    && (wrapped ==> forall k :: i <= k < |a| ==> copy[k] == One)
    && Low(diff, i) + Val(copy) - Low(copy, i) == Val(a) - Low(b, i) + if wrapped then Pow2(|a|) else 0
  }

  lemma BorrowNext(a: BitVec, b: BitVec, copy: BitVec, diff: BitVec, wrapped: bool, i: nat, next: BitVec, off: bool)
    requires i < |a| <= |b| && |copy| == |diff| == |next| == |a| && Subtracting(a, b, copy, diff, wrapped, i)
    requires copy[i] == Zero && b[i] == One && next[..i + 1] == copy[..i + 1]
    requires off ==> forall k :: i < k < |a| ==> copy[k] != One && next[k] == One
    requires Val(next) == Val(copy) - Pow2(i + 1) + if off then Pow2(|a|) else 0
    ensures Subtracting(a, b, next, diff[i := One], wrapped || off, i + 1)
  {
    SamePrefix(next, copy, i);
    LowCongruence(diff, diff[i := One], i);
  }

  lemma EqualNext(a: BitVec, b: BitVec, copy: BitVec, diff: BitVec, wrapped: bool, i: nat)
    requires i < |a| <= |b| && |copy| == |diff| == |a| && Subtracting(a, b, copy, diff, wrapped, i)
    requires copy[i] == b[i] && b[i].IsBinary()
    ensures Subtracting(a, b, copy, diff[i := Zero], wrapped, i + 1)
  {
    LowCongruence(diff, diff[i := Zero], i);
  }

  lemma KeptNext(a: BitVec, b: BitVec, copy: BitVec, diff: BitVec, wrapped: bool, i: nat)
    requires i < |a| <= |b| && |copy| == |diff| == |a| && Subtracting(a, b, copy, diff, wrapped, i)
    requires copy[i] == One && b[i] == Zero
    ensures Subtracting(a, b, copy, diff[i := One], wrapped, i + 1)
  {
    LowCongruence(diff, diff[i := One], i);
  }

  /**
   Subtraction, on a copy of the minuend that borrows rewrite. The result is known exactly
   if every bit is decided, and then exact modulo `Pow2(|a|)`, where unknown bits of the
   minuend count as zero; otherwise all of it is unknown.
  */
  method Sub(a: BitVec, b: BitVec) returns (diff: BitVec)
    requires |a| <= |b| && NoHighZ(a) && NoHighZ(b)
    ensures |diff| == |a|
    ensures Binary(diff) <==> forall i :: 0 <= i < |a| ==> Decided(a, b, i)
    ensures Binary(diff) ==> Val(diff) == (Val(a) - Low(b, |a|)) % Pow2(|a|)
    ensures Binary(diff) || diff == Unknown(|a|)
  {
    hide Decided, CopyBit, Borrowing, Lent, Subtracting;
    CopyFirst(a, b);
    diff := Zeros(|a|);
    var copy := a;
    ghost var wrapped := false;
    SubtractingFirst(a, b, diff);
    var i := 0;
    while i < |a|
      invariant 0 <= i <= |a| == |copy| == |diff|
      invariant Binary(diff) && NoHighZ(copy)
      invariant forall k :: 0 <= k < i ==> Decided(a, b, k)
      invariant forall k :: i <= k < |a| ==> copy[k] == CopyBit(a, b, i, k)
      invariant Subtracting(a, b, copy, diff, wrapped, i)
    {
      ghost var copy0 := copy;
      DecidedByCopy(a, b, copy, i);
      if QuadEq(copy[i], Zero) && QuadEq(b[i], One) {
        var off;
        copy, off := Borrow(copy, i);
        BorrowNext(a, b, copy0, diff, wrapped, i, copy, off);
        diff := diff[i := One];
        wrapped := wrapped || off;
      } else if QuadEq(copy[i], b[i]) {
        EqualNext(a, b, copy, diff, wrapped, i);
        diff := diff[i := Zero];
      } else if QuadEq(copy[i], One) && QuadEq(b[i], Zero) {
        KeptNext(a, b, copy, diff, wrapped, i);
        diff := diff[i := One];
      } else {
        diff := Unknown(|a|);
        assert !diff[i].IsBinary();
        return;
      }
      CopyNext(a, b, copy0, i, copy);
      i := i + 1;
    }
    SubtractingLast(a, b, copy, diff, wrapped);
  }

  lemma SubtractingFirst(a: BitVec, b: BitVec, diff: BitVec)
    requires |a| <= |b| && |diff| == |a|
    ensures Subtracting(a, b, a, diff, false, 0)
  {
  }

  lemma SubtractingLast(a: BitVec, b: BitVec, copy: BitVec, diff: BitVec, wrapped: bool)
    requires |a| <= |b| && |copy| == |diff| == |a| && Subtracting(a, b, copy, diff, wrapped, |a|)
    ensures Val(diff) == (Val(a) - Low(b, |a|)) % Pow2(|a|)
  {
    LowBound(diff, |a|);
    LowBound(a, |a|);
    LowBound(b, |a|);
    ModOnce(Val(a) - Low(b, |a|), Pow2(|a|));
  }

  method Negate(a: BitVec) returns (r: BitVec)
    requires NoHighZ(a)
    ensures |r| == |a|
    ensures Binary(a) ==> Binary(r) && Val(r) == if Val(a) == 0 then 0 else Pow2(|a|) - Val(a)
    ensures !Binary(a) ==> r == Unknown(|a|)
  {
    r := Sub(Zeros(|a|), a);
    if !Binary(a) {
      var i :| 0 <= i < |a| && !a[i].IsBinary();
      assert !Decided(Zeros(|a|), a, i);
    }
    LowPastZeros(Zeros(|a|), 0, |a|);
    LowBound(a, |a|);
    ModOnce(0 - Val(a), Pow2(|a|));
  }

  // ----- multiplication -----

  /**
   Shift-and-add multiplication through a double-width accumulator that holds the exact
   product. Unknown multiplier bits count as 0; an unknown multiplicand matters only
   when some multiplier bit is 1.
  */
  method Mul(a: BitVec, b: BitVec) returns (res: BitVec)
    requires |a| <= |b| && NoHighZ(b)
    ensures |res| == |a|
    ensures Binary(a) ==> Binary(res) && Val(res) == (Val(a) * Low(b, |a|)) % Pow2(|a|)
    ensures !Binary(a) ==> res == if One in b[..|a|] then Unknown(|a|) else Zeros(|a|)
  {
    var w := |a|;
    var full := Zeros(2 * w);
    LowPastZeros(full, 0, 2 * w);
    var i := 0;
    while i < w
      invariant 0 <= i <= w && |full| == 2 * w
      invariant Binary(a) ==> Binary(full) && Val(full) == Val(a) * Low(b, i)
      invariant !Binary(a) ==> full == if One in b[..i] then Unknown(2 * w) else Zeros(2 * w)
    {
      assert b[..i + 1] == b[..i] + [b[i]];
      if QuadEq(b[i], One) {
        var shifted := Zeros(2 * w);
        var j := 0;
        while j < w
          invariant 0 <= j <= w && |shifted| == 2 * w
          invariant forall k :: 0 <= k < 2 * w ==> shifted[k] == if i <= k < i + j then a[k - i] else Zero
        {
          shifted := shifted[j + i := a[j]];
          j := j + 1;
        }
        full := AddPartial(full, shifted, a, b, i);
      }
      i := i + 1;
    }
    res := full[..w];
    LowTruncated(full, w);
  }

  /** One accumulation step of `Mul`: the sum is exact, since it fits the double width. */
  method AddPartial(full: BitVec, shifted: BitVec, ghost a: BitVec, ghost b: BitVec, ghost i: nat)
    returns (sum: BitVec)
    requires i < |a| <= |b| && b[i] == One && |full| == |shifted| == 2 * |a|
    requires forall k :: 0 <= k < 2 * |a| ==> shifted[k] == if i <= k < i + |a| then a[k - i] else Zero
    requires Binary(a) ==> Binary(full) && Val(full) == Val(a) * Low(b, i)
    ensures |sum| == 2 * |a|
    ensures Binary(a) ==> Binary(sum) && Val(sum) == Val(a) * Low(b, i + 1)
    ensures !Binary(a) ==> sum == Unknown(2 * |a|)
  {
    sum := Add(full, shifted);
    assert shifted[..|shifted|] == shifted;
    if Binary(a) {
      ShiftedValue(a, i, shifted);
      LowBound(a, |a|);
      LowBound(b, i + 1);
      Pow2Monotone(i + 1, |a|);
      Pow2Add(|a|, |a|);
      PartialProduct(Val(a), Low(b, i), Pow2(i), Pow2(|a|), Pow2(2 * |a|));
    } else {
      ghost var k :| 0 <= k < |a| && !a[k].IsBinary();
      assert !shifted[k + i].IsBinary();
    }
  }

  lemma PartialProduct(va: nat, lb: nat, p: nat, c: nat, m: nat)
    requires va < c && lb + p <= c && m == c * c
    ensures (va * lb + va * p) % m == va * (lb + p)
  {
    Distribute(lb, p, va);
    SmallProduct(va, lb + p, c, m);
  }

  /** Placing `a` at offset `i` in a wider vector of zeros multiplies it by `Pow2(i)`. */
  lemma ShiftedValue(a: BitVec, i: nat, s: BitVec)
    requires i + |a| <= |s|
    requires forall k :: 0 <= k < |s| ==> s[k] == if i <= k < i + |a| then a[k - i] else Zero
    ensures Val(s) == Val(a) * Pow2(i)
  {
    hide Low, Pow2;
    forall k | 0 <= k < |a| ensures s[i + k] == a[k] {
      var j := i + k;
      assert s[j] == a[j - i];
    }
    ShiftedStart(i, s);
    ShiftedLow(a, i, s, |a|);
    ShiftedRest(a, i, s);
  }

  lemma ShiftedStart(i: nat, s: BitVec)
    requires i <= |s| && forall k :: 0 <= k < i ==> s[k] == Zero
    ensures Low(s, i) == 0
  {
    LowPastZeros(s, 0, i);
  }

  lemma ShiftedRest(a: BitVec, i: nat, s: BitVec)
    requires i + |a| <= |s|
    requires forall k :: i + |a| <= k < |s| ==> s[k] == Zero
    ensures Val(s) == Low(s, i + |a|)
  {
    LowPastZeros(s, i + |a|, |s|);
  }

  lemma WeightShifted(q: Quad, m: nat, i: nat)
    ensures Weight(q, i + m) == Weight(q, m) * Pow2(i)
  {
    Pow2Add(i, m);
  }

  lemma {:induction false} ShiftedLow(a: BitVec, i: nat, s: BitVec, n: nat)
    requires n <= |a| && i + n <= |s|
    requires forall k :: 0 <= k < n ==> s[i + k] == a[k]
    requires Low(s, i) == 0
    ensures Low(s, i + n) == Low(a, n) * Pow2(i)
  {
    if n > 0 {
      var m := n - 1;
      ShiftedLow(a, i, s, m);
      WeightShifted(a[m], m, i);
      hide Pow2, Weight;
      assert s[i + m] == a[m];
      assert Low(s, i + n) == Low(s, i + m) + Weight(a[m], i + m);
      Distribute(Low(a, m), Weight(a[m], m), Pow2(i));
    }
  }

  /** Keeping the `w` low bits takes the value modulo `Pow2(w)`. */
  lemma LowTruncated(v: BitVec, w: nat)
    requires w <= |v|
    ensures Low(v[..w], w) == Low(v, w) == Val(v) % Pow2(w)
  {
    LowCongruence(v[..w], v, w);
    LowBound(v, w);
    var k := HighPart(v, w, |v|);
    DivModUnique(Val(v), Low(v, w), k, Pow2(w));
  }

  lemma {:induction false} HighPart(v: BitVec, w: nat, n: nat) returns (k: nat)
    requires w <= n <= |v|
    ensures Low(v, n) == k * Pow2(w) + Low(v, w)
    decreases n
  {
    if w == n {
      k := 0;
    } else {
      var k0 := HighPart(v, w, n - 1);
      Pow2Add(w, n - 1 - w);
      var t := if v[n - 1] == One then Pow2(n - 1 - w) else 0;
      k := k0 + t;
      Distribute(k0, t, Pow2(w));
    }
  }

  // ----- comparison -----

  method IsBinary(v: BitVec) returns (r: bool)
    ensures r <==> Binary(v)
    ensures r <==> forall i :: 0 <= i < |v| ==> v[i] == Zero || v[i] == One
  {
    var i := 0;
    while i < |v|
      invariant 0 <= i <= |v|
      invariant forall k :: 0 <= k < i ==> v[k].IsBinary()
    {
      if !v[i].IsBinary() {
        return false;
      }
      i := i + 1;
    }
    return true;
  }

  /** Equality of vectors: false on different widths or on any unknown bit. */
  method Equals(a: BitVec, b: BitVec) returns (r: bool)
    requires |a| == |b| ==> NoHighZ(a) && NoHighZ(b)
    ensures r <==> a == b && Binary(a)
  {
    if |a| != |b| {
      return false;
    }
    var i := 0;
    while i < |a|
      invariant 0 <= i <= |a|
      invariant forall k :: 0 <= k < i ==> a[k] == b[k] && a[k].IsBinary()
    {
      if !QuadEq(a[i], b[i]) {
        return false;
      }
      i := i + 1;
    }
    return true;
  }

  /** Unsigned comparison from the top bit down, at the width of `a`. */
  method Greater(a: BitVec, b: BitVec) returns (r: bool)
    requires |a| <= |b|
    ensures r <==> Binary(a) && Binary(b) && Val(a) > Low(b, |a|)
  {
    var ba := IsBinary(a);
    var bb := IsBinary(b);
    if !ba || !bb {
      return false;
    }
    var i := |a| - 1;
    while i >= 0
      invariant -1 <= i < |a|
      invariant Val(a) - Low(b, |a|) == Low(a, i + 1) - Low(b, i + 1)
    {
      LowBound(a, i);
      LowBound(b, i);
      if a[i] == One && b[i] == Zero {
        return true;
      }
      if a[i] == Zero && b[i] == One {
        return false;
      }
      i := i - 1;
    }
    return false;
  }

  /** Vectors of different widths are never equal, so that equal low bits count as less. */
  method Less(a: BitVec, b: BitVec) returns (r: bool)
    requires |a| <= |b|
    ensures |a| == |b| ==> (r <==> Binary(a) && Binary(b) && Val(a) < Val(b))
    ensures |a| < |b| ==> (r <==> Binary(a) && Binary(b) && Val(a) <= Low(b, |a|))
  {
    var ba := IsBinary(a);
    var bb := IsBinary(b);
    if !ba || !bb {
      return false;
    }
    var same := Equals(a, b);
    if same {
      return false;
    }
    var g := Greater(a, b);
    if |a| == |b| {
      BinaryInjective(a, b);
    }
    return !g;
  }

  /** Binary vectors of one width are determined by their value. */
  lemma BinaryInjective(a: BitVec, b: BitVec)
    requires |a| == |b| && Binary(a) && Binary(b)
    ensures Val(a) == Val(b) <==> a == b
  {
    if Val(a) == Val(b) {
      LowInjective(a, b, |a|);
      assert a == a[..|a|] == b[..|b|] == b;
    }
  }

  // ----- shifting and resizing -----

  /**
   The constructor from a width and a machine integer of 32 bits, in two's complement.
   Bits from 32 on are zero, also those of a negative integer.
  */
  method FromInt(n: nat, val: int) returns (v: BitVec)
    requires -0x8000_0000 <= val < 0x8000_0000
    ensures |v| == n && Binary(v)
    ensures Val(v) == val % Pow2(if n < 32 then n else 32)
  {
    v := Zeros(n);
    var rest := val;  // val >> i
    var i := 0;
    while i < n
      invariant 0 <= i <= n == |v| && Binary(v)
      invariant i <= 32 ==> rest == val / Pow2(i)
      invariant Low(v, i) == val % Pow2(if i < 32 then i else 32)
    {
      ghost var before := v;
      if i < 32 {
        NextBit(val, Pow2(i));
        v := v[i := if rest % 2 == 1 then One else Zero];
      } else {
        v := v[i := Zero];
      }
      LowCongruence(before, v, i);
      rest := rest / 2;
      i := i + 1;
    }
  }

  /** Above 32 bits a negative integer is not extended by its sign: it reads back as itself only at narrower widths. */
  lemma SignExtended(n: nat, val: int)
    requires -0x8000_0000 <= val < 0x8000_0000
    ensures val % Pow2(if n < 32 then n else 32) == val % Pow2(n) <==> val >= 0 || n <= 32
  {
    if n > 32 {
      var half := Pow2(32);
      WordSize();
      Pow2Monotone(33, n);
      var k := if val >= 0 then 0 else -1;
      DivModUnique(val, val - k * half, k, half);
      DivModUnique(val, val - k * Pow2(n), k, Pow2(n));
    }
  }

  lemma WordSize()
    ensures Pow2(32) == 0x1_0000_0000 && Pow2(33) == 2 * Pow2(32)
  {
    assert Pow2(8) == 256;
    Pow2Add(8, 8);
    Pow2Add(16, 16);
  }

  /** The shift amount as a machine integer; amounts of 65 or more, or wider than 64 bits, abort. */
  method ShiftAmount(s: BitVec) returns (n: nat)
    requires Binary(s) && |s| <= 64 && Val(s) < 65
    ensures n == Val(s)
  {
    n := 0;
    var exp := 1;
    var i := 0;
    while i < |s|
      invariant 0 <= i <= |s| && exp == Pow2(i) && n == Low(s, i)
    {
      n := n + exp * Bit(s[i]);
      exp := exp * 2;
      i := i + 1;
    }
  }

  method Shl(a: BitVec, shift: BitVec) returns (res: BitVec)
    requires Binary(a) && Binary(shift) ==> |shift| <= 64 && Val(shift) < 65
    ensures |res| == |a|
    ensures !(Binary(a) && Binary(shift)) ==> res == Unknown(|a|)
    ensures Binary(a) && Binary(shift) ==>
              Binary(res) && Val(res) == (Val(a) * Pow2(Val(shift))) % Pow2(|a|)
  {
    var ba := IsBinary(a);
    var bs := IsBinary(shift);
    if !ba || !bs {
      return Unknown(|a|);
    }
    res := Zeros(|a|);
    var s := ShiftAmount(shift);
    var i := s;
    while i < |a|
      invariant s <= i && |res| == |a|
      invariant i > |a| ==> i == s
      invariant forall k :: 0 <= k < |a| ==> res[k] == if s <= k < i then a[k - s] else Zero
    {
      res := res[i := a[i - s]];
      i := i + 1;
    }
    ShlValue(a, s, res);
  }

  lemma ShlValue(a: BitVec, s: nat, r: BitVec)
    requires |r| == |a|
    requires forall k :: 0 <= k < |a| ==> r[k] == if s <= k then a[k - s] else Zero
    ensures Val(r) == (Val(a) * Pow2(s)) % Pow2(|a|)
  {
    var wide := Zeros(s) + a;
    ShiftedValue(a, s, wide);
    assert r == wide[..|a|];
    LowTruncated(wide, |a|);
  }

  method ZeroExtend(width: nat, v: BitVec) returns (res: BitVec)
    requires |v| <= width
    ensures res == v + Zeros(width - |v|)
    ensures Val(res) == Val(v)
  {
    res := Zeros(width);
    var i := 0;
    while i < |v|
      invariant 0 <= i <= |v| && |res| == width
      invariant forall k :: 0 <= k < width ==> res[k] == if k < i then v[k] else Zero
    {
      res := res[i := v[i]];
      i := i + 1;
    }
    LowCongruence(res, v, |v|);
    LowPastZeros(res, |v|, width);
  }

  // ----- division -----

  /**
   Restoring division. Dividing by zero gives all ones, operands with an unknown bit
   give zero, and otherwise the quotient is the floor of `a / b`. Widths above 64 abort
   in `ShiftAmount`.
  */
  method Divide(a: BitVec, b: BitVec) returns (quotient: BitVec)
    requires |a| == |b| <= 64 && NoHighZ(a)
    ensures |quotient| == |a| && Binary(quotient)
    ensures Binary(a) && Binary(b) && Val(b) > 0 ==> Val(quotient) == Val(a) / Val(b)
    ensures Binary(a) && Binary(b) && Val(b) == 0 ==> Val(quotient) == Pow2(|a|) - 1
    ensures !(Binary(a) && Binary(b)) ==> Val(quotient) == 0
  {
    var w := |a|;
    var extA := ZeroExtend(2 * w, a);
    var extB := ZeroExtend(2 * w, b);
    quotient := Zeros(w);
    LowPastZeros(quotient, 0, w);
    var rest := extA;
    UnknownExtends(a, extA);
    UnknownExtends(b, extB);
    DivisionStarts(a, b);
    var i := w;
    while i > 0
      invariant 0 <= i <= w && Dividing(a, b, quotient, rest, i)
    {
      i := i - 1;
      quotient, rest := DivideBit(a, b, extB, quotient, rest, i);
    }
    if Binary(a) && Binary(b) && Val(b) > 0 {
      DivModUnique(Val(a), Val(rest), Val(quotient), Val(b));
    }
  }

  /** The quotient bits from `i` up are decided and `rest` is what they leave of the dividend. */
  ghost predicate Dividing(a: BitVec, b: BitVec, quotient: BitVec, rest: BitVec, i: nat)
    requires |a| == |b| && i <= |a|
  {
    var w, known := |a|, Binary(a) && Binary(b);
    && |quotient| == w && Binary(quotient) && |rest| == 2 * w && NoHighZ(rest)
    && (forall k :: 0 <= k < i ==> quotient[k] == Zero)
    && (known ==> Binary(rest) && Remainder(Val(a), Val(b), Val(quotient), Val(rest), i))
    && (known && Val(b) == 0 ==> Val(quotient) == Pow2(w) - Pow2(i))
    && (!known ==> Val(quotient) == 0 && (Binary(rest) <==> Binary(a)))
  }

  /** Decides quotient bit `i`: it is one if the shifted divisor is not more than what is left. */
  method DivideBit(ghost a: BitVec, b: BitVec, extB: BitVec, quotient0: BitVec, rest0: BitVec, i: nat)
    returns (quotient: BitVec, rest: BitVec)
    requires |a| == |b| <= 64 && i < |b| && Dividing(a, b, quotient0, rest0, i + 1)
    requires extB == b + Zeros(|b|) && Val(extB) == Val(b) && (Binary(extB) <==> Binary(b))
    ensures Dividing(a, b, quotient, rest, i)
  {
    quotient, rest := quotient0, rest0;
    var shiftedB := ShiftedDivisor(b, extB, i);
    var less := Less(shiftedB, rest);
    var equal := Equals(shiftedB, rest);
    if Binary(a) && Binary(b) {
      BinaryInjective(shiftedB, rest);
      RemainderStep(Val(a), Val(b), Val(quotient), Val(rest), i, Val(shiftedB));
    }
    if less || equal {
      LowUpdate(quotient, i, One, |b|);
      quotient := quotient[i := One];
      LowBound(rest, 2 * |b|);
      ModOnce(Val(rest) - Val(shiftedB), Pow2(2 * |b|));
      rest := Sub(rest, shiftedB);
    }
  }

  /** What is left of the dividend after deciding the quotient bits from `i` up. */
  ghost predicate Remainder(a: nat, b: nat, q: nat, rest: nat, i: nat) {
    a == q * b + rest && (b > 0 ==> rest < b * Pow2(i))
  }

  lemma DivisionStarts(a: BitVec, b: BitVec)
    requires |a| == |b|
    ensures Remainder(Val(a), Val(b), 0, Val(a), |a|)
  {
    LowBound(a, |a|);
    if Val(b) > 0 {
      MulAtLeast(Val(b), Pow2(|a|));
    }
  }

  lemma RemainderStep(a: nat, b: nat, q: nat, rest: nat, i: nat, s: nat)
    requires Remainder(a, b, q, rest, i + 1) && s == b * Pow2(i)
    ensures if s <= rest then Remainder(a, b, q + Pow2(i), rest - s, i) else Remainder(a, b, q, rest, i)
    ensures b == 0 ==> s == 0
  {
    DoubleRight(b, Pow2(i));
    Distribute(q, Pow2(i), b);
  }

  lemma UnknownExtends(v: BitVec, ext: BitVec)
    requires |v| <= |ext| && ext == v + Zeros(|ext| - |v|)
    ensures Binary(ext) <==> Binary(v)
  {
    assert forall k :: 0 <= k < |v| ==> ext[k] == v[k];
  }

  /** The divisor shifted by one of the quotient's positions; no bit is lost. */
  method AmountOf(n: nat, i: nat) returns (amount: BitVec)
    requires i < n <= 64
    ensures |amount| == n && Binary(amount) && Val(amount) == i
  {
    amount := FromInt(n, i);
    var width := if n < 32 then n else 32;
    if n < 32 {
      Pow2Exceeds(i);
      Pow2Monotone(i, n);
    } else {
      WordSize();
    }
    DivModUnique(i, i, 0, Pow2(width));
  }

  method ShiftedDivisor(b: BitVec, extB: BitVec, i: nat) returns (s: BitVec)
    requires i < |b| <= 64 && extB == b + Zeros(|b|) && Val(extB) == Val(b)
    requires Binary(extB) <==> Binary(b)
    ensures |s| == 2 * |b|
    ensures Binary(b) ==> Binary(s) && Val(s) == Val(b) * Pow2(i)
    ensures !Binary(b) ==> s == Unknown(2 * |b|)
  {
    hide Binary;
    var amount := AmountOf(|b|, i);
    Pow2Monotone(i, |b|);
    s := Shl(extB, amount);
    LowBound(b, |b|);
    Pow2Add(|b|, |b|);
    MulMonotone(Pow2(i), Pow2(|b|), Val(b));
    MulMonotone(Val(b) + 1, Pow2(|b|), Pow2(|b|));
    SmallProduct(Val(b), Pow2(i), Pow2(|b|), Pow2(2 * |b|));
  }

  lemma SmallProduct(x: nat, p: nat, c: nat, m: nat)
    requires m == c * c && x < c && p <= c
    ensures (x * p) % m == x * p
  {
    MulMonotone(p, c, x);
    MulMonotone(x + 1, c, c);
    assert 0 <= x * p < m;
    DivModUnique(x * p, x * p, 0, m);
  }
}
