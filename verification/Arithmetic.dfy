/**
 Powers of two and integer division. Nonlinear steps live here, over plain integers, so
 that the proofs about bits elsewhere stay linear: products of powers of two, their order,
 the next bit of a quotient, and that quotient and remainder are unique.
*/
module Arithmetic {

  function Pow2(n: nat): (p: nat)
    ensures p > 0
  {
    if n == 0 then 1 else 2 * Pow2(n - 1)
  }

  lemma {:induction false} Pow2Add(m: nat, n: nat)
    ensures Pow2(m + n) == Pow2(m) * Pow2(n)
  {
    if n > 0 {
      Pow2Add(m, n - 1);
      assert Pow2(m + n) == 2 * Pow2(m + (n - 1));
      DoubleRight(Pow2(m), Pow2(n - 1));
    }
  }

  lemma DoubleRight(a: int, b: int)
    ensures a * (2 * b) == 2 * (a * b)
  {
  }

  lemma {:induction false} Pow2Monotone(m: nat, n: nat)
    requires m <= n
    ensures Pow2(m) <= Pow2(n)
    ensures m < n ==> 2 * Pow2(m) <= Pow2(n)
    decreases n
  {
    if m < n {
      Pow2Monotone(m, n - 1);
    }
  }

  lemma {:induction false} Pow2Exceeds(n: nat)
    ensures n < Pow2(n)
  {
    if n > 0 {
      Pow2Exceeds(n - 1);
    }
  }

  lemma MulAtLeast(q: int, m: int)
    requires q >= 1 && m >= 0
    ensures q * m >= m
  {
  }

  lemma MulMonotone(a: int, b: int, c: int)
    requires a <= b && c >= 0
    ensures a * c <= b * c
  {
  }

  lemma QuotientUnique(q: int, r: int, k: int, s: int, m: int)
    requires m > 0 && 0 <= r < m && 0 <= s < m && q * m + s == k * m + r
    ensures q == k && r == s
  {
    var d := q - k;
    assert d * m == r - s;
    if d >= 1 {
      MulAtLeast(d, m);
    } else if d <= -1 {
      assert (-d) * m == s - r;
      MulAtLeast(-d, m);
    }
  }

  /** A quotient and a residue are determined by the equation they satisfy. */
  lemma DivModUnique(x: int, r: int, k: int, m: int)
    requires m > 0 && 0 <= r < m
    requires x == k * m + r
    ensures x % m == r && x / m == k
  {
    QuotientUnique(x / m, r, k, x % m, m);
  }

  /** Reduction of a number that exceeds the modulus, or falls below zero, at most once. */
  lemma ModOnce(x: int, m: int)
    requires -m <= x < 2 * m
    requires m > 0
    ensures x % m == if x < 0 then x + m else if x < m then x else x - m
  {
    if x < 0 {
      DivModUnique(x, x + m, -1, m);
    } else if x < m {
      DivModUnique(x, x, 0, m);
    } else {
      DivModUnique(x, x - m, 1, m);
    }
  }

  /** Bit `k` of a number carries its residue from modulus `m` to modulus `2 * m`. */
  lemma NextBit(x: int, m: nat)
    requires m > 0
    ensures x % (2 * m) == x % m + if (x / m) % 2 == 1 then m else 0
    ensures x / (2 * m) == (x / m) / 2
  {
    var q, r := x / m, x % m;
    var h, b := q / 2, q % 2;
    Halves(x, q, r, h, b, m);
    DivModUnique(x, r + (if b == 1 then m else 0), h, 2 * m);
  }

  lemma Halves(x: int, q: int, r: nat, h: int, b: nat, m: nat)
    requires x == q * m + r && q == 2 * h + b && b < 2
    ensures x == h * (2 * m) + r + if b == 1 then m else 0
  {
    DoubleRight(h, m);
    assert (2 * h + b) * m == 2 * (h * m) + b * m;
  }

  lemma Distribute(a: int, b: int, c: int)
    ensures (a + b) * c == a * c + b * c
    ensures (a - b) * c == a * c - b * c
  {
  }
}
