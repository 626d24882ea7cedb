/**
 Text forms of bit vectors: the binary string, and the sized hexadecimal literal such
 as 12'h0fx, with the constructors that read them back.
*/
module BitVectorText {
  import opened Arithmetic
  import opened BitVectors

  // ----- binary text -----

  function QuadChar(q: Quad): char {
    match q
    case Zero => '0'
    case One => '1'
    case X => 'x'
    case Z => 'z'
  }

  predicate IsDigit(c: char) {
    '0' <= c <= '9'
  }

  /** Any digit other than 0 reads as a one. */
  function CharQuad(c: char): Quad {
    if c == 'x' then X else if c == 'z' then Z else if c == '0' then Zero else One
  }

  /** The most significant bit comes first. */
  function BinaryText(v: BitVec): (s: string)
    ensures |s| == |v|
  {
    seq(|v|, i requires 0 <= i < |v| => QuadChar(v[|v| - 1 - i]))
  }

  predicate LegalBinary(raw: string) {
    forall i :: 0 <= i < |raw| ==> IsDigit(raw[i]) || raw[i] == 'x' || raw[i] == 'z' || raw[i] == '_'
  }

  function WithoutSeparators(raw: string): string {
    if raw == [] then []
    else WithoutSeparators(raw[..|raw| - 1]) + if raw[|raw| - 1] == '_' then [] else [raw[|raw| - 1]]
  }

  function FromBinaryText(n: nat, raw: string): (v: BitVec)
    ensures |v| == n
  {
    var s := WithoutSeparators(raw);
    seq(n, k => if 0 <= k < |s| then CharQuad(s[|s| - 1 - k]) else Zero)
  }

  method BinaryString(v: BitVec) returns (s: string)
    ensures s == BinaryText(v)
  {
    s := "";
    var i := |v| - 1;
    while i >= 0
      invariant -1 <= i < |v|
      invariant |s| == |v| - 1 - i
      invariant forall k :: 0 <= k < |s| ==> s[k] == QuadChar(v[|v| - 1 - k])
    {
      s := s + [QuadChar(v[i])];
      i := i - 1;
    }
  }

  /** The constructor from a width and a binary string; excess digits abort. */
  method ParseBinary(n: nat, raw: string) returns (v: BitVec)
    requires LegalBinary(raw) && |WithoutSeparators(raw)| <= n
    ensures v == FromBinaryText(n, raw)
  {
    var str := "";
    var i := 0;
    while i < |raw|
      invariant 0 <= i <= |raw|
      invariant str == WithoutSeparators(raw[..i])
    {
      assert raw[..i + 1][..i] == raw[..i];
      if IsDigit(raw[i]) || raw[i] == 'z' || raw[i] == 'x' {
        str := str + [raw[i]];
      }
      i := i + 1;
    }
    assert raw[..|raw|] == raw;
    v := Zeros(n);
    var len := |str|;
    i := len - 1;
    while i >= 0
      invariant -1 <= i < len && |v| == n
      invariant forall k :: 0 <= k < n ==> v[k] == if k < len - 1 - i then CharQuad(str[len - 1 - k]) else Zero
    {
      v := v[len - i - 1 := CharQuad(str[i])];
      i := i - 1;
    }
  }

  /** Reading back the binary string of any four-valued vector restores it. */
  lemma BinaryRoundTrip(v: BitVec)
    ensures LegalBinary(BinaryText(v))
    ensures FromBinaryText(|v|, BinaryText(v)) == v
  {
    var s := BinaryText(v);
    forall i | 0 <= i < |s|
      ensures s[i] != '_' && (IsDigit(s[i]) || s[i] == 'x' || s[i] == 'z')
      ensures CharQuad(s[i]) == v[|v| - 1 - i]
    {
      assert s[i] == QuadChar(v[|v| - 1 - i]);
    }
    NoSeparators(s);
  }

  /** And a string of the four symbols is printed back unchanged. */
  lemma BinaryTextRoundTrip(s: string)
    requires forall i :: 0 <= i < |s| ==> s[i] in {'0', '1', 'x', 'z'}
    ensures BinaryText(FromBinaryText(|s|, s)) == s
  {
    hide WithoutSeparators;
    NoSeparators(s);
    var v := FromBinaryText(|s|, s);
    forall i | 0 <= i < |s| ensures BinaryText(v)[i] == s[i] {
      assert v[|s| - 1 - i] == CharQuad(s[i]);
      assert BinaryText(v)[i] == QuadChar(v[|v| - 1 - i]);
      assert s[i] in {'0', '1', 'x', 'z'};
    }
  }

  lemma {:induction false} NoSeparators(s: string)
    requires forall i :: 0 <= i < |s| ==> s[i] != '_'
    ensures WithoutSeparators(s) == s
  {
    if s != [] {
      NoSeparators(s[..|s| - 1]);
    }
  }

  // ----- the numbers that texts stand for -----

  lemma {:induction false} LowSkipsFirst(v: BitVec, n: nat)
    requires 0 < n <= |v|
    ensures Low(v, n) == Bit(v[0]) + 2 * Low(v[1..], n - 1)
  {
    if n > 1 {
      LowSkipsFirst(v, n - 1);
      assert v[1..][n - 2] == v[n - 1];
    } else {
      assert Low(v, 1) == Low(v, 0) + Weight(v[0], 0);
    }
  }

  lemma {:induction false} NoOnes(v: BitVec, n: nat)
    requires n <= |v| && forall k :: 0 <= k < n ==> v[k] != One
    ensures Low(v, n) == 0
  {
    if n > 0 {
      NoOnes(v, n - 1);
    }
  }

  /** The number that binary text stands for, if `x` and `z` count as 0 and separators do not count. */
  function BinaryNumber(raw: string): nat {
    if raw == [] then 0
    else
      var higher, c := BinaryNumber(raw[..|raw| - 1]), raw[|raw| - 1];
      if c == '_' then higher
      else if c == '0' || c == 'x' || c == 'z' then 2 * higher
      else 2 * higher + 1
  }

  /** Whatever the width and the separators, what is read is the number that was written. */
  lemma {:induction false} BinaryTextValue(n: nat, raw: string)
    requires LegalBinary(raw) && |WithoutSeparators(raw)| <= n
    ensures Val(FromBinaryText(n, raw)) == BinaryNumber(raw)
    ensures (forall i :: 0 <= i < |raw| ==> raw[i] != 'x' && raw[i] != 'z') ==> Binary(FromBinaryText(n, raw))
    decreases |raw|
  {
    var v := FromBinaryText(n, raw);
    if raw == [] {
      NoOnes(v, n);
    } else {
      var front, c := raw[..|raw| - 1], raw[|raw| - 1];
      if c == '_' {
        BinaryTextValue(n, front);
        assert v == FromBinaryText(n, front);
      } else {
        BinaryTextValue(n - 1, front);
        LowSkipsFirst(v, n);
        assert v[1..] == FromBinaryText(n - 1, front);
        assert v[0] == CharQuad(c);
        forall k | 0 < k < n ensures v[k] == FromBinaryText(n - 1, front)[k - 1] {
          assert v[k] == v[1..][k - 1];
        }
      }
    }
  }

  /** The symbols of the text, most significant first, and the digits of a width. */
  lemma Symbols()
    ensures BinaryText([One, X, Zero, Z]) == "z0x1"
    ensures Decimal(12) == "12"
  {
    var v := [One, X, Zero, Z];
    var t := BinaryText(v);
    assert t[0] == QuadChar(v[3]) && t[1] == QuadChar(v[2]) && t[2] == QuadChar(v[1]) && t[3] == QuadChar(v[0]);
  }

  // ----- hexadecimal text -----

  function HexChar(n: nat): (c: char)
    requires n < 16
    ensures IsHexDigit(c)
  {
    if n > 9 then (n + 87) as char else (n + 48) as char
  }

  predicate IsHexDigit(c: char) {
    '0' <= c <= '9' || 'a' <= c <= 'f'
  }

  function HexValue(c: char): (n: nat)
    requires IsHexDigit(c)
    ensures n < 16
  {
    if c <= '9' then c as int - 48 else c as int - 87
  }

  predicate LegalHex(c: char) {
    IsHexDigit(c) || c == 'x' || c == 'z'
  }

  /** Bit `j` of the four bits that one hexadecimal character stands for. */
  function HexBit(c: char, j: nat): Quad
    requires LegalHex(c) && j < 4
  {
    if c == 'x' then X
    else if c == 'z' then Z
    else if (HexValue(c) / [1, 2, 4, 8][j]) % 2 == 1 then One
    else Zero
  }

  /** Group `g` is bits `4 * g` to `4 * g + 3`, cut at the end of the vector. */
  function Group(v: BitVec, g: nat): (r: BitVec)
    requires 4 * g < |v|
    ensures 1 <= |r| <= 4
  {
    v[4 * g..if 4 * g + 4 <= |v| then 4 * g + 4 else |v|]
  }

  /** The lowest bit of a group that is not binary decides the printed symbol. */
  function FirstAbnormal(r: BitVec): (i: nat)
    ensures i <= |r|
    ensures i == |r| <==> Binary(r)
    ensures i < |r| ==> !r[i].IsBinary()
    ensures forall k :: 0 <= k < i ==> r[k].IsBinary()
  {
    if r == [] then 0
    else if !r[0].IsBinary() then 0
    else
      var i := FirstAbnormal(r[1..]);
      assert i < |r[1..]| ==> r[i + 1] == r[1..][i];
      assert forall k :: 0 < k <= i ==> r[k] == r[1..][k - 1];
      1 + i
  }

  function GroupChar(r: BitVec): (c: char)
    requires |r| <= 4
    ensures LegalHex(c)
  {
    var i := FirstAbnormal(r);
    if i < |r| then (if r[i] == X then 'x' else 'z')
    else GroupBound(r); HexChar(Val(r))
  }

  lemma GroupBound(r: BitVec)
    requires |r| <= 4
    ensures Val(r) < 16
  {
    LowBound(r, |r|);
    Pow2Monotone(|r|, 4);
    assert Pow2(4) == 16;
  }

  function Groups(n: nat): nat {
    (n + 3) / 4
  }

  /** The digits of a vector, most significant group first. */
  function HexDigitText(v: BitVec): (s: string)
    ensures |s| == Groups(|v|)
  {
    var n := Groups(|v|);
    seq(n, p requires 0 <= p < n => GroupChar(Group(v, n - 1 - p)))
  }

  function FromHexDigits(n: nat, digits: string): (v: BitVec)
    requires forall i :: 0 <= i < |digits| ==> LegalHex(digits[i])
    ensures |v| == n
  {
    seq(n, k requires 0 <= k < n =>
      if k / 4 < |digits| then HexBit(digits[|digits| - 1 - k / 4], k % 4) else Zero)
  }

  /** The symbol of the group that starts at bit `i`. */
  method GroupSymbol(v: BitVec, i: nat) returns (symbol: char)
    requires i < |v| && i % 4 == 0
    ensures symbol == GroupChar(Group(v, i / 4))
  {
    ghost var group := Group(v, i / 4);
    SmallPowers();
    GroupBound(group);
    var bits := 0;
    var j := 0;
    while j < 4
      invariant 0 <= j <= 4
      invariant forall k :: 0 <= k < j && k < |group| ==> group[k].IsBinary()
      invariant bits == Low(group, if j < |group| then j else |group|)
    {
      if i + j < |v| {
        assert v[i + j] == group[j];
        if v[i + j].IsBinary() {
          bits := bits + if v[i + j] == One then [1, 2, 4, 8][j] else 0;
        } else {
          return if v[i + j] == X then 'x' else 'z';
        }
      }
      j := j + 1;
    }
    symbol := HexChar(bits);
  }

  method HexDigits(v: BitVec) returns (s: string)
    ensures s == HexDigitText(v)
  {
    var rev := "";
    var i := 0;
    while i < |v|
      invariant 0 <= i <= |v| + 3 && i % 4 == 0
      invariant |rev| == i / 4
      invariant forall g :: 0 <= g < |rev| ==> 4 * g < |v| && rev[g] == GroupChar(Group(v, g))
    {
      var symbol := GroupSymbol(v, i);
      rev := rev + [symbol];
      i := i + 4;
    }
    assert |rev| == Groups(|v|);
    s := seq(|rev|, p requires 0 <= p < |rev| => rev[|rev| - 1 - p]);
  }

  lemma SmallPowers()
    ensures Pow2(0) == 1 && Pow2(1) == 2 && Pow2(2) == 4 && Pow2(3) == 8
  {
  }

  // ----- decimal widths -----

  function Decimal(n: nat): (s: string)
    ensures |s| > 0 && forall i :: 0 <= i < |s| ==> IsDigit(s[i])
  {
    (if n < 10 then [] else Decimal(n / 10)) + [(n % 10 + 48) as char]
  }

  function DecimalValue(s: string): nat
    requires forall i :: 0 <= i < |s| ==> IsDigit(s[i])
  {
    if s == [] then 0 else assert IsDigit(s[|s| - 1]); 10 * DecimalValue(s[..|s| - 1]) + (s[|s| - 1] as int - 48)
  }

  lemma {:induction false} DecimalRoundTrip(n: nat)
    ensures DecimalValue(Decimal(n)) == n
  {
    var s := Decimal(n);
    if n >= 10 {
      DecimalRoundTrip(n / 10);
      assert s[..|s| - 1] == Decimal(n / 10);
    } else {
      assert s[..|s| - 1] == [];
    }
  }

  // ----- sized literals -----

  function HexText(v: BitVec): string {
    Decimal(|v|) + "'h" + HexDigitText(v)
  }

  method HexString(v: BitVec) returns (s: string)
    ensures s == HexText(v)
  {
    var d := HexDigits(v);
    s := Decimal(|v|) + "'h" + d;
  }

  function FirstQuote(s: string): (q: nat)
    ensures q <= |s| && '\'' !in s[..q]
    ensures q < |s| ==> s[q] == '\''
  {
    if s == [] || s[0] == '\'' then 0
    else
      assert s[..1 + FirstQuote(s[1..])] == [s[0]] + s[1..][..FirstQuote(s[1..])];
      1 + FirstQuote(s[1..])
  }

  /** A width, a quote, the letter h (the formats b and d abort) and hexadecimal digits. */
  predicate LegalLiteral(s: string) {
    var q := FirstQuote(s);
    && 0 < q && q + 1 < |s| && s[q + 1] == 'h'
    && (forall i :: 0 <= i < q ==> IsDigit(s[i]))
    && (forall i :: q + 2 <= i < |s| ==> LegalHex(s[i]))
  }

  function FromLiteral(s: string): BitVec
    requires LegalLiteral(s)
  {
    var q := FirstQuote(s);
    FromHexDigits(DecimalValue(s[..q]), s[q + 2..])
  }

  /** The constructor from a sized literal; digits beyond the width are dropped. */
  method ParseLiteral(s: string) returns (v: BitVec)
    requires LegalLiteral(s)
    ensures v == FromLiteral(s)
  {
    ghost var q := FirstQuote(s);
    var ind := 0;
    while s[ind] != '\''
      invariant 0 <= ind <= q
      invariant ind < q ==> s[ind] in s[..q]
      decreases q - ind
    {
      ind := ind + 1;
    }
    var n := DecimalValue(s[..ind]);
    var digits := s[ind + 2..];
    v := Zeros(n);
    var bit := 0;
    var i := |digits| - 1;
    while i >= 0
      invariant -1 <= i < |digits| && |v| == n && bit == 4 * (|digits| - 1 - i)
      invariant forall k :: 0 <= k < n ==>
        v[k] == if k < bit then HexBit(digits[|digits| - 1 - k / 4], k % 4) else Zero
    {
      var k := 0;
      var j := 3;
      while j >= 0
        invariant -1 <= j <= 3 && |v| == n
        invariant k <= 3 - j && (bit + k < n ==> k == 3 - j)
        invariant forall m :: 0 <= m < n ==>
          v[m] == if m < bit + k then HexBit(digits[|digits| - 1 - m / 4], m % 4) else Zero
        invariant k < 3 - j ==> bit + k >= n
      {
        if bit + k < n {
          v := v[bit + k := HexBit(digits[i], 3 - j)];
          k := k + 1;
        }
        j := j - 1;
      }
      bit := bit + 4;
      i := i - 1;
    }
  }

  // ----- the numbers that hexadecimal digits stand for -----

  function Position(c: char, symbols: string): nat {
    if symbols == [] || symbols[0] == c then 0 else 1 + Position(c, symbols[1..])
  }

  /** The number that one digit stands for, if `x` and `z` count as 0. */
  function DigitNumber(c: char): nat {
    if c == 'x' || c == 'z' then 0 else Position(c, "0123456789abcdef")
  }

  function HexNumber(digits: string): nat {
    if digits == [] then 0
    else 16 * HexNumber(digits[..|digits| - 1]) + DigitNumber(digits[|digits| - 1])
  }

  lemma HexPosition(c: char)
    requires IsHexDigit(c)
    ensures Position(c, "0123456789abcdef") == HexValue(c)
  {
    var symbols := "0123456789abcdef";
    assert symbols[HexValue(c)] == c;
    assert forall k :: 0 <= k < HexValue(c) ==> symbols[k] != c;
    PositionAt(c, symbols, HexValue(c));
  }

  lemma {:induction false} PositionAt(c: char, symbols: string, i: nat)
    requires i < |symbols| && symbols[i] == c && forall k :: 0 <= k < i ==> symbols[k] != c
    ensures Position(c, symbols) == i
  {
    if i > 0 {
      PositionAt(c, symbols[1..], i - 1);
    }
  }

  lemma FourBits(c: char)
    requires LegalHex(c)
    ensures Bit(HexBit(c, 0)) + 2 * Bit(HexBit(c, 1)) + 4 * Bit(HexBit(c, 2)) + 8 * Bit(HexBit(c, 3)) ==
            if c == 'x' || c == 'z' then 0 else HexValue(c)
  {
  }

  lemma DigitBits(c: char)
    requires LegalHex(c)
    ensures DigitNumber(c) < 16
    ensures DigitNumber(c) ==
            Bit(HexBit(c, 0)) + 2 * Bit(HexBit(c, 1)) + 4 * Bit(HexBit(c, 2)) + 8 * Bit(HexBit(c, 3))
  {
    FourBits(c);
    if c != 'x' && c != 'z' {
      HexPosition(c);
    }
  }

  lemma LowFour(v: BitVec)
    requires |v| >= 4
    ensures Val(v) == Bit(v[0]) + 2 * Bit(v[1]) + 4 * Bit(v[2]) + 8 * Bit(v[3]) + 16 * Val(v[4..])
  {
    LowSkipsFirst(v, |v|);
    LowSkipsFirst(v[1..], |v| - 1);
    LowSkipsFirst(v[1..][1..], |v| - 2);
    LowSkipsFirst(v[1..][1..][1..], |v| - 3);
    assert v[1..][1..][1..][1..] == v[4..];
  }

  /** Whatever the width, what is read is the number that was written, modulo the width. */
  lemma {:induction false} HexDigitsValue(n: nat, digits: string)
    requires forall i :: 0 <= i < |digits| ==> LegalHex(digits[i])
    ensures Val(FromHexDigits(n, digits)) == HexNumber(digits) % Pow2(n)
    decreases |digits|
  {
    hide LegalHex, HexBit, HexValue, Pow2, Low, Position, DigitNumber;
    var v := FromHexDigits(n, digits);
    if digits == [] {
      NoOnes(v, n);
    } else {
      var front, c := digits[..|digits| - 1], digits[|digits| - 1];
      var h, d := HexNumber(front), DigitNumber(c);
      assert HexNumber(digits) == 16 * h + d;
      DigitBits(c);
      if n < 4 {
        ShortDigit(n, v, c, h);
      } else {
        HexDigitsValue(n - 4, front);
        NextDigit(n, digits, v);
        ModSixteen(h, d, n);
      }
    }
  }

  lemma NextDigit(n: nat, digits: string, v: BitVec)
    requires (forall i :: 0 <= i < |digits| ==> LegalHex(digits[i])) && n >= 4 && digits != []
    requires v == FromHexDigits(n, digits)
    ensures Val(v) == DigitNumber(digits[|digits| - 1])
                      + 16 * Val(FromHexDigits(n - 4, digits[..|digits| - 1]))
  {
    hide LegalHex, HexBit, HexValue, Pow2, Low, Position;
    var rest := FromHexDigits(n - 4, digits[..|digits| - 1]);
    LowFour(v);
    forall k | 0 <= k < n - 4 ensures v[4..][k] == rest[k] {
      assert v[4 + k] == v[4..][k];
    }
    assert v[4..] == rest;
    DigitBits(digits[|digits| - 1]);
  }

  lemma ModSixteen(h: nat, d: nat, n: nat)
    requires d < 16 && n >= 4
    ensures (16 * h + d) % Pow2(n) == 16 * (h % Pow2(n - 4)) + d
  {
    var m := Pow2(n - 4);
    Pow2Add(4, n - 4);
    assert Pow2(4) == 16;
    var q, r := h / m, h % m;
    assert 16 * h + d == q * (16 * m) + (16 * r + d) by {
      Sixteenfold(h, q, r, m);
    }
    DivModUnique(16 * h + d, 16 * r + d, q, 16 * m);
  }

  lemma Sixteenfold(h: nat, q: nat, r: nat, m: nat)
    requires h == q * m + r
    ensures 16 * h == q * (16 * m) + 16 * r
  {
    DoubleRight(q, 8 * m);
    DoubleRight(q, 4 * m);
    DoubleRight(q, 2 * m);
    DoubleRight(q, m);
  }

  /** A digit of which only the low bits are used. */
  lemma ShortDigit(n: nat, v: BitVec, c: char, h: nat)
    requires n < 4 && |v| == n && LegalHex(c) && forall k :: 0 <= k < n ==> v[k] == HexBit(c, k)
    ensures Val(v) == (16 * h + DigitNumber(c)) % Pow2(n)
  {
    hide LegalHex, HexBit, DigitNumber;
    SmallPowers();
    DigitBits(c);
    LowMod(h, Bit(HexBit(c, 0)), Bit(HexBit(c, 1)), Bit(HexBit(c, 2)), Bit(HexBit(c, 3)));
    if n >= 1 {
      assert Low(v, 1) == Bit(v[0]);
    }
    if n >= 2 {
      assert Low(v, 2) == Bit(v[0]) + 2 * Bit(v[1]);
    }
    if n == 3 {
      assert Low(v, 3) == Bit(v[0]) + 2 * Bit(v[1]) + 4 * Bit(v[2]);
    }
  }

  lemma LowMod(h: nat, b0: nat, b1: nat, b2: nat, b3: nat)
    requires b0 < 2 && b1 < 2 && b2 < 2 && b3 < 2
    ensures var x := 16 * h + (b0 + 2 * b1 + 4 * b2 + 8 * b3);
      x % 1 == 0 && x % 2 == b0 && x % 4 == b0 + 2 * b1 && x % 8 == b0 + 2 * b1 + 4 * b2
  {
    var x := 16 * h + (b0 + 2 * b1 + 4 * b2 + 8 * b3);
    DivModUnique(x, 0, x, 1);
    DivModUnique(x, b0, 8 * h + 4 * b3 + 2 * b2 + b1, 2);
    DivModUnique(x, b0 + 2 * b1, 4 * h + 2 * b3 + b2, 4);
    DivModUnique(x, b0 + 2 * b1 + 4 * b2, 2 * h + b3, 8);
  }

  /** Exactly the bits of the digits that are this letter have the given value. */
  ghost predicate LetterBits(v: BitVec, digits: string, letter: char, q: Quad) {
    forall k :: 0 <= k < |v| ==> (v[k] == q <==> k < 4 * |digits| && digits[|digits| - 1 - k / 4] == letter)
  }

  lemma HexLetters(n: nat, digits: string)
    requires forall i :: 0 <= i < |digits| ==> LegalHex(digits[i])
    ensures LetterBits(FromHexDigits(n, digits), digits, 'x', X)
    ensures LetterBits(FromHexDigits(n, digits), digits, 'z', Z)
  {
  }

  lemma LastGroup(v: BitVec)
    requires |v| > 4
    ensures HexDigitText(v) == HexDigitText(v[4..]) + [GroupChar(v[..4])]
  {
    hide GroupChar;
    var s, front := HexDigitText(v), HexDigitText(v[4..]);
    var n := Groups(|v|);
    assert Groups(|v| - 4) == n - 1;
    forall p | 0 <= p < n - 1 ensures s[p] == front[p] {
      var g := n - 1 - p;
      assert Group(v[4..], g - 1) == Group(v, g);
    }
    assert Group(v, 0) == v[..4];
  }

  /** The digits printed for a binary vector are its number. */
  lemma {:induction false} HexTextValue(v: BitVec)
    requires Binary(v)
    ensures HexNumber(HexDigitText(v)) == Val(v)
    decreases |v|
  {
    hide Low, Position;
    var s := HexDigitText(v);
    if v == [] {
      NoOnes(v, 0);
    } else {
      var low := if |v| <= 4 then v else v[..4];
      BinaryGroup(low);
      if |v| <= 4 {
        assert Group(v, 0) == v;
        assert s == [GroupChar(v)] && s[..0] == [];
        assert HexNumber(s[..0]) == 0;
      } else {
        HexTextValue(v[4..]);
        LastGroup(v);
        LowFour(v);
        GroupValue(low);
        assert s[..|s| - 1] == HexDigitText(v[4..]);
      }
    }
  }

  lemma BinaryGroup(r: BitVec)
    requires 1 <= |r| <= 4 && Binary(r)
    ensures DigitNumber(GroupChar(r)) == Val(r)
  {
    GroupBound(r);
    HexCharValue(Val(r));
    HexPosition(HexChar(Val(r)));
  }

  // ----- the round trip -----

  /** Every group reads one way: all binary, all unknown, or all high impedance. */
  ghost predicate UniformGroups(v: BitVec) {
    forall g :: 0 <= g && 4 * g < |v| ==> Uniform(Group(v, g))
  }

  predicate Uniform(r: BitVec) {
    || Binary(r)
    || (forall k :: 0 <= k < |r| ==> r[k] == X)
    || (forall k :: 0 <= k < |r| ==> r[k] == Z)
  }

  lemma LegalDigits(v: BitVec)
    ensures forall i :: 0 <= i < |HexDigitText(v)| ==> LegalHex(HexDigitText(v)[i])
  {
    var n := Groups(|v|);
    forall i | 0 <= i < n ensures LegalHex(HexDigitText(v)[i]) {
      assert HexDigitText(v)[i] == GroupChar(Group(v, n - 1 - i));
    }
  }

  lemma LiteralParts(width: string, digits: string)
    requires width != [] && forall i :: 0 <= i < |width| ==> IsDigit(width[i])
    requires forall i :: 0 <= i < |digits| ==> LegalHex(digits[i])
    ensures LegalLiteral(width + "'h" + digits)
    ensures FromLiteral(width + "'h" + digits) == FromHexDigits(DecimalValue(width), digits)
  {
    hide FromHexDigits, FirstQuote, LegalHex, DecimalValue;
    var s := width + "'h" + digits;
    QuoteAfter(width, "'h" + digits);
    assert s == width + ("'h" + digits);
    assert s[..|width|] == width && s[|width| + 2..] == digits;
    forall i | |width| + 2 <= i < |s| ensures LegalHex(s[i]) {
      assert s[i] == digits[i - |width| - 2];
    }
  }

  lemma LiteralShape(v: BitVec)
    ensures LegalLiteral(HexText(v))
    ensures forall i :: 0 <= i < |HexDigitText(v)| ==> LegalHex(HexDigitText(v)[i])
    ensures FromLiteral(HexText(v)) == FromHexDigits(|v|, HexDigitText(v))
  {
    hide Decimal, FromHexDigits, LegalHex, LegalLiteral, FromLiteral;
    LegalDigits(v);
    LiteralParts(Decimal(|v|), HexDigitText(v));
    DecimalRoundTrip(|v|);
  }

  /**
   A literal stands for the number its digits name, modulo its width, however many digits there
   are; the bits of an x are unknown and those of a z high impedance, and no others are.
  */
  lemma LiteralValue(width: string, digits: string)
    requires width != [] && forall i :: 0 <= i < |width| ==> IsDigit(width[i])
    requires forall i :: 0 <= i < |digits| ==> LegalHex(digits[i])
    ensures LegalLiteral(width + "'h" + digits)
    ensures var v, n := FromLiteral(width + "'h" + digits), DecimalValue(width);
      && |v| == n && Val(v) == HexNumber(digits) % Pow2(n)
      && LetterBits(v, digits, 'x', X) && LetterBits(v, digits, 'z', Z)
  {
    hide LegalLiteral, FromLiteral, LegalHex, LetterBits, DecimalValue, HexNumber;
    LiteralParts(width, digits);
    HexLetters(DecimalValue(width), digits);
    HexDigitsValue(DecimalValue(width), digits);
  }

  lemma {:induction false} QuoteAfter(d: string, rest: string)
    requires forall i :: 0 <= i < |d| ==> IsDigit(d[i])
    requires |rest| > 0 && rest[0] == '\''
    ensures FirstQuote(d + rest) == |d|
  {
    if d == [] {
      assert d + rest == rest;
    } else {
      QuoteAfter(d[1..], rest);
      assert (d + rest)[1..] == d[1..] + rest;
    }
  }

  /** One group survives printing and reading exactly when it is uniform. */
  lemma GroupRoundTrip(r: BitVec)
    requires 1 <= |r| <= 4
    ensures Uniform(r) <==> forall j :: 0 <= j < |r| ==> HexBit(GroupChar(r), j) == r[j]
  {
    if Binary(r) {
      GroupBound(r);
      SmallPowers();
      BinaryBits(r);
    } else {
      var i := FirstAbnormal(r);
      assert HexBit(GroupChar(r), i) == r[i];
    }
  }

  function BitAt(r: BitVec, i: nat): nat {
    if i < |r| && r[i] == One then 1 else 0
  }

  lemma GroupValue(r: BitVec)
    requires 1 <= |r| <= 4
    ensures Val(r) == BitAt(r, 0) + 2 * BitAt(r, 1) + 4 * BitAt(r, 2) + 8 * BitAt(r, 3)
  {
    SmallPowers();
    assert Low(r, 0) == 0 && Low(r, 1) == BitAt(r, 0);
    if |r| >= 2 {
      assert Low(r, 2) == Low(r, 1) + 2 * BitAt(r, 1);
    }
    if |r| >= 3 {
      assert Low(r, 3) == Low(r, 2) + 4 * BitAt(r, 2);
    }
    if |r| == 4 {
      assert Low(r, 4) == Low(r, 3) + 8 * BitAt(r, 3);
    }
  }

  lemma NibbleBit(b0: nat, b1: nat, b2: nat, b3: nat, j: nat)
    requires b0 < 2 && b1 < 2 && b2 < 2 && b3 < 2 && j < 4
    ensures (b0 + 2 * b1 + 4 * b2 + 8 * b3) / [1, 2, 4, 8][j] % 2 == [b0, b1, b2, b3][j]
  {
  }

  lemma HexCharValue(n: nat)
    requires n < 16
    ensures HexValue(HexChar(n)) == n && HexChar(n) != 'x' && HexChar(n) != 'z'
  {
  }

  lemma BinaryBits(r: BitVec)
    requires 1 <= |r| <= 4 && Binary(r)
    ensures Val(r) < 16
    ensures forall j :: 0 <= j < |r| ==> HexBit(HexChar(Val(r)), j) == r[j]
  {
    GroupBound(r);
    GroupValue(r);
    HexCharValue(Val(r));
    forall j | 0 <= j < |r| ensures HexBit(HexChar(Val(r)), j) == r[j] {
      NibbleBit(BitAt(r, 0), BitAt(r, 1), BitAt(r, 2), BitAt(r, 3), j);
      assert r[j].IsBinary();
    }
  }

  /** Bit `k` of the vector that is read back depends on its own group only. */
  lemma BitReadBack(v: BitVec, k: nat)
    requires k < |v|
    ensures forall i :: 0 <= i < |HexDigitText(v)| ==> LegalHex(HexDigitText(v)[i])
    ensures FromHexDigits(|v|, HexDigitText(v))[k] == HexBit(GroupChar(Group(v, k / 4)), k % 4)
    ensures v[k] == Group(v, k / 4)[k % 4]
  {
    LegalDigits(v);
    var digits := HexDigitText(v);
    assert digits[|digits| - 1 - k / 4] == GroupChar(Group(v, k / 4));
  }

  /** Printing in hexadecimal and reading back is the identity exactly on uniform groups. */
  lemma HexRoundTrip(v: BitVec)
    ensures LegalLiteral(HexText(v))
    ensures FromLiteral(HexText(v)) == v <==> UniformGroups(v)
  {
    LiteralShape(v);
    var w := FromHexDigits(|v|, HexDigitText(v));
    if UniformGroups(v) {
      forall k | 0 <= k < |v| ensures w[k] == v[k] {
        BitReadBack(v, k);
        GroupRoundTrip(Group(v, k / 4));
      }
    }
    if w == v {
      forall g | 0 <= g && 4 * g < |v| ensures Uniform(Group(v, g)) {
        GroupReadBack(v, g);
      }
    }
  }

  lemma MixedChar(v: BitVec)
    requires v == [One, X, Zero, One]
    ensures Group(v, 0) == v && GroupChar(v) == 'x'
  {
    assert v[0].IsBinary() && !v[1].IsBinary() && FirstAbnormal(v) == 1;
  }

  /** A group that mixes kinds is printed as one letter and read back as four bits of that kind. */
  lemma MixedGroup(v: BitVec)
    requires v == [One, X, Zero, One]
    ensures HexDigitText(v) == "x" && LegalLiteral(HexText(v))
    ensures FromLiteral(HexText(v)) == [X, X, X, X] && FromLiteral(HexText(v)) != v
  {
    hide LegalLiteral, FromLiteral, HexText, GroupChar;
    LiteralShape(v);
    MixedChar(v);
    assert HexDigitText(v) == [GroupChar(Group(v, 0))];
    var w := FromHexDigits(|v|, HexDigitText(v));
    forall k | 0 <= k < 4 ensures w[k] == X {
      BitReadBack(v, k);
    }
    assert w == [X, X, X, X];
  }

  lemma GroupReadBit(v: BitVec, g: nat, j: nat)
    requires 4 * g < |v| && j < |Group(v, g)|
    requires forall i :: 0 <= i < |HexDigitText(v)| ==> LegalHex(HexDigitText(v)[i])
    requires FromHexDigits(|v|, HexDigitText(v)) == v
    ensures HexBit(GroupChar(Group(v, g)), j) == Group(v, g)[j]
  {
    var k := 4 * g + j;
    assert k / 4 == g && k % 4 == j && k < |v|;
    BitReadBack(v, k);
  }

  lemma GroupReadBack(v: BitVec, g: nat)
    requires 4 * g < |v|
    requires forall i :: 0 <= i < |HexDigitText(v)| ==> LegalHex(HexDigitText(v)[i])
    requires FromHexDigits(|v|, HexDigitText(v)) == v
    ensures Uniform(Group(v, g))
  {
    forall j | 0 <= j < |Group(v, g)| ensures HexBit(GroupChar(Group(v, g)), j) == Group(v, g)[j] {
      GroupReadBit(v, g, j);
    }
    GroupRoundTrip(Group(v, g));
  }
}
