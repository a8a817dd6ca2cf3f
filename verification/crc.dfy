/** The table-driven CRC of the serial link: generator x^16 + x^12 + x^5 + 1, initial value 0, no
    reflection (examples/serial_ota/protocol.hpp). A machine word is the sequence of its bits,
    bit i being the coefficient of x^i. */
module Crc {
  type Byte = n: int | 0 <= n < 256

  type Bits = seq<bool>

  predicate Word(w: Bits) {
    |w| == 16
  }

  /** The bits of a number, and the number of some bits. */
  function BitsOf(n: nat, width: nat): (w: Bits)
    ensures |w| == width
    decreases width, n
  {
    if width == 0 then [] else [n % 2 == 1] + BitsOf(n / 2, width - 1)
  }

  function ValueOf(w: Bits): nat {
    if w == [] then 0 else (if w[0] then 1 else 0) + 2 * ValueOf(w[1..])
  }

  function Power(n: nat): (p: nat)
    ensures p > 0
  {
    if n == 0 then 1 else 2 * Power(n - 1)
  }

  lemma {:induction false} ValueOfBits(n: int, width: nat)
    requires 0 <= n < Power(width)
    ensures ValueOf(BitsOf(n, width)) == n
    decreases width
  {
    if width != 0 {
      ValueOfBits(n / 2, width - 1);
    }
  }

  lemma {:induction false} BitsOfValue(w: Bits)
    ensures ValueOf(w) < Power(|w|)
    ensures BitsOf(ValueOf(w), |w|) == w
  {
    if w != [] {
      BitsOfValue(w[1..]);
    }
  }

  // ---- the division ---------------------------------------------------------------------

  function Xor(a: Bits, b: Bits): (w: Bits)
    requires Word(a) && Word(b)
    ensures Word(w) && forall i :: 0 <= i < 16 ==> w[i] == (a[i] != b[i])
  {
    seq(16, i requires 0 <= i < 16 => a[i] != b[i])
  }

  /** Shift left. */
  function Shift(w: Bits, n: nat): (s: Bits)
    requires Word(w)
    ensures Word(s) && forall i :: 0 <= i < 16 ==> s[i] == (i >= n && w[i - n])
  {
    seq(16, i requires 0 <= i < 16 => i >= n && w[i - n])
  }

  const ZERO_BYTE: Bits := [false, false, false, false, false, false, false, false]
  const ZERO: Bits := ZERO_BYTE + ZERO_BYTE

  /** 0x1021. */
  function Poly(): (w: Bits)
    ensures Word(w) && forall i :: 0 <= i < 16 ==> w[i] == (i == 0 || i == 5 || i == 12)
  {
    seq(16, i => i == 0 || i == 5 || i == 12)
  }

  /** One bit of the division by the generator polynomial. */
  function BitStep(w: Bits): (s: Bits)
    requires Word(w)
    ensures Word(s)
  {
    if w[15] then Xor(Shift(w, 1), Poly()) else Shift(w, 1)
  }

  function BitSteps(w: Bits, n: nat): (s: Bits)
    requires Word(w)
    ensures Word(s)
  {
    if n == 0 then w else BitStep(BitSteps(w, n - 1))
  }

  lemma BitStepXor(a: Bits, b: Bits)
    requires Word(a) && Word(b)
    ensures BitStep(Xor(a, b)) == Xor(BitStep(a), BitStep(b))
  {
  }

  lemma BitStepInjective(a: Bits, b: Bits)
    requires Word(a) && Word(b) && BitStep(a) == BitStep(b)
    ensures a == b
  {
    assert BitStep(a)[0] == a[15] && BitStep(b)[0] == b[15];
    forall i | 0 <= i < 15
      ensures a[i] == b[i]
    {
      assert BitStep(a)[i + 1] == BitStep(b)[i + 1];
    }
  }

  /** The division is linear. */
  lemma {:induction false} BitStepsXor(a: Bits, b: Bits, n: nat)
    requires Word(a) && Word(b)
    ensures BitSteps(Xor(a, b), n) == Xor(BitSteps(a, n), BitSteps(b, n))
  {
    if n != 0 {
      BitStepsXor(a, b, n - 1);
      BitStepXor(BitSteps(a, n - 1), BitSteps(b, n - 1));
    }
  }

  /** The division loses nothing. */
  lemma {:induction false} BitStepsInjective(a: Bits, b: Bits, n: nat)
    requires Word(a) && Word(b) && BitSteps(a, n) == BitSteps(b, n)
    ensures a == b
  {
    if n != 0 {
      BitStepInjective(BitSteps(a, n - 1), BitSteps(b, n - 1));
      BitStepsInjective(a, b, n - 1);
    }
  }

  /** A word of at most eight bits just moves up. */
  lemma {:induction false} BitStepsOfLow(w: Bits, n: nat)
    requires Word(w) && n <= 8 && forall i :: 8 <= i < 16 ==> !w[i]
    ensures BitSteps(w, n) == Shift(w, n)
  {
    if n != 0 {
      BitStepsOfLow(w, n - 1);
    }
  }

  // ---- the CRC --------------------------------------------------------------------------

  /** A byte in the upper half of a word. */
  function Raise(b: Bits): (w: Bits)
    requires |b| == 8
    ensures Word(w) && forall i :: 0 <= i < 16 ==> w[i] == (i >= 8 && b[i - 8])
  {
    ZERO_BYTE + b
  }

  /** Take in one byte, bit by bit. */
  function TakeByte(r: Bits, b: Byte): (s: Bits)
    requires Word(r)
    ensures Word(s)
  {
    BitSteps(Xor(r, Raise(BitsOf(b, 8))), 8)
  }

  /** The remainder of the division after the bytes. */
  function Remainder(data: seq<Byte>): (r: Bits)
    ensures Word(r)
  {
    if data == [] then ZERO else TakeByte(Remainder(data[..|data| - 1]), data[|data| - 1])
  }

  function Crc16(data: seq<Byte>): int {
    ValueOf(Remainder(data))
  }

  // ---- the table ------------------------------------------------------------------------

  function Entry(i: nat): (w: Bits)
    ensures Word(w)
  {
    BitSteps(Raise(BitsOf(i, 8)), 8)
  }

  predicate IsTable(table: seq<Bits>) {
    |table| == 256 && forall i :: 0 <= i < 256 ==> table[i] == Entry(i)
  }

  /** The inner loop of the table's constructor. */
  method MakeEntry(i: nat) returns (crc: Bits)
    ensures crc == Entry(i)
  {
    crc := Raise(BitsOf(i, 8));
    var j := 0;
    while j < 8
      invariant 0 <= j <= 8 && Word(crc) && crc == BitSteps(Raise(BitsOf(i, 8)), j)
    {
      crc := if crc[15] then Xor(Shift(crc, 1), Poly()) else Shift(crc, 1);
      j := j + 1;
    }
  }

  /** Fill the lookup table. */
  method MakeTable() returns (table: array<Bits>)
    ensures fresh(table) && IsTable(table[..])
  {
    table := new Bits[256];
    var i := 0;
    while i < 256
      invariant 0 <= i <= 256
      invariant forall k :: 0 <= k < i ==> table[k] == Entry(k)
    {
      var crc := MakeEntry(i);
      table[i] := crc;
      i := i + 1;
    }
  }

  /** The upper byte of the word combined with the next byte: which entry to look up. */
  function Index(r: Bits, b: Byte): (w: Bits)
    requires Word(r)
    ensures |w| == 8
  {
    seq(8, i requires 0 <= i < 8 => r[i + 8] != BitsOf(b, 8)[i])
  }

  lemma IndexInRange(r: Bits, b: Byte)
    requires Word(r)
    ensures ValueOf(Index(r, b)) < 256 && BitsOf(ValueOf(Index(r, b)), 8) == Index(r, b)
  {
    BitsOfValue(Index(r, b));
    assert Power(8) == 256 by {
      assert Power(4) == 16;
    }
  }

  /** Looking up the upper byte does what eight bit steps do. */
  lemma LookupIsTakeByte(r: Bits, b: Byte)
    requires Word(r)
    ensures Xor(Shift(r, 8), BitSteps(Raise(Index(r, b)), 8)) == TakeByte(r, b)
  {
    var low := r[..8] + ZERO_BYTE;
    assert Xor(r, Raise(BitsOf(b, 8))) == Xor(low, Raise(Index(r, b)));
    BitStepsXor(low, Raise(Index(r, b)), 8);
    BitStepsOfLow(low, 8);
    assert Shift(low, 8) == Shift(r, 8);
  }

  lemma LookupStep(table: seq<Bits>, r: Bits, b: Byte)
    requires IsTable(table) && Word(r)
    ensures ValueOf(Index(r, b)) < |table|
    ensures Xor(Shift(r, 8), table[ValueOf(Index(r, b))]) == TakeByte(r, b)
  {
    IndexInRange(r, b);
    LookupIsTakeByte(r, b);
    assert table[ValueOf(Index(r, b))] == Entry(ValueOf(Index(r, b)));
  }

  lemma RemainderSnoc(data: seq<Byte>, n: nat)
    requires n < |data|
    ensures Remainder(data[..n + 1]) == TakeByte(Remainder(data[..n]), data[n])
  {
    assert data[..n + 1][..n] == data[..n];
  }

  /** The table-driven loop computes the bitwise CRC. */
  method CalcCrc16(table: array<Bits>, data: seq<Byte>) returns (crc: int)
    requires IsTable(table[..])
    ensures crc == Crc16(data)
  {
    var r := ZERO;
    var n := 0;
    while n < |data|
      invariant 0 <= n <= |data| && r == Remainder(data[..n])
    {
      LookupStep(table[..], r, data[n]);
      RemainderSnoc(data, n);
      r := Xor(Shift(r, 8), table[ValueOf(Index(r, data[n]))]);
      n := n + 1;
    }
    assert data[..n] == data;
    crc := ValueOf(r);
  }

  // ---- error detection ------------------------------------------------------------------

  lemma XorCancels(a: Bits, b: Bits, c: Bits)
    requires Word(a) && Word(b) && Word(c) && Xor(a, b) == Xor(a, c)
    ensures b == c
  {
    forall i | 0 <= i < 16
      ensures b[i] == c[i]
    {
      assert Xor(a, b)[i] == Xor(a, c)[i];
    }
  }

  lemma XorCommutes(a: Bits, b: Bits)
    requires Word(a) && Word(b)
    ensures Xor(a, b) == Xor(b, a)
  {
  }

  /** Neither the remainder nor the byte can change without changing the new remainder. */
  lemma TakeByteInjective(r: Bits, s: Bits, b: Byte, c: Byte)
    requires Word(r) && Word(s) && TakeByte(r, b) == TakeByte(s, c) && (r == s || b == c)
    ensures r == s && b == c
  {
    var x, y := Raise(BitsOf(b, 8)), Raise(BitsOf(c, 8));
    BitStepsInjective(Xor(r, x), Xor(s, y), 8);
    XorCommutes(r, x);
    XorCommutes(s, y);
    if r == s {
      XorCancels(r, x, y);
      assert BitsOf(b, 8) == x[8..] && BitsOf(c, 8) == y[8..];
      assert Power(8) == 256 by {
        assert Power(4) == 16;
      }
      ValueOfBits(b, 8);
      ValueOfBits(c, 8);
    } else {
      XorCancels(x, r, s);
    }
  }

  lemma {:induction false} RemainderInjective(a: seq<Byte>, i: nat, b: Byte)
    requires i < |a| && Remainder(a) == Remainder(a[i := b])
    ensures a[i] == b
  {
    var a' := a[i := b];
    var n := |a| - 1;
    if i == n {
      assert a[..n] == a'[..n];
    } else {
      assert a'[..n] == a[..n][i := b];
    }
    if Remainder(a[..n]) == Remainder(a'[..n]) || a[n] == a'[n] {
      TakeByteInjective(Remainder(a[..n]), Remainder(a'[..n]), a[n], a'[n]);
    }
    if i != n {
      RemainderInjective(a[..n], i, b);
    }
  }

  /** Changing one byte changes the CRC. */
  lemma OneByteDetected(a: seq<Byte>, i: nat, b: Byte)
    requires i < |a| && a[i] != b
    ensures Crc16(a) != Crc16(a[i := b])
  {
    if Crc16(a) == Crc16(a[i := b]) {
      BitsOfValue(Remainder(a));
      BitsOfValue(Remainder(a[i := b]));
      RemainderInjective(a, i, b);
    }
  }

  lemma CrcInRange(data: seq<Byte>)
    ensures 0 <= Crc16(data) < 0x1_0000
  {
    BitsOfValue(Remainder(data));
    assert Power(16) == 0x1_0000 by {
      assert Power(4) == 16;
      assert Power(8) == 256;
      assert Power(12) == 4096;
    }
  }
}
