/** The breaker's word bit by bit: the shifts, joins and masks of the source give the numbers that
    module Breaker computes with (include/coact/monitor.hpp). */
module BreakerWord {
  import opened BitField
  import opened Breaker
  import Crc

  function WordOf(n: nat): (w: Bits)
    ensures Word(w)
  {
    Crc.BitsOf(n, 32)
  }

  function Falses(n: nat): (w: Bits)
    ensures |w| == n && forall i :: 0 <= i < n ==> !w[i]
  {
    if n == 0 then [] else Falses(n - 1) + [false]
  }

  /** Some bits, and zeros above them. */
  function Pad(a: Bits): (w: Bits)
    requires |a| <= 32
    ensures Word(w) && forall i :: 0 <= i < 32 ==> w[i] == (i < |a| && a[i])
  {
    a + Falses(32 - |a|)
  }

  // ---- numbers and bits -----------------------------------------------------------------

  lemma {:induction false} ValueOfConcat(a: Bits, b: Bits)
    ensures Crc.ValueOf(a + b) == Crc.ValueOf(a) + Crc.Power(|a|) * Crc.ValueOf(b)
    decreases |a|
  {
    if a == [] {
      assert a + b == b;
    } else {
      var bit := if a[0] then 1 else 0;
      assert (a + b)[1..] == a[1..] + b;
      assert Crc.ValueOf(a + b) == bit + 2 * Crc.ValueOf(a[1..] + b);
      ValueOfConcat(a[1..], b);
      Doubled(Crc.Power(|a[1..]|), Crc.ValueOf(b));
    }
  }

  lemma Doubled(p: int, v: int)
    ensures 2 * (p * v) == (2 * p) * v
  {
  }

  lemma {:induction false} ValueOfFalses(n: nat)
    ensures Crc.ValueOf(Falses(n)) == 0
  {
    if n != 0 {
      ValueOfFalses(n - 1);
      ValueOfConcat(Falses(n - 1), [false]);
      assert [false][1..] == [];
    }
  }

  lemma ValueOfPad(a: Bits)
    requires |a| <= 32
    ensures Crc.ValueOf(Pad(a)) == Crc.ValueOf(a)
  {
    ValueOfZeros(a, 32 - |a|);
  }

  lemma ValueOfZeros(a: Bits, n: nat)
    ensures Crc.ValueOf(a + Falses(n)) == Crc.ValueOf(a)
  {
    var p := Crc.Power(|a|);
    ValueOfConcat(a, Falses(n));
    ValueOfFalses(n);
    assert p * 0 == 0;
  }

  /** A number that fits in w bits has no others. */
  lemma {:induction false} BitsOfSmall(n: nat, w: nat, width: nat, i: nat)
    requires n < Crc.Power(w) && w <= width && i < width
    ensures Crc.BitsOf(n, width)[i] == (i < w && Crc.BitsOf(n, w)[i])
    decreases width
  {
    if w == 0 {
      if i > 0 {
        BitsOfSmall(n / 2, 0, width - 1, i - 1);
      }
    } else if i > 0 {
      BitsOfSmall(n / 2, w - 1, width - 1, i - 1);
    }
  }

  // ---- pack -----------------------------------------------------------------------------

  /** Joining a field that fits, shifted behind the bits already there, appends its bits. */
  lemma JoinField(a: Bits, n: nat, w: nat)
    requires |a| + w <= 32 && n < Crc.Power(w)
    ensures Or(Pad(a), ShiftLeft(WordOf(n), |a|)) == Pad(a + Crc.BitsOf(n, w))
    ensures Crc.ValueOf(a + Crc.BitsOf(n, w)) == Crc.ValueOf(a) + Crc.Power(|a|) * n
  {
    forall i: nat | i < 32 ensures WordOf(n)[i] == (i < w && Crc.BitsOf(n, w)[i]) {
      BitsOfSmall(n, w, 32, i);
    }
    assert Or(Pad(a), ShiftLeft(WordOf(n), |a|)) == Pad(a + Crc.BitsOf(n, w));
    ValueOfConcat(a, Crc.BitsOf(n, w));
    Crc.ValueOfBits(n, w);
  }

  function Flag(b: bool): nat {
    if b then 1 else 0
  }

  /** The word as the source joins it. */
  function PackBits(s: State): (w: Bits)
    requires Fits(s)
    ensures Word(w)
  {
    Or(Or(Or(Or(Or(Or(Or(ShiftLeft(WordOf(CodeOf(s.level)), 0), ShiftLeft(WordOf(s.cooldown), 3)),
                      ShiftLeft(WordOf(s.direct), 19)),
                   ShiftLeft(WordOf(s.rtc), 21)),
                ShiftLeft(WordOf(s.high), 23)),
             ShiftLeft(WordOf(s.low), 25)),
          ShiftLeft(WordOf(s.healthy), 27)),
       ShiftLeft(WordOf(Flag(s.probe)), 29))
  }

  lemma Powers()
    ensures Crc.Power(1) == 2 && Crc.Power(2) == 4 && Crc.Power(3) == 8 && Crc.Power(16) == 0x1_0000
    ensures Crc.Power(19) == 0x8_0000 && Crc.Power(21) == 0x20_0000 && Crc.Power(23) == 0x80_0000
    ensures Crc.Power(25) == 0x200_0000 && Crc.Power(27) == 0x800_0000 && Crc.Power(29) == 0x2000_0000
  {
    assert Crc.Power(4) == 16 && Crc.Power(8) == 256 && Crc.Power(12) == 4096;
    assert Crc.Power(17) == 2 * Crc.Power(16);
    assert Crc.Power(20) == 2 * Crc.Power(19);
    assert Crc.Power(22) == 2 * Crc.Power(21);
    assert Crc.Power(24) == 2 * Crc.Power(23);
    assert Crc.Power(26) == 2 * Crc.Power(25);
    assert Crc.Power(28) == 2 * Crc.Power(27);
  }

  lemma FirstField(n: nat, w: nat)
    requires w <= 32 && n < Crc.Power(w)
    ensures ShiftLeft(WordOf(n), 0) == Pad(Crc.BitsOf(n, w)) && Crc.ValueOf(Crc.BitsOf(n, w)) == n
  {
    forall i: nat | i < 32 ensures WordOf(n)[i] == (i < w && Crc.BitsOf(n, w)[i]) {
      BitsOfSmall(n, w, 32, i);
    }
    Crc.ValueOfBits(n, w);
  }

  /** The number of the joined word is the packed number. */
  lemma PackBitsIsPack(s: State)
    requires Fits(s)
    ensures Crc.ValueOf(PackBits(s)) == Pack(s)
  {
    Powers();
    var a1 := Crc.BitsOf(CodeOf(s.level), 3);
    var a2 := a1 + Crc.BitsOf(s.cooldown, 16);
    var a3 := a2 + Crc.BitsOf(s.direct, 2);
    var a4 := a3 + Crc.BitsOf(s.rtc, 2);
    var a5 := a4 + Crc.BitsOf(s.high, 2);
    var a6 := a5 + Crc.BitsOf(s.low, 2);
    var a7 := a6 + Crc.BitsOf(s.healthy, 2);
    var a8 := a7 + Crc.BitsOf(Flag(s.probe), 1);
    FirstField(CodeOf(s.level), 3);
    JoinField(a1, s.cooldown, 16);
    JoinField(a2, s.direct, 2);
    JoinField(a3, s.rtc, 2);
    JoinField(a4, s.high, 2);
    JoinField(a5, s.low, 2);
    JoinField(a6, s.healthy, 2);
    JoinField(a7, Flag(s.probe), 1);
    ValueOfPad(a8);
  }

  // ---- unpack ---------------------------------------------------------------------------

  lemma TwoQuotients(p: int, q: int, x: int, y: int, z: int, u: int, v: int)
    requires 0 <= x < p && 0 <= y < q && u == y + q * z && v == x + p * u
    ensures (v / p) % q == y
  {
    QuotientOf(p, u, x);
    QuotientOf(q, z, y);
  }

  /** The quotient of a concatenation, taken apart at the given places. */
  lemma MiddlePart(w: Bits, low: Bits, field: Bits, high: Bits, k: nat, width: nat)
    requires w == low + (field + high) && |low| == k && |field| == width
    ensures (Crc.ValueOf(w) / Crc.Power(k)) % Crc.Power(width) == Crc.ValueOf(field)
  {
    ValueOfConcat(low, field + high);
    ValueOfConcat(field, high);
    Crc.BitsOfValue(low);
    Crc.BitsOfValue(field);
    TwoQuotients(Crc.Power(k), Crc.Power(width), Crc.ValueOf(low), Crc.ValueOf(field), Crc.ValueOf(high),
                 Crc.ValueOf(field + high), Crc.ValueOf(w));
  }

  lemma QuotientIsPart(w: Bits, k: nat, width: nat)
    requires k + width <= |w|
    ensures (Crc.ValueOf(w) / Crc.Power(k)) % Crc.Power(width) == Crc.ValueOf(w[k..k + width])
  {
    var low, field, high := w[..k], w[k..k + width], w[k + width..];
    assert w == low + (field + high);
    MiddlePart(w, low, field, high, k, width);
  }

  /** Shifting a word down and masking it reads the quotient's low bits. */
  lemma MaskedIsQuotient(w: Bits, k: nat, width: nat, d: int, m: int)
    requires Word(w) && 0 < width && k + width <= 32 && d == Crc.Power(k) && m == Crc.Power(width)
    ensures Crc.ValueOf(And(ShiftRight(w, k), Mask(Field(0, width)))) == (Crc.ValueOf(w) / d) % m
  {
    var part := w[k..k + width];
    MaskedIsPart(w, k, width);
    ValueOfPad(part);
    QuotientIsPart(w, k, width);
  }

  lemma MaskedIsPart(w: Bits, k: nat, width: nat)
    requires Word(w) && 0 < width && k + width <= 32
    ensures And(ShiftRight(w, k), Mask(Field(0, width))) == Pad(w[k..k + width])
  {
  }

  /** The fields as the source reads them from the word. */
  function UnpackBits(w: Bits): State
    requires Word(w)
  {
    State(LevelOf(Crc.ValueOf(And(w, Mask(Field(0, 3))))),
          Crc.ValueOf(And(ShiftRight(w, 3), Mask(Field(0, 16)))),
          Crc.ValueOf(And(ShiftRight(w, 19), Mask(Field(0, 2)))),
          Crc.ValueOf(And(ShiftRight(w, 21), Mask(Field(0, 2)))),
          Crc.ValueOf(And(ShiftRight(w, 23), Mask(Field(0, 2)))),
          Crc.ValueOf(And(ShiftRight(w, 25), Mask(Field(0, 2)))),
          Crc.ValueOf(And(ShiftRight(w, 27), Mask(Field(0, 2)))),
          Crc.ValueOf(And(ShiftRight(w, 29), Mask(Field(0, 1)))) != 0)
  }

  lemma HeadBits(w: Bits)
    requires Word(w)
    ensures UnpackBits(w).level == LevelOf(Crc.ValueOf(w) % 8)
    ensures UnpackBits(w).cooldown == (Crc.ValueOf(w) / 0x8) % 0x1_0000
  {
    Powers();
    assert ShiftRight(w, 0) == w;
    MaskedIsQuotient(w, 0, 3, 1, 8);
    MaskedIsQuotient(w, 3, 16, 8, 0x1_0000);
  }

  lemma MiddleBits(w: Bits)
    requires Word(w)
    ensures UnpackBits(w).direct == (Crc.ValueOf(w) / 0x8_0000) % 4
    ensures UnpackBits(w).rtc == (Crc.ValueOf(w) / 0x20_0000) % 4
    ensures UnpackBits(w).high == (Crc.ValueOf(w) / 0x80_0000) % 4
  {
    Powers();
    MaskedIsQuotient(w, 19, 2, 0x8_0000, 4);
    MaskedIsQuotient(w, 21, 2, 0x20_0000, 4);
    MaskedIsQuotient(w, 23, 2, 0x80_0000, 4);
  }

  lemma TailBits(w: Bits)
    requires Word(w)
    ensures UnpackBits(w).low == (Crc.ValueOf(w) / 0x200_0000) % 4
    ensures UnpackBits(w).healthy == (Crc.ValueOf(w) / 0x800_0000) % 4
    ensures UnpackBits(w).probe == ((Crc.ValueOf(w) / 0x2000_0000) % 2 != 0)
  {
    Powers();
    MaskedIsQuotient(w, 25, 2, 0x200_0000, 4);
    MaskedIsQuotient(w, 27, 2, 0x800_0000, 4);
    MaskedIsQuotient(w, 29, 1, 0x2000_0000, 2);
  }

  lemma UnpackBitsIsUnpack(w: Bits)
    requires Word(w)
    ensures UnpackBits(w) == Unpack(Crc.ValueOf(w))
  {
    HeadBits(w);
    MiddleBits(w);
    TailBits(w);
  }

  /** The source's pack and unpack, bit by bit, give every state that fits back. */
  lemma BitsRoundTrip(s: State)
    requires Fits(s)
    ensures UnpackBits(PackBits(s)) == s
  {
    UnpackBitsIsUnpack(PackBits(s));
    PackBitsIsPack(s);
    UnpackOfPack(s);
  }
}
