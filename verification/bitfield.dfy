/** Views of bit fields inside a 32-bit register (include/coact/bitfield.hpp). A register is the
    sequence of its bits, least significant first. */
module BitField {
  type Bits = seq<bool>

  predicate Word(w: Bits) {
    |w| == 32
  }

  function Not(a: Bits): (w: Bits)
    requires Word(a)
    ensures Word(w) && forall i :: 0 <= i < 32 ==> w[i] == !a[i]
  {
    seq(32, i requires 0 <= i < 32 => !a[i])
  }

  function And(a: Bits, b: Bits): (w: Bits)
    requires Word(a) && Word(b)
    ensures Word(w) && forall i :: 0 <= i < 32 ==> w[i] == (a[i] && b[i])
  {
    seq(32, i requires 0 <= i < 32 => a[i] && b[i])
  }

  function Or(a: Bits, b: Bits): (w: Bits)
    requires Word(a) && Word(b)
    ensures Word(w) && forall i :: 0 <= i < 32 ==> w[i] == (a[i] || b[i])
  {
    seq(32, i requires 0 <= i < 32 => a[i] || b[i])
  }

  function ShiftLeft(a: Bits, n: nat): (w: Bits)
    requires Word(a)
    ensures Word(w) && forall i :: 0 <= i < 32 ==> w[i] == (i >= n && a[i - n])
  {
    seq(32, i requires 0 <= i < 32 => i >= n && a[i - n])
  }

  function ShiftRight(a: Bits, n: nat): (w: Bits)
    requires Word(a)
    ensures Word(w) && forall i :: 0 <= i < 32 ==> w[i] == (i + n < 32 && a[i + n])
  {
    seq(32, i requires 0 <= i < 32 => i + n < 32 && a[i + n])
  }

  /** The field of bits offset..offset+width. */
  datatype Field = Field(offset: nat, width: nat)

  predicate ValidField(f: Field) {
    0 < f.width && f.offset + f.width <= 32
  }

  function Mask(f: Field): (w: Bits)
    requires ValidField(f)
    ensures Word(w) && forall i :: 0 <= i < 32 ==> w[i] == (f.offset <= i < f.offset + f.width)
  {
    seq(32, i => f.offset <= i < f.offset + f.width)
  }

  function Read(f: Field, reg: Bits): (w: Bits)
    requires ValidField(f) && Word(reg)
    ensures Word(w)
  {
    ShiftRight(And(reg, Mask(f)), f.offset)
  }

  function Write(f: Field, reg: Bits, val: Bits): (w: Bits)
    requires ValidField(f) && Word(reg) && Word(val)
    ensures Word(w)
  {
    Or(And(reg, Not(Mask(f))), And(ShiftLeft(val, f.offset), Mask(f)))
  }

  function Zero(): (w: Bits)
    ensures Word(w) && forall i :: 0 <= i < 32 ==> !w[i]
  {
    seq(32, i => false)
  }

  /** The compile-time check that two fields share no bit. */
  predicate Disjoint(f: Field, g: Field)
    requires ValidField(f) && ValidField(g)
  {
    And(Mask(f), Mask(g)) == Zero()
  }

  /** A write reads back as the low bits of its value and moves no bit outside its field. */
  lemma WriteReadsBack(f: Field, reg: Bits, val: Bits)
    requires ValidField(f) && Word(reg) && Word(val)
    ensures Read(f, Write(f, reg, val)) == And(val, Mask(Field(0, f.width)))
    ensures forall i :: 0 <= i < 32 && !(f.offset <= i < f.offset + f.width) ==> Write(f, reg, val)[i] == reg[i]
  {
    var w := Write(f, reg, val);
    forall i | 0 <= i < 32
      ensures Read(f, w)[i] == And(val, Mask(Field(0, f.width)))[i]
    {
      assert i < f.width ==> w[i + f.offset] == val[i];
    }
  }

  lemma DisjointApart(f: Field, g: Field, i: int)
    requires ValidField(f) && ValidField(g) && Disjoint(f, g) && 0 <= i < 32
    ensures !(Mask(f)[i] && Mask(g)[i])
  {
    assert !And(Mask(f), Mask(g))[i];
  }

  /** Writing one field neither shows in a disjoint one nor depends on the order of the writes. */
  lemma DisjointFieldsIndependent(f: Field, g: Field, reg: Bits, v: Bits, u: Bits)
    requires ValidField(f) && ValidField(g) && Disjoint(f, g) && Word(reg) && Word(v) && Word(u)
    ensures Read(g, Write(f, reg, v)) == Read(g, reg)
    ensures Write(g, Write(f, reg, v), u) == Write(f, Write(g, reg, u), v)
  {
    forall i | 0 <= i < 32
      ensures !(Mask(f)[i] && Mask(g)[i])
    {
      DisjointApart(f, g, i);
    }
    assert And(Write(f, reg, v), Mask(g)) == And(reg, Mask(g));
    assert Write(g, Write(f, reg, v), u) == Write(f, Write(g, reg, u), v);
  }
}
