/**
 Masked header slots. A slot holds a value under a mask; a packet field is on the slot when
 it agrees with the value wherever the mask is set. A slot is written from an optional
 masked value, from an optional exact value, or left open.
 */
module AclBits {
  import opened Options

  datatype Masked<T> = Masked(value: T, mask: T)

  function And3(x: bv3, m: bv3): bv3 { x & m }
  function And8(x: bv8, m: bv8): bv8 { x & m }
  function And12(x: bv12, m: bv12): bv12 { x & m }
  function And16(x: bv16, m: bv16): bv16 { x & m }
  function And32(x: bv32, m: bv32): bv32 { x & m }
  function And48(x: bv48, m: bv48): bv48 { x & m }
  function And128(x: bv128, m: bv128): bv128 { x & m }
  function Not16(x: bv16): bv16 { !x }

  predicate On3(x: bv3, s: Masked<bv3>) { And3(x, s.mask) == And3(s.value, s.mask) }
  predicate On8(x: bv8, s: Masked<bv8>) { And8(x, s.mask) == And8(s.value, s.mask) }
  predicate On12(x: bv12, s: Masked<bv12>) { And12(x, s.mask) == And12(s.value, s.mask) }
  predicate On16(x: bv16, s: Masked<bv16>) { And16(x, s.mask) == And16(s.value, s.mask) }
  predicate On32(x: bv32, s: Masked<bv32>) { And32(x, s.mask) == And32(s.value, s.mask) }
  predicate On48(x: bv48, s: Masked<bv48>) { And48(x, s.mask) == And48(s.value, s.mask) }
  predicate On128(x: bv128, s: Masked<bv128>) { And128(x, s.mask) == And128(s.value, s.mask) }

  // The masked match setters store the value under its mask.

  function Slot16(f: Option<Masked<bv16>>): Masked<bv16> {
    if f.Some? then Masked(And16(f.value.value, f.value.mask), f.value.mask) else Masked(0, 0)
  }

  function Slot32(f: Option<Masked<bv32>>): Masked<bv32> {
    if f.Some? then Masked(And32(f.value.value, f.value.mask), f.value.mask) else Masked(0, 0)
  }

  function Slot48(f: Option<Masked<bv48>>): Masked<bv48> {
    if f.Some? then Masked(And48(f.value.value, f.value.mask), f.value.mask) else Masked(0, 0)
  }

  function Slot128(f: Option<Masked<bv128>>): Masked<bv128> {
    if f.Some? then Masked(And128(f.value.value, f.value.mask), f.value.mask) else Masked(0, 0)
  }

  // The exact ones set every bit of the mask.

  function Exact3(f: Option<bv3>): Masked<bv3> {
    if f.Some? then Masked(f.value, 0x7) else Masked(0, 0)
  }

  function Exact8(f: Option<bv8>): Masked<bv8> {
    if f.Some? then Masked(f.value, 0xFF) else Masked(0, 0)
  }

  function Exact12(f: Option<bv12>): Masked<bv12> {
    if f.Some? then Masked(f.value, 0xFFF) else Masked(0, 0)
  }

  function Exact16(f: Option<bv16>): Masked<bv16> {
    if f.Some? then Masked(f.value, 0xFFFF) else Masked(0, 0)
  }

  // Facts about bare bit vectors.

  lemma And3Facts(v: bv3, m: bv3)
    ensures And3(And3(v, m), m) == And3(v, m)
    ensures And3(v, 0) == 0
    ensures And3(v, 0x7) == v
  {
  }

  lemma And8Facts(v: bv8, m: bv8)
    ensures And8(And8(v, m), m) == And8(v, m)
    ensures And8(v, 0) == 0
    ensures And8(v, 0xFF) == v
  {
  }

  lemma And12Facts(v: bv12, m: bv12)
    ensures And12(And12(v, m), m) == And12(v, m)
    ensures And12(v, 0) == 0
    ensures And12(v, 0xFFF) == v
  {
  }

  lemma And16Facts(v: bv16, m: bv16)
    ensures And16(And16(v, m), m) == And16(v, m)
    ensures And16(v, 0) == 0
    ensures And16(v, 0xFFFF) == v
  {
  }

  lemma And32Facts(v: bv32, m: bv32)
    ensures And32(And32(v, m), m) == And32(v, m)
    ensures And32(v, 0) == 0
  {
  }

  lemma And48Facts(v: bv48, m: bv48)
    ensures And48(And48(v, m), m) == And48(v, m)
    ensures And48(v, 0) == 0
  {
  }

  lemma And128Facts(v: bv128, m: bv128)
    ensures And128(And128(v, m), m) == And128(v, m)
    ensures And128(v, 0) == 0
  {
  }

  // A packet field on a slot satisfies exactly what the slot was written from.

  lemma Slot16On(f: Option<Masked<bv16>>, x: bv16)
    ensures On16(x, Slot16(f)) <==> (f.Some? ==> On16(x, f.value))
  {
    hide And16;
    if f.Some? {
      And16Facts(f.value.value, f.value.mask);
    } else {
      And16Facts(x, 0);
      And16Facts(0, 0);
    }
  }

  lemma Slot32On(f: Option<Masked<bv32>>, x: bv32)
    ensures On32(x, Slot32(f)) <==> (f.Some? ==> On32(x, f.value))
  {
    hide And32;
    if f.Some? {
      And32Facts(f.value.value, f.value.mask);
    } else {
      And32Facts(x, 0);
      And32Facts(0, 0);
    }
  }

  lemma Slot48On(f: Option<Masked<bv48>>, x: bv48)
    ensures On48(x, Slot48(f)) <==> (f.Some? ==> On48(x, f.value))
  {
    hide And48;
    if f.Some? {
      And48Facts(f.value.value, f.value.mask);
    } else {
      And48Facts(x, 0);
      And48Facts(0, 0);
    }
  }

  lemma Slot128On(f: Option<Masked<bv128>>, x: bv128)
    ensures On128(x, Slot128(f)) <==> (f.Some? ==> On128(x, f.value))
  {
    hide And128;
    if f.Some? {
      And128Facts(f.value.value, f.value.mask);
    } else {
      And128Facts(x, 0);
      And128Facts(0, 0);
    }
  }

  lemma Exact3On(f: Option<bv3>, x: bv3)
    ensures On3(x, Exact3(f)) <==> (f.Some? ==> x == f.value)
  {
    hide And3;
    And3Facts(x, 0);
    And3Facts(Exact3(f).value, 0);
  }

  lemma Exact8On(f: Option<bv8>, x: bv8)
    ensures On8(x, Exact8(f)) <==> (f.Some? ==> x == f.value)
  {
    hide And8;
    And8Facts(x, 0);
    And8Facts(Exact8(f).value, 0);
  }

  lemma Exact12On(f: Option<bv12>, x: bv12)
    ensures On12(x, Exact12(f)) <==> (f.Some? ==> x == f.value)
  {
    hide And12;
    And12Facts(x, 0);
    And12Facts(Exact12(f).value, 0);
  }

  lemma Exact16On(f: Option<bv16>, x: bv16)
    ensures On16(x, Exact16(f)) <==> (f.Some? ==> x == f.value)
  {
    hide And16;
    And16Facts(x, 0);
    And16Facts(Exact16(f).value, 0);
  }

  /** Flipping the bits of a mask that is not empty leaves the slot. */
  lemma Flip32(v: bv32, m: bv32)
    ensures m != 0 ==> And32(v ^ m, m) != And32(v, m)
    ensures And32(v, 0) == 0
  {
  }

  /** Flipping the bits of a mask that is not empty leaves the slot. */
  lemma Flip128(v: bv128, m: bv128)
    ensures m != 0 ==> And128(v ^ m, m) != And128(v, m)
    ensures And128(v, 0) == 0
  {
  }

  /** Zero under the mask ~port admits the port itself. */
  lemma ComplementAdmits(port: bv16)
    ensures And16(port, Not16(port)) == And16(0, Not16(port))
  {
  }
}
