/**
  Single-bit read-modify-write on an 8-bit AVR I/O register.

  The firmware drives a pin with `reg |= BIT(pin)` and `reg &= ~BIT(pin)`
  where `BIT(n)` is `1 << n`. Registers are modelled as `bv8`, the bit
  index as a `nat` that must be below 8 for `BIT` to fit in the register.
 */
module Bits {

  /**
    `BIT(n)`: the mask with only bit `n` set, spelled out per bit index
    (`BitIsShift` proves it equal to `1 << n`).
   */
  function Bit(n: nat): bv8
    requires n < 8
  {
    if n == 0 then 0x01
    else if n == 1 then 0x02
    else if n == 2 then 0x04
    else if n == 3 then 0x08
    else if n == 4 then 0x10
    else if n == 5 then 0x20
    else if n == 6 then 0x40
    else 0x80
  }

  /** True when bit `i` of `v` is 1 (the pin reads as high). */
  predicate TestBit(v: bv8, i: nat)
    requires i < 8
  {
    v & Bit(i) != 0
  }

  /** The mask is the source's `1 << n`. */
  lemma BitIsShift(n: nat)
    requires n < 8
    ensures Bit(n) == (1 as bv8) << n
  {
  }

  /** `v | BIT(n)`: the `'H'` half of a pin write. */
  function SetBit(v: bv8, n: nat): (r: bv8)
    requires n < 8
    ensures r & Bit(n) == Bit(n)            // bit n is 1
    ensures r & !Bit(n) == v & !Bit(n)      // every other bit as in v
  {
    v | Bit(n)
  }

  /** `v & ~BIT(n)`: the `'L'` half of a pin write. */
  function ClearBit(v: bv8, n: nat): (r: bv8)
    requires n < 8
    ensures r & Bit(n) == 0                 // bit n is 0
    ensures r & !Bit(n) == v & !Bit(n)      // every other bit as in v
  {
    v & !Bit(n)
  }

  /** Drive bit `n` to the given level with one read-modify-write. */
  function WriteBit(v: bv8, n: nat, high: bool): bv8
    requires n < 8
  {
    if high then SetBit(v, n) else ClearBit(v, n)
  }

  /** `BIT(n)` has bit `n` and no other bit set. */
  lemma BitIsOneHot(n: nat)
    requires n < 8
    ensures forall i :: 0 <= i < 8 ==> (TestBit(Bit(n), i) <==> i == n)
  {
  }

  /** Writing a level changes bit `n` to that level and leaves the other seven bits alone. */
  lemma WriteBitEffect(v: bv8, n: nat, high: bool)
    requires n < 8
    ensures TestBit(WriteBit(v, n, high), n) == high
    ensures forall i :: 0 <= i < 8 && i != n ==> (TestBit(WriteBit(v, n, high), i) <==> TestBit(v, i))
  {
  }

  /** Two registers that agree on all eight bits are the same register value. */
  lemma BitsDetermine(a: bv8, b: bv8)
    requires forall i :: 0 <= i < 8 ==> (TestBit(a, i) <==> TestBit(b, i))
    ensures a == b
  {
    assert TestBit(a, 0) == TestBit(b, 0);
    assert TestBit(a, 1) == TestBit(b, 1);
    assert TestBit(a, 2) == TestBit(b, 2);
    assert TestBit(a, 3) == TestBit(b, 3);
    assert TestBit(a, 4) == TestBit(b, 4);
    assert TestBit(a, 5) == TestBit(b, 5);
    assert TestBit(a, 6) == TestBit(b, 6);
    assert TestBit(a, 7) == TestBit(b, 7);
  }

  /** Writing the same bit twice: only the second write is visible. */
  lemma LastWriteWins(v: bv8, n: nat, first: bool, second: bool)
    requires n < 8
    ensures WriteBit(WriteBit(v, n, first), n, second) == WriteBit(v, n, second)
  {
  }

  /** Writing a bit to the level it already has leaves the register as it was. */
  lemma WriteSameLevel(v: bv8, n: nat, high: bool)
    requires n < 8 && TestBit(v, n) == high
    ensures WriteBit(v, n, high) == v
  {
    var r := WriteBit(v, n, high);
    WriteBitEffect(v, n, high);
    BitsDetermine(r, v);
  }
}
