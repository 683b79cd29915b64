/** Catalog items ("belongings") and the bit-set operations that put an item
    into, or take it out of, a selection of items ("gear").

    A gear is a C# `uint`: bit k set means the belonging whose `Number` is k
    is selected. It is modelled as `bv32`, so `|`, `&` and `!` are the
    source's own bitwise operators and wrap-around cannot happen. An item's
    `Number` is a C# `byte`, modelled as `bv8`. */
module Belongings {

  /** A C# `byte`. */
  type Byte = bv8

  /** A selection of catalog items, one bit per item `Number`. */
  type Gear = bv32

  /** A catalog entry. The source's `Belonging` has settable properties, but
      nothing in the core changes an item after it is built, so it is a value. */
  datatype Belonging = Belonging(number: Byte, name: string, gramsWeight: int, value: int)

  /** The C# shift `1 << n` on an `int` uses only the low five bits of `n`. */
  function ShiftCount(number: Byte): bv8
  {
    number & 31
  }

  /** `(uint)(1 << Number)`: the bit that stands for the item. For shift
      count 31 the `int` is negative, and the cast to `uint` gives back bit
      31, so as a `uint` this is always exactly bit `ShiftCount(Number)`. */
  function Mask(b: Belonging): Gear
  {
    (1 as bv32) << ShiftCount(b.number)
  }

  /** The membership test the source evidently intends: the item's bit is set.
      It has the source's shape, `(gear & bit) == bit`, computed on `uint`. */
  predicate InGear(b: Belonging, gear: Gear)
  {
    gear & Mask(b) == Mask(b)
  }

  /** Sets the item's bit. */
  function AddToGear(b: Belonging, gear: Gear): Gear
  {
    gear | Mask(b)
  }

  /** Clears the item's bit. */
  function RemoveFromGear(b: Belonging, gear: Gear): Gear
  {
    gear & !Mask(b)
  }

  /** Widening an `int` to a `long`, bit by bit: the low 32 bits are kept
      and the sign bit (bit 31) is copied into all 32 upper bits. */
  function SignExtend(x: bv32): bv64
  {
    if x & 0x8000_0000 == 0 then x as bv64 else (x as bv64) | 0xFFFF_FFFF_0000_0000
  }

  /** `1 << Number` as the C# `int` it is, widened to the `long` that C# uses
      when an `int` meets a `uint` in `&` and `==`. For shift count 31 the
      `int` is `int.MinValue`, whose widening has all upper bits set. */
  function WidenedShiftedOne(b: Belonging): (w: bv64)
    ensures w == SignExtend((1 as bv32) << ShiftCount(b.number))
  {
    var k := ShiftCount(b.number);
    if k == 31 then
      SignExtendsMinValue();
      0xFFFF_FFFF_8000_0000
    else
      SignExtendsLowBit(k);
      (1 as bv64) << k
  }

  /** The membership test as the source writes it,
      `(gear & (1 << Number)) == (1 << Number)`, evaluated on `long`. */
  predicate IsInGear(b: Belonging, gear: Gear)
  {
    var bit := WidenedShiftedOne(b);
    (gear as bv64) & bit == bit
  }

  /** The item's weight if it is in the gear, otherwise nothing. */
  function GramsWeightInGear(b: Belonging, gear: Gear): int
  {
    if InGear(b, gear) then b.gramsWeight else 0
  }

  /** The item's value if it is in the gear, otherwise nothing. */
  function ValueInGear(b: Belonging, gear: Gear): int
  {
    if InGear(b, gear) then b.value else 0
  }

  // Facts about single bits, stated on plain parameters. The solver proves
  // each quickly on its own; the lemmas about belongings below call them
  // and prove one property each, which keeps every proof small.

  lemma BitsDisjoint(k: bv8, j: bv8)
    requires k < 32 && j < 32 && k != j
    ensures ((1 as bv32) << k) & ((1 as bv32) << j) == 0
  {
  }

  lemma SetKeepsDisjoint(m: Gear, other: Gear, gear: Gear)
    requires m & other == 0
    ensures (gear | m) & other == gear & other
  {
  }

  lemma ClearKeepsDisjoint(m: Gear, other: Gear, gear: Gear)
    requires m & other == 0
    ensures (gear & !m) & other == gear & other
  {
  }

  lemma SetBit(m: Gear, gear: Gear)
    ensures (gear | m) & m == m
  {
  }

  lemma ClearBit(k: bv8, gear: Gear)
    requires k < 32
    ensures (gear & !((1 as bv32) << k)) & ((1 as bv32) << k) != (1 as bv32) << k
  {
  }

  lemma SetKeepsRest(m: Gear, gear: Gear)
    ensures (gear | m) & !m == gear & !m
  {
  }

  lemma ClearKeepsRest(m: Gear, gear: Gear)
    ensures (gear & !m) & !m == gear & !m
  {
  }

  lemma SetTwice(m: Gear, gear: Gear)
    ensures (gear | m) | m == gear | m
  {
  }

  lemma ClearTwice(m: Gear, gear: Gear)
    ensures (gear & !m) & !m == gear & !m
  {
  }

  lemma ClearThenSet(m: Gear, gear: Gear)
    requires gear & m == m
    ensures (gear & !m) | m == gear
  {
  }

  lemma SetThenClear(k: bv8, gear: Gear)
    requires k < 32
    requires gear & ((1 as bv32) << k) != (1 as bv32) << k
    ensures (gear | ((1 as bv32) << k)) & !((1 as bv32) << k) == gear
  {
  }

  lemma SetPresentBit(m: Gear, gear: Gear)
    requires gear & m == m
    ensures gear | m == gear
  {
  }

  lemma ClearAbsentBit(k: bv8, gear: Gear)
    requires k < 32
    requires gear & ((1 as bv32) << k) != (1 as bv32) << k
    ensures gear & !((1 as bv32) << k) == gear
  {
  }

  lemma SignExtendsMinValue()
    ensures SignExtend((1 as bv32) << 31) == 0xFFFF_FFFF_8000_0000
  {
  }

  lemma ShiftBelow31KeepsSignBitClear(k: bv8)
    requires k < 31
    ensures ((1 as bv32) << k) & 0x8000_0000 == 0
  {
  }

  lemma WidenShiftedOne(k: bv8)
    requires k < 31
    ensures ((1 as bv32) << k) as bv64 == (1 as bv64) << k
  {
  }

  lemma SignExtendsLowBit(k: bv8)
    requires k < 31
    ensures SignExtend((1 as bv32) << k) == (1 as bv64) << k
  {
    ShiftBelow31KeepsSignBitClear(k);
    WidenShiftedOne(k);
  }

  lemma WidenedBitTest(k: bv8, gear: Gear)
    requires k < 31
    ensures (gear as bv64) & ((1 as bv64) << k) == (1 as bv64) << k
        <==> gear & ((1 as bv32) << k) == (1 as bv32) << k
  {
  }

  lemma WidenedBit31Test(gear: Gear)
    ensures (gear as bv64) & 0xFFFF_FFFF_8000_0000 != 0xFFFF_FFFF_8000_0000
  {
  }

  /** Below shift count 31 the source's test is exactly the bit test. */
  lemma IsInGearAgrees(b: Belonging, gear: Gear)
    requires ShiftCount(b.number) != 31
    ensures IsInGear(b, gear) <==> InGear(b, gear)
  {
    WidenedBitTest(ShiftCount(b.number), gear);
  }

  /** For an item numbered 31 (mod 32) the source's test is false for every
      gear, in particular right after `AddToGear` has set the item's bit. */
  lemma IsInGearMissesBit31(b: Belonging, gear: Gear)
    requires ShiftCount(b.number) == 31
    ensures !IsInGear(b, AddToGear(b, gear))
  {
    WidenedBit31Test(AddToGear(b, gear));
  }

  /** Below shift count 31 an item's contributions are exactly what the
      source's `GramsWeightInGear` and `ValueInGear` give through `IsInGear`. */
  lemma AmountsInGearAgree(b: Belonging, gear: Gear)
    requires ShiftCount(b.number) != 31
    ensures GramsWeightInGear(b, gear) == (if IsInGear(b, gear) then b.gramsWeight else 0)
    ensures ValueInGear(b, gear) == (if IsInGear(b, gear) then b.value else 0)
  {
    IsInGearAgrees(b, gear);
  }

  lemma Bit31ClearBelow(gear: Gear)
    requires gear < 0x8000_0000
    ensures gear & ((1 as bv32) << 31) != (1 as bv32) << 31
  {
  }

  /** On a gear below bit 31, which is every gear the search visits, the
      source's test is exactly the bit test for every item, shift count 31
      included: such an item is in none of those gears either way. */
  lemma IsInGearAgreesBelowBit31(b: Belonging, gear: Gear)
    requires gear < 0x8000_0000
    ensures IsInGear(b, gear) <==> InGear(b, gear)
  {
    if ShiftCount(b.number) == 31 {
      WidenedBit31Test(gear);
      Bit31ClearBelow(gear);
    } else {
      IsInGearAgrees(b, gear);
    }
  }

  /** On a gear below bit 31 an item's contributions are exactly what the
      source's `GramsWeightInGear` and `ValueInGear` give through `IsInGear`. */
  lemma AmountsInGearAgreeBelowBit31(b: Belonging, gear: Gear)
    requires gear < 0x8000_0000
    ensures GramsWeightInGear(b, gear) == (if IsInGear(b, gear) then b.gramsWeight else 0)
    ensures ValueInGear(b, gear) == (if IsInGear(b, gear) then b.value else 0)
  {
    IsInGearAgreesBelowBit31(b, gear);
  }

  /** After `AddToGear` the item is in the gear. */
  lemma AddPutsItemIn(b: Belonging, gear: Gear)
    ensures InGear(b, AddToGear(b, gear))
  {
    SetBit(Mask(b), gear);
  }

  /** `AddToGear` keeps every bit but the item's. */
  lemma AddKeepsOtherBits(b: Belonging, gear: Gear)
    ensures AddToGear(b, gear) & !Mask(b) == gear & !Mask(b)
  {
    SetKeepsRest(Mask(b), gear);
  }

  /** After `RemoveFromGear` the item is not in the gear. */
  lemma RemoveTakesItemOut(b: Belonging, gear: Gear)
    ensures !InGear(b, RemoveFromGear(b, gear))
  {
    ClearBit(ShiftCount(b.number), gear);
  }

  /** `RemoveFromGear` keeps every bit but the item's. */
  lemma RemoveKeepsOtherBits(b: Belonging, gear: Gear)
    ensures RemoveFromGear(b, gear) & !Mask(b) == gear & !Mask(b)
  {
    ClearKeepsRest(Mask(b), gear);
  }

  /** Taking an item out after putting it into a gear that lacked it gives
      the gear back. */
  lemma RemoveUndoesAdd(b: Belonging, gear: Gear)
    requires !InGear(b, gear)
    ensures RemoveFromGear(b, AddToGear(b, gear)) == gear
  {
    SetThenClear(ShiftCount(b.number), gear);
  }

  /** Putting an item back after taking it out of a gear that had it gives
      the gear back. */
  lemma AddUndoesRemove(b: Belonging, gear: Gear)
    requires InGear(b, gear)
    ensures AddToGear(b, RemoveFromGear(b, gear)) == gear
  {
    ClearThenSet(Mask(b), gear);
  }

  // Adding changes the gear exactly when the item was not in it, and
  // removing changes it exactly when the item was in it: four lemmas, one
  // per direction.

  lemma AddChangesGearWithoutItem(b: Belonging, gear: Gear)
    requires !InGear(b, gear)
    ensures AddToGear(b, gear) != gear
  {
    AddPutsItemIn(b, gear);
  }

  lemma AddKeepsGearWithItem(b: Belonging, gear: Gear)
    requires InGear(b, gear)
    ensures AddToGear(b, gear) == gear
  {
    SetPresentBit(Mask(b), gear);
  }

  lemma RemoveChangesGearWithItem(b: Belonging, gear: Gear)
    requires InGear(b, gear)
    ensures RemoveFromGear(b, gear) != gear
  {
    RemoveTakesItemOut(b, gear);
  }

  lemma RemoveKeepsGearWithoutItem(b: Belonging, gear: Gear)
    requires !InGear(b, gear)
    ensures RemoveFromGear(b, gear) == gear
  {
    ClearAbsentBit(ShiftCount(b.number), gear);
  }

  /** Adding twice is adding once. */
  lemma AddIdempotent(b: Belonging, gear: Gear)
    ensures AddToGear(b, AddToGear(b, gear)) == AddToGear(b, gear)
  {
    SetTwice(Mask(b), gear);
  }

  /** Removing twice is removing once. */
  lemma RemoveIdempotent(b: Belonging, gear: Gear)
    ensures RemoveFromGear(b, RemoveFromGear(b, gear)) == RemoveFromGear(b, gear)
  {
    ClearTwice(Mask(b), gear);
  }

  /** Adding one item does not change whether an item with a different bit
      is in the gear. */
  lemma AddKeepsOtherItems(b: Belonging, other: Belonging, gear: Gear)
    requires ShiftCount(b.number) != ShiftCount(other.number)
    ensures InGear(other, AddToGear(b, gear)) == InGear(other, gear)
  {
    BitsDisjoint(ShiftCount(b.number), ShiftCount(other.number));
    SetKeepsDisjoint(Mask(b), Mask(other), gear);
  }

  /** Removing one item does not change whether an item with a different bit
      is in the gear. */
  lemma RemoveKeepsOtherItems(b: Belonging, other: Belonging, gear: Gear)
    requires ShiftCount(b.number) != ShiftCount(other.number)
    ensures InGear(other, RemoveFromGear(b, gear)) == InGear(other, gear)
  {
    BitsDisjoint(ShiftCount(b.number), ShiftCount(other.number));
    ClearKeepsDisjoint(Mask(b), Mask(other), gear);
  }

  /** No item is in the empty gear. */
  lemma NothingInEmptyGear(b: Belonging)
    ensures !InGear(b, 0)
  {
  }
}
