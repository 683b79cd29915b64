/** Inventories: the totals of a gear over the catalog, and the exhaustive
    search over every gear the catalog allows.

    The source keeps the catalog in the static settable list
    `Inventory.AllGear`; here it is the explicit parameter `catalog` of every
    member. An `Inventory` object only carries its `Gear`, so an inventory is
    represented by its gear. */
module Inventory {
  import opened Belongings

  // ---------------------------------------------------------------------
  // Totals
  // ---------------------------------------------------------------------

  /** The two quantities the source sums over a gear. */
  datatype Measure = GramsWeight | Value

  /** An item's weight or value. */
  function Amount(b: Belonging, m: Measure): int
  {
    match m
    case GramsWeight => b.gramsWeight
    case Value => b.value
  }

  /** The item's contribution to a total: `GramsWeightInGear` or `ValueInGear`. */
  function AmountInGear(b: Belonging, gear: Gear, m: Measure): int
  {
    match m
    case GramsWeight => GramsWeightInGear(b, gear)
    case Value => ValueInGear(b, gear)
  }

  /** `AllGear.Select(o => o.<m>InGear(gear)).Sum()`. */
  function TotalForGear(catalog: seq<Belonging>, gear: Gear, m: Measure): int
  {
    if catalog == [] then 0
    else AmountInGear(catalog[0], gear, m) + TotalForGear(catalog[1..], gear, m)
  }

  function TotalGramsWeightForGear(catalog: seq<Belonging>, gear: Gear): int
  {
    TotalForGear(catalog, gear, GramsWeight)
  }

  function TotalValueForGear(catalog: seq<Belonging>, gear: Gear): int
  {
    TotalForGear(catalog, gear, Value)
  }

  /** The catalog items that are in the gear, in catalog order, by the bit
      test `InGear`: the reference filter whose sum `TotalIsSumOfSelected`
      relates to the totals. */
  function Selected(catalog: seq<Belonging>, gear: Gear): (r: seq<Belonging>)
    ensures |r| <= |catalog|
    ensures forall b :: b in r <==> b in catalog && InGear(b, gear)
  {
    if catalog == [] then []
    else if InGear(catalog[0], gear) then [catalog[0]] + Selected(catalog[1..], gear)
    else Selected(catalog[1..], gear)
  }

  /** The plain sum of an amount over a list of items. */
  function SumOf(items: seq<Belonging>, m: Measure): int
  {
    if items == [] then 0 else Amount(items[0], m) + SumOf(items[1..], m)
  }

  /** A gear's total is the sum over exactly the items that are in it. */
  lemma {:induction false} TotalIsSumOfSelected(catalog: seq<Belonging>, gear: Gear, m: Measure)
    ensures TotalForGear(catalog, gear, m) == SumOf(Selected(catalog, gear), m)
  {
    if catalog != [] {
      TotalIsSumOfSelected(catalog[1..], gear, m);
      if InGear(catalog[0], gear) {
        assert ([catalog[0]] + Selected(catalog[1..], gear))[1..] == Selected(catalog[1..], gear);
      }
    }
  }

  /** The empty gear weighs nothing and is worth nothing. */
  lemma {:induction false} TotalOfEmptyGear(catalog: seq<Belonging>, m: Measure)
    ensures TotalForGear(catalog, 0, m) == 0
  {
    if catalog != [] {
      NothingInEmptyGear(catalog[0]);
      TotalOfEmptyGear(catalog[1..], m);
    }
  }

  /** No two catalog items share a bit of the gear. */
  predicate DistinctBits(catalog: seq<Belonging>)
  {
    forall i, j :: 0 <= i < j < |catalog| ==> ShiftCount(catalog[i].number) != ShiftCount(catalog[j].number)
  }

  /** Adding an item whose bit no catalog item uses leaves every total alone. */
  lemma {:induction false} AddOtherBitKeepsTotal(catalog: seq<Belonging>, b: Belonging, gear: Gear, m: Measure)
    requires forall i :: 0 <= i < |catalog| ==> ShiftCount(catalog[i].number) != ShiftCount(b.number)
    ensures TotalForGear(catalog, AddToGear(b, gear), m) == TotalForGear(catalog, gear, m)
  {
    if catalog != [] {
      AddKeepsOtherItems(b, catalog[0], gear);
      AddOtherBitKeepsTotal(catalog[1..], b, gear, m);
    }
  }

  /** Removing an item whose bit no catalog item uses leaves every total alone. */
  lemma {:induction false} RemoveOtherBitKeepsTotal(catalog: seq<Belonging>, b: Belonging, gear: Gear, m: Measure)
    requires forall i :: 0 <= i < |catalog| ==> ShiftCount(catalog[i].number) != ShiftCount(b.number)
    ensures TotalForGear(catalog, RemoveFromGear(b, gear), m) == TotalForGear(catalog, gear, m)
  {
    if catalog != [] {
      RemoveKeepsOtherItems(b, catalog[0], gear);
      RemoveOtherBitKeepsTotal(catalog[1..], b, gear, m);
    }
  }

  /** Adding a catalog item that is not yet in the gear raises each total by
      exactly that item's amount. */
  lemma {:induction false} AddToGearAddsAmount(catalog: seq<Belonging>, i: nat, gear: Gear, m: Measure)
    requires DistinctBits(catalog) && i < |catalog|
    requires !InGear(catalog[i], gear)
    ensures TotalForGear(catalog, AddToGear(catalog[i], gear), m)
         == TotalForGear(catalog, gear, m) + Amount(catalog[i], m)
  {
    var b := catalog[i];
    if i == 0 {
      AddPutsItemIn(b, gear);
      AddOtherBitKeepsTotal(catalog[1..], b, gear, m);
    } else {
      AddKeepsOtherItems(b, catalog[0], gear);
      AddToGearAddsAmount(catalog[1..], i - 1, gear, m);
    }
  }

  /** Removing a catalog item that is in the gear lowers each total by
      exactly that item's amount. */
  lemma {:induction false} RemoveFromGearSubtractsAmount(catalog: seq<Belonging>, i: nat, gear: Gear, m: Measure)
    requires DistinctBits(catalog) && i < |catalog|
    requires InGear(catalog[i], gear)
    ensures TotalForGear(catalog, RemoveFromGear(catalog[i], gear), m)
         == TotalForGear(catalog, gear, m) - Amount(catalog[i], m)
  {
    var b := catalog[i];
    if i == 0 {
      RemoveTakesItemOut(b, gear);
      RemoveOtherBitKeepsTotal(catalog[1..], b, gear, m);
    } else {
      RemoveKeepsOtherItems(b, catalog[0], gear);
      RemoveFromGearSubtractsAmount(catalog[1..], i - 1, gear, m);
    }
  }

  // ---------------------------------------------------------------------
  // The number of combinations
  // ---------------------------------------------------------------------

  /** The shift count of `1 << AllGear.Count()`: C# uses the low five bits. */
  function CombinationShift(count: nat): bv8
  {
    (count % 32) as bv8
  }

  /** `~0u % (uint)(1 << AllGear.Count())`: the largest gear the search
      visits. It is all ones in the low `count % 32` bits. */
  function NumberOfCombinations(catalog: seq<Belonging>): Gear
  {
    !(0 as bv32) % ((1 as bv32) << CombinationShift(|catalog|))
  }

  lemma AllOnesModPowerOfTwo(k: bv8)
    requires k < 32
    ensures !(0 as bv32) % ((1 as bv32) << k) == ((1 as bv32) << k) - 1
  {
  }

  /** The remainder keeps exactly the bits below the shifted one. */
  lemma NumberOfCombinationsIsLowOnes(catalog: seq<Belonging>)
    ensures NumberOfCombinations(catalog) == ((1 as bv32) << CombinationShift(|catalog|)) - 1
  {
    AllOnesModPowerOfTwo(CombinationShift(|catalog|));
  }

  lemma ShiftDoubles(k: bv8)
    requires k < 31
    ensures ((1 as bv32) << (k + 1)) as int == 2 * (((1 as bv32) << k) as int)
  {
  }

  lemma LowOnesAsNumber(k: bv8)
    requires k < 32
    ensures (((1 as bv32) << k) - 1) as int + 1 == ((1 as bv32) << k) as int
  {
  }

  function Pow2(n: nat): nat
  {
    if n == 0 then 1 else 2 * Pow2(n - 1)
  }

  lemma {:induction false} ShiftIsPow2(k: bv8)
    requires k < 32
    ensures ((1 as bv32) << k) as int == Pow2(k as int)
  {
    if k != 0 {
      ShiftIsPow2(k - 1);
      ShiftDoubles(k - 1);
    }
  }

  lemma LowOnesBelowBit31(k: bv8)
    requires k < 32
    ensures (((1 as bv32) << k) - 1) as int < 0x8000_0000
  {
  }

  lemma CombinationShiftAsNumber(count: nat)
    ensures CombinationShift(count) as int == count % 32
  {
  }

  /** The number of gears the search visits, `NumberOfCombinations + 1`: it
      is `2^(N mod 32)` for a catalog of `N` items, so it never exceeds
      `2^31` and the `uint` loop counter cannot wrap round. */
  lemma CombinationsArePowerOfTwo(catalog: seq<Belonging>)
    ensures NumberOfCombinations(catalog) as int + 1 == Pow2(|catalog| % 32)
  {
    var k := CombinationShift(|catalog|);
    NumberOfCombinationsIsLowOnes(catalog);
    LowOnesAsNumber(k);
    ShiftIsPow2(k);
    CombinationShiftAsNumber(|catalog|);
  }

  lemma CombinationsBelowBit31(catalog: seq<Belonging>)
    ensures NumberOfCombinations(catalog) as int < 0x8000_0000
  {
    NumberOfCombinationsIsLowOnes(catalog);
    LowOnesBelowBit31(CombinationShift(|catalog|));
  }

  /** A catalog of 32 items wraps the shift round to `1 << 0`: the search
      then visits gear 0 only. */
  lemma ThirtyTwoItemsCollapse(catalog: seq<Belonging>)
    requires |catalog| == 32
    ensures NumberOfCombinations(catalog) == 0
  {
  }

  // ---------------------------------------------------------------------
  // The exhaustive search
  // ---------------------------------------------------------------------

  /** The search's `uint` loop counter read as a number. The gear it stands
      for is `g as Gear`; numbers order the gears as the loop visits them. */
  type GearNumber = g: int | 0 <= g < 0x1_0000_0000

  /** The gear's total weight is within the limit. */
  predicate Fits(catalog: seq<Belonging>, maxGramsWeight: int, g: GearNumber)
  {
    TotalGramsWeightForGear(catalog, g as Gear) <= maxGramsWeight
  }

  function Worth(catalog: seq<Belonging>, g: GearNumber): int
  {
    TotalValueForGear(catalog, g as Gear)
  }

  predicate StrictlyAscending(gears: seq<GearNumber>)
  {
    forall i, j :: 0 <= i < j < |gears| ==> gears[i] < gears[j]
  }

  /** The gears below `n` that fit, in ascending order: what the
      `ValidInventories` loop has collected once it has looked at `0 .. n-1`. */
  function FittingBelow(catalog: seq<Belonging>, maxGramsWeight: int, n: nat): (r: seq<GearNumber>)
    requires n <= 0x1_0000_0000
    ensures StrictlyAscending(r)
    ensures forall g: GearNumber :: g in r <==> g < n && Fits(catalog, maxGramsWeight, g)
  {
    if n == 0 then []
    else
      var earlier := FittingBelow(catalog, maxGramsWeight, n - 1);
      assert forall i | 0 <= i < |earlier| :: earlier[i] in earlier;
      earlier + (if Fits(catalog, maxGramsWeight, n - 1) then [n - 1] else [])
  }

  /** Every gear from 0 to `NumberOfCombinations` whose weight is within the
      limit, in ascending order. */
  method ValidInventories(catalog: seq<Belonging>, maxGramsWeight: int) returns (valid: seq<GearNumber>)
    ensures valid == FittingBelow(catalog, maxGramsWeight, NumberOfCombinations(catalog) as int + 1)
    ensures StrictlyAscending(valid)
    ensures forall g: GearNumber :: g in valid <==> g <= NumberOfCombinations(catalog) as int && Fits(catalog, maxGramsWeight, g)
  {
    var numberOfCombinations := NumberOfCombinations(catalog);
    CombinationsBelowBit31(catalog);
    valid := [];
    var g: GearNumber := 0;
    while g <= numberOfCombinations as int
      invariant g <= numberOfCombinations as int + 1
      invariant valid == FittingBelow(catalog, maxGramsWeight, g)
    {
      if TotalGramsWeightForGear(catalog, g as Gear) <= maxGramsWeight {
        valid := valid + [g];
      }
      g := g + 1;
    }
  }

  /** When every gear below `n` fits, all `n` of them are valid. */
  lemma {:induction false} AllFit(catalog: seq<Belonging>, maxGramsWeight: int, n: nat)
    requires n <= 0x1_0000_0000
    requires forall g: GearNumber :: g < n ==> Fits(catalog, maxGramsWeight, g)
    ensures |FittingBelow(catalog, maxGramsWeight, n)| == n
  {
    if n != 0 {
      AllFit(catalog, maxGramsWeight, n - 1);
    }
  }

  /** When only the empty gear fits, it is the one valid inventory. */
  lemma {:induction false} OnlyEmptyFits(catalog: seq<Belonging>, maxGramsWeight: int, n: nat)
    requires 0 < n <= 0x1_0000_0000
    requires forall g: GearNumber :: g < n ==> (Fits(catalog, maxGramsWeight, g) <==> g == 0)
    ensures FittingBelow(catalog, maxGramsWeight, n) == [0]
  {
    if n != 1 {
      OnlyEmptyFits(catalog, maxGramsWeight, n - 1);
    }
  }

  /** The empty inventory is valid whenever the limit is not negative. */
  lemma EmptyGearIsValid(catalog: seq<Belonging>, maxGramsWeight: int)
    requires maxGramsWeight >= 0
    ensures 0 in FittingBelow(catalog, maxGramsWeight, NumberOfCombinations(catalog) as int + 1)
  {
    TotalOfEmptyGear(catalog, GramsWeight);
  }

  /** A larger limit keeps every gear a smaller one allows. */
  lemma ValidGrowsWithLimit(catalog: seq<Belonging>, w1: int, w2: int, n: nat)
    requires n <= 0x1_0000_0000
    requires w1 <= w2
    ensures forall g: GearNumber :: g in FittingBelow(catalog, w1, n) ==> g in FittingBelow(catalog, w2, n)
  {
  }

  /** `m` is the result the source's search promises over the gears below
      `n`: it is gear 0 or a fitting gear of positive value; no fitting gear
      is worth more; and every fitting gear below it is worth strictly less,
      so it is the first gear of the best value. */
  ghost predicate IsFirstBest(catalog: seq<Belonging>, maxGramsWeight: int, n: nat, m: GearNumber)
  {
    && (m == 0 || (m < n && Fits(catalog, maxGramsWeight, m) && Worth(catalog, m) > 0))
    && (forall g: GearNumber :: g < n && Fits(catalog, maxGramsWeight, g) ==> Worth(catalog, g) <= Worth(catalog, m))
    && (forall g: GearNumber :: g < m && Fits(catalog, maxGramsWeight, g) ==> Worth(catalog, g) < Worth(catalog, m))
  }

  /** The incumbent of the `FirstBestInventory` loop once it has looked at
      `0 .. n-1`: it is replaced only by a fitting gear of strictly greater
      value. */
  function BestBelow(catalog: seq<Belonging>, maxGramsWeight: int, n: nat): GearNumber
    requires n <= 0x1_0000_0000
  {
    if n == 0 then 0
    else
      var best := BestBelow(catalog, maxGramsWeight, n - 1);
      if Fits(catalog, maxGramsWeight, n - 1) && Worth(catalog, n - 1) > Worth(catalog, best)
      then n - 1
      else best
  }

  /** One step of the search keeps the first best: gear `n - 1` replaces the
      incumbent only if it fits and is worth strictly more. */
  lemma FirstBestStep(catalog: seq<Belonging>, maxGramsWeight: int, n: nat, best: GearNumber)
    requires 0 < n <= 0x1_0000_0000
    requires IsFirstBest(catalog, maxGramsWeight, n - 1, best)
    ensures IsFirstBest(catalog, maxGramsWeight, n,
      if Fits(catalog, maxGramsWeight, n - 1) && Worth(catalog, n - 1) > Worth(catalog, best) then n - 1 else best)
  {
    TotalOfEmptyGear(catalog, Value);
    assert Worth(catalog, 0) == 0;
  }

  lemma {:induction false} BestBelowIsFirstBest(catalog: seq<Belonging>, maxGramsWeight: int, n: nat)
    requires n <= 0x1_0000_0000
    ensures IsFirstBest(catalog, maxGramsWeight, n, BestBelow(catalog, maxGramsWeight, n))
  {
    if n != 0 {
      BestBelowIsFirstBest(catalog, maxGramsWeight, n - 1);
      FirstBestStep(catalog, maxGramsWeight, n, BestBelow(catalog, maxGramsWeight, n - 1));
    }
  }

  /** At most one gear is the first best. */
  lemma FirstBestIsUnique(catalog: seq<Belonging>, maxGramsWeight: int, n: nat, m1: GearNumber, m2: GearNumber)
    requires IsFirstBest(catalog, maxGramsWeight, n, m1)
    requires IsFirstBest(catalog, maxGramsWeight, n, m2)
    ensures m1 == m2
  {
    TotalOfEmptyGear(catalog, Value);
  }

  /** When no fitting gear has a positive value, the first best is gear 0. */
  lemma NothingWorthwhileGivesEmptyGear(catalog: seq<Belonging>, maxGramsWeight: int, n: nat, m: GearNumber)
    requires IsFirstBest(catalog, maxGramsWeight, n, m)
    requires forall g: GearNumber :: g < n && Fits(catalog, maxGramsWeight, g) ==> Worth(catalog, g) <= 0
    ensures m == 0
  {
  }

  /** The first gear, in the search order, of the largest value among the
      gears within the weight limit; gear 0 if none of them is worth
      anything. */
  method FirstBestInventory(catalog: seq<Belonging>, maxGramsWeight: int) returns (best: GearNumber)
    ensures IsFirstBest(catalog, maxGramsWeight, NumberOfCombinations(catalog) as int + 1, best)
    ensures best == BestBelow(catalog, maxGramsWeight, NumberOfCombinations(catalog) as int + 1)
  {
    var numberOfCombinations := NumberOfCombinations(catalog);
    CombinationsBelowBit31(catalog);
    best := FirstBestUpTo(catalog, maxGramsWeight, numberOfCombinations as int);
  }

  /** The loop of `FirstBestInventory` over the gears `0 .. last`. */
  method FirstBestUpTo(catalog: seq<Belonging>, maxGramsWeight: int, last: int) returns (best: GearNumber)
    requires 0 <= last < 0x8000_0000
    ensures IsFirstBest(catalog, maxGramsWeight, last + 1, best)
    ensures best == BestBelow(catalog, maxGramsWeight, last + 1)
  {
    var currentMaxValue, overallBestValue := 0, 0;
    best := 0;
    TotalOfEmptyGear(catalog, Value);
    var g: GearNumber := 0;
    while g <= last
      invariant g <= last + 1
      invariant IsFirstBest(catalog, maxGramsWeight, g, best)
      invariant overallBestValue == Worth(catalog, best)
      invariant best == BestBelow(catalog, maxGramsWeight, g)
    {
      ghost var previous := best;
      if TotalGramsWeightForGear(catalog, g as Gear) <= maxGramsWeight {
        currentMaxValue := TotalValueForGear(catalog, g as Gear);
        if currentMaxValue > overallBestValue {
          best := g;
          overallBestValue := currentMaxValue;
        }
      }
      FirstBestStep(catalog, maxGramsWeight, g + 1, previous);
      g := g + 1;
    }
  }
}
