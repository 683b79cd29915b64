/** The catalog of the source's unit tests, and the outcomes those tests
    expect, proved for the model. */
module Samples {
  import opened Belongings
  import opened Inventory

  const Map := Belonging(0, "map", 90, 150)
  const Compass := Belonging(1, "compass", 130, 35)
  const Water := Belonging(2, "water", 1530, 300)

  /** The three-item catalog every inventory test uses. */
  const Kit: seq<Belonging> := [Map, Compass, Water]

  /** Adding the map to the empty gear puts it in and changes the gear;
      removing it again gives the empty gear back, without the map. The
      source's own test `IsInGear` answers the same as `InGear` here. */
  lemma AddRemoveMap()
    ensures !IsInGear(Map, 0)
    ensures IsInGear(Map, AddToGear(Map, 0))
    ensures AddToGear(Map, 0) != 0
    ensures RemoveFromGear(Map, AddToGear(Map, 0)) == 0
    ensures !IsInGear(Map, RemoveFromGear(Map, AddToGear(Map, 0)))
  {
    AddPutsItemIn(Map, 0);
    RemoveTakesItemOut(Map, AddToGear(Map, 0));
    IsInGearAgrees(Map, 0);
    IsInGearAgrees(Map, AddToGear(Map, 0));
    IsInGearAgrees(Map, RemoveFromGear(Map, AddToGear(Map, 0)));
    RemoveUndoesAdd(Map, 0);
    AddChangesGearWithoutItem(Map, 0);
  }

  lemma KitHasDistinctBits()
    ensures DistinctBits(Kit)
  {
  }

  /** With the map and the water added, the totals are their weights and
      their values summed. */
  lemma MapAndWaterTotals()
    ensures TotalGramsWeightForGear(Kit, AddToGear(Water, AddToGear(Map, 0))) == 90 + 1530
    ensures TotalValueForGear(Kit, AddToGear(Water, AddToGear(Map, 0))) == 150 + 300
  {
    KitHasDistinctBits();
    var withMap := AddToGear(Map, 0);
    NothingInEmptyGear(Map);
    NothingInEmptyGear(Water);
    AddKeepsOtherItems(Map, Water, 0);
    assert Kit[0] == Map && Kit[2] == Water;
    forall m: Measure
      ensures TotalForGear(Kit, AddToGear(Water, withMap), m) == Amount(Map, m) + Amount(Water, m)
    {
      TotalOfEmptyGear(Kit, m);
      AddToGearAddsAmount(Kit, 0, 0, m);
      AddToGearAddsAmount(Kit, 2, withMap, m);
    }
    assert TotalForGear(Kit, AddToGear(Water, withMap), GramsWeight) == Amount(Map, GramsWeight) + Amount(Water, GramsWeight);
    assert TotalForGear(Kit, AddToGear(Water, withMap), Value) == Amount(Map, Value) + Amount(Water, Value);
  }

  lemma SearchSizeOfKit()
    ensures Pow2(|Kit| % 32) == 8
  {
  }

  /** The search over the kit visits its eight gears. */
  lemma KitCombinations()
    ensures NumberOfCombinations(Kit) as int + 1 == 8
  {
    CombinationsArePowerOfTwo(Kit);
    SearchSizeOfKit();
  }

  /** A kit total, item by item. */
  lemma KitTotal(g: GearNumber, m: Measure)
    ensures TotalForGear(Kit, g as Gear, m)
         == AmountInGear(Map, g as Gear, m) + AmountInGear(Compass, g as Gear, m) + AmountInGear(Water, g as Gear, m)
  {
    var gear := g as Gear;
    assert Kit[1..] == [Compass, Water];
    assert Kit[1..][1..] == [Water];
    assert TotalForGear([Water], gear, m) == AmountInGear(Water, gear, m) + TotalForGear([], gear, m);
  }

  /** The kit's eight gears, with their weights and values. */
  lemma KitTable(g: GearNumber)
    requires g < 8
    ensures Fits(Kit, 5, g) <==> g == 0
    ensures Fits(Kit, 5000, g)
    ensures Fits(Kit, 220, g) <==> g < 4
    ensures Worth(Kit, g) == [0, 150, 35, 185, 300, 450, 335, 485][g]
  {
    KitTotal(g, GramsWeight);
    KitTotal(g, Value);
    assert g == 0 || g == 1 || g == 2 || g == 3 || g == 4 || g == 5 || g == 6 || g == 7;
  }

  /** Only the empty inventory weighs at most 5 g; every one of the eight
      weighs at most 5000 g. */
  lemma KitValidInventories()
    ensures FittingBelow(Kit, 5, NumberOfCombinations(Kit) as int + 1) == [0]
    ensures |FittingBelow(Kit, 5000, NumberOfCombinations(Kit) as int + 1)| == 8
  {
    KitCombinations();
    forall g: GearNumber | g < 8
      ensures Fits(Kit, 5, g) <==> g == 0
      ensures Fits(Kit, 5000, g)
    {
      KitTable(g);
    }
    OnlyEmptyFits(Kit, 5, 8);
    AllFit(Kit, 5000, 8);
  }

  /** Within 220 g the first best inventory is map and compass (gear 3,
      worth 185): it holds the compass and not the water. */
  lemma KitFirstBest(best: GearNumber)
    requires IsFirstBest(Kit, 220, NumberOfCombinations(Kit) as int + 1, best)
    ensures best == 3
    ensures InGear(Compass, best as Gear) && !InGear(Water, best as Gear)
    ensures Worth(Kit, best) == 185
  {
    KitCombinations();
    forall g: GearNumber | g < 8
      ensures Fits(Kit, 220, g) <==> g < 4
      ensures Worth(Kit, g) == [0, 150, 35, 185, 300, 450, 335, 485][g]
    {
      KitTable(g);
    }
    assert IsFirstBest(Kit, 220, 8, 3);
    FirstBestIsUnique(Kit, 220, 8, best, 3);
  }
}
