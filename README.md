# Knapsack, modelled in Dafny

A model of the brute-force 0/1 knapsack solver in `Knapsack/Program.cs`.

A catalog holds items (`Belonging`: a `Number`, a name, a weight in grams and a value). A selection of items is a 32-bit mask called a *gear*. Bit `Number` is set when the item is selected.

The model has three modules:

- `Belongings` (`belongings.dfy`) covers the item type and the bit operations on a gear:
  - `AddToGear` sets the item's bit and `RemoveFromGear` clears it.
  - `IsInGear` is the membership test as the source writes it.
  - `InGear` is the membership test the source evidently intends.
  - `GramsWeightInGear` and `ValueInGear` give the item's contribution to a gear.

  A gear is `bv32` (a C# `uint`) and an item number is `bv8` (a C# `byte`). The shift `1 << Number` keeps C#'s masking of the shift count to five bits.
- `Inventory` (`inventory.dfy`) covers the rest of the source:
  - the total weight and value of a gear over the catalog;
  - `NumberOfCombinations`, the largest gear the search visits;
  - the two exhaustive searches. `ValidInventories` lists every gear within a weight limit. `FirstBestInventory` finds the first gear of maximal value within the limit.

  The source keeps the catalog in the static settable list `Inventory.AllGear`. Here it is an explicit `catalog` parameter. An `Inventory` object carries nothing but its `Gear`, so the searches return gears.

  The search loops count with a `uint`. In the model that counter is a `GearNumber`, an integer in `0 .. 2^32-1`, and the gear it stands for is `g as Gear`. The searches are methods with loop invariants, proved against the specification functions `FittingBelow` and `IsFirstBest`.
- `Samples` (`samples.dfy`) covers the three-item catalog of the unit tests (map, compass, water), with the outcomes those tests expect proved for the model.

## Model

| member | source | states |
|---|---|---|
| Belongings.AddToGear | Knapsack/Program.cs:16-19 | sets the item's bit; its properties are `AddPutsItemIn`, `AddKeepsOtherBits`, `AddChangesGearWithoutItem`, `AddKeepsGearWithItem`, `AddIdempotent`, `AddKeepsOtherItems` and `AddUndoesRemove` |
| Belongings.RemoveFromGear | Knapsack/Program.cs:20-23 | clears the item's bit; its properties are `RemoveTakesItemOut`, `RemoveKeepsOtherBits`, `RemoveChangesGearWithItem`, `RemoveKeepsGearWithoutItem`, `RemoveIdempotent`, `RemoveKeepsOtherItems` and `RemoveUndoesAdd` |
| Belongings.IsInGear | Knapsack/Program.cs:24-27 | the source's test on `long`; its properties are `IsInGearAgrees`, `IsInGearAgreesBelowBit31` and `IsInGearMissesBit31` |
| Belongings.GramsWeightInGear | Knapsack/Program.cs:28-31 | the item's weight if it is in the gear, else 0; related to the source's `IsInGear` form by `AmountsInGearAgree` and `AmountsInGearAgreeBelowBit31` |
| Belongings.ValueInGear | Knapsack/Program.cs:32-35 | the item's value if it is in the gear, else 0; related to the source's `IsInGear` form by `AmountsInGearAgree` and `AmountsInGearAgreeBelowBit31` |
| Belongings.WidenedShiftedOne | Knapsack/Program.cs:26 | `1 << Number` as the `long` C# compares it on is the sign extension of the 32-bit `int`, so for shift count 31 every upper bit is set |
| Belongings.IsInGearAgreesBelowBit31 | Knapsack/Program.cs:24-27 | on every gear below `2^31` (every gear the search visits) the source's `IsInGear` holds exactly when the item's bit is set, shift count 31 included |
| Belongings.AmountsInGearAgreeBelowBit31 | Knapsack/Program.cs:28-35 | on every gear below `2^31` an item contributes its weight (value) exactly when the source's `IsInGear` holds |
| Belongings.IsInGearAgrees | Knapsack/Program.cs:24-27 | for shift counts other than 31, the source's `IsInGear` holds exactly when the item's bit is set in the gear |
| Belongings.IsInGearMissesBit31 | Knapsack/Program.cs:16-27 | for an item with shift count 31, the source's `IsInGear` is false even right after `AddToGear` has set the item's bit |
| Belongings.AmountsInGearAgree | Knapsack/Program.cs:28-35 | for shift counts other than 31, an item contributes its weight (value) when `IsInGear` holds and 0 otherwise |
| Belongings.AddPutsItemIn | Knapsack/Program.cs:16-19 | after `AddToGear` the item is in the gear |
| Belongings.AddKeepsOtherBits | Knapsack/Program.cs:16-19 | `AddToGear` leaves every other bit of the gear unchanged |
| Belongings.RemoveTakesItemOut | Knapsack/Program.cs:20-23 | after `RemoveFromGear` the item is not in the gear |
| Belongings.RemoveKeepsOtherBits | Knapsack/Program.cs:20-23 | `RemoveFromGear` leaves every other bit of the gear unchanged |
| Belongings.RemoveUndoesAdd | Knapsack/Program.cs:16-23 | removing an item just added to a gear that lacked it gives the gear back |
| Belongings.AddUndoesRemove | Knapsack/Program.cs:16-23 | adding back an item just removed from a gear that had it gives the gear back |
| Belongings.AddChangesGearWithoutItem | Knapsack/Program.cs:16-19 | adding an item the gear lacks changes the gear |
| Belongings.AddKeepsGearWithItem | Knapsack/Program.cs:16-19 | adding an item the gear already has leaves it unchanged |
| Belongings.RemoveChangesGearWithItem | Knapsack/Program.cs:20-23 | removing an item the gear has changes the gear |
| Belongings.RemoveKeepsGearWithoutItem | Knapsack/Program.cs:20-23 | removing an item the gear lacks leaves it unchanged |
| Belongings.AddIdempotent | Knapsack/Program.cs:16-19 | adding twice is adding once |
| Belongings.RemoveIdempotent | Knapsack/Program.cs:20-23 | removing twice is removing once |
| Belongings.AddKeepsOtherItems | Knapsack/Program.cs:16-19 | adding an item does not change whether an item with a different bit is in the gear |
| Belongings.RemoveKeepsOtherItems | Knapsack/Program.cs:20-23 | removing an item does not change whether an item with a different bit is in the gear |
| Belongings.NothingInEmptyGear | Knapsack/Program.cs:24-27 | no item is in gear 0 |
| Inventory.TotalForGear | Knapsack/Program.cs:55-67 | the sum of the items' contributions over the catalog; its properties are `TotalIsSumOfSelected`, `TotalOfEmptyGear`, `AddToGearAddsAmount`, `RemoveFromGearSubtractsAmount`, `AddOtherBitKeepsTotal` and `RemoveOtherBitKeepsTotal` |
| Inventory.TotalGramsWeightForGear | Knapsack/Program.cs:55-60 | `TotalForGear` of the weights; the properties above with `GramsWeight` |
| Inventory.TotalValueForGear | Knapsack/Program.cs:62-67 | `TotalForGear` of the values; the properties above with `Value` |
| Inventory.NumberOfCombinations | Knapsack/Program.cs:70-76 | `~0u % (uint)(1 << Count)` with the shift count masked to five bits; its properties are `NumberOfCombinationsIsLowOnes`, `CombinationsArePowerOfTwo`, `CombinationsBelowBit31` and `ThirtyTwoItemsCollapse` |
| Inventory.Selected | Knapsack/Program.cs:55-67 | reference filter for the totals: its items are exactly the catalog items whose bit is set in the gear |
| Inventory.TotalIsSumOfSelected | Knapsack/Program.cs:55-67 | a gear's total weight (value) is the sum over exactly the catalog items in the gear |
| Inventory.TotalOfEmptyGear | Knapsack/Program.cs:55-67 | gear 0 has total weight and total value 0 |
| Inventory.AddOtherBitKeepsTotal | Knapsack/Program.cs:55-67 | setting a bit no catalog item uses leaves the totals unchanged |
| Inventory.RemoveOtherBitKeepsTotal | Knapsack/Program.cs:55-67 | clearing a bit no catalog item uses leaves the totals unchanged |
| Inventory.AddToGearAddsAmount | Knapsack/Program.cs:55-67 | in a catalog with distinct bits, adding an absent item raises the total by exactly that item's weight (value) |
| Inventory.RemoveFromGearSubtractsAmount | Knapsack/Program.cs:55-67 | in a catalog with distinct bits, removing a present item lowers the total by exactly that item's weight (value) |
| Inventory.NumberOfCombinationsIsLowOnes | Knapsack/Program.cs:70-76 | `~0u % (1 << Count)` is all ones in the low `Count mod 32` bits |
| Inventory.CombinationsArePowerOfTwo | Knapsack/Program.cs:70-76 | the search visits `2^(N mod 32)` gears, which is `2^N` for N ≤ 31 |
| Inventory.CombinationsBelowBit31 | Knapsack/Program.cs:70-76 | the last gear searched is below `2^31`, so the `uint` loop counter never wraps and both loops end |
| Inventory.ThirtyTwoItemsCollapse | Knapsack/Program.cs:70-76 | with 32 items the search visits only gear 0 |
| Inventory.FittingBelow | Knapsack/Program.cs:103-109 | the gears below `n` within the weight limit, exactly those and in strictly ascending order |
| Inventory.ValidInventories | Knapsack/Program.cs:98-112 | returns exactly the gears `0 .. NumberOfCombinations` whose total weight is within the limit, in strictly ascending order |
| Inventory.AllFit | Knapsack/Program.cs:98-112 | when every gear fits, every gear is listed |
| Inventory.OnlyEmptyFits | Knapsack/Program.cs:98-112 | when only gear 0 fits, the list is `[0]` |
| Inventory.EmptyGearIsValid | Knapsack/Program.cs:98-112 | with a non-negative limit, gear 0 is among the valid inventories |
| Inventory.ValidGrowsWithLimit | Knapsack/Program.cs:98-112 | raising the weight limit keeps every gear that was valid |
| Inventory.FirstBestStep | Knapsack/Program.cs:84-93 | one loop step, replacing the incumbent only on a fitting gear of strictly greater value, keeps it the first best of the gears seen |
| Inventory.BestBelowIsFirstBest | Knapsack/Program.cs:81-93 | the incumbent after any number of steps is the first best of the gears seen |
| Inventory.FirstBestIsUnique | Knapsack/Program.cs:78-96 | at most one gear is the first best, so the result is the smallest fitting gear of maximal value |
| Inventory.NothingWorthwhileGivesEmptyGear | Knapsack/Program.cs:81-93 | when no fitting gear has a positive value, the result is gear 0 |
| Inventory.FirstBestInventory | Knapsack/Program.cs:78-96 | the result is gear 0 or a fitting gear of positive value; no fitting gear is worth more; every fitting gear before it is worth strictly less; it is the incumbent `BestBelow` gives |
| Inventory.FirstBestUpTo | Knapsack/Program.cs:81-93 | the loop over gears `0 .. last` yields the first best of those gears, which is the incumbent `BestBelow` gives |
| Samples.AddRemoveMap | Knapsack/TestKnapsack.cs:17-31 | the map is not in gear 0, is in it after adding, the gear changes, and removing it restores gear 0 with the map out |
| Samples.KitHasDistinctBits | Knapsack/TestKnapsack.cs:40-43 | the test catalog's items use distinct bits |
| Samples.MapAndWaterTotals | Knapsack/TestKnapsack.cs:38-56 | with map and water added, the totals are 90 + 1530 grams and 150 + 300 in value |
| Samples.KitCombinations | Knapsack/TestKnapsack.cs:88-89 | the three-item catalog has 8 gears to search |
| Samples.KitTable | Knapsack/TestKnapsack.cs:76-90 | for each of the 8 gears: which fit 5 g, 5000 g and 220 g, and what each is worth |
| Samples.KitValidInventories | Knapsack/TestKnapsack.cs:76-90 | the valid inventories are `[0]` at 5 g and all 8 gears at 5000 g |
| Samples.KitFirstBest | Knapsack/TestKnapsack.cs:58-74 | the first best at 220 g is gear 3 (map and compass), worth 185: it holds the compass and not the water |

## Left out

- `Belonging.ToString` and `Inventory.ToString` are presentation only. This includes the `Where(IsInGear)` listing and the `StringBuilder` formatting.
- `Program.Main` is console output plus a library sort (`OrderByDescending(...).Take(5)`) of the valid inventories. Its `== null` branch cannot be taken, since `FirstBestInventory` always returns an inventory.
- `LoadData` is a literal fifteen-item table used only by `Main`. It is not part of this model.
- `IQueryable`/`AsQueryable` wrapping: `ValidInventories` returns a plain sequence of gears.
- The static settable `Inventory.AllGear` is not modelled as state. Every member takes the catalog as a parameter, and nothing in the core changes the catalog during a search.
- Inventory.TotalForGear: the C# `int` sums of LINQ `Sum` throw `OverflowException` on overflow. The model sums mathematical integers, so it does not model that exception.
- Belongings.Belonging: the item's `Name` is carried but never used by the core.
- Inventory.FirstBestInventory returns the chosen gear rather than an `Inventory` object. The loop body is the separate method `Inventory.FirstBestUpTo`, which takes the last gear as a number. The `uint` counter of both loops is an integer `GearNumber`, which is exact because the last gear is below `2^31` (`Inventory.CombinationsBelowBit31`).
- Belongings.GramsWeightInGear and `ValueInGear` use the evidently intended bit test `InGear` rather than the source's `IsInGear` (see Findings). The two agree on every item whose shift count is not 31 (`Belongings.AmountsInGearAgree`). They also agree on every item, shift count 31 included, on every gear below `2^31` (`Belongings.AmountsInGearAgreeBelowBit31`). The searches only visit such gears (`Inventory.CombinationsBelowBit31`), so `ValidInventories` and `FirstBestInventory` give what the source gives on every catalog.

## Findings

| source | as written | input that shows it | evidently intended | confidence | as-written member | corrected member |
|---|---|---|---|---|---|---|
| Knapsack/Program.cs:26 | `(gear & (1 << Number)) == (1 << Number)` mixes `uint` with `int`, so C# evaluates it on `long`. `1 << 31` is `int.MinValue`, which sign-extends to `0xFFFFFFFF80000000`, and no `uint` gear matches that. `GramsWeightInGear` and `ValueInGear` go through `IsInGear`, so an item numbered 31 is never counted in the total of a gear that has bit 31 set. The searches never visit such a gear, so their results are unaffected. | an item with `Number = 31` and gear `AddToGear(0) = 0x80000000`: `IsInGear` is false | the item is in the gear exactly when its bit is set | not executed | Belongings.IsInGearMissesBit31 | Belongings.AddPutsItemIn |
