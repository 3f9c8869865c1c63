# Underwater colony economy, modelled in Dafny

This project models the resource economy of the browser colony game in
`script.js`. The colony holds four stocks: metal, energy, food and oxygen.
A used-storage counter and a storage cap bound what the colony can keep.
There is a 10 × 10 grid of module cells and a drone launch timestamp.
The player selects a module kind and clicks a cell to build it.
A drone can be launched at most once per second and always brings back 5–14 metal.
Every five seconds farms, oxygen generators and power plants produce.
Every ten seconds each built module eats one food and one oxygen.
The colony is lost once either stock drops below zero.

Every rule is a pure function on an immutable `GameState`.
Each returns the new state and the log lines it emitted, in order.
The modules follow the parts of the script:

- `Wrappers`: `Option`, used for empty cells and for the selection.
- `Catalog`: the module table (`modulesData`), names, costs, yields and resource kinds.
- `Grid`: the cell sequence and the `filter(...).length` counts.
- `Colony`: `GameState`, log `Message`s, the starting colony and the `Healthy` invariant.
- `Storage`: `addResource` (the clamp-and-waste rule) and `updateStorageUsed`.
- `Building`: `selectModule` and `buildModule`.
- `Drone`: the cooldown and haul of `explore`.
- `Ticks`: the bodies of the 5-second production and 10-second consumption intervals.
- `GameLoop`: a session driven by a sequence of events, which ends when the colony is lost.
- `Scenarios`: small worked examples on concrete colonies.

The central proved property is `GameLoop.ReachableHealthy`.
It covers every session still in play after any sequence of events from a new game.
In such a session no stock is negative and the used-storage counter equals the sum of the four stocks.
That counter is also at most the cap.
The cap is 90 plus 10 for each Living Space on the grid.

Outside inputs become parameters:

- `Date.now()` becomes the `now` argument of `Drone.Explore`.
- `Math.floor(Math.random() * 10)` becomes its `roll` argument, in 0..9.
- The two `setInterval` timers become the step functions `Ticks.ProductionTick` and `Ticks.ConsumptionTick`.
- `alert` plus `location.reload()` after a loss becomes the terminal `GameLoop.Session.Over` state. A reload is a fresh `GameLoop.Start()`.

## Model

| member | source | states |
|---|---|---|
| Catalog.Lookup | script.js:18-23 | a name finds a module kind only if that kind's name is exactly that name; a name that is none of the table's four own keys finds nothing |
| Catalog.CostOf | script.js:18-23 | every module costs between 10 and 25 metal and at most 15 energy, and no module costs food; only the Power Plant costs no energy |
| Catalog.LookupName | script.js:18-23 | each of the four kinds is found under its own name, so the table's names identify kinds |
| Grid.Count | script.js:120 | the number of cells holding a kind never exceeds the number of cells |
| Grid.BuiltCount | script.js:134 | the number of built cells never exceeds the number of cells |
| Grid.CountUpdate | script.js:62 | replacing one cell changes a kind's count only by what left that cell and what arrived in it |
| Grid.BuiltCountPlace | script.js:62 | building on an empty cell raises the number of built modules by exactly one |
| Grid.PlaceCounts | script.js:62 | placing a kind on an empty cell adds one module of that kind and leaves every other kind's count unchanged |
| Grid.BuiltIsSumOfKinds | script.js:134 | the modules counted by the upkeep are exactly the Living Spaces, Farms, Oxygen Generators and Power Plants together |
| Grid.EmptyGrid | script.js:31-37 | the starting grid has 100 cells, all empty |
| Grid.EmptyCounts | script.js:31-37 | an all-empty grid holds no module of any kind |
| Colony.Initial | script.js:2-15 | a new colony's stock sums to exactly the used storage and the cap, 90, so its store starts full; the grid is 100 empty cells, nothing is selected and the last launch time is 0 |
| Colony.InitialHealthy | script.js:2-15 | the starting colony meets the invariant: no negative stock, used storage 90 equals the stock sum and the cap, and there are no Living Spaces |
| Storage.AddResource | script.js:94-115 | a full store changes nothing and logs all of `amount` as wasted; otherwise the resource and the used counter grow by the same accepted amount, never past the cap; that amount is all of `amount` or whatever fills the store; the log reports the waste `amount − accepted` when positive and the gain otherwise; no other resource, the grid or the cap changes |
| Storage.Accepted | script.js:95-101 | the amount a store takes: nothing when it is full; otherwise at most the amount offered, never past the cap, and either all of it or exactly the free space |
| Storage.AddResourceAgrees | script.js:94-111 | storage-aware addition adds exactly the accepted amount to the resource and the used counter, and writes exactly one line: no storage space when full, the waste when clamped, the gain otherwise |
| Storage.UpdateStorageUsed | script.js:156-162 | afterwards the used counter equals metal + energy + food + oxygen; no stock or other field changes |
| Storage.AddResourceOverflow | script.js:100-109 | an addition that does not fit fills the store exactly; the resource grows by the free space; the log reports `amount − (cap − used)` wasted |
| Storage.AddResourceFits | script.js:100-111 | an addition that fits is kept whole and logged as gained |
| Storage.AddResourceHealthy | script.js:100-104 | a non-negative addition keeps a colony healthy |
| Storage.OverflowThenWasted | script.js:95-98 | once an addition has overflowed, any further addition changes nothing and is logged as no storage space |
| Building.Select | script.js:44-46 | selecting sets the selection and changes nothing else |
| Building.Build | script.js:48-77 | with nothing selected or on an occupied cell, nothing changes and nothing is logged; when any of metal, energy or food is below the cost, nothing changes and only "not enough resources" is logged; otherwise each stock drops by exactly its cost and stays non-negative, oxygen is untouched, only the target cell changes and it gets the module, the cap rises by 10 iff the module is a Living Space, the used counter equals the stock sum, and "built" is logged |
| Building.BuildAllOrNothing | script.js:53-76 | a build leaves the state untouched or changes both the grid and the stock; it never does half |
| Building.BuildOnceOnly | script.js:50 | after a successful build, building on the same cell again does nothing, whatever is selected and whatever is in stock |
| Building.BuildHealthy | script.js:53-72 | a build keeps a colony healthy; in particular the cap stays 90 plus 10 per Living Space |
| Drone.Explore | script.js:80-91 | during the cooldown nothing changes, not even the launch time, and only "cooling down" is logged; otherwise the launch time becomes `now`, and metal and used storage grow by exactly the accepted share of the `roll + 5` haul (5 to 14); the log reports that haul as no storage space, as partly wasted, or as gained; nothing else changes |
| Drone.SecondLaunchDropped | script.js:81-86 | a second launch within the cooldown of a successful one leaves the state as the first left it |
| Drone.ExploreHealthy | script.js:86-90 | a launch keeps a colony healthy |
| Ticks.Produce | script.js:120-121 | with no producers nothing happens; otherwise the resource grows by exactly the accepted share of count × yield, only that resource and the used counter change, and exactly that addition's line (gained, storage full with the waste, or no storage space) is appended to the log |
| Ticks.ProductionTick | script.js:118-130 | food, then oxygen, then energy each grow by the accepted share of count × yield (5, 5, 15) given the space the earlier lines left, and the used counter grows by the sum; the log holds one line per producing kind in that order, each reporting its own gain, waste or lack of space; metal, the grid, the cap, the selection and the launch time do not change |
| Ticks.ProductionBounds | script.js:118-130 | each resource gains between nothing and its full yield, the used counter grows by exactly the total gain, and a store within its cap stays within it |
| Ticks.ProductionWithRoom | script.js:118-130 | for any grid, when the whole output fits, each producing kind's yield arrives in full and is logged as gained, food before oxygen before energy, with no line for an absent kind |
| Ticks.ProductionHealthy | script.js:118-130 | the production tick keeps a colony healthy |
| Ticks.JoinPair | script.js:145 | joining two reasons puts the separator between them |
| Ticks.ConsumptionTick | script.js:133-153 | food and oxygen each drop by the number of built modules and nothing else but the recounted used storage changes; the colony is lost iff food or oxygen is now negative, and the negative values stay; the log names "food", "oxygen" or "food and oxygen", in that order; nothing is logged while the colony survives |
| Ticks.SurvivesUpkeep | script.js:134-144 | the colony survives an upkeep iff food and oxygen each cover one unit per built module |
| Ticks.ConsumptionHealthy | script.js:134-152 | a surviving upkeep keeps a colony healthy |
| GameLoop.Run | script.js:144-148 | a lost session ignores every event; the log is only appended to; a session ends only on an upkeep that leaves food or oxygen negative; a session still in play after an upkeep has no negative food or oxygen |
| GameLoop.RunAll | script.js:118-153 | after any event sequence the log of the start is a prefix of the log, and a lost session stays lost |
| GameLoop.RunHealthy | script.js:48-153 | any event keeps a healthy session healthy while it is in play |
| GameLoop.RunAllHealthy | script.js:48-153 | any sequence of events keeps a healthy session healthy while it is in play |
| GameLoop.ReachableHealthy | script.js:2-15 | from a new game, every session still in play has no negative stock, used storage equal to the stock sum and within the cap, and a cap of 90 plus 10 per Living Space |
| Scenarios.PowerPlantOnNewColony | script.js:52-62 | a new colony building a Power Plant keeps 5 metal, 15 energy and 25 food, and the cell holds the plant |
| Scenarios.NearlyFullStore | script.js:100-109 | with 85 of 90 used, adding 10 metal keeps 5 and reports 5 wasted |
| Scenarios.StarvingColony | script.js:137-146 | one module and no food loses the colony to hunger, with food left at −1 |

## Left out

- Rendering: cell creation in `initGame`, `updateResourcesDisplay`, CSS classes and text updates. These are display only. The grid starts as `Grid.EmptyGrid`.
- Log text: the log is a sequence of structured `Message` values carrying the same facts as the source's strings. The page shows them newest first; the model keeps them in order of emission.
- Timers, the clock and randomness: `setInterval`, `Date.now` and `Math.random` are replaced by explicit steps and parameters, as described above.
- `alert` and `location.reload`: the source runs `updateStorageUsed` after the reload call. The model ends the session instead, with the final state kept in `Over`.
- Cell bounds: the source never checks the cell index, because the click handlers only pass 0..99. `Building.Build` takes an in-range index as a precondition, so there is no invalid-cell error.
- Catalog.Lookup: names that JavaScript object indexing finds through the prototype, such as "constructor", are not modelled; the table has only its four own keys.
- Unknown module names: the selection is one of the four catalog kinds. A name outside the table would make the source read the cost of an undefined entry; `Catalog.Lookup` returns `None` for it.
- Biomes, hazards, module destruction and resource loss: they do not appear in this script.
