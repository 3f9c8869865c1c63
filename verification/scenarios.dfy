/** Worked examples of the economy rules on concrete colonies. */
module Scenarios {
  import opened Wrappers
  import opened Catalog
  import opened Grid
  import opened Colony
  import opened Storage
  import opened Building
  import opened Ticks

  /** A new colony with Power Plant selected pays 20 metal for it on the first cell. */
  lemma PowerPlantOnNewColony()
    ensures var r := Build(Select(Initial(), PowerPlant), 0);
      && r.game.metal == 5 && r.game.energy == 15 && r.game.food == 25
      && r.game.grid[0] == Some(PowerPlant)
      && r.game.storageUsed == 70
      && r.log == [Built(PowerPlant)]
  {
  }

  /** With 85 of 90 used, ten metal yields five and wastes five. */
  lemma NearlyFullStore()
    ensures var g := Initial().(metal := 20, storageUsed := 85);
      var r := AddResource(g, Metal, 10);
      && r.game.metal == 25 && r.game.storageUsed == 90
      && r.log == [StorageFull(5, Metal)]
  {
  }

  /** A colony with no food left and one module is lost to hunger, and the stock stays negative. */
  lemma StarvingColony()
    ensures var g := Initial().(food := 0, grid := EmptyGrid()[0 := Some(Farm)]);
      var u := ConsumptionTick(g);
      && u.gameOver && u.game.food == -1 && u.game.oxygen == 24
      && u.log == [ColonyLost("food")]
  {
    EmptyCounts(EmptyGrid(), Farm);
    BuiltCountPlace(EmptyGrid(), 0, Farm);
  }
}
