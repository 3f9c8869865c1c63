/** Choosing a module and placing it on the grid. */
module Building {
  import opened Wrappers
  import opened Catalog
  import opened Grid
  import opened Colony
  import opened Storage

  /** Choosing the module kind the next click builds; only the selection changes. */
  function Select(g: GameState, k: ModuleKind): (h: GameState)
    ensures h.selected == Some(k)
    ensures h.(selected := g.selected) == g
  {
    g.(selected := Some(k))
  }

  /** The stock covers every part of the cost of `k`. */
  predicate Affordable(g: GameState, k: ModuleKind)
  {
    var c := CostOf(k);
    g.metal >= c.metal && g.energy >= c.energy && g.food >= c.food
  }

  /**
   A click on cell `index`. Without a selection, or on an occupied cell,
   nothing happens and nothing is logged. If the stock does not cover the
   cost, only a "not enough resources" line is logged. Otherwise the full cost
   is paid, the module takes the cell, a Living Space raises the storage cap,
   and the used-storage counter is recounted.
   */
  function Build(g: GameState, index: int): (r: Step)
    requires 0 <= index < |g.grid|
    ensures g.selected.None? || g.grid[index].Some? ==> r == Step(g, [])
    ensures g.selected.Some? && g.grid[index].None? && !Affordable(g, g.selected.value) ==>
      r == Step(g, [NotEnoughResources(g.selected.value)])
    ensures g.selected.Some? && g.grid[index].None? && Affordable(g, g.selected.value) ==>
      var k := g.selected.value;
      && r.game.metal == g.metal - CostOf(k).metal
      && r.game.energy == g.energy - CostOf(k).energy
      && r.game.food == g.food - CostOf(k).food
      && r.game.oxygen == g.oxygen
      && r.game.metal >= 0 && r.game.energy >= 0 && r.game.food >= 0
      && |r.game.grid| == |g.grid|
      && r.game.grid[index] == Some(k)
      && (forall j :: 0 <= j < |g.grid| && j != index ==> r.game.grid[j] == g.grid[j])
      && (r.game.storageCap == g.storageCap + StorageBonus <==> k == LivingSpace)
      && (k != LivingSpace ==> r.game.storageCap == g.storageCap)
      && r.game.storageUsed == r.game.Total()
      && r.game.selected == g.selected
      && r.game.lastDroneTime == g.lastDroneTime
      && r.log == [Built(k)]
  {
    match g.selected
    case None => Step(g, [])
    case Some(k) =>
      if g.grid[index].Some? then Step(g, [])
      else if Affordable(g, k) then
        var c := CostOf(k);
        var paid := g.(metal := g.metal - c.metal, energy := g.energy - c.energy, food := g.food - c.food,
                       grid := g.grid[index := Some(k)]);
        var grown := if k == LivingSpace then paid.(storageCap := paid.storageCap + StorageBonus) else paid;
        Step(UpdateStorageUsed(grown), [Built(k)])
      else
        Step(g, [NotEnoughResources(k)])
  }

  /** A build either changes nothing or changes the grid and the stock together. */
  lemma BuildAllOrNothing(g: GameState, index: int)
    requires 0 <= index < |g.grid|
    ensures var h := Build(g, index).game;
      h == g || (h.grid != g.grid && h.Total() < g.Total())
  {
  }

  /** A cell, once built on, refuses every later build whatever is selected and whatever is in stock. */
  lemma BuildOnceOnly(g: GameState, index: int, next: ModuleKind, stock: int)
    requires 0 <= index < |g.grid|
    requires g.selected.Some? && Build(g, index).log == [Built(g.selected.value)]
    ensures var h := Select(Build(g, index).game, next).(metal := stock, energy := stock, food := stock);
      Build(h, index) == Step(h, [])
  {
  }

  /** A successful build keeps a healthy colony healthy, including the storage cap's tie to Living Spaces. */
  lemma BuildHealthy(g: GameState, index: int)
    requires Healthy(g)
    requires 0 <= index < |g.grid|
    ensures Healthy(Build(g, index).game)
  {
    if g.selected.Some? && g.grid[index].None? && Affordable(g, g.selected.value) {
      PlaceCounts(g.grid, index, g.selected.value);
      assert Build(g, index).game.grid == g.grid[index := Some(g.selected.value)];
    }
  }
}
