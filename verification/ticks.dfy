/**
 The two periodic ticks: production every five seconds and upkeep every ten.
 Each tick is one explicit step; scheduling them is left to the caller.
 */
module Ticks {
  import opened Catalog
  import opened Grid
  import opened Colony
  import opened Storage

  /**
   One production line: when at least one producer is present, `count * perModule`
   of `res` goes through storage-aware addition and its log line is appended.
   */
  function Produce(s: Step, count: nat, perModule: nat, res: Resource): (r: Step)
    ensures SameBesides(s.game, r.game, res)
    ensures var gain := r.game.Amount(res) - s.game.Amount(res);
      && 0 <= gain <= count * perModule
      && r.game.storageUsed == s.game.storageUsed + gain
      && (s.game.storageUsed <= s.game.storageCap ==> r.game.storageUsed <= r.game.storageCap)
      && (count > 0 && !s.game.Full() ==> gain == count * perModule || r.game.storageUsed == r.game.storageCap)
    ensures count == 0 ==> r == s
    ensures count > 0 ==>
      && r.game.Amount(res) == s.game.Amount(res) + Accepted(s.game.storageUsed, s.game.storageCap, count * perModule)
      && r.log == s.log + [Report(s.game.storageUsed, s.game.storageCap, count * perModule, res)]
  {
    if count > 0 then
      AddResourceAgrees(s.game, res, count * perModule);
      var t := AddResource(s.game, res, count * perModule);
      Step(t.game, s.log + t.log)
    else
      s
  }

  /**
   The production tick: farms feed food, then oxygen generators feed oxygen,
   then power plants feed energy, each at its per-module yield and each
   through the storage clamp, so when room runs short food is served first.
   */
  function ProductionTick(g: GameState): (r: Step)
    ensures r.game.grid == g.grid && r.game.storageCap == g.storageCap
    ensures r.game.selected == g.selected && r.game.lastDroneTime == g.lastDroneTime
    ensures r.game.metal == g.metal
    ensures
      var farms := Count(g.grid, Farm);
      var generators := Count(g.grid, OxygenGenerator);
      var plants := Count(g.grid, PowerPlant);
      var cap := g.storageCap;
      var used0 := g.storageUsed;
      var food := if farms > 0 then Accepted(used0, cap, FarmYield * farms) else 0;
      var used1 := used0 + food;
      var oxygen := if generators > 0 then Accepted(used1, cap, OxygenYield * generators) else 0;
      var used2 := used1 + oxygen;
      var energy := if plants > 0 then Accepted(used2, cap, PowerYield * plants) else 0;
      && r.game.food == g.food + food
      && r.game.oxygen == g.oxygen + oxygen
      && r.game.energy == g.energy + energy
      && r.game.storageUsed == used2 + energy
      && r.log == (if farms > 0 then [Report(used0, cap, FarmYield * farms, Food)] else [])
                + (if generators > 0 then [Report(used1, cap, OxygenYield * generators, Oxygen)] else [])
                + (if plants > 0 then [Report(used2, cap, PowerYield * plants, Energy)] else [])
  {
    var farms := Count(g.grid, Farm);
    var generators := Count(g.grid, OxygenGenerator);
    var plants := Count(g.grid, PowerPlant);
    var food := if farms > 0 then Accepted(g.storageUsed, g.storageCap, FarmYield * farms) else 0;
    var fed := Produce(Step(g, []), farms, FarmYield, Food);
    assert fed.game.grid == g.grid && fed.game.storageCap == g.storageCap;
    assert fed.game.food == g.food + food && fed.game.storageUsed == g.storageUsed + food;
    assert fed.game.oxygen == g.oxygen && fed.game.energy == g.energy;
    var oxygen := if generators > 0 then Accepted(fed.game.storageUsed, g.storageCap, OxygenYield * generators) else 0;
    var aired := Produce(fed, generators, OxygenYield, Oxygen);
    assert aired.game.grid == g.grid && aired.game.storageCap == g.storageCap;
    assert aired.game.oxygen == g.oxygen + oxygen && aired.game.storageUsed == fed.game.storageUsed + oxygen;
    assert aired.game.food == fed.game.food && aired.game.energy == g.energy;
    Produce(aired, plants, PowerYield, Energy)
  }

  /**
   Each producing kind gains between nothing and its full yield, the used
   counter grows by exactly the total gain, and a store within its cap stays
   within it.
   */
  lemma ProductionBounds(g: GameState)
    ensures var r := ProductionTick(g);
      && 0 <= r.game.food - g.food <= FarmYield * Count(g.grid, Farm)
      && 0 <= r.game.oxygen - g.oxygen <= OxygenYield * Count(g.grid, OxygenGenerator)
      && 0 <= r.game.energy - g.energy <= PowerYield * Count(g.grid, PowerPlant)
      && r.game.storageUsed - g.storageUsed == r.game.Total() - g.Total()
      && (g.storageUsed <= g.storageCap ==> r.game.storageUsed <= r.game.storageCap)
  {
  }

  /** With room for the whole output, every producer's yield arrives in full and is logged as gained, in order. */
  lemma ProductionWithRoom(g: GameState)
    requires g.storageUsed + FarmYield * Count(g.grid, Farm) + OxygenYield * Count(g.grid, OxygenGenerator)
             + PowerYield * Count(g.grid, PowerPlant) <= g.storageCap
    ensures var r := ProductionTick(g);
      && r.game.food == g.food + FarmYield * Count(g.grid, Farm)
      && r.game.oxygen == g.oxygen + OxygenYield * Count(g.grid, OxygenGenerator)
      && r.game.energy == g.energy + PowerYield * Count(g.grid, PowerPlant)
      && r.log == (if Count(g.grid, Farm) > 0 then [Gained(FarmYield * Count(g.grid, Farm), Food)] else [])
                + (if Count(g.grid, OxygenGenerator) > 0
                   then [Gained(OxygenYield * Count(g.grid, OxygenGenerator), Oxygen)] else [])
                + (if Count(g.grid, PowerPlant) > 0 then [Gained(PowerYield * Count(g.grid, PowerPlant), Energy)] else [])
  {
  }

  /** The production tick keeps a healthy colony healthy. */
  lemma ProductionHealthy(g: GameState)
    requires Healthy(g)
    ensures Healthy(ProductionTick(g).game)
  {
  }

  /** The consumption tick's outcome: the new state, its log lines, and whether the colony is lost. */
  datatype Upkeep = Upkeep(game: GameState, log: seq<Message>, gameOver: bool)

  /** The resources that ran out, food listed before oxygen. */
  function Shortages(food: int, oxygen: int): seq<string>
  {
    (if food < 0 then ["food"] else []) + (if oxygen < 0 then ["oxygen"] else [])
  }

  /** The parts separated by `sep`. */
  function Join(parts: seq<string>, sep: string): string
  {
    if |parts| == 0 then ""
    else if |parts| == 1 then parts[0]
    else parts[0] + sep + Join(parts[1..], sep)
  }

  /** Two parts are joined with one separator between them. */
  lemma JoinPair(a: string, b: string, sep: string)
    ensures Join([a, b], sep) == a + sep + b
  {
  }

  /**
   The consumption tick: every built module eats one food and one oxygen.
   The colony is lost exactly when food or oxygen has dropped below zero;
   the log then names what ran out, food before oxygen. The negative stock
   stays as it is, and the used-storage counter is recounted.
   */
  function ConsumptionTick(g: GameState): (r: Upkeep)
    ensures r.game.food == g.food - BuiltCount(g.grid)
    ensures r.game.oxygen == g.oxygen - BuiltCount(g.grid)
    ensures r.game.metal == g.metal && r.game.energy == g.energy
    ensures r.game.grid == g.grid && r.game.storageCap == g.storageCap
    ensures r.game.selected == g.selected && r.game.lastDroneTime == g.lastDroneTime
    ensures r.game.storageUsed == r.game.Total()
    ensures r.gameOver <==> r.game.food < 0 || r.game.oxygen < 0
    ensures !r.gameOver ==> r.log == []
    ensures r.game.food < 0 && r.game.oxygen >= 0 ==> r.log == [ColonyLost("food")]
    ensures r.game.food >= 0 && r.game.oxygen < 0 ==> r.log == [ColonyLost("oxygen")]
    ensures r.game.food < 0 && r.game.oxygen < 0 ==> r.log == [ColonyLost("food and oxygen")]
  {
    var consumption := BuiltCount(g.grid);
    var eaten := g.(food := g.food - consumption, oxygen := g.oxygen - consumption);
    var reasons := Shortages(eaten.food, eaten.oxygen);
    JoinPair("food", "oxygen", " and ");
    assert "food" + " and " + "oxygen" == "food and oxygen";
    var log := if |reasons| > 0 then [ColonyLost(Join(reasons, " and "))] else [];
    Upkeep(UpdateStorageUsed(eaten), log, |reasons| > 0)
  }

  /** A colony survives the upkeep exactly when food and oxygen each cover one unit per built module. */
  lemma SurvivesUpkeep(g: GameState)
    ensures !ConsumptionTick(g).gameOver <==> g.food >= BuiltCount(g.grid) && g.oxygen >= BuiltCount(g.grid)
  {
  }

  /** A surviving colony stays healthy through the upkeep. */
  lemma ConsumptionHealthy(g: GameState)
    requires Healthy(g)
    requires !ConsumptionTick(g).gameOver
    ensures Healthy(ConsumptionTick(g).game)
  {
  }
}
