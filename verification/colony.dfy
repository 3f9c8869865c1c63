/**
 The game state of one colony, the event log messages, and the invariant
 every running colony keeps.
 */
module Colony {
  import opened Wrappers
  import opened Catalog
  import opened Grid

  /** Starting stock and storage of a new colony. */
  const StartMetal: int := 25
  const StartEnergy: int := 15
  const StartFood: int := 25
  const StartOxygen: int := 25
  const BaseStorageCap: int := 90

  /** Minimum time, in milliseconds, between two drone launches. */
  const DroneCooldown: int := 1000

  /**
   Everything the economy reads and writes. Stocks are plain integers:
   food and oxygen can drop below zero, which is how a lost colony shows.
   */
  datatype GameState = GameState(
    metal: int,
    energy: int,
    food: int,
    oxygen: int,
    storageUsed: int,
    storageCap: int,
    grid: seq<Cell>,
    selected: Option<ModuleKind>,
    lastDroneTime: int)
  {
    /** The stock of one resource. */
    function Amount(res: Resource): int
    {
      match res
      case Metal => metal
      case Energy => energy
      case Food => food
      case Oxygen => oxygen
    }

    /** This state with one resource's stock replaced by `v` and nothing else changed. */
    function WithAmount(res: Resource, v: int): (h: GameState)
      ensures h.Amount(res) == v
      ensures forall o: Resource :: o != res ==> h.Amount(o) == Amount(o)
      ensures h.storageUsed == storageUsed && h.storageCap == storageCap
      ensures h.grid == grid && h.selected == selected && h.lastDroneTime == lastDroneTime
    {
      match res
      case Metal => this.(metal := v)
      case Energy => this.(energy := v)
      case Food => this.(food := v)
      case Oxygen => this.(oxygen := v)
    }

    /** The sum of all four stocks. */
    function Total(): int
    {
      metal + energy + food + oxygen
    }

    /** No room left: every addition would be wasted. */
    predicate Full()
    {
      storageUsed >= storageCap
    }
  }

  /** One line of the event log. */
  datatype Message =
    | Built(kind: ModuleKind)
    | NotEnoughResources(kind: ModuleKind)
    | DroneCoolingDown
    | NoStorageSpace(amount: int, res: Resource)
    | StorageFull(wasted: int, res: Resource)
    | Gained(amount: int, res: Resource)
    | ColonyLost(reason: string)

  /** The new state after an operation, with the log lines it emitted in order. */
  datatype Step = Step(game: GameState, log: seq<Message>)

  /** `h` differs from `g` at most in the stock of `res` and in the used-storage counter. */
  predicate SameBesides(g: GameState, h: GameState, res: Resource)
  {
    && h.grid == g.grid
    && h.storageCap == g.storageCap
    && h.selected == g.selected
    && h.lastDroneTime == g.lastDroneTime
    && forall o: Resource :: o != res ==> h.Amount(o) == g.Amount(o)
  }

  /**
   The colony at game start: the stock exactly fills the base storage, so
   nothing can be added until something is spent; the grid is empty, nothing
   is selected and the drone has never flown.
   */
  function Initial(): (g: GameState)
    ensures g.Total() == g.storageUsed == g.storageCap == BaseStorageCap
    ensures g.Full()
    ensures |g.grid| == GridCells && forall i :: 0 <= i < |g.grid| ==> g.grid[i].None?
    ensures g.selected.None? && g.lastDroneTime == 0
  {
    GameState(StartMetal, StartEnergy, StartFood, StartOxygen, BaseStorageCap, BaseStorageCap,
              EmptyGrid(), None, 0)
  }

  /**
   What holds of every colony still in play: a full-size grid, no negative
   stock, a used-storage counter that agrees with the stocks and stays within
   the cap, and a cap that is the base plus the bonus of each Living Space.
   */
  predicate Healthy(g: GameState)
  {
    && |g.grid| == GridCells
    && g.metal >= 0 && g.energy >= 0 && g.food >= 0 && g.oxygen >= 0
    && g.storageUsed == g.Total()
    && g.storageUsed <= g.storageCap
    && g.storageCap == BaseStorageCap + StorageBonus * Count(g.grid, LivingSpace)
  }

  lemma InitialHealthy()
    ensures Healthy(Initial())
  {
    EmptyCounts(EmptyGrid(), LivingSpace);
  }
}
