/**
 Storage-aware resource addition: the clamp-and-waste rule every gain goes
 through, and the recount of used storage after a build or an upkeep.
 */
module Storage {
  import opened Catalog
  import opened Colony

  /**
   Adds up to `amount` of `res`. A full store takes nothing. Otherwise the
   store takes as much as fits, the used counter grows by the same amount, and
   the log tells whether everything was kept or how much was wasted.
   */
  function AddResource(g: GameState, res: Resource, amount: int): (r: Step)
    ensures SameBesides(g, r.game, res)
    ensures g.Full() ==> r.game == g && r.log == [NoStorageSpace(amount, res)]
    ensures !g.Full() ==>
      var gained := r.game.Amount(res) - g.Amount(res);
      && r.game.storageUsed == g.storageUsed + gained
      && gained <= amount
      && r.game.storageUsed <= r.game.storageCap
      && (gained == amount || r.game.storageUsed == r.game.storageCap)
      && r.log == (if gained < amount then [StorageFull(amount - gained, res)] else [Gained(amount, res)])
  {
    if g.Full() then
      Step(g, [NoStorageSpace(amount, res)])
    else
      var space := g.storageCap - g.storageUsed;
      var accepted := if amount < space then amount else space;
      var h := g.WithAmount(res, g.Amount(res) + accepted).(storageUsed := g.storageUsed + accepted);
      Step(h, if accepted < amount then [StorageFull(amount - accepted, res)] else [Gained(accepted, res)])
  }

  /**
   How much of `amount` a store with `used` of `cap` taken accepts: nothing
   when it is full, otherwise everything that fits and no more.
   */
  function Accepted(used: int, cap: int, amount: int): (a: int)
    ensures used >= cap ==> a == 0
    ensures used < cap ==> a <= amount && used + a <= cap && (a == amount || used + a == cap)
  {
    if used >= cap then 0
    else if amount < cap - used then amount
    else cap - used
  }

  /** The log line an addition of `amount` to a store with `used` of `cap` taken writes. */
  function Report(used: int, cap: int, amount: int, res: Resource): Message
  {
    if used >= cap then NoStorageSpace(amount, res)
    else if Accepted(used, cap, amount) < amount then StorageFull(amount - Accepted(used, cap, amount), res)
    else Gained(amount, res)
  }

  /** Storage-aware addition takes exactly the clamped amount and writes exactly its report line. */
  lemma AddResourceAgrees(g: GameState, res: Resource, amount: int)
    ensures AddResource(g, res, amount).game.Amount(res) == g.Amount(res) + Accepted(g.storageUsed, g.storageCap, amount)
    ensures AddResource(g, res, amount).game.storageUsed == g.storageUsed + Accepted(g.storageUsed, g.storageCap, amount)
    ensures AddResource(g, res, amount).log == [Report(g.storageUsed, g.storageCap, amount, res)]
  {
  }

  /** Recomputes the used-storage counter from the four stocks; nothing else changes. */
  function UpdateStorageUsed(g: GameState): (h: GameState)
    ensures h.storageUsed == h.Total()
    ensures h.Total() == g.Total()
    ensures forall o: Resource :: h.Amount(o) == g.Amount(o)
    ensures h.grid == g.grid && h.storageCap == g.storageCap
    ensures h.selected == g.selected && h.lastDroneTime == g.lastDroneTime
  {
    g.(storageUsed := g.metal + g.energy + g.food + g.oxygen)
  }

  /** An addition that does not fit fills the store exactly and reports the excess as waste. */
  lemma AddResourceOverflow(g: GameState, res: Resource, amount: int)
    requires !g.Full()
    requires g.storageUsed + amount > g.storageCap
    ensures AddResource(g, res, amount).game.storageUsed == g.storageCap
    ensures AddResource(g, res, amount).game.Amount(res) == g.Amount(res) + (g.storageCap - g.storageUsed)
    ensures AddResource(g, res, amount).log
         == [StorageFull(amount - (g.storageCap - g.storageUsed), res)]
  {
  }

  /** An addition that fits is kept whole. */
  lemma AddResourceFits(g: GameState, res: Resource, amount: int)
    requires g.storageUsed + amount <= g.storageCap
    requires amount > 0
    ensures AddResource(g, res, amount).game.Amount(res) == g.Amount(res) + amount
    ensures AddResource(g, res, amount).game.storageUsed == g.storageUsed + amount
    ensures AddResource(g, res, amount).log == [Gained(amount, res)]
  {
  }

  /** A non-negative addition keeps a healthy colony healthy. */
  lemma AddResourceHealthy(g: GameState, res: Resource, amount: int)
    requires Healthy(g)
    requires amount >= 0
    ensures Healthy(AddResource(g, res, amount).game)
  {
  }

  /** Once an addition has overflowed, any further addition is wasted in full. */
  lemma OverflowThenWasted(g: GameState, res: Resource, amount: int, res2: Resource, amount2: int)
    requires !g.Full()
    requires g.storageUsed + amount > g.storageCap
    ensures var h := AddResource(g, res, amount).game;
      AddResource(h, res2, amount2) == Step(h, [NoStorageSpace(amount2, res2)])
  {
  }
}
