/**
 Drone exploration: a rate-limited action that always brings back some metal.
 The clock reading `now` and the random roll are parameters.
 */
module Drone {
  import opened Catalog
  import opened Colony
  import opened Storage

  /** The drone is still cooling down at time `now`. */
  predicate CoolingDown(g: GameState, now: int)
  {
    now - g.lastDroneTime < DroneCooldown
  }

  /**
   Launching the drone at time `now`, where `roll` is the random draw in
   0..9. During the cooldown the call only logs that the drone is cooling
   down and changes nothing, not even the launch time. Otherwise the launch
   time becomes `now` and `roll + 5` metal (between 5 and 14) goes through
   storage-aware addition.
   */
  function Explore(g: GameState, now: int, roll: int): (r: Step)
    requires 0 <= roll < 10
    ensures CoolingDown(g, now) ==> r == Step(g, [DroneCoolingDown])
    ensures !CoolingDown(g, now) ==>
      var gain := r.game.metal - g.metal;
      && r.game.lastDroneTime == now
      && r.game.(lastDroneTime := g.lastDroneTime, metal := g.metal, storageUsed := g.storageUsed) == g
      && r.game.storageUsed == g.storageUsed + gain
      && 0 <= gain <= 14
      && (g.Full() ==> gain == 0 && |r.log| == 1 && r.log[0].NoStorageSpace? && 5 <= r.log[0].amount <= 14)
      && (!g.Full() ==> r.game.storageUsed <= r.game.storageCap)
      && (!g.Full() ==> 5 <= gain || r.game.storageUsed == r.game.storageCap)
      && (!g.Full() && g.storageUsed + 14 <= g.storageCap ==> 5 <= gain && r.log == [Gained(gain, Metal)])
      && gain == Accepted(g.storageUsed, g.storageCap, roll + 5)
      && r.log == [Report(g.storageUsed, g.storageCap, roll + 5, Metal)]
  {
    if CoolingDown(g, now) then
      Step(g, [DroneCoolingDown])
    else
      var found := roll + 5;
      AddResourceAgrees(g.(lastDroneTime := now), Metal, found);
      AddResource(g.(lastDroneTime := now), Metal, found)
  }

  /** A second launch inside the cooldown of a successful one is dropped: the state stays as the first launch left it. */
  lemma SecondLaunchDropped(g: GameState, now1: int, roll1: int, now2: int, roll2: int)
    requires 0 <= roll1 < 10 && 0 <= roll2 < 10
    requires !CoolingDown(g, now1)
    requires now1 <= now2 < now1 + DroneCooldown
    ensures var first := Explore(g, now1, roll1).game;
      Explore(first, now2, roll2) == Step(first, [DroneCoolingDown])
  {
  }

  /** Exploration keeps a healthy colony healthy. */
  lemma ExploreHealthy(g: GameState, now: int, roll: int)
    requires Healthy(g)
    requires 0 <= roll < 10
    ensures Healthy(Explore(g, now, roll).game)
  {
  }
}
