/**
 A whole game session: the player's clicks, drone launches and the two timers
 arrive as a sequence of events, and a lost colony ends the session.
 */
module GameLoop {
  import opened Catalog
  import opened Grid
  import opened Colony
  import opened Building
  import opened Drone
  import opened Ticks

  /** Everything that can happen to a colony. */
  datatype Event =
    | Choose(kind: ModuleKind)
    | Click(cell: int)
    | Launch(now: int, roll: int)
    | ProductionTimer
    | UpkeepTimer

  /** A session in play, or one that ended when the colony was lost. Both keep the full log. */
  datatype Session = Playing(game: GameState, log: seq<Message>) | Over(game: GameState, log: seq<Message>)

  /** Events the interface can produce: clicks on grid cells and rolls of the random draw. */
  predicate Admissible(e: Event)
  {
    match e
    case Click(cell) => 0 <= cell < GridCells
    case Launch(_, roll) => 0 <= roll < 10
    case _ => true
  }

  function Start(): Session
  {
    Playing(Initial(), [])
  }

  /**
   One event. A lost session ignores everything. Otherwise the event's
   operation runs, its log lines are appended, and an upkeep that loses the
   colony ends the session.
   */
  function Run(s: Session, e: Event): (t: Session)
    requires Admissible(e)
    requires |s.game.grid| == GridCells
    ensures |t.game.grid| == GridCells
    ensures s.Over? ==> t == s
    ensures |s.log| <= |t.log| && t.log[..|s.log|] == s.log
    ensures s.Playing? && t.Over? ==> e.UpkeepTimer? && (t.game.food < 0 || t.game.oxygen < 0)
    ensures s.Playing? && t.Playing? && e.UpkeepTimer? ==> t.game.food >= 0 && t.game.oxygen >= 0
  {
    match s
    case Over(_, _) => s
    case Playing(g, log) =>
      match e
      case Choose(k) => Playing(Select(g, k), log)
      case Click(cell) =>
        var r := Build(g, cell);
        Playing(r.game, log + r.log)
      case Launch(now, roll) =>
        var r := Explore(g, now, roll);
        Playing(r.game, log + r.log)
      case ProductionTimer =>
        var r := ProductionTick(g);
        Playing(r.game, log + r.log)
      case UpkeepTimer =>
        var u := ConsumptionTick(g);
        if u.gameOver then Over(u.game, log + u.log) else Playing(u.game, log + u.log)
  }

  /** The session after a sequence of admissible events. */
  function RunAll(s: Session, events: seq<Event>): (t: Session)
    requires forall i :: 0 <= i < |events| ==> Admissible(events[i])
    requires |s.game.grid| == GridCells
    ensures |t.game.grid| == GridCells
    ensures |s.log| <= |t.log| && t.log[..|s.log|] == s.log
    ensures s.Over? ==> t == s
    decreases |events|
  {
    if |events| == 0 then s
    else RunAll(Run(s, events[0]), events[1..])
  }

  /** One event keeps a healthy session healthy while it is still in play. */
  lemma RunHealthy(s: Session, e: Event)
    requires Admissible(e)
    requires s.Playing? ==> Healthy(s.game)
    requires |s.game.grid| == GridCells
    ensures Run(s, e).Playing? ==> Healthy(Run(s, e).game)
  {
    if s.Playing? {
      match e
      case Choose(k) =>
      case Click(cell) => BuildHealthy(s.game, cell);
      case Launch(now, roll) => ExploreHealthy(s.game, now, roll);
      case ProductionTimer => ProductionHealthy(s.game);
      case UpkeepTimer =>
        if !ConsumptionTick(s.game).gameOver {
          ConsumptionHealthy(s.game);
        }
    }
  }

  /** Every session still in play, however it was reached, is healthy. */
  lemma {:induction false} RunAllHealthy(s: Session, events: seq<Event>)
    requires forall i :: 0 <= i < |events| ==> Admissible(events[i])
    requires s.Playing? ==> Healthy(s.game)
    requires |s.game.grid| == GridCells
    ensures RunAll(s, events).Playing? ==> Healthy(RunAll(s, events).game)
    decreases |events|
  {
    if |events| > 0 {
      RunHealthy(s, events[0]);
      RunAllHealthy(Run(s, events[0]), events[1..]);
    }
  }

  /**
   From a new game, every reachable session in play has no negative stock,
   a used-storage counter equal to the stock and within the cap, and a cap of
   the base plus the bonus of each Living Space.
   */
  lemma ReachableHealthy(events: seq<Event>)
    requires forall i :: 0 <= i < |events| ==> Admissible(events[i])
    ensures RunAll(Start(), events).Playing? ==> Healthy(RunAll(Start(), events).game)
  {
    InitialHealthy();
    RunAllHealthy(Start(), events);
  }
}
