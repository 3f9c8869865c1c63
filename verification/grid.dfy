/**
 The colony grid: a row-major sequence of cells, each empty or holding one
 module, and the counts the ticks take over it.
 */
module Grid {
  import opened Wrappers
  import opened Catalog

  type Cell = Option<ModuleKind>

  const GridSize: nat := 10
  const GridCells: nat := GridSize * GridSize

  /** The grid at game start: every cell empty. */
  function EmptyGrid(): (cells: seq<Cell>)
    ensures |cells| == GridCells
    ensures forall i :: 0 <= i < |cells| ==> cells[i].None?
  {
    seq(GridCells, _ => None)
  }

  /** How many cells hold a module of kind `k`. */
  function Count(cells: seq<Cell>, k: ModuleKind): (n: nat)
    ensures n <= |cells|
  {
    if |cells| == 0 then 0
    else (if cells[0] == Some(k) then 1 else 0) + Count(cells[1..], k)
  }

  /** How many cells hold any module at all. */
  function BuiltCount(cells: seq<Cell>): (n: nat)
    ensures n <= |cells|
  {
    if |cells| == 0 then 0
    else (if cells[0].Some? then 1 else 0) + BuiltCount(cells[1..])
  }

  /** Replacing one cell changes the count of a kind only by what left and what arrived. */
  lemma {:induction false} CountUpdate(cells: seq<Cell>, i: int, v: Cell, k: ModuleKind)
    requires 0 <= i < |cells|
    ensures Count(cells[i := v], k)
         == Count(cells, k) - (if cells[i] == Some(k) then 1 else 0) + (if v == Some(k) then 1 else 0)
  {
    if i == 0 {
      assert cells[i := v][1..] == cells[1..];
    } else {
      assert cells[i := v][1..] == cells[1..][i - 1 := v];
      CountUpdate(cells[1..], i - 1, v, k);
    }
  }

  /** Filling an empty cell adds exactly one built module. */
  lemma {:induction false} BuiltCountPlace(cells: seq<Cell>, i: int, k: ModuleKind)
    requires 0 <= i < |cells|
    requires cells[i].None?
    ensures BuiltCount(cells[i := Some(k)]) == BuiltCount(cells) + 1
  {
    if i == 0 {
      assert cells[i := Some(k)][1..] == cells[1..];
    } else {
      assert cells[i := Some(k)][1..] == cells[1..][i - 1 := Some(k)];
      BuiltCountPlace(cells[1..], i - 1, k);
    }
  }

  /** Placing kind `k` on an empty cell adds one `k` and leaves every other kind's count alone. */
  lemma PlaceCounts(cells: seq<Cell>, i: int, k: ModuleKind)
    requires 0 <= i < |cells|
    requires cells[i].None?
    ensures Count(cells[i := Some(k)], k) == Count(cells, k) + 1
    ensures forall j: ModuleKind :: j != k ==> Count(cells[i := Some(k)], j) == Count(cells, j)
    ensures BuiltCount(cells[i := Some(k)]) == BuiltCount(cells) + 1
  {
    CountUpdate(cells, i, Some(k), k);
    forall j: ModuleKind | j != k
      ensures Count(cells[i := Some(k)], j) == Count(cells, j)
    {
      CountUpdate(cells, i, Some(k), j);
    }
    BuiltCountPlace(cells, i, k);
  }

  /** The built modules are exactly the modules of the four kinds. */
  lemma {:induction false} BuiltIsSumOfKinds(cells: seq<Cell>)
    ensures BuiltCount(cells)
         == Count(cells, LivingSpace) + Count(cells, Farm) + Count(cells, OxygenGenerator) + Count(cells, PowerPlant)
  {
    if |cells| > 0 {
      BuiltIsSumOfKinds(cells[1..]);
      match cells[0]
      case None =>
      case Some(k) =>
        assert k == LivingSpace || k == Farm || k == OxygenGenerator || k == PowerPlant;
    }
  }

  /** An all-empty grid holds no module of any kind. */
  lemma {:induction false} EmptyCounts(cells: seq<Cell>, k: ModuleKind)
    requires forall i :: 0 <= i < |cells| ==> cells[i].None?
    ensures Count(cells, k) == 0
    ensures BuiltCount(cells) == 0
  {
    if |cells| > 0 {
      assert cells[0].None?;
      EmptyCounts(cells[1..], k);
    }
  }
}
