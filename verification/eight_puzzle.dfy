/**
 * TotalManhattanDistance: the eight-puzzle heuristic that adds up, over the
 * tiles 1 to 8, how many rows and columns each tile is away from where the
 * goal state has it. The puzzle state itself is not part of this model; a
 * state is seen only through its tile-position queries.
 */
module EightPuzzle {

  /** An eight-puzzle state as the heuristic sees it: the row and column of every tile number. */
  datatype Board = Board(rowOf: int -> int, colOf: int -> int)

  /** The first and one-past-last tile numbers the heuristic visits; tile 0 is the blank. */
  const FirstTile := 1
  const EndTile := 9

  function Abs(x: int): (r: nat)
    ensures r == x || r == -x
  {
    if x < 0 then -x else x
  }

  /** The Manhattan distance of tile `t` from its place in `goal`. */
  function TileDistance(s: Board, goal: Board, t: int): nat {
    Abs(s.rowOf(t) - goal.rowOf(t)) + Abs(s.colOf(t) - goal.colOf(t))
  }

  /** Tile `t` is where the goal has it. */
  predicate AtHome(s: Board, goal: Board, t: int) {
    s.rowOf(t) == goal.rowOf(t) && s.colOf(t) == goal.colOf(t)
  }

  /** The sum of the tile distances for tiles `lo` up to (not including) `hi`. */
  function DistanceSum(s: Board, goal: Board, lo: int, hi: int): nat
    decreases hi - lo
  {
    if hi <= lo then 0 else DistanceSum(s, goal, lo, hi - 1) + TileDistance(s, goal, hi - 1)
  }

  /** Positions on the 3-by-3 board. */
  predicate OnBoard(s: Board, t: int) {
    0 <= s.rowOf(t) <= 2 && 0 <= s.colOf(t) <= 2
  }

  /**
   * estimate: the loop over tiles 1 to 8 adding the row and the column
   * difference of each tile.
   */
  method Estimate(s: Board, goal: Board) returns (estimate: int)
    ensures estimate == DistanceSum(s, goal, FirstTile, EndTile)
    ensures estimate >= 0
    ensures estimate == 0 <==> forall t :: FirstTile <= t < EndTile ==> AtHome(s, goal, t)
  {
    estimate := 0;
    var tileNo := FirstTile;
    while tileNo < EndTile
      invariant FirstTile <= tileNo <= EndTile
      invariant estimate == DistanceSum(s, goal, FirstTile, tileNo)
    {
      estimate := estimate + Abs(s.rowOf(tileNo) - goal.rowOf(tileNo));
      estimate := estimate + Abs(s.colOf(tileNo) - goal.colOf(tileNo));
      tileNo := tileNo + 1;
    }
    DistanceSumZeroIff(s, goal, FirstTile, EndTile);
  }

  /** The sum is zero exactly when every counted tile is at home. */
  lemma {:induction false} DistanceSumZeroIff(s: Board, goal: Board, lo: int, hi: int)
    ensures DistanceSum(s, goal, lo, hi) == 0 <==> forall t :: lo <= t < hi ==> AtHome(s, goal, t)
    decreases hi - lo
  {
    if hi > lo {
      DistanceSumZeroIff(s, goal, lo, hi - 1);
      assert TileDistance(s, goal, hi - 1) == 0 <==> AtHome(s, goal, hi - 1);
    }
  }

  /** Swapping the state and the goal gives the same estimate. */
  lemma {:induction false} DistanceSumSymmetric(s: Board, goal: Board, lo: int, hi: int)
    ensures DistanceSum(s, goal, lo, hi) == DistanceSum(goal, s, lo, hi)
    decreases hi - lo
  {
    if hi > lo {
      DistanceSumSymmetric(s, goal, lo, hi - 1);
      assert TileDistance(s, goal, hi - 1) == TileDistance(goal, s, hi - 1);
    }
  }

  /** Only the counted tiles matter: states that agree on them get the same sum, whatever their blank. */
  lemma {:induction false} DistanceSumOnlyCountedTiles(s: Board, s': Board, goal: Board, lo: int, hi: int)
    requires forall t :: lo <= t < hi ==> s.rowOf(t) == s'.rowOf(t) && s.colOf(t) == s'.colOf(t)
    ensures DistanceSum(s, goal, lo, hi) == DistanceSum(s', goal, lo, hi)
    decreases hi - lo
  {
    if hi > lo {
      DistanceSumOnlyCountedTiles(s, s', goal, lo, hi - 1);
    }
  }

  /** Estimate never looks at the blank tile 0. */
  lemma BlankIgnored(s: Board, s': Board, goal: Board)
    requires forall t :: FirstTile <= t < EndTile ==> s.rowOf(t) == s'.rowOf(t) && s.colOf(t) == s'.colOf(t)
    ensures DistanceSum(s, goal, FirstTile, EndTile) == DistanceSum(s', goal, FirstTile, EndTile)
  {
    DistanceSumOnlyCountedTiles(s, s', goal, FirstTile, EndTile);
  }

  /** On the 3-by-3 board each tile is at most 4 moves away, so the estimate is at most 32. */
  lemma {:induction false} DistanceSumBounded(s: Board, goal: Board, lo: int, hi: int)
    requires forall t :: lo <= t < hi ==> OnBoard(s, t) && OnBoard(goal, t)
    ensures hi >= lo ==> DistanceSum(s, goal, lo, hi) <= 4 * (hi - lo)
    decreases hi - lo
  {
    if hi > lo {
      DistanceSumBounded(s, goal, lo, hi - 1);
      assert OnBoard(s, hi - 1) && OnBoard(goal, hi - 1);
    }
  }

  /** The goal state itself is estimated at zero. */
  lemma GoalIsZero(goal: Board)
    ensures DistanceSum(goal, goal, FirstTile, EndTile) == 0
  {
    DistanceSumZeroIff(goal, goal, FirstTile, EndTile);
  }
}
