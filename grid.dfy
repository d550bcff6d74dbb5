/**
 * The board arithmetic of game.js on a flat 4x4 board: JavaScript's
 * `indexOf`, the element-wise comparison `boardsAreEqual`, and
 * `getTileIndexForDirection`, which maps an arrow key to the cell whose tile
 * slides into the empty cell (value 0).
 */
module Grid {
  import opened Wrappers

  /** `GRID_SIZE`: the side of the square board. */
  const GRID_SIZE: int := 4
  const CELL_COUNT: int := GRID_SIZE * GRID_SIZE

  /** `DIRECTION_KEYS`: the values of `event.key` the game reacts to. */
  const DIRECTION_KEYS: set<string> := {"ArrowUp", "ArrowDown", "ArrowLeft", "ArrowRight"}

  /** What the game relies on of every board it holds: 16 cells, one of them empty. */
  predicate WellFormed(board: seq<int>) {
    |board| == CELL_COUNT && 0 in board
  }

  /** `Math.floor(i / GRID_SIZE)`; Dafny's `/` rounds down for a positive divisor. */
  function Row(i: int): int {
    i / GRID_SIZE
  }

  /** `i % GRID_SIZE` as JavaScript computes it: the remainder takes the sign of `i`. */
  function Col(i: int): int {
    if i >= 0 then i % GRID_SIZE else -((-i) % GRID_SIZE)
  }

  function Abs(x: int): nat {
    if x < 0 then -x else x
  }

  /**
   * The legality rule of the board engine: two cells of the board are
   * adjacent when exactly one of row or column differs, by one.
   */
  predicate Adjacent(e: int, t: int) {
    0 <= e < CELL_COUNT && 0 <= t < CELL_COUNT &&
    Abs(Row(e) - Row(t)) + Abs(Col(e) - Col(t)) == 1
  }

  /** A cell index is its row times the side plus its column. */
  lemma CellDecomposition(i: int)
    requires 0 <= i < CELL_COUNT
    ensures i == Row(i) * GRID_SIZE + Col(i)
    ensures 0 <= Row(i) < GRID_SIZE && 0 <= Col(i) < GRID_SIZE
  {
  }

  /** On a well-formed board the empty cell is a cell of the grid. */
  lemma EmptyCellPosition(board: seq<int>)
    ensures WellFormed(board) ==>
      var e := IndexOf(board, 0);
      0 <= e < CELL_COUNT && e == Row(e) * GRID_SIZE + Col(e) &&
      0 <= Row(e) < GRID_SIZE && 0 <= Col(e) < GRID_SIZE
  {
    if WellFormed(board) {
      CellDecomposition(IndexOf(board, 0));
    }
  }

  /** `board.indexOf(x)`: the first index holding `x`, or -1 when there is none. */
  function IndexOf(board: seq<int>, x: int): (i: int)
    ensures -1 <= i < |board|
    ensures i == -1 <==> x !in board
    ensures 0 <= i ==> board[i] == x
    ensures forall j :: 0 <= j < i ==> board[j] != x
  {
    if board == [] then -1
    else if board[0] == x then 0
    else
      var j := IndexOf(board[1..], x);
      if j == -1 then -1 else j + 1
  }

  /** `boardsAreEqual(a, b)`: the same length and the same value at every index. */
  function BoardsAreEqual(a: seq<int>, b: seq<int>): (equal: bool)
    ensures equal <==> a == b
  {
    |a| == |b| && forall i :: 0 <= i < |a| ==> a[i] == b[i]
  }

  /**
   * `getTileIndexForDirection(direction)` on the current board: the index of
   * the tile that the arrow key slides into the empty cell, or None.
   * ArrowUp takes the tile below the empty cell, ArrowDown the one above,
   * ArrowLeft the one to its right and ArrowRight the one to its left.
   */
  function GetTileIndexForDirection(board: seq<int>, direction: string): (target: Option<int>)
    ensures target.Some? ==> direction in DIRECTION_KEYS
    ensures WellFormed(board) && target.Some? ==> Adjacent(IndexOf(board, 0), target.value)
    ensures WellFormed(board) ==>
      var e := IndexOf(board, 0);
      && (direction == "ArrowUp" ==>
            (target.None? <==> Row(e) == GRID_SIZE - 1) &&
            (target.Some? ==> Row(target.value) == Row(e) + 1 && Col(target.value) == Col(e)))
      && (direction == "ArrowDown" ==>
            (target.None? <==> Row(e) == 0) &&
            (target.Some? ==> Row(target.value) == Row(e) - 1 && Col(target.value) == Col(e)))
      && (direction == "ArrowLeft" ==>
            (target.None? <==> Col(e) == GRID_SIZE - 1) &&
            (target.Some? ==> Row(target.value) == Row(e) && Col(target.value) == Col(e) + 1))
      && (direction == "ArrowRight" ==>
            (target.None? <==> Col(e) == 0) &&
            (target.Some? ==> Row(target.value) == Row(e) && Col(target.value) == Col(e) - 1))
  {
    var emptyIndex := IndexOf(board, 0);
    EmptyCellPosition(board);
    var row := Row(emptyIndex);
    var col := Col(emptyIndex);
    if direction == "ArrowUp" then
      if row < GRID_SIZE - 1 then Some(emptyIndex + GRID_SIZE) else None
    else if direction == "ArrowDown" then
      if row > 0 then Some(emptyIndex - GRID_SIZE) else None
    else if direction == "ArrowLeft" then
      if col < GRID_SIZE - 1 then Some(emptyIndex + 1) else None
    else if direction == "ArrowRight" then
      if col > 0 then Some(emptyIndex - 1) else None
    else
      None
  }

  /**
   * The arrow keys reach every move the engine allows: each cell adjacent to
   * the empty cell is the target of some arrow key.
   */
  lemma EveryNeighbourHasADirection(board: seq<int>, t: int)
    requires WellFormed(board) && Adjacent(IndexOf(board, 0), t)
    ensures exists direction :: direction in DIRECTION_KEYS && GetTileIndexForDirection(board, direction) == Some(t)
  {
    var e := IndexOf(board, 0);
    CellDecomposition(e);
    CellDecomposition(t);
    if Row(t) == Row(e) + 1 {
      assert GetTileIndexForDirection(board, "ArrowUp") == Some(t);
    } else if Row(t) == Row(e) - 1 {
      assert GetTileIndexForDirection(board, "ArrowDown") == Some(t);
    } else if Col(t) == Col(e) + 1 {
      assert GetTileIndexForDirection(board, "ArrowLeft") == Some(t);
    } else {
      assert GetTileIndexForDirection(board, "ArrowRight") == Some(t);
    }
  }
}
