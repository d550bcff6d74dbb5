/**
 * The board engine that game.js imports (`moveTile`, `isSolved`). Its source
 * is not part of this model, so an engine is a pair of functions the game is
 * given, and `Sound` states the one thing game.js relies on about `moveTile`:
 * it turns a well-formed board into a well-formed board, so that the empty
 * cell can be found again. A result equal to its input is how the engine
 * signals "no move"; game.js reads it that way and no more is assumed.
 */
module BoardEngine {
  import opened Grid

  datatype Engine = Engine(
    moveTile: (seq<int>, int, int) -> seq<int>,
    isSolved: seq<int> -> bool)
  {
    /** The call `moveTile(board, tileIndex, GRID_SIZE)` of game.js. */
    function MoveTile(board: seq<int>, tileIndex: int): seq<int> {
      moveTile(board, tileIndex, GRID_SIZE)
    }

    ghost predicate Sound() {
      forall board, tileIndex :: WellFormed(board) ==> WellFormed(MoveTile(board, tileIndex))
    }
  }
}
