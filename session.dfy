/**
 * The game session of game.js: the module-level `state` record and the
 * functions that change it (`applyMove`, `startGame`, `finishGame`, the
 * timer's tick, and the running-flag guards of the click and key handlers).
 *
 * The engine calls are the `Engine` the session is built with. Randomness
 * (`shuffleBoard`) reaches the model as the successive boards it produced;
 * the timer handle returned by `setInterval` is a parameter. Rendering, the
 * HUD text and `localStorage` are not modelled.
 */
module Session {
  import opened Wrappers
  import opened Grid
  import opened BoardEngine
  import opened BestScore

  /** `setInterval` returns a positive integer, so a handle is truthy. */
  type TimerHandle = h: int | h > 0 witness 1

  /** The position of the first board among `rolls` that is not solved. */
  function FirstUnsolved(isSolved: seq<int> -> bool, rolls: seq<seq<int>>): (k: nat)
    requires exists k :: 0 <= k < |rolls| && !isSolved(rolls[k])
    ensures k < |rolls| && !isSolved(rolls[k])
    ensures forall j :: 0 <= j < k ==> isSolved(rolls[j])
    decreases |rolls|
  {
    if !isSolved(rolls[0]) then 0
    else
      assert exists j :: 0 <= j < |rolls[1..]| && !isSolved(rolls[1..][j]) by {
        var later :| 0 <= later < |rolls| && !isSolved(rolls[later]);
        assert rolls[1..][later - 1] == rolls[later];
      }
      1 + FirstUnsolved(isSolved, rolls[1..])
  }

  /**
   * `createPuzzle`: shuffle a solved board until the result is not solved.
   * `rolls` are the boards `shuffleBoard(createSolvedBoard(GRID_SIZE))` returns
   * on successive calls; the loop ends because one of them is not solved.
   * `rerolls` is how many times the loop shuffled again.
   */
  method CreatePuzzle(isSolved: seq<int> -> bool, rolls: seq<seq<int>>) returns (puzzle: seq<int>, rerolls: nat)
    requires exists k :: 0 <= k < |rolls| && !isSolved(rolls[k])
    ensures rerolls == FirstUnsolved(isSolved, rolls) && puzzle == rolls[rerolls]
    ensures !isSolved(puzzle)
  {
    rerolls := 0;
    puzzle := rolls[0];
    while isSolved(puzzle)
      invariant rerolls < |rolls| && puzzle == rolls[rerolls]
      invariant forall k :: 0 <= k < rerolls ==> isSolved(rolls[k])
      decreases |rolls| - rerolls
    {
      rerolls := rerolls + 1;
      puzzle := rolls[rerolls];
    }
  }

  /** The `state` object of game.js. */
  class GameState {
    const engine: Engine
    var board: seq<int>
    var running: bool
    var moves: nat
    var elapsed: nat
    var timerId: Option<TimerHandle>
    var best: Option<nat>

    /**
     * Between events: the board has its 16 cells and an empty one, and the
     * interval timer is installed exactly while a game is running.
     */
    ghost predicate Valid()
      reads this
    {
      WellFormed(board) && engine.Sound() && (running <==> timerId.Some?)
    }

    /**
     * The initial `state`: the solved board from `createSolvedBoard(GRID_SIZE)`,
     * not running, no timer, and the best score read from storage.
     */
    constructor (engine: Engine, solved: seq<int>, storedBest: Option<nat>)
      requires engine.Sound() && WellFormed(solved)
      ensures Valid()
      ensures this.engine == engine && board == solved
      ensures !running && moves == 0 && elapsed == 0 && timerId.None? && best == storedBest
    {
      this.engine := engine;
      board := solved;
      running := false;
      moves := 0;
      elapsed := 0;
      timerId := None;
      best := storedBest;
    }

    /** `stopTimer`: forget the interval handle if there is one. */
    method StopTimer()
      modifies this`timerId
      ensures timerId.None?
    {
      if timerId.Some? {
        timerId := None;
      }
    }

    /** `startTimer`: replace any running interval with a new one. */
    method StartTimer(handle: TimerHandle)
      modifies this`timerId
      ensures timerId == Some(handle)
    {
      StopTimer();
      timerId := Some(handle);
    }

    /** The body of the interval: one more second has elapsed. */
    method Tick()
      requires Valid()
      modifies this`elapsed
      ensures Valid()
      ensures elapsed == old(elapsed) + 1
    {
      elapsed := elapsed + 1;
    }

    /**
     * `startGame`: a fresh unsolved puzzle, counters at zero, the game
     * running and the timer installed. The best score is kept.
     */
    method StartGame(rolls: seq<seq<int>>, handle: TimerHandle)
      requires Valid()
      requires forall k :: 0 <= k < |rolls| ==> WellFormed(rolls[k])
      requires exists k :: 0 <= k < |rolls| && !engine.isSolved(rolls[k])
      modifies this
      ensures Valid()
      ensures board == rolls[FirstUnsolved(engine.isSolved, rolls)] && !engine.isSolved(board)
      ensures running && moves == 0 && elapsed == 0 && timerId == Some(handle)
      ensures best == old(best)
    {
      var puzzle, _ := CreatePuzzle(engine.isSolved, rolls);
      board := puzzle;
      running := true;
      moves := 0;
      elapsed := 0;
      StartTimer(handle);
    }

    /**
     * `finishGame`: the game stops, the timer is cleared, and the best score
     * becomes the smaller of itself and this game's moves.
     */
    method FinishGame()
      requires Valid()
      modifies this
      ensures Valid()
      ensures !running && timerId.None?
      ensures best == UpdatedBest(old(best), moves)
      ensures board == old(board) && moves == old(moves) && elapsed == old(elapsed)
    {
      running := false;
      StopTimer();
      if best.None? || moves < best.value {
        best := Some(moves);
      }
    }

    /**
     * `applyMove(tileIndex)`: a null index and a move the engine refuses
     * (it returns an equal board) change nothing; otherwise the board is the
     * engine's result, one more move is counted, and a solved board ends the game.
     */
    method ApplyMove(tileIndex: Option<int>) returns (moved: bool)
      requires Valid()
      modifies this
      ensures Valid()
      ensures moved <==> tileIndex.Some? && engine.MoveTile(old(board), tileIndex.value) != old(board)
      ensures !moved ==> unchanged(this)
      ensures moved ==> board == engine.MoveTile(old(board), tileIndex.value) && moves == old(moves) + 1
      ensures moved && engine.isSolved(board) ==> !running && timerId.None? && best == UpdatedBest(old(best), moves)
      ensures moved && !engine.isSolved(board) ==> running == old(running) && timerId == old(timerId) && best == old(best)
      ensures elapsed == old(elapsed)
    {
      if tileIndex.None? {
        return false;
      }
      var nextBoard := engine.MoveTile(board, tileIndex.value);
      if BoardsAreEqual(nextBoard, board) {
        return false;
      }
      board := nextBoard;
      moves := moves + 1;
      if engine.isSolved(board) {
        FinishGame();
      }
      return true;
    }

    /**
     * `handleTileClick`: `clicked` is the board index of the tile clicked, or
     * None when the click hit no tile. Nothing happens unless a game is
     * running, and clicking the empty cell does nothing.
     */
    method HandleTileClick(clicked: Option<int>)
      requires Valid()
      modifies this
      ensures Valid()
      ensures !old(running) || clicked.None? ==> unchanged(this)
      ensures clicked.Some? && 0 <= clicked.value < |old(board)| && old(board)[clicked.value] == 0 ==> unchanged(this)
      ensures board != old(board) ==>
        old(running) && clicked.Some? &&
        board == engine.MoveTile(old(board), clicked.value) && moves == old(moves) + 1
      ensures board == old(board) ==> unchanged(this)
      ensures elapsed == old(elapsed)
      ensures old(running) && clicked.Some?
              && !(0 <= clicked.value < |old(board)| && old(board)[clicked.value] == 0)
              && engine.MoveTile(old(board), clicked.value) != old(board) ==>
        && board == engine.MoveTile(old(board), clicked.value)
        && moves == old(moves) + 1
        && (engine.isSolved(board) ==> !running && timerId.None? && best == UpdatedBest(old(best), moves))
        && (!engine.isSolved(board) ==> running && timerId == old(timerId) && best == old(best))
    {
      if !running {
        return;
      }
      if clicked.None? {
        return;
      }
      var index := clicked.value;
      if 0 <= index < |board| && board[index] == 0 {
        return;
      }
      var _ := ApplyMove(Some(index));
    }

    /**
     * `handleKeyDown`: only the four arrow keys while a game is running; the
     * tile the key names (if the empty cell has a neighbour that way) is moved.
     */
    method HandleKeyDown(key: string)
      requires Valid()
      modifies this
      ensures Valid()
      ensures !old(running) || key !in DIRECTION_KEYS ==> unchanged(this)
      ensures board != old(board) ==>
        var target := GetTileIndexForDirection(old(board), key);
        && old(running) && target.Some?
        && Adjacent(IndexOf(old(board), 0), target.value)
        && board == engine.MoveTile(old(board), target.value)
        && moves == old(moves) + 1
      ensures board == old(board) ==> unchanged(this)
      ensures elapsed == old(elapsed)
      ensures var target := GetTileIndexForDirection(old(board), key);
        old(running) && key in DIRECTION_KEYS && target.Some?
        && engine.MoveTile(old(board), target.value) != old(board) ==>
          && board == engine.MoveTile(old(board), target.value)
          && moves == old(moves) + 1
          && (engine.isSolved(board) ==> !running && timerId.None? && best == UpdatedBest(old(best), moves))
          && (!engine.isSolved(board) ==> running && timerId == old(timerId) && best == old(best))
    {
      if !running || key !in DIRECTION_KEYS {
        return;
      }
      var tileIndex := GetTileIndexForDirection(board, key);
      var _ := ApplyMove(tileIndex);
    }
  }
}
