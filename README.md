# 15-puzzle game session

A model of `game.js`, the browser front end of a 15-puzzle (sliding tile)
game. The board is a flat sequence of 16 integers read row by row on a
4x4 grid; the value 0 is the empty cell. The model covers:

- the module-level `state` record (`board`, `running`, `moves`, `elapsed`,
  `timerId`, `best`) as the class `Session.GameState`, whose methods are
  `startGame`, `finishGame`, `applyMove`, the timer start/stop and tick, and
  the running-flag guards of the click and key handlers;
- `createPuzzle`, the re-roll loop that keeps shuffling until the board is
  not solved (`Session.CreatePuzzle`);
- the pure helpers: `formatTime` (`Clock`), `boardsAreEqual`, `indexOf` and
  `getTileIndexForDirection` (`Grid`), and the best-score update at the end
  of `finishGame` (`BestScore`).

The board engine that `game.js` imports (`moveTile`, `isSolved`,
`shuffleBoard`, `createSolvedBoard`) is not part of this model. An
`BoardEngine.Engine` is a pair of functions (`moveTile`, `isSolved`) the
session is built with. What `game.js` relies on when it calls `indexOf(0)`
on the board is assumed of every board the engine supplies: `moveTile`
returns a board of 16 cells that still has an empty cell (`Engine.Sound`),
and so do `createSolvedBoard(GRID_SIZE)` (a requirement of the
`GameState` constructor) and each result of `shuffleBoard` (a requirement of
`StartGame`).
A result equal to the input board is how the engine says "no move", and the
model reads it exactly that way. `shuffleBoard` is random: the boards it
returned on successive calls are a parameter (`rolls`) of `startGame`, and
`createSolvedBoard(GRID_SIZE)` is a parameter of the constructor.

Class invariant (`GameState.Valid`): the board is well formed (16 cells, one
of them 0), the engine is sound, and the interval timer is installed exactly
while a game is running.

JavaScript arithmetic is modelled as JavaScript does it: `Math.floor(i / 4)`
is Dafny's `/` (which rounds down for a positive divisor), and `i % 4` keeps
the sign of `i` (`Grid.Col`), so `getTileIndexForDirection` behaves as the
source does even for `indexOf` returning -1; the properties about it are
stated for well-formed boards, the only ones the session holds.

## Model

| member | source | states |
|---|---|---|
| `Clock.FormatTime` | game.js:24-28 | the display has a colon third from the end (two-digit seconds, at least two minute characters), is exactly five characters long iff the time is under 100 minutes, and from 100 minutes on does not start with a zero |
| `Clock.FormatTimeRoundTrip` | game.js:24-28 | both parts of the display are decimal digit strings, and reading it back gives the number of seconds: minutes part `t div 60`, seconds part `t mod 60` (below 60), so nothing is lost |
| `Clock.NatToString` | game.js:27 | `String(n)` is a non-empty digit string without leading zeros, one digit iff `n < 10`, at most two iff `n < 100` |
| `Clock.NatToStringRoundTrip` | game.js:27 | `String(n)` read as decimal is `n` |
| `Clock.PadStart` | game.js:27 | `padStart(width, fill)` keeps the string as its suffix, fills only on the left, and reaches the width |
| `Clock.PaddedRoundTrip` | game.js:27 | zero-padding the rendering of `n` to two characters keeps a digit string whose value is `n` |
| `Grid.IndexOf` | game.js:35 | `indexOf` is -1 exactly when the value is absent; otherwise the index holds the value and no earlier index does |
| `Grid.BoardsAreEqual` | game.js:30-32 | true exactly when the two boards are equal sequences |
| `Grid.GetTileIndexForDirection` | game.js:34-50 | only an arrow key yields an index; on a well-formed board the index is a cell adjacent to the empty cell (in 0..15, one row or one column away, never wrapping a row); ArrowUp takes the cell below, ArrowDown above, ArrowLeft to the right, ArrowRight to the left, and each yields null exactly when the empty cell is on that edge |
| `Grid.EveryNeighbourHasADirection` | game.js:34-50 | every cell adjacent to the empty cell is the target of some arrow key |
| `BestScore.UpdatedBest` | game.js:136-139 | the new best is the minimum of the old best (if any) and this game's moves: never above either, and equal to one of them |
| `BestScore.BestIsMinimum` | game.js:136-139 | over any sequence of finished games the best is the minimum of the stored best and all their move counts, and never rises |
| `Session.FirstUnsolved` | game.js:111 | the first shuffled board that is not solved: every earlier one is solved |
| `Session.CreatePuzzle` | game.js:109-115 | the loop returns the first shuffled board that is not solved, after exactly as many re-rolls as solved boards came before it |
| `Session.GameState.constructor` | game.js:13-20 | the initial state: the solved board, not running, zero moves and seconds, no timer, the stored best |
| `Session.GameState.StopTimer` | game.js:102-107 | afterwards no timer is installed |
| `Session.GameState.StartTimer` | game.js:94-100 | any previous timer is replaced by the new handle |
| `Session.GameState.Tick` | game.js:96-98 | each tick adds one second to `elapsed`, changes nothing else and keeps the invariant |
| `Session.GameState.StartGame` | game.js:117-128 | the board is the first unsolved shuffle (so not solved), the game runs with the timer installed, moves and elapsed are 0, the best is kept, the invariant holds |
| `Session.GameState.FinishGame` | game.js:130-143 | the game stops, the timer is cleared, the best becomes the running minimum with this game's moves; board, moves and elapsed are kept |
| `Session.GameState.ApplyMove` | game.js:53-70 | a null index or an engine result equal to the board changes nothing and returns false; otherwise the board becomes the engine's result, moves rises by exactly one, and a solved result stops the game, clears the timer and updates the best |
| `Session.GameState.HandleTileClick` | game.js:145-151 | nothing changes unless a game is running and a non-empty tile was clicked, and a board the engine leaves as it is changes nothing at all; `elapsed` is never touched; a change is the engine's move of that tile and counts one move; and when a game is running, a non-empty tile is clicked and the engine moves it, the board becomes the engine's result with one more move, and a solved result ends the game and updates the best |
| `Session.GameState.HandleKeyDown` | game.js:153-160 | nothing changes unless a game is running and the key is an arrow key, and a null target or a board the engine leaves as it is changes nothing at all; `elapsed` is never touched; a change moves the tile adjacent to the empty cell that the key names and counts one move; and when a game is running, the key names a neighbour of the empty cell and the engine moves it, the board becomes the engine's result with one more move, and a solved result ends the game and updates the best |

## Left out

- Rendering and HUD text (`renderBoard`, `updateHud`, `init`, the messages and button labels, aria attributes): presentation, no state of the session.
- `localStorage`: the stored best is a constructor parameter and the write in `finishGame` is not modelled; the coercion `Number(...) || null` of the stored text is JavaScript parsing, and the model takes the best as an optional natural number.
- `setInterval`/`clearInterval` scheduling: the handle `setInterval` returns is a parameter of `StartGame` (a positive integer, as browsers return), and only the effect of the interval's body on `elapsed` is modelled (`Tick`); that ticks stop after `clearInterval` is not modelled.
- The bodies of `moveTile`, `isSolved`, `shuffleBoard` and `createSolvedBoard`: they belong to `engine.js`, which is not part of this model. The first of three assumptions that stand in for them, each the fact `indexOf(0)` needs: `moveTile` maps a well-formed board (16 cells, one of them 0) to a well-formed board (`Engine.Sound`).
- Session.GameState.constructor: requires the board from `createSolvedBoard(GRID_SIZE)` to be well formed, an assumption about the unseen engine.
- Session.GameState.StartGame: requires every result of `shuffleBoard` to be well formed, an assumption about the unseen engine.
- Session.CreatePuzzle: randomness and termination of the re-roll loop are not modelled; the successive shuffle results are given, and one of them is required to be unsolved (otherwise the source's loop never ends).
- Event wiring and DOM lookups (`addEventListener`, `closest`, `dataset`, `preventDefault`): the clicked tile reaches `HandleTileClick` as its board index (or none), and it is the empty cell exactly when the board holds 0 there, since the board is re-rendered after every change.
- Clock.FormatTime: `String(n)` switches to exponent notation from 10^21 on; the model always writes plain decimal digits.
