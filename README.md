# Tic-Tac-Toe rules engine in Dafny

This project models the rules engine of a two-player Tic-Tac-Toe game with a
Swing front end, and proves properties of that model. The engine is the class
`TicTacToeGame` (`src/TicTacToeGUI.java`). It keeps a 3x3 `char` board, where
`'-'` marks an empty cell, and the symbol of the player to move, which starts
as `'X'`. It validates and places moves, tests for a win on the eight lines,
tests for a draw and switches turns. The window's click handler runs one turn
on the engine: it places the current player's mark, then declares a win, or
declares a draw, or switches the player. After a win or a draw the window
disables every cell button.

Files:

- `rules.dfy` (module `Rules`): the rules as values. It defines the grid, the
  eight lines (`Row(i)`, `Column(j)`, `Diagonal`, `AntiDiagonal`), a win
  (`HasWin`, `WinsFor`), a full board, a draw, move validation (`CheckMove`,
  with the error cases `OutOfBounds`, `Occupied` and `NotYourTurn`), placing a
  mark (`Place`) and the turn switch (`Switched`).
- `game.dfy` (module `Game`): the engine as a class over an `array2<char>`
  with a `currentPlayer` field. Each method is proved against the functions of
  `Rules`, and `Snapshot()` is the board's contents as a value.
- `turn.dfy` (module `Turn`): one turn of the window as a pure step
  (`Step`) over a `State` made of grid, player to move and phase. `Play` runs
  a session of clicks. The module also holds the invariant that every
  reachable state keeps, and worked example games.
- `gui.dfy` (module `Gui`): the window's click handler and reset button, run
  on the engine object. `HandleButtonClick` is proved to do exactly what
  `Step` says.

Behaviour of the code worth knowing:

- `makeMove` has no "game already over" check. The window disables every
  cell button when a game ends instead (`src/TicTacToeGUI.java:206`,
  `:215-221`), so no further click arrives. The model states this as a
  precondition of `HandleButtonClick` (`phase == InProgress`), not as an
  engine error.
- A second request for a marked cell is reported as occupied, whoever makes
  it, because occupancy is checked before the turn
  (`src/TicTacToeGUI.java:49-54`). `ScenarioRejections` shows this for X
  asking for (0,0) again and for the window asking on behalf of O.
- The game X(0,0) O(0,1) X(0,2) O(1,0) X(1,1) O(2,1) X(1,2) O(2,0) X(2,2)
  fills the board, but it is won by X on its last move, not drawn
  (`ScenarioLastMoveWinsDiagonal`). `ScenarioDraw` proves a nine-move game
  that does end drawn.

## Model

| member | source | states |
|---|---|---|
| `Game.TicTacToeGame.constructor` | src/TicTacToeGUI.java:29-33 | A new engine has a fresh 3x3 board, all nine cells `'-'`, and `'X'` to move. |
| `Game.TicTacToeGame.InitializeBoard` | src/TicTacToeGUI.java:36-42 | Every cell becomes `'-'`; the player to move is untouched. |
| `Game.TicTacToeGame.MakeMove` | src/TicTacToeGUI.java:45-58 | The outcome is the first failing check, in the source's order: bounds, then occupancy, then turn. A rejection leaves the board unchanged. An acceptance sets exactly the one cell to `player`. The turn never changes. |
| `Game.TicTacToeGame.CheckWin` | src/TicTacToeGUI.java:61-86 | The loops over rows and columns and the two diagonal tests return true iff some row, column or diagonal has three equal non-`'-'` cells; nothing is modified. |
| `Game.TicTacToeGame.CheckDraw` | src/TicTacToeGUI.java:89-100 | Returns true iff there is no win and no cell is `'-'`; so it is never true together with a win. |
| `Game.TicTacToeGame.GetCurrentPlayer` | src/TicTacToeGUI.java:103-105 | Returns the player to move, changing nothing. |
| `Game.TicTacToeGame.SwitchPlayer` | src/TicTacToeGUI.java:108-110 | The player to move becomes `Switched` of the old one; the board is untouched. |
| `Game.TicTacToeGame.GetBoard` | src/TicTacToeGUI.java:113-115 | Returns a copy whose every cell equals the board's cell. |
| `Rules.EmptyGrid` | src/TicTacToeGUI.java:37-41 | The initial board: all nine cells are `'-'`. |
| `Rules.CheckMove` | src/TicTacToeGUI.java:46-54 | Each outcome holds exactly under its condition. Out of bounds iff row or col is outside [0,3). Occupied iff in bounds and the cell is not `'-'`, whatever the player. Not-your-turn iff in bounds, empty and the player is not the one to move. Accepted otherwise. |
| `Rules.Place` | src/TicTacToeGUI.java:56 | The new grid has `p` at (row, col) and every other cell as before. |
| `Rules.HasWinOnEightLines` | src/TicTacToeGUI.java:63-83 | A win on some line is a win on one of exactly eight lines: rows 0-2, columns 0-2, the main diagonal and the anti-diagonal. |
| `Rules.HasWinIffSomePlayerWins` | src/TicTacToeGUI.java:61-86 | On a board of `'-'`, `'X'` and `'O'`, a win is a complete line of X or a complete line of O. |
| `Rules.NewWinBelongsToMover` | src/TicTacToeGUI.java:191-192 | Marking one cell of a board with no win can only complete a line of the player who marked it. The winner the window reports is therefore the player who just moved. |
| `Rules.Switched` | src/TicTacToeGUI.java:109 | The result is `'X'` or `'O'` and differs from the input. Anything other than `'X'`, including `'O'`, gives `'X'`; so `'X'` gives `'O'`. |
| `Rules.SwitchTwice` | src/TicTacToeGUI.java:108-110 | Starting from X or O, two switches restore the player. |
| `Turn.Step` | src/TicTacToeGUI.java:187-198 | A click is rejected iff it is off the board or on a marked cell. The error is out-of-bounds iff the click is off the board, and never not-your-turn. An accepted click places the mover's mark. The game ends won iff the new board has a win, and the mover is the winner. It ends drawn iff the new board is a draw. The player switches iff the game goes on. |
| `Turn.InitialConsistent` | src/TicTacToeGUI.java:29-42 | The start state is consistent. Every cell is `'-'`, `'X'` or `'O'`, and X or O is to move. In progress means no win and an empty cell. A won game holds a complete line of the winner, who stays current. A drawn game is a full board with no win. |
| `Turn.StepPreservesConsistent` | src/TicTacToeGUI.java:187-198 | Every accepted click keeps the state consistent. |
| `Turn.StepKeepsMarks` | src/TicTacToeGUI.java:49-56 | An accepted click writes an empty cell and changes no marked cell. |
| `Turn.PlayPreservesConsistent` | src/TicTacToeGUI.java:185-202 | Every state reachable from a consistent state by a session of clicks is consistent. |
| `Turn.PlayKeepsMarks` | src/TicTacToeGUI.java:49-56 | Once a cell leaves `'-'`, its mark never changes for the rest of the game. |
| `Turn.PlayAppend` | src/TicTacToeGUI.java:185-202 | Two sessions played one after the other give the same state as the joined session. |
| `Turn.ScenarioTopRowWin` | src/TicTacToeGUI.java:187-198 | X(0,0) O(1,1) X(0,1) O(2,2) X(0,2) ends with X the winner. |
| `Turn.ScenarioDraw` | src/TicTacToeGUI.java:187-198 | X(0,0) O(1,1) X(2,2) O(0,2) X(2,0) O(1,0) X(1,2) O(2,1) X(0,1) ends drawn with X still current. |
| `Turn.ScenarioLastMoveWinsDiagonal` | src/TicTacToeGUI.java:61-86 | X(0,0) O(0,1) X(0,2) O(1,0) X(1,1) O(2,1) X(1,2) O(2,0) X(2,2) ends with X the winner, not drawn: the last move completes both the main diagonal and column 2. |
| `Turn.ScenarioRejections` | src/TicTacToeGUI.java:46-54 | A click at (3,0) is out of bounds. After X marks (0,0), a second request for (0,0) is occupied, both when X makes it and when the window makes it for O. |
| `Gui.TicTacToeGUI.constructor` | src/TicTacToeGUI.java:124-125 | The window starts with a fresh engine in the initial state, which satisfies the game invariant. |
| `Gui.TicTacToeGUI.HandleButtonClick` | src/TicTacToeGUI.java:185-202 | Runs the turn on the engine object; the resulting state and warning are exactly those of `Step`. A rejected click shows its error and changes no state. The window keeps the game invariant (`Consistent`) from click to click. |
| `Gui.TicTacToeGUI.ResetGame` | src/TicTacToeGUI.java:223-224 | Replaces the engine with a fresh one in the initial state, which satisfies the game invariant. |

## Left out

- All Swing and AWT code: the window layout, buttons, labels, fonts, the
  message dialogs, `showGameResult`, `disableAllButtons`, `main` and
  `invokeLater`. The state the front end keeps after a game ends is recorded
  as the phase.
- `centerWindow`: it depends on the screen size reported by the toolkit.
- The exception messages: the three `InvalidMoveException` cases are the
  `MoveError` values `OutOfBounds`, `Occupied` and `NotYourTurn`. `makeMove`'s
  `true` on success is the outcome `Pass`.
- `Game.TicTacToeGame.GetBoard`: returns a copy of the contents. The source
  returns the internal array itself, through which a caller could change the
  board without validation; that aliasing is not modelled.
- `Gui.TicTacToeGUI.HandleButtonClick`: does not model the disabling of the
  clicked button after a move (`src/TicTacToeGUI.java:189`). A click on a
  marked cell is allowed and rejected as occupied, which the source's window
  never lets happen.
- The `ITicTacToe` interface: it only lists the engine's methods, which the
  class models.
