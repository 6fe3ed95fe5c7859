/**
 * The part of the window that drives the engine: a click on a cell runs one
 * turn, and the reset button starts a new game. Widgets, dialogs and
 * labels are not modelled; the phase stands for what the window shows once
 * a game has ended, when every cell button is disabled.
 */
module Gui {
  import opened Rules
  import opened Turn
  import opened Game

  datatype Option<T> = None | Some(value: T)

  class TicTacToeGUI {
    var game: TicTacToeGame
    var phase: Phase

    /** The engine's board is 3x3 and the game state keeps the invariant of every reachable state. */
    ghost predicate Valid()
      reads this, game, game.board
    {
      game.Valid() && Consistent(State(game.Snapshot(), game.currentPlayer, phase))
    }

    /** The game as a value: board, player to move, phase. */
    ghost function Current(): State
      reads this, game, game.board
      requires Valid()
    {
      State(game.Snapshot(), game.currentPlayer, phase)
    }

    constructor ()
      ensures Valid() && fresh(game) && fresh(game.board)
      ensures Current() == Initial()
    {
      game := new TicTacToeGame();
      phase := InProgress;
      InitialConsistent();
    }

    /**
     * A click on the cell (row, col). Cell buttons are enabled only while
     * the game is in progress. The engine is asked to place the current
     * player's mark; a rejection is shown as a warning and changes nothing.
     * After an accepted move the window declares the current player the
     * winner, or declares a draw, or passes the turn on.
     */
    method HandleButtonClick(row: int, col: int) returns (warning: Option<MoveError>)
      requires Valid() && phase == InProgress
      modifies this, game, game.board
      ensures Valid() && game == old(game) && game.board == old(game.board)
      ensures Step(old(Current()), row, col).Rejected? ==>
        warning == Some(Step(old(Current()), row, col).error) && Current() == old(Current())
      ensures Step(old(Current()), row, col).Moved? ==>
        warning == None && Current() == Step(old(Current()), row, col).next
    {
      StepPreservesConsistent(Current(), row, col);
      var player := game.GetCurrentPlayer();
      var outcome := game.MakeMove(row, col, player);
      if outcome.Fail? {
        return Some(outcome.error);
      }
      warning := None;
      var won := game.CheckWin();
      if won {
        var winner := game.GetCurrentPlayer();
        phase := Won(winner);
      } else {
        var draw := game.CheckDraw();
        if draw {
          phase := Drawn;
        } else {
          game.SwitchPlayer();
        }
      }
    }

    /** Throws the old game away and starts a new one. */
    method ResetGame()
      modifies this
      ensures Valid() && fresh(game) && fresh(game.board)
      ensures Current() == Initial()
    {
      game := new TicTacToeGame();
      phase := InProgress;
      InitialConsistent();
    }
  }
}
