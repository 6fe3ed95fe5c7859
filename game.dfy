/**
 * The game engine: a 3x3 board of characters updated in place and the
 * symbol of the player whose turn it is. Validation, the win test and the
 * draw test are proved against the rules of module Rules.
 */
module Game {
  import opened Rules

  class TicTacToeGame {
    var board: array2<char>
    var currentPlayer: char

    ghost predicate Valid()
      reads this
    {
      board.Length0 == 3 && board.Length1 == 3
    }

    /** The board's contents as a value; a read-only view of the array. */
    function Snapshot(): (g: Grid)
      reads this, board
      requires Valid()
      ensures forall i, j | 0 <= i < 3 && 0 <= j < 3 :: g[i][j] == board[i, j]
    {
      [[board[0, 0], board[0, 1], board[0, 2]],
       [board[1, 0], board[1, 1], board[1, 2]],
       [board[2, 0], board[2, 1], board[2, 2]]]
    }

    /** A new game: X to move on an empty board. */
    constructor ()
      ensures Valid() && fresh(board)
      ensures Snapshot() == EmptyGrid() && currentPlayer == X
    {
      board := new char[3, 3];
      currentPlayer := X;
      new;
      InitializeBoard();
    }

    /** Clears every cell; the turn is left as it was. */
    method InitializeBoard()
      requires Valid()
      modifies board
      ensures Snapshot() == EmptyGrid()
    {
      for i := 0 to 3
        invariant forall r, c | 0 <= r < i && 0 <= c < 3 :: board[r, c] == Empty
      {
        for j := 0 to 3
          invariant forall r, c | 0 <= r < i && 0 <= c < 3 :: board[r, c] == Empty
          invariant forall c | 0 <= c < j :: board[i, c] == Empty
        {
          board[i, j] := Empty;
        }
      }
    }

    /**
     * Places `player`'s mark at (row, col) when the position is on the
     * board, the cell is empty and it is `player`'s turn, checked in that
     * order. A rejected move changes nothing; an accepted one changes that
     * one cell and never the turn.
     */
    method MakeMove(row: int, col: int, player: char) returns (r: Outcome)
      requires Valid()
      modifies board
      ensures r == CheckMove(old(Snapshot()), currentPlayer, row, col, player)
      ensures r.Pass? ==> Snapshot() == Place(old(Snapshot()), row, col, player)
      ensures r.Fail? ==> Snapshot() == old(Snapshot())
    {
      if row < 0 || row >= 3 || col < 0 || col >= 3 {
        return Fail(OutOfBounds);
      }
      if board[row, col] != Empty {
        return Fail(Occupied);
      }
      if player != currentPlayer {
        return Fail(NotYourTurn);
      }
      ghost var before := Snapshot();
      board[row, col] := player;
      SameCellsSameGrid(Snapshot(), Place(before, row, col, player));
      return Pass;
    }

    /** Tests the three rows, the three columns and the two diagonals, in that order. */
    method CheckWin() returns (won: bool)
      requires Valid()
      ensures won == HasWin(Snapshot())
    {
      for i := 0 to 3
        invariant forall k: Index | k < i :: !LineWon(Snapshot(), Row(k))
      {
        if board[i, 0] != Empty && board[i, 0] == board[i, 1] && board[i, 1] == board[i, 2] {
          assert LineWon(Snapshot(), Row(i));
          return true;
        }
      }
      for j := 0 to 3
        invariant forall k: Index | k < j :: !LineWon(Snapshot(), Column(k))
      {
        if board[0, j] != Empty && board[0, j] == board[1, j] && board[1, j] == board[2, j] {
          assert LineWon(Snapshot(), Column(j));
          return true;
        }
      }
      if board[0, 0] != Empty && board[0, 0] == board[1, 1] && board[1, 1] == board[2, 2] {
        assert LineWon(Snapshot(), Diagonal);
        return true;
      }
      if board[0, 2] != Empty && board[0, 2] == board[1, 1] && board[1, 1] == board[2, 0] {
        assert LineWon(Snapshot(), AntiDiagonal);
        return true;
      }
      HasWinOnEightLines(Snapshot());
      return false;
    }

    /** A draw: no line is won and no cell is empty. */
    method CheckDraw() returns (draw: bool)
      requires Valid()
      ensures draw == IsDraw(Snapshot())
      ensures draw ==> !HasWin(Snapshot())
    {
      var won := CheckWin();
      if won {
        return false;
      }
      for i := 0 to 3
        invariant forall r, c | 0 <= r < i && 0 <= c < 3 :: board[r, c] != Empty
      {
        for j := 0 to 3
          invariant forall c | 0 <= c < j :: board[i, c] != Empty
        {
          if board[i, j] == Empty {
            return false;
          }
        }
      }
      return true;
    }

    method GetCurrentPlayer() returns (p: char)
      ensures p == currentPlayer
    {
      return currentPlayer;
    }

    /** Hands the turn over: O after X, X after anything else. */
    method SwitchPlayer()
      modifies this`currentPlayer
      ensures currentPlayer == Switched(old(currentPlayer))
    {
      currentPlayer := if currentPlayer == X then O else X;
    }

    /** A copy of the board's contents; the caller cannot change the game through it. */
    method GetBoard() returns (view: Grid)
      requires Valid()
      ensures forall i, j | 0 <= i < 3 && 0 <= j < 3 :: view[i][j] == board[i, j]
    {
      return Snapshot();
    }
  }
}
