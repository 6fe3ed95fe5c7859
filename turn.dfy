/**
 * One turn as the window drives the engine when a cell is clicked: the
 * current player's mark is placed; a win ends the game with that player as
 * winner, otherwise a full board ends it as a draw, otherwise the turn
 * passes to the other player. Once the game has ended the window accepts
 * no more clicks, which the phase records.
 *
 * Everything here is a value; module Gui runs the same step on the engine
 * object and is proved to agree with Step.
 */
module Turn {
  import opened Rules

  datatype Phase = InProgress | Won(winner: char) | Drawn

  datatype State = State(grid: Grid, current: char, phase: Phase)

  datatype StepResult = Moved(next: State) | Rejected(error: MoveError)

  /** A new game: empty board, X to move. */
  function Initial(): State {
    State(EmptyGrid(), X, InProgress)
  }

  /**
   * A click on (row, col) while the game is in progress. The engine is
   * asked to place the current player's mark; a rejection leaves the state
   * as it was and reports the error.
   */
  ghost function Step(s: State, row: int, col: int): (r: StepResult)
    requires s.phase == InProgress
    ensures r.Rejected? <==> !InBounds(row, col) || s.grid[row][col] != Empty
    ensures r.Rejected? ==> r.error != NotYourTurn && (r.error == OutOfBounds <==> !InBounds(row, col))
    ensures r.Moved? ==> r.next.grid == Place(s.grid, row, col, s.current)
    ensures r.Moved? ==> (r.next.current != s.current <==> r.next.phase == InProgress)
    ensures r.Moved? && r.next.phase.Won? ==> r.next.phase.winner == s.current && HasWin(r.next.grid)
    ensures r.Moved? && r.next.phase == Drawn ==> IsDraw(r.next.grid)
    ensures r.Moved? ==> (r.next.phase.Won? <==> HasWin(r.next.grid))
    ensures r.Moved? ==> (r.next.phase == Drawn <==> IsDraw(r.next.grid))
  {
    match CheckMove(s.grid, s.current, row, col, s.current)
    case Fail(e) => Rejected(e)
    case Pass =>
      var g := Place(s.grid, row, col, s.current);
      if HasWin(g) then Moved(State(g, s.current, Won(s.current)))
      else if IsDraw(g) then Moved(State(g, s.current, Drawn))
      else Moved(State(g, Switched(s.current), InProgress))
  }

  /**
   * What holds of every state a game can reach: cells are '-', 'X' or 'O';
   * X or O is to move; a game in progress has no win and an empty cell; a
   * won game has a complete line of its winner, who is the player left
   * current; a drawn game is a full board with no win.
   */
  ghost predicate Consistent(s: State) {
    && WellMarked(s.grid)
    && IsMark(s.current)
    && match s.phase
       case InProgress => !HasWin(s.grid) && !IsFull(s.grid)
       case Won(w) => w == s.current && WinsFor(s.grid, w)
       case Drawn => IsDraw(s.grid)
  }

  lemma InitialConsistent()
    ensures Consistent(Initial())
  {
    var g := EmptyGrid();
    assert g[0][0] == Empty;
    HasWinOnEightLines(g);
  }

  /** Each accepted move keeps the state consistent. */
  lemma StepPreservesConsistent(s: State, row: int, col: int)
    requires Consistent(s) && s.phase == InProgress
    ensures Step(s, row, col).Moved? ==> Consistent(Step(s, row, col).next)
  {
    var r := Step(s, row, col);
    if r.Moved? {
      var g := r.next.grid;
      assert g == Place(s.grid, row, col, s.current);
      NewWinBelongsToMover(s.grid, row, col, s.current);
      assert WellMarked(g) by {
        forall i, j | 0 <= i < 3 && 0 <= j < 3 ensures g[i][j] == Empty || IsMark(g[i][j]) {
          if i != row || j != col {
            assert g[i][j] == s.grid[i][j];
          }
        }
      }
    }
  }

  /** An accepted move changes one empty cell and no marked one. */
  lemma StepKeepsMarks(s: State, row: int, col: int)
    requires s.phase == InProgress
    ensures Step(s, row, col).Moved? ==>
      && s.grid[row][col] == Empty
      && forall i, j | 0 <= i < 3 && 0 <= j < 3 && s.grid[i][j] != Empty ::
           Step(s, row, col).next.grid[i][j] == s.grid[i][j]
  {
  }

  /**
   * A session of clicks. A rejected click shows a warning and changes
   * nothing; once the game has ended, the remaining clicks are ignored
   * because every cell is disabled.
   */
  ghost function Play(s: State, clicks: seq<Coord>): (r: State)
    decreases |clicks|
  {
    if |clicks| == 0 || s.phase != InProgress then s
    else match Step(s, clicks[0].row, clicks[0].col)
      case Rejected(_) => Play(s, clicks[1..])
      case Moved(s') => Play(s', clicks[1..])
  }

  /** Every state reached from a consistent one is consistent. */
  lemma {:induction false} PlayPreservesConsistent(s: State, clicks: seq<Coord>)
    requires Consistent(s)
    ensures Consistent(Play(s, clicks))
    decreases |clicks|
  {
    if |clicks| > 0 && s.phase == InProgress {
      var r := Step(s, clicks[0].row, clicks[0].col);
      StepPreservesConsistent(s, clicks[0].row, clicks[0].col);
      match r
      case Rejected(_) => PlayPreservesConsistent(s, clicks[1..]);
      case Moved(s') => PlayPreservesConsistent(s', clicks[1..]);
    }
  }

  /** A cell that has been marked keeps its mark for the rest of the game. */
  lemma {:induction false} PlayKeepsMarks(s: State, clicks: seq<Coord>, i: Index, j: Index)
    requires s.grid[i][j] != Empty
    ensures Play(s, clicks).grid[i][j] == s.grid[i][j]
    decreases |clicks|
  {
    if |clicks| > 0 && s.phase == InProgress {
      StepKeepsMarks(s, clicks[0].row, clicks[0].col);
      match Step(s, clicks[0].row, clicks[0].col)
      case Rejected(_) => PlayKeepsMarks(s, clicks[1..], i, j);
      case Moved(s') => PlayKeepsMarks(s', clicks[1..], i, j);
    }
  }

  // ---------------------------------------------------------------------
  // Example games
  // ---------------------------------------------------------------------

  /** Unfolds a session by its first click. */
  lemma PlayFirst(s: State, c: Coord, rest: seq<Coord>, next: State)
    requires s.phase == InProgress && Step(s, c.row, c.col) == Moved(next)
    ensures Play(s, [c] + rest) == Play(next, rest)
  {
  }

  /**
   * An accepted move that neither wins nor fills the board passes the turn
   * on; `g` is the board after the move, spelled out cell by cell.
   */
  lemma QuietMove(s: State, row: int, col: int, g: Grid)
    requires s.phase == InProgress && InBounds(row, col) && s.grid[row][col] == Empty
    requires forall i, j | 0 <= i < 3 && 0 <= j < 3 ::
      g[i][j] == if i == row && j == col then s.current else s.grid[i][j]
    requires !LineWon(g, Row(0)) && !LineWon(g, Row(1)) && !LineWon(g, Row(2))
    requires !LineWon(g, Column(0)) && !LineWon(g, Column(1)) && !LineWon(g, Column(2))
    requires !LineWon(g, Diagonal) && !LineWon(g, AntiDiagonal)
    requires !IsFull(g)
    ensures Step(s, row, col) == Moved(State(g, Switched(s.current), InProgress))
  {
    SameCellsSameGrid(Place(s.grid, row, col, s.current), g);
    HasWinOnEightLines(g);
  }

  /** An accepted move that completes `l` ends the game with the mover as winner. */
  lemma WinningMove(s: State, row: int, col: int, g: Grid, l: Line)
    requires s.phase == InProgress && InBounds(row, col) && s.grid[row][col] == Empty
    requires forall i, j | 0 <= i < 3 && 0 <= j < 3 ::
      g[i][j] == if i == row && j == col then s.current else s.grid[i][j]
    requires LineWon(g, l)
    ensures Step(s, row, col) == Moved(State(g, s.current, Won(s.current)))
  {
    SameCellsSameGrid(Place(s.grid, row, col, s.current), g);
  }

  /** An accepted move that fills the board without completing a line ends the game in a draw. */
  lemma DrawingMove(s: State, row: int, col: int, g: Grid)
    requires s.phase == InProgress && InBounds(row, col) && s.grid[row][col] == Empty
    requires forall i, j | 0 <= i < 3 && 0 <= j < 3 ::
      g[i][j] == if i == row && j == col then s.current else s.grid[i][j]
    requires !LineWon(g, Row(0)) && !LineWon(g, Row(1)) && !LineWon(g, Row(2))
    requires !LineWon(g, Column(0)) && !LineWon(g, Column(1)) && !LineWon(g, Column(2))
    requires !LineWon(g, Diagonal) && !LineWon(g, AntiDiagonal)
    requires IsFull(g)
    ensures Step(s, row, col) == Moved(State(g, s.current, Drawn))
  {
    SameCellsSameGrid(Place(s.grid, row, col, s.current), g);
    HasWinOnEightLines(g);
  }

  /** X completes the top row on the fifth move and is declared the winner. */
  lemma ScenarioTopRowWin(s0: State, clicks: seq<Coord>)
    requires s0 == Initial()
    requires clicks == [Coord(0, 0), Coord(1, 1), Coord(0, 1), Coord(2, 2), Coord(0, 2)]
    ensures Play(s0, clicks).phase == Won(X)
  {
    QuietMove(s0, 0, 0, Place(s0.grid, 0, 0, X));
    var s1 := Step(s0, 0, 0).next;
    QuietMove(s1, 1, 1, Place(s1.grid, 1, 1, O));
    var s2 := Step(s1, 1, 1).next;
    QuietMove(s2, 0, 1, Place(s2.grid, 0, 1, X));
    var s3 := Step(s2, 0, 1).next;
    assert s3.grid[2][1] == Empty;
    QuietMove(s3, 2, 2, Place(s3.grid, 2, 2, O));
    var s4 := Step(s3, 2, 2).next;
    WinningMove(s4, 0, 2, Place(s4.grid, 0, 2, X), Row(0));
    var s5 := Step(s4, 0, 2).next;
    PlayFirst(s4, Coord(0, 2), [], s5);
    PlayFirst(s3, Coord(2, 2), [Coord(0, 2)], s4);
    PlayFirst(s2, Coord(0, 1), [Coord(2, 2), Coord(0, 2)], s3);
    PlayFirst(s1, Coord(1, 1), [Coord(0, 1), Coord(2, 2), Coord(0, 2)], s2);
    PlayFirst(s0, Coord(0, 0), [Coord(1, 1), Coord(0, 1), Coord(2, 2), Coord(0, 2)], s1);
    assert clicks == [Coord(0, 0)] + [Coord(1, 1), Coord(0, 1), Coord(2, 2), Coord(0, 2)];
  }

  /** A session split in two: the second part starts where the first ended. */
  lemma {:induction false} PlayAppend(s: State, a: seq<Coord>, b: seq<Coord>)
    ensures Play(s, a + b) == Play(Play(s, a), b)
    decreases |a|
  {
    if |a| == 0 {
      assert a + b == b;
    } else if s.phase == InProgress {
      assert (a + b)[0] == a[0] && (a + b)[1..] == a[1..] + b;
      match Step(s, a[0].row, a[0].col)
      case Rejected(_) => PlayAppend(s, a[1..], b);
      case Moved(s') => PlayAppend(s', a[1..], b);
    }
  }

  /** The board spelled out row by row, as in ["X-O", "-O-", "--X"]. */
  predicate Shows(g: Grid, picture: seq<string>) {
    && |picture| == 3
    && (forall i | 0 <= i < 3 :: |picture[i]| == 3)
    && forall i, j | 0 <= i < 3 && 0 <= j < 3 :: g[i][j] == picture[i][j]
  }

  /** The first four moves of ScenarioDraw. */
  lemma DrawOpening(s0: State, clicks: seq<Coord>) returns (s4: State)
    requires s0 == Initial()
    requires clicks == [Coord(0, 0), Coord(1, 1), Coord(2, 2), Coord(0, 2)]
    ensures Play(s0, clicks) == s4
    ensures s4.phase == InProgress && s4.current == X && Shows(s4.grid, ["X-O", "-O-", "--X"])
  {
    QuietMove(s0, 0, 0, Place(s0.grid, 0, 0, X));
    var s1 := Step(s0, 0, 0).next;
    QuietMove(s1, 1, 1, Place(s1.grid, 1, 1, O));
    var s2 := Step(s1, 1, 1).next;
    QuietMove(s2, 2, 2, Place(s2.grid, 2, 2, X));
    var s3 := Step(s2, 2, 2).next;
    QuietMove(s3, 0, 2, Place(s3.grid, 0, 2, O));
    s4 := Step(s3, 0, 2).next;
    PlayFirst(s3, Coord(0, 2), [], s4);
    PlayFirst(s2, Coord(2, 2), [Coord(0, 2)], s3);
    PlayFirst(s1, Coord(1, 1), [Coord(2, 2), Coord(0, 2)], s2);
    PlayFirst(s0, Coord(0, 0), [Coord(1, 1), Coord(2, 2), Coord(0, 2)], s1);
    assert clicks == [Coord(0, 0)] + [Coord(1, 1), Coord(2, 2), Coord(0, 2)];
  }

  /** The last five moves of ScenarioDraw. */
  lemma DrawEnding(s4: State, clicks: seq<Coord>)
    requires s4.phase == InProgress && s4.current == X && Shows(s4.grid, ["X-O", "-O-", "--X"])
    requires clicks == [Coord(2, 0), Coord(1, 0), Coord(1, 2), Coord(2, 1), Coord(0, 1)]
    ensures Play(s4, clicks).phase == Drawn && Play(s4, clicks).current == X
  {
    QuietMove(s4, 2, 0, Place(s4.grid, 2, 0, X));
    var s5 := Step(s4, 2, 0).next;
    QuietMove(s5, 1, 0, Place(s5.grid, 1, 0, O));
    var s6 := Step(s5, 1, 0).next;
    QuietMove(s6, 1, 2, Place(s6.grid, 1, 2, X));
    var s7 := Step(s6, 1, 2).next;
    assert s7.grid[0][1] == Empty;
    QuietMove(s7, 2, 1, Place(s7.grid, 2, 1, O));
    var s8 := Step(s7, 2, 1).next;
    DrawingMove(s8, 0, 1, Place(s8.grid, 0, 1, X));
    var s9 := Step(s8, 0, 1).next;
    PlayFirst(s8, Coord(0, 1), [], s9);
    PlayFirst(s7, Coord(2, 1), [Coord(0, 1)], s8);
    PlayFirst(s6, Coord(1, 2), [Coord(2, 1), Coord(0, 1)], s7);
    PlayFirst(s5, Coord(1, 0), [Coord(1, 2), Coord(2, 1), Coord(0, 1)], s6);
    PlayFirst(s4, Coord(2, 0), [Coord(1, 0), Coord(1, 2), Coord(2, 1), Coord(0, 1)], s5);
    assert clicks == [Coord(2, 0)] + [Coord(1, 0), Coord(1, 2), Coord(2, 1), Coord(0, 1)];
  }

  /**
   * Nine moves that fill the board with no line for either player:
   *   X X O
   *   O O X
   *   X O X
   * The game ends drawn and X, who moved last, stays current.
   */
  lemma ScenarioDraw(s0: State, clicks: seq<Coord>)
    requires s0 == Initial()
    requires clicks == [Coord(0, 0), Coord(1, 1), Coord(2, 2), Coord(0, 2), Coord(2, 0),
                        Coord(1, 0), Coord(1, 2), Coord(2, 1), Coord(0, 1)]
    ensures Play(s0, clicks).phase == Drawn && Play(s0, clicks).current == X
  {
    var s4 := DrawOpening(s0, clicks[..4]);
    DrawEnding(s4, clicks[4..]);
    PlayAppend(s0, clicks[..4], clicks[4..]);
    assert clicks == clicks[..4] + clicks[4..];
  }

  /** The first four moves of ScenarioLastMoveWinsDiagonal. */
  lemma DiagonalOpening(s0: State, clicks: seq<Coord>) returns (s4: State)
    requires s0 == Initial()
    requires clicks == [Coord(0, 0), Coord(0, 1), Coord(0, 2), Coord(1, 0)]
    ensures Play(s0, clicks) == s4
    ensures s4.phase == InProgress && s4.current == X && Shows(s4.grid, ["XOX", "O--", "---"])
  {
    QuietMove(s0, 0, 0, Place(s0.grid, 0, 0, X));
    var s1 := Step(s0, 0, 0).next;
    QuietMove(s1, 0, 1, Place(s1.grid, 0, 1, O));
    var s2 := Step(s1, 0, 1).next;
    QuietMove(s2, 0, 2, Place(s2.grid, 0, 2, X));
    var s3 := Step(s2, 0, 2).next;
    QuietMove(s3, 1, 0, Place(s3.grid, 1, 0, O));
    s4 := Step(s3, 1, 0).next;
    PlayFirst(s3, Coord(1, 0), [], s4);
    PlayFirst(s2, Coord(0, 2), [Coord(1, 0)], s3);
    PlayFirst(s1, Coord(0, 1), [Coord(0, 2), Coord(1, 0)], s2);
    PlayFirst(s0, Coord(0, 0), [Coord(0, 1), Coord(0, 2), Coord(1, 0)], s1);
    assert clicks == [Coord(0, 0)] + [Coord(0, 1), Coord(0, 2), Coord(1, 0)];
  }

  /** The last five moves of ScenarioLastMoveWinsDiagonal. */
  lemma DiagonalEnding(s4: State, clicks: seq<Coord>)
    requires s4.phase == InProgress && s4.current == X && Shows(s4.grid, ["XOX", "O--", "---"])
    requires clicks == [Coord(1, 1), Coord(2, 1), Coord(1, 2), Coord(2, 0), Coord(2, 2)]
    ensures Play(s4, clicks).phase == Won(X)
  {
    QuietMove(s4, 1, 1, Place(s4.grid, 1, 1, X));
    var s5 := Step(s4, 1, 1).next;
    QuietMove(s5, 2, 1, Place(s5.grid, 2, 1, O));
    var s6 := Step(s5, 2, 1).next;
    QuietMove(s6, 1, 2, Place(s6.grid, 1, 2, X));
    var s7 := Step(s6, 1, 2).next;
    assert s7.grid[2][2] == Empty;
    QuietMove(s7, 2, 0, Place(s7.grid, 2, 0, O));
    var s8 := Step(s7, 2, 0).next;
    WinningMove(s8, 2, 2, Place(s8.grid, 2, 2, X), Diagonal);
    var s9 := Step(s8, 2, 2).next;
    PlayFirst(s8, Coord(2, 2), [], s9);
    PlayFirst(s7, Coord(2, 0), [Coord(2, 2)], s8);
    PlayFirst(s6, Coord(1, 2), [Coord(2, 0), Coord(2, 2)], s7);
    PlayFirst(s5, Coord(2, 1), [Coord(1, 2), Coord(2, 0), Coord(2, 2)], s6);
    PlayFirst(s4, Coord(1, 1), [Coord(2, 1), Coord(1, 2), Coord(2, 0), Coord(2, 2)], s5);
    assert clicks == [Coord(1, 1)] + [Coord(2, 1), Coord(1, 2), Coord(2, 0), Coord(2, 2)];
  }

  /**
   * The nine moves X(0,0) O(0,1) X(0,2) O(1,0) X(1,1) O(2,1) X(1,2) O(2,0)
   * X(2,2) do not draw: the last one completes X's main diagonal and
   * column 2, so X wins.
   */
  lemma ScenarioLastMoveWinsDiagonal(s0: State, clicks: seq<Coord>)
    requires s0 == Initial()
    requires clicks == [Coord(0, 0), Coord(0, 1), Coord(0, 2), Coord(1, 0), Coord(1, 1),
                        Coord(2, 1), Coord(1, 2), Coord(2, 0), Coord(2, 2)]
    ensures Play(s0, clicks).phase == Won(X)
  {
    var s4 := DiagonalOpening(s0, clicks[..4]);
    DiagonalEnding(s4, clicks[4..]);
    PlayAppend(s0, clicks[..4], clicks[4..]);
    assert clicks == clicks[..4] + clicks[4..];
  }

  /**
   * Rejected requests. A click off the board is out of bounds. After X has
   * marked (0,0), a second request for (0,0) is reported as occupied, both
   * when X asks again and when the window asks on behalf of O, the player
   * now to move: occupancy is checked before turn ownership.
   */
  lemma ScenarioRejections(s0: State)
    requires s0 == Initial()
    ensures Step(s0, 3, 0) == Rejected(OutOfBounds)
    ensures Step(s0, 0, 0).Moved? && Step(s0, 0, 0).next.phase == InProgress
    ensures CheckMove(Step(s0, 0, 0).next.grid, Step(s0, 0, 0).next.current, 0, 0, X) == Fail(Occupied)
    ensures Step(Step(s0, 0, 0).next, 0, 0) == Rejected(Occupied)
  {
    QuietMove(s0, 0, 0, Place(s0.grid, 0, 0, X));
  }
}
