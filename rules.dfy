/**
 * The rules of Tic-Tac-Toe as the game engine applies them: the values a
 * cell can hold, the 3x3 grid, the eight lines, what counts as a win and
 * as a draw, and how a requested move is validated and placed.
 *
 * Cells hold characters, as the engine's `char[][]` board does: '-' for an
 * empty cell and the player's symbol for a marked one.
 */
module Rules {

  const Empty: char := '-'
  const X: char := 'X'
  const O: char := 'O'

  /** The two player symbols. */
  predicate IsMark(c: char) {
    c == X || c == O
  }

  /** A row or column number of the board. */
  type Index = i: int | 0 <= i < 3

  predicate InBounds(row: int, col: int) {
    0 <= row < 3 && 0 <= col < 3
  }

  /** The board's contents, row by row; always three rows of three cells. */
  type Grid = g: seq<seq<char>> | |g| == 3 && forall i | 0 <= i < 3 :: |g[i]| == 3
    witness [['-', '-', '-'], ['-', '-', '-'], ['-', '-', '-']]

  /** The board of a fresh game. */
  function EmptyGrid(): (g: Grid)
    ensures forall i, j | 0 <= i < 3 && 0 <= j < 3 :: g[i][j] == Empty
  {
    [[Empty, Empty, Empty], [Empty, Empty, Empty], [Empty, Empty, Empty]]
  }

  /** Every cell is empty or bears one of the two player symbols. */
  predicate WellMarked(g: Grid) {
    forall i, j | 0 <= i < 3 && 0 <= j < 3 :: g[i][j] == Empty || IsMark(g[i][j])
  }

  /** No cell is empty. */
  predicate IsFull(g: Grid) {
    forall i, j | 0 <= i < 3 && 0 <= j < 3 :: g[i][j] != Empty
  }

  /** Two grids that agree on every cell are the same grid. */
  lemma SameCellsSameGrid(a: Grid, b: Grid)
    requires forall i, j | 0 <= i < 3 && 0 <= j < 3 :: a[i][j] == b[i][j]
    ensures a == b
  {
    assert a[0] == b[0] && a[1] == b[1] && a[2] == b[2];
  }

  // ---------------------------------------------------------------------
  // Lines, wins and draws
  // ---------------------------------------------------------------------

  datatype Coord = Coord(row: Index, col: Index)

  function At(g: Grid, c: Coord): char {
    g[c.row][c.col]
  }

  /** The eight lines: three rows, three columns and the two diagonals. */
  datatype Line = Row(i: Index) | Column(j: Index) | Diagonal | AntiDiagonal

  /** The k-th cell of a line, in the order the engine compares them. */
  function CellOf(l: Line, k: Index): Coord {
    match l
    case Row(i) => Coord(i, k)
    case Column(j) => Coord(k, j)
    case Diagonal => Coord(k, k)
    case AntiDiagonal => Coord(k, 2 - k)
  }

  /** The line's first cell is marked and its three cells are equal. */
  predicate LineWon(g: Grid, l: Line) {
    && At(g, CellOf(l, 0)) != Empty
    && At(g, CellOf(l, 0)) == At(g, CellOf(l, 1))
    && At(g, CellOf(l, 1)) == At(g, CellOf(l, 2))
  }

  /** Some row, column or diagonal holds three equal marks. */
  ghost predicate HasWin(g: Grid) {
    exists l: Line :: LineWon(g, l)
  }

  /** All three cells of the line bear the mark p. */
  predicate Completes(g: Grid, l: Line, p: char) {
    p != Empty && At(g, CellOf(l, 0)) == p && At(g, CellOf(l, 1)) == p && At(g, CellOf(l, 2)) == p
  }

  /** Player p owns a complete line. */
  ghost predicate WinsFor(g: Grid, p: char) {
    exists l: Line :: Completes(g, l, p)
  }

  /** No line is won and no cell is empty. */
  ghost predicate IsDraw(g: Grid) {
    !HasWin(g) && IsFull(g)
  }

  /** The win test looks at exactly the eight lines, one by one. */
  lemma HasWinOnEightLines(g: Grid)
    ensures HasWin(g) <==>
      || LineWon(g, Row(0)) || LineWon(g, Row(1)) || LineWon(g, Row(2))
      || LineWon(g, Column(0)) || LineWon(g, Column(1)) || LineWon(g, Column(2))
      || LineWon(g, Diagonal) || LineWon(g, AntiDiagonal)
  {
  }

  /** On a well-marked board, a win is a complete line of X or of O. */
  lemma HasWinIffSomePlayerWins(g: Grid)
    requires WellMarked(g)
    ensures HasWin(g) <==> WinsFor(g, X) || WinsFor(g, O)
  {
    if HasWin(g) {
      var l :| LineWon(g, l);
      var c := CellOf(l, 0);
      assert IsMark(g[c.row][c.col]);
      assert Completes(g, l, At(g, c));
    }
    if WinsFor(g, X) {
      var l :| Completes(g, l, X);
      assert LineWon(g, l);
    }
    if WinsFor(g, O) {
      var l :| Completes(g, l, O);
      assert LineWon(g, l);
    }
  }

  // ---------------------------------------------------------------------
  // Moves
  // ---------------------------------------------------------------------

  /** The three ways the engine rejects a move. */
  datatype MoveError = OutOfBounds | Occupied | NotYourTurn

  /** The verdict of move validation: accepted, or the first failing check. */
  datatype Outcome = Pass | Fail(error: MoveError)

  /**
   * Validates a request by `player` to mark (row, col) while `current` is to
   * move. The bounds are checked first, then occupancy, then turn ownership,
   * and the first failing check decides the error.
   */
  function CheckMove(g: Grid, current: char, row: int, col: int, player: char): (r: Outcome)
    ensures r == Fail(OutOfBounds) <==> !InBounds(row, col)
    ensures r == Fail(Occupied) <==> InBounds(row, col) && g[row][col] != Empty
    ensures r == Fail(NotYourTurn) <==> InBounds(row, col) && g[row][col] == Empty && player != current
    ensures r == Pass <==> InBounds(row, col) && g[row][col] == Empty && player == current
  {
    if !InBounds(row, col) then Fail(OutOfBounds)
    else if g[row][col] != Empty then Fail(Occupied)
    else if player != current then Fail(NotYourTurn)
    else Pass
  }

  /** The grid with (row, col) set to p and every other cell as it was. */
  function Place(g: Grid, row: int, col: int, p: char): (r: Grid)
    requires InBounds(row, col)
    ensures r[row][col] == p
    ensures forall i, j | 0 <= i < 3 && 0 <= j < 3 && (i != row || j != col) :: r[i][j] == g[i][j]
  {
    g[row := g[row][col := p]]
  }

  /** A line that does not pass through (row, col) is won after the move iff it was before. */
  lemma UntouchedLineUnchanged(g: Grid, row: int, col: int, p: char, l: Line)
    requires InBounds(row, col)
    requires forall k: Index :: CellOf(l, k) != Coord(row, col)
    ensures LineWon(Place(g, row, col, p), l) == LineWon(g, l)
  {
  }

  /**
   * Marking one cell of a board that has no win can only complete a line of
   * the player who marked it: the winner is the player who just moved.
   */
  lemma NewWinBelongsToMover(g: Grid, row: int, col: int, p: char)
    requires InBounds(row, col)
    requires !HasWin(g)
    ensures HasWin(Place(g, row, col, p)) ==> WinsFor(Place(g, row, col, p), p)
  {
    var g' := Place(g, row, col, p);
    if HasWin(g') {
      var l :| LineWon(g', l);
      if forall k: Index :: CellOf(l, k) != Coord(row, col) {
        UntouchedLineUnchanged(g, row, col, p, l);
        assert false;
      }
      var k: Index :| CellOf(l, k) == Coord(row, col);
      assert At(g', CellOf(l, k)) == p;
      assert Completes(g', l, p);
    }
  }

  /** The player whose turn follows p's: O after X, and X after anything else. */
  function Switched(p: char): (q: char)
    ensures IsMark(q) && q != p
    ensures p != X ==> q == X
  {
    if p == X then O else X
  }

  /** Switching twice gives the turn back to the same player. */
  lemma SwitchTwice(p: char)
    requires IsMark(p)
    ensures Switched(Switched(p)) == p
  {
  }
}
