/** The board of the game: marks, coordinates, the board dictionary and the
    draw test that scans it (tictactoe.py, class Tictactoe). */
module Board {

  /** The content of one cell: the source's " ", "X" and "O". */
  datatype Mark = Empty | X | O

  /** A coordinate (row, column): the key type of the board dictionary. */
  type Cell = (int, int)

  /** The board dictionary, from coordinates to marks. */
  type Board = map<Cell, Mark>

  predicate OnBoard(c: Cell, n: int) {
    0 <= c.0 < n && 0 <= c.1 < n
  }

  /** The keys of `b` are exactly the n×n coordinates (i, j). */
  ghost predicate IsBoard(b: Board, n: int) {
    forall c :: c in b <==> OnBoard(c, n)
  }

  /** The coordinates of an n×n board. */
  function Cells(n: int): (cs: set<Cell>)
    ensures forall c :: c in cs <==> OnBoard(c, n)
  {
    set i, j | 0 <= i < n && 0 <= j < n :: (i, j)
  }

  /** The board the constructor builds: every coordinate of the n×n grid, all " ". */
  function EmptyBoard(n: int): (b: Board)
    ensures IsBoard(b, n)
    ensures forall c :: c in b ==> b[c] == Empty
  {
    map c | c in Cells(n) :: Empty
  }

  /** The mark of the player to move: "X" when the turn flag is set, "O" otherwise. */
  function PlayerFor(xTurn: bool): (m: Mark)
    ensures m != Empty
    ensures m == X <==> xTurn
  {
    if xTurn then X else O
  }

  /** No cell of the board is " ". */
  predicate IsFull(b: Board) {
    forall c :: c in b ==> b[c] != Empty
  }

  /** The cells that carry a player's mark. */
  function Filled(b: Board): set<Cell> {
    set c | c in b && b[c] != Empty
  }

  /** check_draw: scans every (i, j) of the board and clears the flag on a " " cell. */
  method CheckDraw(b: Board, n: int) returns (draw: bool)
    requires n > 1 && IsBoard(b, n)
    ensures draw == IsFull(b)
  {
    draw := true;
    for i := 0 to n
      invariant draw == forall r, c :: 0 <= r < i && 0 <= c < n ==> b[(r, c)] != Empty
    {
      for j := 0 to n
        invariant draw == forall r, c :: (0 <= r < i && 0 <= c < n) || (r == i && 0 <= c < j) ==> b[(r, c)] != Empty
      {
        if b[(i, j)] == Empty {
          draw := false;
        }
      }
    }
    assert forall c :: c in b ==> c == (c.0, c.1) && OnBoard(c, n);
  }
}
