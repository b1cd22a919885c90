/** Concrete boards and games: the configurations the repository's examples
    construct (3×3 with 3 in a row, 5×5 with 4, 2×2 with 3) and the general
    facts about empty and full boards. */
module Scenarios {
  import opened Board
  import opened Lines
  import opened Engine

  /** A run of two or more cells holds two different cells. */
  lemma RunHasTwoCells(b: Board, m: Mark, len: int, p: Cell, d: Direction)
    requires len >= 2 && RunAt(b, m, len, p, d)
    ensures StepFrom(p, d, 0) != StepFrom(p, d, 1)
    ensures StepFrom(p, d, 0) in b && b[StepFrom(p, d, 0)] == m
    ensures StepFrom(p, d, 1) in b && b[StepFrom(p, d, 1)] == m
  {
  }

  /** The empty board wins for no player, whatever k is. */
  lemma EmptyBoardNeverWins(n: int, k: int, m: Mark)
    requires n > 1 && k > 1 && m != Empty
    ensures !Wins(EmptyBoard(n), n, k, m)
  {
    var b := EmptyBoard(n);
    if HasRun(b, m, k) {
      var p, d :| RunAt(b, m, k, p, d);
      RunHasTwoCells(b, m, k, p, d);
    }
    if RunAt(b, m, n, (0, 0), Diagonal) {
      RunHasTwoCells(b, m, n, (0, 0), Diagonal);
    }
    if RunAt(b, m, n, (n - 1, 0), AntiDiagonal) {
      RunHasTwoCells(b, m, n, (n - 1, 0), AntiDiagonal);
    }
  }

  /** A board holding m in at most one cell wins for m for no k > 1. */
  lemma OneMarkCannotWin(b: Board, n: int, k: int, m: Mark, c: Cell)
    requires n > 1 && k > 1
    requires forall e :: e in b && e != c ==> b[e] != m
    ensures !Wins(b, n, k, m)
  {
    if HasRun(b, m, k) {
      var p, d :| RunAt(b, m, k, p, d);
      RunHasTwoCells(b, m, k, p, d);
    }
    if RunAt(b, m, n, (0, 0), Diagonal) {
      RunHasTwoCells(b, m, n, (0, 0), Diagonal);
    }
    if RunAt(b, m, n, (n - 1, 0), AntiDiagonal) {
      RunHasTwoCells(b, m, n, (n - 1, 0), AntiDiagonal);
    }
  }

  /** A board entirely of m wins for m: by a row when k fits on the board, and
      by the main diagonal whatever k is. */
  lemma FullBoardWins(b: Board, n: int, k: int, m: Mark)
    requires IsBoard(b, n) && n > 1 && k > 1
    requires forall c :: c in b ==> b[c] == m
    ensures k <= n ==> HasRun(b, m, k)
    ensures Wins(b, n, k, m)
  {
    assert RunAt(b, m, n, (0, 0), Diagonal) by {
      forall t | 0 <= t < n ensures StepFrom((0, 0), Diagonal, t) in b {
        assert OnBoard(StepFrom((0, 0), Diagonal, t), n);
      }
    }
    if k <= n {
      forall t | 0 <= t < k ensures StepFrom((0, 0), Across, t) in b {
        assert OnBoard(StepFrom((0, 0), Across, t), n);
      }
      assert RunAt(b, m, k, (0, 0), Across);
    }
  }

  /** n = 5, k = 4: four X at (4,0), (3,1), (2,2), (1,3), a window of the main
      anti-diagonal (row + col == 4), win; the diag2 window scan finds them,
      and no rising run off the main anti-diagonal exists. */
  lemma MainAntiDiagonalWindowWins()
    ensures var b := EmptyBoard(5)[(1, 3) := X][(2, 2) := X][(3, 1) := X][(4, 0) := X];
      Wins(b, 5, 4, X) && HasRun(b, X, 4) &&
      !exists p: Cell :: p.0 + p.1 != 4 && RunAt(b, X, 4, p, AntiDiagonal)
  {
    var b := EmptyBoard(5)[(1, 3) := X][(2, 2) := X][(3, 1) := X][(4, 0) := X];
    assert StepFrom((4, 0), AntiDiagonal, 0) == (4, 0);
    assert StepFrom((4, 0), AntiDiagonal, 1) == (3, 1);
    assert StepFrom((4, 0), AntiDiagonal, 2) == (2, 2);
    assert StepFrom((4, 0), AntiDiagonal, 3) == (1, 3);
    assert RunAt(b, X, 4, (4, 0), AntiDiagonal);
    forall p: Cell | p.0 + p.1 != 4
      ensures !RunAt(b, X, 4, p, AntiDiagonal)
    {
      assert StepFrom(p, AntiDiagonal, 0) == p;
    }
  }

  /** n = 5, k = 4: four X at (3,0), (2,1), (1,2), (0,3), on the rising
      diagonal row + col == 3, which misses the main anti-diagonal, win; the
      off-centre loop at offset 1 finds them. */
  lemma OffCentreRisingRunWins()
    ensures var b := EmptyBoard(5)[(3, 0) := X][(2, 1) := X][(1, 2) := X][(0, 3) := X];
      Wins(b, 5, 4, X) && exists p: Cell :: p.0 + p.1 != 4 && RunAt(b, X, 4, p, AntiDiagonal)
  {
    var b := EmptyBoard(5)[(3, 0) := X][(2, 1) := X][(1, 2) := X][(0, 3) := X];
    assert StepFrom((3, 0), AntiDiagonal, 0) == (3, 0);
    assert StepFrom((3, 0), AntiDiagonal, 1) == (2, 1);
    assert StepFrom((3, 0), AntiDiagonal, 2) == (1, 2);
    assert StepFrom((3, 0), AntiDiagonal, 3) == (0, 3);
    assert RunAt(b, X, 4, (3, 0), AntiDiagonal);
  }

  /** n = 2, k = 3: no line of three fits, yet a main diagonal of X counts as a
      win (tictactoe.py:189 tests the whole diagonal without comparing with k). */
  lemma WholeDiagonalWinsBeyondK()
    ensures var b := EmptyBoard(2)[(0, 0) := X][(1, 1) := X];
      Wins(b, 2, 3, X) && !HasRun(b, X, 3)
  {
    var b := EmptyBoard(2)[(0, 0) := X][(1, 1) := X];
    assert StepFrom((0, 0), Diagonal, 1) == (1, 1);
    assert RunAt(b, X, 2, (0, 0), Diagonal);
    NoRunLongerThanBoard(b, 2, X, 3);
  }

  /** n = 3, k = 3: X on the top row after X (0,0), O (1,1), X (0,1), O (2,2),
      X (0,2) is a win. */
  lemma TopRowWins()
    ensures var b := EmptyBoard(3)[(0, 0) := X][(1, 1) := O][(0, 1) := X][(2, 2) := O][(0, 2) := X];
      Wins(b, 3, 3, X)
  {
    var b := EmptyBoard(3)[(0, 0) := X][(1, 1) := O][(0, 1) := X][(2, 2) := O][(0, 2) := X];
    assert StepFrom((0, 0), Across, 1) == (0, 1);
    assert StepFrom((0, 0), Across, 2) == (0, 2);
    assert RunAt(b, X, 3, (0, 0), Across);
  }

  /** A win that fills the last cell: show_history reports no winner although
      X has the top row. */
  lemma LastCellWinReportsNoWinner()
    ensures var b := EmptyBoard(3)[(0, 0) := X][(0, 1) := X][(0, 2) := X]
                                  [(1, 0) := O][(1, 1) := O][(1, 2) := X]
                                  [(2, 0) := X][(2, 1) := O][(2, 2) := O];
      Wins(b, 3, 3, X) && HistoryVerdict(b, X) == NoWinners
  {
    var b := EmptyBoard(3)[(0, 0) := X][(0, 1) := X][(0, 2) := X]
                          [(1, 0) := O][(1, 1) := O][(1, 2) := X]
                          [(2, 0) := X][(2, 1) := O][(2, 2) := O];
    assert StepFrom((0, 0), Across, 1) == (0, 1);
    assert StepFrom((0, 0), Across, 2) == (0, 2);
    assert RunAt(b, X, 3, (0, 0), Across);
    assert forall c :: c in b ==> OnBoard(c, 3);
  }

  /** A move onto a taken cell is refused and the turn stays with O. */
  method OccupiedCellIsRefused() returns (r: Result<Status, MoveError>, current: Mark)
    ensures r == Err(Occupied) && current == O
  {
    var made := Game.Create();
    var g := made.value;
    var first := g.Play(0, 0);
    assert g.board == EmptyBoard(3)[(0, 0) := X];
    OneMarkCannotWin(g.board, 3, 3, X, (0, 0));
    assert (1, 1) in g.board && g.board[(1, 1)] == Empty;
    r := g.Play(0, 0);
    current := g.Player();
  }

  /** Width and win length are checked in that order; the other parameter
      keeps its default of 3. */
  method BadConfigurationsAreRefused() returns (a: Result<Game, ConfigError>, b: Result<Game, ConfigError>)
    ensures a == Err(BadWidth) && b == Err(BadWinLength)
  {
    a := Game.Create(width := 1);
    b := Game.Create(toWin := 0);
  }
}
