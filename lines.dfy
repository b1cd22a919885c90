/** Lines of the board and the specification of a win: a run of k equal marks
    along a row, a column or a diagonal of either direction. */
module Lines {
  import opened Board

  /** The four line directions. Diagonal keeps row - col constant (the source's
      "y = -x" family); AntiDiagonal keeps row + col constant, rows going up as
      columns go right (the "y = x" family). */
  datatype Direction = Across | Down | Diagonal | AntiDiagonal

  /** The cell t steps away from p along d. */
  function StepFrom(p: Cell, d: Direction, t: int): Cell {
    match d
    case Across => (p.0, p.1 + t)
    case Down => (p.0 + t, p.1)
    case Diagonal => (p.0 + t, p.1 + t)
    case AntiDiagonal => (p.0 - t, p.1 + t)
  }

  lemma StepAdd(p: Cell, d: Direction, a: int, t: int)
    ensures StepFrom(StepFrom(p, d, a), d, t) == StepFrom(p, d, a + t)
  {
  }

  /** Every cell of the len-long line from p along d is a key of the board. */
  ghost predicate LineOnBoard(b: Board, p: Cell, d: Direction, len: int) {
    forall t :: 0 <= t < len ==> StepFrom(p, d, t) in b
  }

  /** The list of marks read along a line: the list comprehensions of check_win
      (row_k, column_k, diag_lower, diag_upper, diag1, diag2). */
  function Line(b: Board, p: Cell, d: Direction, len: nat): (s: seq<Mark>)
    requires LineOnBoard(b, p, d, len)
    ensures |s| == len
    ensures forall t :: 0 <= t < len ==> s[t] == b[StepFrom(p, d, t)]
  {
    seq(len, t requires 0 <= t < len => b[StepFrom(p, d, t)])
  }

  /** all(s[j] == m for j in range(lo, hi)). */
  predicate AllFrom(s: seq<Mark>, m: Mark, lo: int, hi: int)
    requires 0 <= lo <= hi <= |s|
  {
    forall j :: lo <= j < hi ==> s[j] == m
  }

  /** all(val == m for val in s). */
  predicate AllAre(s: seq<Mark>, m: Mark) {
    AllFrom(s, m, 0, |s|)
  }

  /** The window of k entries of s starting at j lies within s and is all m. */
  predicate WindowAt(s: seq<Mark>, m: Mark, j: int, k: int) {
    0 <= j && 0 <= k && j + k <= |s| && AllFrom(s, m, j, j + k)
  }

  /** Some window of k consecutive entries of s is all m. */
  ghost predicate HasWindow(s: seq<Mark>, m: Mark, k: int) {
    exists j :: WindowAt(s, m, j, k)
  }

  /** The k cells from p along d are on the board and all carry m. */
  ghost predicate RunAt(b: Board, m: Mark, k: int, p: Cell, d: Direction) {
    forall t :: 0 <= t < k ==> StepFrom(p, d, t) in b && b[StepFrom(p, d, t)] == m
  }

  ghost predicate HasRunIn(b: Board, m: Mark, k: int, d: Direction) {
    exists p :: RunAt(b, m, k, p, d)
  }

  /** The natural winning condition: k consecutive m on some row, column or diagonal. */
  ghost predicate HasRun(b: Board, m: Mark, k: int) {
    exists p, d :: RunAt(b, m, k, p, d)
  }

  /** What check_win decides: a run of k, or one of the two main diagonals
      entirely m, whatever k is (tictactoe.py:189). */
  ghost predicate Wins(b: Board, n: int, k: int, m: Mark) {
    HasRun(b, m, k) || RunAt(b, m, n, (0, 0), Diagonal) || RunAt(b, m, n, (n - 1, 0), AntiDiagonal)
  }

  /** A window of a line read from the board is all m exactly when the board
      holds a run of m starting at the window's first cell. */
  lemma {:induction false} LineWindow(b: Board, p: Cell, d: Direction, len: nat, m: Mark, lo: int, k: int)
    requires LineOnBoard(b, p, d, len)
    requires 0 <= lo && 0 <= k && lo + k <= len
    ensures AllFrom(Line(b, p, d, len), m, lo, lo + k) <==> RunAt(b, m, k, StepFrom(p, d, lo), d)
  {
    var s := Line(b, p, d, len);
    forall t | 0 <= t < k
      ensures StepFrom(StepFrom(p, d, lo), d, t) in b
      ensures s[lo + t] == b[StepFrom(StepFrom(p, d, lo), d, t)]
    {
      StepAdd(p, d, lo, t);
    }
    if AllFrom(s, m, lo, lo + k) {
      forall t | 0 <= t < k
        ensures b[StepFrom(StepFrom(p, d, lo), d, t)] == m
      {
        assert s[lo + t] == m;
      }
    }
    if RunAt(b, m, k, StepFrom(p, d, lo), d) {
      forall j | lo <= j < lo + k
        ensures s[j] == m
      {
        assert s[lo + (j - lo)] == b[StepFrom(StepFrom(p, d, lo), d, j - lo)];
      }
    }
  }

  /** The whole line is all m exactly when it is a run of m of its own length. */
  lemma LineAll(b: Board, p: Cell, d: Direction, len: nat, m: Mark)
    requires LineOnBoard(b, p, d, len)
    ensures AllAre(Line(b, p, d, len), m) <==> RunAt(b, m, len, p, d)
  {
    LineWindow(b, p, d, len, m, 0, len);
    assert StepFrom(p, d, 0) == p;
  }

  /** Where a line of at least k cells is all m, its first window is; a line of
      exactly k cells has one window, the whole line. So the source's
      "entire line" test adds nothing to its window test on such lines. */
  lemma {:induction false} EntireOrWindows(s: seq<Mark>, m: Mark, k: int)
    requires k >= 1
    ensures |s| >= k && AllAre(s, m) ==> HasWindow(s, m, k)
    ensures |s| <= k ==> (HasWindow(s, m, k) <==> |s| == k && AllAre(s, m))
  {
    if |s| >= k && AllAre(s, m) {
      assert WindowAt(s, m, 0, k);
    }
    if |s| <= k && HasWindow(s, m, k) {
      var j :| WindowAt(s, m, j, k);
      assert j == 0;
    }
    if |s| == k && AllAre(s, m) {
      assert WindowAt(s, m, 0, k);
    }
  }

  /** A run lies on the board: its first and last cells are coordinates. */
  lemma RunBounds(b: Board, n: int, m: Mark, k: int, p: Cell, d: Direction)
    requires IsBoard(b, n) && k >= 1 && RunAt(b, m, k, p, d)
    ensures OnBoard(p, n) && OnBoard(StepFrom(p, d, k - 1), n)
  {
    assert StepFrom(p, d, 0) in b;
    assert StepFrom(p, d, k - 1) in b;
  }

  /** A run longer than the side of the board cannot exist. */
  lemma NoRunLongerThanBoard(b: Board, n: int, m: Mark, k: int)
    requires IsBoard(b, n) && 1 < n < k
    ensures !HasRun(b, m, k)
  {
    if HasRun(b, m, k) {
      var p, d :| RunAt(b, m, k, p, d);
      RunBounds(b, n, m, k, p, d);
      match d
      case Across =>
      case Down =>
      case Diagonal =>
      case AntiDiagonal =>
    }
  }

  lemma HasRunByDirection(b: Board, m: Mark, k: int)
    ensures HasRun(b, m, k) <==>
      HasRunIn(b, m, k, Across) || HasRunIn(b, m, k, Down) ||
      HasRunIn(b, m, k, Diagonal) || HasRunIn(b, m, k, AntiDiagonal)
  {
    if HasRun(b, m, k) {
      var p, d :| RunAt(b, m, k, p, d);
      assert HasRunIn(b, m, k, d);
      match d
      case Across =>
      case Down =>
      case Diagonal =>
      case AntiDiagonal =>
    }
    forall d | HasRunIn(b, m, k, d)
      ensures HasRun(b, m, k)
    {
      var p :| RunAt(b, m, k, p, d);
    }
  }

  /** When a line of k fits on the board, a full main diagonal is a run of k,
      so check_win decides exactly the natural condition. */
  lemma WinsWhenRunFits(b: Board, n: int, k: int, m: Mark)
    requires IsBoard(b, n) && 1 <= k <= n
    ensures Wins(b, n, k, m) <==> HasRun(b, m, k)
  {
    if RunAt(b, m, n, (0, 0), Diagonal) {
      assert RunAt(b, m, k, (0, 0), Diagonal);
    }
    if RunAt(b, m, n, (n - 1, 0), AntiDiagonal) {
      assert RunAt(b, m, k, (n - 1, 0), AntiDiagonal);
    }
  }

  /** When k exceeds the side of the board no row, column or diagonal run
      exists, and check_win still reports a win for a full main diagonal. */
  lemma WinsWhenRunTooLong(b: Board, n: int, k: int, m: Mark)
    requires IsBoard(b, n) && 1 < n < k
    ensures !HasRun(b, m, k)
    ensures Wins(b, n, k, m) <==> RunAt(b, m, n, (0, 0), Diagonal) || RunAt(b, m, n, (n - 1, 0), AntiDiagonal)
  {
    NoRunLongerThanBoard(b, n, m, k);
  }
}
