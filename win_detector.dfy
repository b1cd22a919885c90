/** check_win (tictactoe.py:93-195): the source's enumeration of row, column
    and diagonal windows, one method per block of the source, each proved to
    decide a part of the run specification of module Lines. */
module WinDetector {
  import opened Board
  import opened Lines

  /** The window loop the source repeats for every diagonal list: when the list
      is longer than k, every window of k entries is tested. */
  method ScanWindows(line: seq<Mark>, m: Mark, k: int) returns (found: bool)
    requires k > 1
    ensures found == (|line| > k && HasWindow(line, m, k))
  {
    found := false;
    if |line| > k {
      for s := 0 to |line| - k + 1
        invariant found == exists j :: 0 <= j < s && WindowAt(line, m, j, k)
      {
        if AllFrom(line, m, s, k + s) {
          found := true;
          assert WindowAt(line, m, s, k);
        }
      }
      assert forall j :: WindowAt(line, m, j, k) ==> 0 <= j < |line| - k + 1;
    }
  }

  /** Row i has k consecutive m. */
  ghost predicate RowRunAt(b: Board, m: Mark, k: int, i: int) {
    exists c :: RunAt(b, m, k, (i, c), Across)
  }

  /** Column i has k consecutive m. */
  ghost predicate ColumnRunAt(b: Board, m: Mark, k: int, i: int) {
    exists r :: RunAt(b, m, k, (r, i), Down)
  }

  ghost predicate RowOrColumnRunAt(b: Board, m: Mark, k: int, i: int) {
    RowRunAt(b, m, k, i) || ColumnRunAt(b, m, k, i)
  }

  /** The window of row i and the window of column i that start at s:
      row_k = (i, s) .. (i, s + k - 1) and column_k = (s, i) .. (s + k - 1, i). */
  ghost predicate RowOrColumnWindow(b: Board, m: Mark, k: int, i: int, s: int) {
    RunAt(b, m, k, (i, s), Across) || RunAt(b, m, k, (s, i), Down)
  }

  /** row_k and column_k at start s lie on the board, and one of them is all m
      exactly when one of the two windows is a run of m. */
  lemma RowAndColumnLines(b: Board, n: int, k: int, m: Mark, i: int, s: int)
    requires IsBoard(b, n) && k >= 1 && 0 <= i < n && 0 <= s <= n - k
    ensures LineOnBoard(b, (i, s), Across, k) && LineOnBoard(b, (s, i), Down, k)
    ensures AllAre(Line(b, (i, s), Across, k), m) || AllAre(Line(b, (s, i), Down, k), m) <==>
      RowOrColumnWindow(b, m, k, i, s)
  {
    forall t | 0 <= t < k ensures StepFrom((i, s), Across, t) in b {
      assert OnBoard(StepFrom((i, s), Across, t), n);
    }
    forall t | 0 <= t < k ensures StepFrom((s, i), Down, t) in b {
      assert OnBoard(StepFrom((s, i), Down, t), n);
    }
    LineAll(b, (i, s), Across, k, m);
    LineAll(b, (s, i), Down, k, m);
  }

  /** Row i or column i holds a run of k exactly when one starts at one of the
      n - k + 1 starts the source visits. */
  lemma RowOrColumnStarts(b: Board, n: int, k: int, m: Mark, i: int)
    requires IsBoard(b, n) && k >= 1
    ensures RowOrColumnRunAt(b, m, k, i) <==> exists s :: 0 <= s < n - k + 1 && RowOrColumnWindow(b, m, k, i, s)
  {
    if RowRunAt(b, m, k, i) {
      var c :| RunAt(b, m, k, (i, c), Across);
      RunBounds(b, n, m, k, (i, c), Across);
      assert RowOrColumnWindow(b, m, k, i, c);
    }
    if ColumnRunAt(b, m, k, i) {
      var r :| RunAt(b, m, k, (r, i), Down);
      RunBounds(b, n, m, k, (r, i), Down);
      assert RowOrColumnWindow(b, m, k, i, r);
    }
    if exists s :: 0 <= s < n - k + 1 && RowOrColumnWindow(b, m, k, i, s) {
      var s :| 0 <= s < n - k + 1 && RowOrColumnWindow(b, m, k, i, s);
      if RunAt(b, m, k, (i, s), Across) {
        assert RowRunAt(b, m, k, i);
      } else {
        assert ColumnRunAt(b, m, k, i);
      }
    }
  }

  /** One pass of the row and column loop (tictactoe.py:104-116): the windows
      row_k of row i and column_k of column i, starting at s, for s in
      range(n - k + 1). */
  method ScanRowAndColumn(b: Board, n: int, k: int, m: Mark, i: int) returns (found: bool)
    requires n > 1 && k > 1 && IsBoard(b, n) && 0 <= i < n
    ensures found == RowOrColumnRunAt(b, m, k, i)
  {
    found := false;
    var s := 0;
    while s < n - k + 1
      invariant 0 <= s && (s <= n - k + 1 || s == 0)
      invariant found == exists c :: 0 <= c < s && RowOrColumnWindow(b, m, k, i, c)
    {
      RowAndColumnLines(b, n, k, m, i, s);
      var rowK := Line(b, (i, s), Across, k);
      var columnK := Line(b, (s, i), Down, k);
      if AllAre(rowK, m) || AllAre(columnK, m) {
        found := true;
      }
      s := s + 1;
    }
    RowOrColumnStarts(b, n, k, m, i);
  }

  /** Rows and columns (tictactoe.py:103-116): for every i in range(n), the
      windows of row i and of column i. */
  method ScanRowsAndColumns(b: Board, n: int, k: int, m: Mark) returns (found: bool)
    requires n > 1 && k > 1 && IsBoard(b, n)
    ensures found == (HasRunIn(b, m, k, Across) || HasRunIn(b, m, k, Down))
    ensures k > n ==> !found
  {
    found := false;
    for i := 0 to n
      invariant found == exists j :: 0 <= j < i && RowOrColumnRunAt(b, m, k, j)
    {
      var f := ScanRowAndColumn(b, n, k, m, i);
      if f {
        found := true;
      }
    }
    if HasRunIn(b, m, k, Across) {
      var p :| RunAt(b, m, k, p, Across);
      RunBounds(b, n, m, k, p, Across);
      assert RunAt(b, m, k, (p.0, p.1), Across);
      assert RowOrColumnRunAt(b, m, k, p.0);
    }
    if HasRunIn(b, m, k, Down) {
      var p :| RunAt(b, m, k, p, Down);
      RunBounds(b, n, m, k, p, Down);
      assert RunAt(b, m, k, (p.0, p.1), Down);
      assert RowOrColumnRunAt(b, m, k, p.1);
    }
    if found {
      ghost var j :| 0 <= j < n && RowOrColumnRunAt(b, m, k, j);
      if RowRunAt(b, m, k, j) {
        var c :| RunAt(b, m, k, (j, c), Across);
      } else {
        var r :| RunAt(b, m, k, (r, j), Down);
      }
    }
  }

  /** A run of k m starts at one of the cells of the len-long line from q
      along d and ends within it. */
  ghost predicate RunsAlong(b: Board, m: Mark, k: int, q: Cell, d: Direction, len: int) {
    exists j :: 0 <= j && j + k <= len && RunAt(b, m, k, StepFrom(q, d, j), d)
  }

  /** A line read from the board has an all-m window of k entries exactly when
      the board holds a run of k m starting at one of the line's cells. */
  lemma {:induction false} LineHasWindow(b: Board, q: Cell, d: Direction, len: nat, m: Mark, k: int)
    requires LineOnBoard(b, q, d, len) && k >= 0
    ensures HasWindow(Line(b, q, d, len), m, k) <==> RunsAlong(b, m, k, q, d, len)
  {
    if HasWindow(Line(b, q, d, len), m, k) {
      var j :| WindowAt(Line(b, q, d, len), m, j, k);
      LineWindow(b, q, d, len, m, j, k);
    }
    if RunsAlong(b, m, k, q, d, len) {
      var j :| 0 <= j && j + k <= len && RunAt(b, m, k, StepFrom(q, d, j), d);
      LineWindow(b, q, d, len, m, j, k);
      assert WindowAt(Line(b, q, d, len), m, j, k);
    }
  }

  /** A line whose first and last cells are on the board lies on the board. */
  lemma LineBetween(b: Board, n: int, q: Cell, d: Direction, len: int)
    requires IsBoard(b, n) && len >= 1 && OnBoard(q, n) && OnBoard(StepFrom(q, d, len - 1), n)
    ensures LineOnBoard(b, q, d, len)
  {
  }

  /** A falling run of m with row - col == o. */
  ghost predicate FallingRunAt(b: Board, m: Mark, k: int, o: int) {
    exists p: Cell :: p.0 - p.1 == o && RunAt(b, m, k, p, Diagonal)
  }

  /** A rising run of m with row + col == s. */
  ghost predicate RisingRunAt(b: Board, m: Mark, k: int, s: int) {
    exists p: Cell :: p.0 + p.1 == s && RunAt(b, m, k, p, AntiDiagonal)
  }

  /** The two falling diagonals at distance o from the main one. */
  ghost predicate FallingPairAt(b: Board, m: Mark, k: int, o: int) {
    FallingRunAt(b, m, k, o) || FallingRunAt(b, m, k, -o)
  }

  /** The two rising diagonals at distance o from the main anti-diagonal. */
  ghost predicate RisingPairAt(b: Board, n: int, m: Mark, k: int, o: int) {
    RisingRunAt(b, m, k, n - 1 - o) || RisingRunAt(b, m, k, n - 1 + o)
  }

  /** diag_lower of the falling family at offset o, cells (o + j, j), lies on
      the board and has an all-m window exactly when a falling run has row - col == o. */
  lemma {:induction false} FallingLower(b: Board, n: int, m: Mark, k: int, o: int)
    requires IsBoard(b, n) && k >= 1 && 0 <= o < n
    ensures LineOnBoard(b, (o, 0), Diagonal, n - o)
    ensures HasWindow(Line(b, (o, 0), Diagonal, n - o), m, k) <==> FallingRunAt(b, m, k, o)
  {
    var q: Cell := (o, 0);
    LineBetween(b, n, q, Diagonal, n - o);
    assert LineOnBoard(b, q, Diagonal, n - o);
    LineHasWindow(b, q, Diagonal, n - o, m, k);
    assert HasWindow(Line(b, q, Diagonal, n - o), m, k) <==> RunsAlong(b, m, k, q, Diagonal, n - o);
    FallingLowerRuns(b, n, m, k, o);
    assert RunsAlong(b, m, k, q, Diagonal, n - o) <==> FallingRunAt(b, m, k, o);
  }

  lemma FallingLowerRuns(b: Board, n: int, m: Mark, k: int, o: int)
    requires IsBoard(b, n) && k >= 1 && 0 <= o < n
    ensures RunsAlong(b, m, k, (o, 0), Diagonal, n - o) <==> FallingRunAt(b, m, k, o)
  {
    var q: Cell := (o, 0);
    if RunsAlong(b, m, k, q, Diagonal, n - o) {
      var j :| 0 <= j && j + k <= n - o && RunAt(b, m, k, StepFrom(q, Diagonal, j), Diagonal);
      var p := StepFrom(q, Diagonal, j);
      assert p.0 - p.1 == o;
    }
    if FallingRunAt(b, m, k, o) {
      var p: Cell :| p.0 - p.1 == o && RunAt(b, m, k, p, Diagonal);
      RunBounds(b, n, m, k, p, Diagonal);
      var j := p.1;
      assert StepFrom(q, Diagonal, j) == p;
      assert 0 <= j && j + k <= n - o;
    }
  }

  /** diag_upper of the falling family at offset o, cells (j, o + j), lies on
      the board and has an all-m window exactly when a falling run has row - col == -o. */
  lemma {:induction false} FallingUpper(b: Board, n: int, m: Mark, k: int, o: int)
    requires IsBoard(b, n) && k >= 1 && 0 <= o < n
    ensures LineOnBoard(b, (0, o), Diagonal, n - o)
    ensures HasWindow(Line(b, (0, o), Diagonal, n - o), m, k) <==> FallingRunAt(b, m, k, -o)
  {
    var q: Cell := (0, o);
    LineBetween(b, n, q, Diagonal, n - o);
    assert LineOnBoard(b, q, Diagonal, n - o);
    LineHasWindow(b, q, Diagonal, n - o, m, k);
    assert HasWindow(Line(b, q, Diagonal, n - o), m, k) <==> RunsAlong(b, m, k, q, Diagonal, n - o);
    FallingUpperRuns(b, n, m, k, o);
    assert RunsAlong(b, m, k, q, Diagonal, n - o) <==> FallingRunAt(b, m, k, -o);
  }

  lemma FallingUpperRuns(b: Board, n: int, m: Mark, k: int, o: int)
    requires IsBoard(b, n) && k >= 1 && 0 <= o < n
    ensures RunsAlong(b, m, k, (0, o), Diagonal, n - o) <==> FallingRunAt(b, m, k, -o)
  {
    var q: Cell := (0, o);
    if RunsAlong(b, m, k, q, Diagonal, n - o) {
      var j :| 0 <= j && j + k <= n - o && RunAt(b, m, k, StepFrom(q, Diagonal, j), Diagonal);
      var p := StepFrom(q, Diagonal, j);
      assert p.0 - p.1 == -o;
    }
    if FallingRunAt(b, m, k, -o) {
      var p: Cell :| p.0 - p.1 == -o && RunAt(b, m, k, p, Diagonal);
      RunBounds(b, n, m, k, p, Diagonal);
      var j := p.0;
      assert StepFrom(q, Diagonal, j) == p;
      assert 0 <= j && j + k <= n - o;
    }
  }

  /** diag_upper of the rising family at offset o, cells (n - 1 - o - j, j), lies
      on the board and has an all-m window exactly when a rising run has
      row + col == n - 1 - o. */
  lemma {:induction false} RisingUpper(b: Board, n: int, m: Mark, k: int, o: int)
    requires IsBoard(b, n) && k >= 1 && 0 <= o < n
    ensures LineOnBoard(b, (n - 1 - o, 0), AntiDiagonal, n - o)
    ensures HasWindow(Line(b, (n - 1 - o, 0), AntiDiagonal, n - o), m, k) <==> RisingRunAt(b, m, k, n - 1 - o)
  {
    var q: Cell := (n - 1 - o, 0);
    LineBetween(b, n, q, AntiDiagonal, n - o);
    assert LineOnBoard(b, q, AntiDiagonal, n - o);
    LineHasWindow(b, q, AntiDiagonal, n - o, m, k);
    assert HasWindow(Line(b, q, AntiDiagonal, n - o), m, k) <==> RunsAlong(b, m, k, q, AntiDiagonal, n - o);
    RisingUpperRuns(b, n, m, k, o);
    assert RunsAlong(b, m, k, q, AntiDiagonal, n - o) <==> RisingRunAt(b, m, k, n - 1 - o);
  }

  lemma RisingUpperRuns(b: Board, n: int, m: Mark, k: int, o: int)
    requires IsBoard(b, n) && k >= 1 && 0 <= o < n
    ensures RunsAlong(b, m, k, (n - 1 - o, 0), AntiDiagonal, n - o) <==> RisingRunAt(b, m, k, n - 1 - o)
  {
    var q: Cell := (n - 1 - o, 0);
    if RunsAlong(b, m, k, q, AntiDiagonal, n - o) {
      var j :| 0 <= j && j + k <= n - o && RunAt(b, m, k, StepFrom(q, AntiDiagonal, j), AntiDiagonal);
      var p := StepFrom(q, AntiDiagonal, j);
      assert p.0 + p.1 == n - 1 - o;
    }
    if RisingRunAt(b, m, k, n - 1 - o) {
      var p: Cell :| p.0 + p.1 == n - 1 - o && RunAt(b, m, k, p, AntiDiagonal);
      RunBounds(b, n, m, k, p, AntiDiagonal);
      var j := p.1;
      assert StepFrom(q, AntiDiagonal, j) == p;
      assert 0 <= j && j + k <= n - o;
    }
  }

  /** diag_lower of the rising family at offset o, cells (n - 1 - j, o + j), lies
      on the board and has an all-m window exactly when a rising run has
      row + col == n - 1 + o. */
  lemma {:induction false} RisingLower(b: Board, n: int, m: Mark, k: int, o: int)
    requires IsBoard(b, n) && k >= 1 && 0 <= o < n
    ensures LineOnBoard(b, (n - 1, o), AntiDiagonal, n - o)
    ensures HasWindow(Line(b, (n - 1, o), AntiDiagonal, n - o), m, k) <==> RisingRunAt(b, m, k, n - 1 + o)
  {
    var q: Cell := (n - 1, o);
    LineBetween(b, n, q, AntiDiagonal, n - o);
    assert LineOnBoard(b, q, AntiDiagonal, n - o);
    LineHasWindow(b, q, AntiDiagonal, n - o, m, k);
    assert HasWindow(Line(b, q, AntiDiagonal, n - o), m, k) <==> RunsAlong(b, m, k, q, AntiDiagonal, n - o);
    RisingLowerRuns(b, n, m, k, o);
    assert RunsAlong(b, m, k, q, AntiDiagonal, n - o) <==> RisingRunAt(b, m, k, n - 1 + o);
  }

  lemma RisingLowerRuns(b: Board, n: int, m: Mark, k: int, o: int)
    requires IsBoard(b, n) && k >= 1 && 0 <= o < n
    ensures RunsAlong(b, m, k, (n - 1, o), AntiDiagonal, n - o) <==> RisingRunAt(b, m, k, n - 1 + o)
  {
    var q: Cell := (n - 1, o);
    if RunsAlong(b, m, k, q, AntiDiagonal, n - o) {
      var j :| 0 <= j && j + k <= n - o && RunAt(b, m, k, StepFrom(q, AntiDiagonal, j), AntiDiagonal);
      var p := StepFrom(q, AntiDiagonal, j);
      assert p.0 + p.1 == n - 1 + o;
    }
    if RisingRunAt(b, m, k, n - 1 + o) {
      var p: Cell :| p.0 + p.1 == n - 1 + o && RunAt(b, m, k, p, AntiDiagonal);
      RunBounds(b, n, m, k, p, AntiDiagonal);
      var j := n - 1 - p.0;
      assert StepFrom(q, AntiDiagonal, j) == p;
      assert 0 <= j && j + k <= n - o;
    }
  }

  /** Falling runs off the main diagonal are exactly those at offsets
      1 <= |o| <= n - k. */
  lemma {:induction false} FallingOffsets(b: Board, n: int, m: Mark, k: int)
    requires IsBoard(b, n) && k >= 1
    ensures (exists p: Cell :: p.0 != p.1 && RunAt(b, m, k, p, Diagonal)) <==>
      exists o :: 0 < o <= n - k && FallingPairAt(b, m, k, o)
  {
    if exists p: Cell :: p.0 != p.1 && RunAt(b, m, k, p, Diagonal) {
      var p: Cell :| p.0 != p.1 && RunAt(b, m, k, p, Diagonal);
      RunBounds(b, n, m, k, p, Diagonal);
      var o := if p.0 > p.1 then p.0 - p.1 else p.1 - p.0;
      assert FallingRunAt(b, m, k, p.0 - p.1);
      assert FallingPairAt(b, m, k, o);
    }
    if exists o :: 0 < o <= n - k && FallingPairAt(b, m, k, o) {
      var o :| 0 < o <= n - k && FallingPairAt(b, m, k, o);
      if FallingRunAt(b, m, k, o) {
        var p: Cell :| p.0 - p.1 == o && RunAt(b, m, k, p, Diagonal);
      } else {
        var p: Cell :| p.0 - p.1 == -o && RunAt(b, m, k, p, Diagonal);
      }
    }
  }

  /** Rising runs off the main anti-diagonal are exactly those whose
      row + col lies 1 to n - k away from n - 1. */
  lemma {:induction false} RisingOffsets(b: Board, n: int, m: Mark, k: int)
    requires IsBoard(b, n) && k >= 1
    ensures (exists p: Cell :: p.0 + p.1 != n - 1 && RunAt(b, m, k, p, AntiDiagonal)) <==>
      exists o :: 0 < o <= n - k && RisingPairAt(b, n, m, k, o)
  {
    if exists p: Cell :: p.0 + p.1 != n - 1 && RunAt(b, m, k, p, AntiDiagonal) {
      var p: Cell :| p.0 + p.1 != n - 1 && RunAt(b, m, k, p, AntiDiagonal);
      RunBounds(b, n, m, k, p, AntiDiagonal);
      var o := if p.0 + p.1 > n - 1 then p.0 + p.1 - (n - 1) else (n - 1) - p.0 - p.1;
      assert RisingRunAt(b, m, k, p.0 + p.1);
      assert RisingPairAt(b, n, m, k, o);
    }
    if exists o :: 0 < o <= n - k && RisingPairAt(b, n, m, k, o) {
      var o :| 0 < o <= n - k && RisingPairAt(b, n, m, k, o);
      if RisingRunAt(b, m, k, n - 1 - o) {
        var p: Cell :| p.0 + p.1 == n - 1 - o && RunAt(b, m, k, p, AntiDiagonal);
      } else {
        var p: Cell :| p.0 + p.1 == n - 1 + o && RunAt(b, m, k, p, AntiDiagonal);
      }
    }
  }

  /** One pass of the falling-diagonal loop (tictactoe.py:119-141): diag_lower
      (cells (i + j, j)) and diag_upper (cells (j, i + j)) are tested whole,
      then window by window when longer than k. */
  method ScanFallingPair(b: Board, n: int, k: int, m: Mark, i: int) returns (found: bool)
    requires n > 1 && k > 1 && IsBoard(b, n) && 0 < i <= n - k
    ensures found == FallingPairAt(b, m, k, i)
  {
    FallingLower(b, n, m, k, i);
    FallingUpper(b, n, m, k, i);
    found := false;
    var diagLower := Line(b, (i, 0), Diagonal, n - i);
    var diagUpper := Line(b, (0, i), Diagonal, n - i);
    if AllAre(diagLower, m) || AllAre(diagUpper, m) {
      found := true;
    }
    var f := ScanWindows(diagLower, m, k);
    if f {
      found := true;
    }
    f := ScanWindows(diagUpper, m, k);
    if f {
      found := true;
    }
    EntireOrWindows(diagLower, m, k);
    EntireOrWindows(diagUpper, m, k);
  }

  /** Falling diagonals off the main one (tictactoe.py:117-141), for offsets i
      from n - k down to 1. */
  method ScanFallingDiagonals(b: Board, n: int, k: int, m: Mark) returns (found: bool)
    requires n > 1 && k > 1 && IsBoard(b, n)
    ensures found == exists p: Cell :: p.0 != p.1 && RunAt(b, m, k, p, Diagonal)
  {
    found := false;
    var i := n - k;
    while i > 0
      invariant 0 <= i || i == n - k
      invariant i <= n - k
      invariant found == exists o :: i < o <= n - k && FallingPairAt(b, m, k, o)
    {
      var f := ScanFallingPair(b, n, k, m, i);
      if f {
        found := true;
      }
      i := i - 1;
    }
    FallingOffsets(b, n, m, k);
  }

  /** One pass of the rising-diagonal loop (tictactoe.py:145-169): diag_upper
      (cells (n - i - 1 - j, j)) and diag_lower (cells (n - 1 - j, i + j)) are
      tested whole, then window by window when longer than k. */
  method ScanRisingPair(b: Board, n: int, k: int, m: Mark, i: int) returns (found: bool)
    requires n > 1 && k > 1 && IsBoard(b, n) && 0 < i <= n - k
    ensures found == RisingPairAt(b, n, m, k, i)
  {
    RisingUpper(b, n, m, k, i);
    RisingLower(b, n, m, k, i);
    found := false;
    var diagUpper := Line(b, (n - i - 1, 0), AntiDiagonal, n - i);
    var diagLower := Line(b, (n - 1, i), AntiDiagonal, n - i);
    if AllAre(diagLower, m) || AllAre(diagUpper, m) {
      found := true;
    }
    var f := ScanWindows(diagLower, m, k);
    if f {
      found := true;
    }
    f := ScanWindows(diagUpper, m, k);
    if f {
      found := true;
    }
    EntireOrWindows(diagLower, m, k);
    EntireOrWindows(diagUpper, m, k);
  }

  /** Rising diagonals off the main one (tictactoe.py:143-169), for offsets i
      from n - k down to 1. */
  method ScanRisingDiagonals(b: Board, n: int, k: int, m: Mark) returns (found: bool)
    requires n > 1 && k > 1 && IsBoard(b, n)
    ensures found == exists p: Cell :: p.0 + p.1 != n - 1 && RunAt(b, m, k, p, AntiDiagonal)
  {
    found := false;
    var i := n - k;
    while i > 0
      invariant 0 <= i || i == n - k
      invariant i <= n - k
      invariant found == exists o :: i < o <= n - k && RisingPairAt(b, n, m, k, o)
    {
      var f := ScanRisingPair(b, n, k, m, i);
      if f {
        found := true;
      }
      i := i - 1;
    }
    RisingOffsets(b, n, m, k);
  }

  /** The parts check_win tests together make up Wins: row and column runs,
      falling and rising runs off and on the main diagonals, and the two whole
      main diagonals. */
  lemma {:induction false} WinsByParts(b: Board, n: int, k: int, m: Mark)
    ensures Wins(b, n, k, m) <==>
      HasRunIn(b, m, k, Across) || HasRunIn(b, m, k, Down) ||
      (exists p: Cell :: p.0 != p.1 && RunAt(b, m, k, p, Diagonal)) ||
      (exists p: Cell :: p.0 + p.1 != n - 1 && RunAt(b, m, k, p, AntiDiagonal)) ||
      FallingRunAt(b, m, k, 0) || RisingRunAt(b, m, k, n - 1) ||
      RunAt(b, m, n, (0, 0), Diagonal) || RunAt(b, m, n, (n - 1, 0), AntiDiagonal)
  {
    HasRunByDirection(b, m, k);
    if HasRunIn(b, m, k, Diagonal) {
      var p: Cell :| RunAt(b, m, k, p, Diagonal);
      if p.0 == p.1 {
        assert FallingRunAt(b, m, k, 0);
      }
    }
    if HasRunIn(b, m, k, AntiDiagonal) {
      var p: Cell :| RunAt(b, m, k, p, AntiDiagonal);
      if p.0 + p.1 == n - 1 {
        assert RisingRunAt(b, m, k, n - 1);
      }
    }
    if FallingRunAt(b, m, k, 0) {
      var p: Cell :| p.0 - p.1 == 0 && RunAt(b, m, k, p, Diagonal);
      assert HasRunIn(b, m, k, Diagonal);
    }
    if RisingRunAt(b, m, k, n - 1) {
      var p: Cell :| p.0 + p.1 == n - 1 && RunAt(b, m, k, p, AntiDiagonal);
      assert HasRunIn(b, m, k, AntiDiagonal);
    }
  }

  /** The two main diagonals (tictactoe.py:171-190): diag1 and diag2 are
      scanned window by window when longer than k, then tested whole, whatever
      k is. */
  method ScanMainDiagonals(b: Board, n: int, k: int, m: Mark) returns (found: bool)
    requires n > 1 && k > 1 && IsBoard(b, n)
    ensures found == (FallingRunAt(b, m, k, 0) || RisingRunAt(b, m, k, n - 1) ||
      RunAt(b, m, n, (0, 0), Diagonal) || RunAt(b, m, n, (n - 1, 0), AntiDiagonal))
  {
    found := false;
    FallingLower(b, n, m, k, 0);
    RisingUpper(b, n, m, k, 0);
    var diag1 := Line(b, (0, 0), Diagonal, n);
    var f := ScanWindows(diag1, m, k);
    if f {
      found := true;
    }
    var diag2 := Line(b, (n - 1, 0), AntiDiagonal, n);
    f := ScanWindows(diag2, m, k);
    if f {
      found := true;
    }
    if AllAre(diag1, m) || AllAre(diag2, m) {
      found := true;
    }
    LineAll(b, (0, 0), Diagonal, n, m);
    LineAll(b, (n - 1, 0), AntiDiagonal, n, m);
    EntireOrWindows(diag1, m, k);
    EntireOrWindows(diag2, m, k);
  }

  /** check_win for mark m: true exactly when m has k in a row on some row,
      column or diagonal, or fills one of the two main diagonals (the latter
      also when k exceeds n). */
  method CheckWin(b: Board, n: int, k: int, m: Mark) returns (won: bool)
    requires n > 1 && k > 1 && IsBoard(b, n)
    ensures won == Wins(b, n, k, m)
  {
    won := false;
    var f := ScanRowsAndColumns(b, n, k, m);
    if f {
      won := true;
    }
    f := ScanFallingDiagonals(b, n, k, m);
    if f {
      won := true;
    }
    f := ScanRisingDiagonals(b, n, k, m);
    if f {
      won := true;
    }
    f := ScanMainDiagonals(b, n, k, m);
    if f {
      won := true;
    }
    WinsByParts(b, n, k, m);
  }
}
