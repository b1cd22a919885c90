# Customizable TicTacToe — a verified model of the game engine

This project models the engine of a command-line N-in-a-row game
(`tictactoe.py`, class `Tictactoe`). Two players, X and O, take turns
placing marks on an n×n board. A player wins with k consecutive marks on a
row, a column or a diagonal of either direction. Both n and k are
constructor parameters.

The model follows the source's structure:

- `board.dfy`, module `Board`. The marks (" ", "X", "O"). The board as a
  map from `(row, col)` to a mark, like the source's dictionary. The empty
  board the constructor builds. The player named by the turn flag. And
  `check_draw` as a loop method.
- `lines.dfy`, module `Lines`. The specification of a win. `RunAt` says that
  k cells in a row along one of four directions all carry the mark. `HasRun`
  says such a run exists anywhere on the board. `Wins` is what `check_win`
  actually decides: `HasRun`, or else a main diagonal filled entirely with
  the mark. `Line` models the source's list comprehensions (`row_k`,
  `column_k`, `diag_lower`, `diag_upper`, `diag1`, `diag2`).
- `win_detector.dfy`, module `WinDetector`. `check_win` as imperative
  Dafny: one loop method per block of the source, plus `ScanWindows` for
  the window loop the source repeats for every diagonal list. Each method
  is proved to decide its share of the specification. `CheckWin` is proved
  to return exactly `Wins`.
- `engine.dfy`, module `Engine`. Class `Game` has the source's fields `n`,
  `k`, `board`, `history`, `xTurn` and `gameOver`. `Create` does the
  constructor's parameter checks. `Play` is one ply of `game()`. `Summary`
  is the outcome that `show_history` reports. `Valid()` is the object
  invariant (defined through `Consistent`). It says:
  - history starts with the empty board and ends with the current board;
  - each ply places one mark on an empty cell, X on even plies and O on odd plies;
  - the number of filled cells equals the number of plies;
  - the flags agree with the board.
- `scenarios.dfy`, module `Scenarios`. Concrete boards and games for the
  configurations the repository's examples construct (3×3 with 3 in a row,
  5×5 with 4, 2×2 with 3). Also general facts about empty and full boards.

Behaviour the model preserves on purpose:

- **The whole-diagonal quirk.** Line 189 tests each whole main diagonal
  without comparing its length with k. So when k > n, a main diagonal full of
  one mark is still a win, although no row, column or diagonal run of k can
  exist (`WinsWhenRunTooLong`, `WholeDiagonalWinsBeyondK`). When k ≤ n this
  test adds nothing (`WinsWhenRunFits`).
- **The double flip on a win.** After a winning ply the turn flag has flipped
  twice, so `Player()` names the winner. After any other accepted ply it has
  flipped once.
- **The show_history verdict.** The player the turn flag names is reported as
  the winner unless the board is full. So a win that fills the last cell is
  reported as "no winners" (`LastCellWinReportsNoWinner`).
- **The reused loop variable `i`.** The inner loops at `tictactoe.py:131`,
  `:137`, `:159` and `:165` rebind the outer `i`. This changes nothing: both
  diagonal lists are already built, and the outer `for` rebinds `i` on its
  next pass. The model gives the window loop its own method (`ScanWindows`).
- **Only `" "` cells are playable.** A move is legal when `(row, col)` is a
  key of the board and that cell is `" "`, as in the guard at `tictactoe.py:250`.

`game()` stops looping once `game_over` is set, so the source never receives
a move after the end. `Play` refuses such a move with `Err(GameAlreadyOver)`
and changes nothing. The source only re-prompts on an illegal move; `OffBoard`
and `Occupied` name the two reasons.

## Model

| member | source | states |
|---|---|---|
| `Board.EmptyBoard` | tictactoe.py:42-43 | the board's keys are exactly the n×n coordinates (i, j), and every cell is " " |
| `Board.PlayerFor` | tictactoe.py:58-66 | the mark is never " ", and it is X exactly when the turn flag is set |
| `Board.CheckDraw` | tictactoe.py:197-210 | the nested loop over every (i, j) returns true exactly when no cell of the board is " " |
| `Lines.Line` | tictactoe.py:105-108 | the list read along a line has one entry per cell of the line, entry t being the mark at the t-th cell from the start, as the comprehensions row_k, column_k (105-108), diag_lower, diag_upper (119-120, 145-148), diag1 and diag2 (172, 181) build |
| `Lines.LineWindow` | tictactoe.py:130-135 | a window diag[j..j+k) of a list read along a line is all the mark exactly when the board holds a run of k of that mark starting at the window's first cell |
| `Lines.LineAll` | tictactoe.py:122-123 | a whole list read along a line is all the mark exactly when the board holds a run of that mark of the list's length |
| `Lines.EntireOrWindows` | tictactoe.py:121-141 | on a line of at least k cells, the "entire line" test implies some window is all the mark; on a line of exactly k cells it is the only window, so it agrees with the window test |
| `Lines.RunBounds` | tictactoe.py:104-108 | every run lies on the board: its first and last cells are coordinates of the n×n board |
| `Lines.NoRunLongerThanBoard` | tictactoe.py:104 | when k > n no run of k exists on any row, column or diagonal |
| `Lines.HasRunByDirection` | tictactoe.py:101-195 | a run exists exactly when one exists across, down, falling or rising |
| `Lines.WinsWhenRunFits` | tictactoe.py:172-195 | when k ≤ n the whole-diagonal test adds nothing: check_win's condition is exactly "some run of k" |
| `Lines.WinsWhenRunTooLong` | tictactoe.py:189-190 | when k > n, no run of k exists, and check_win's condition holds exactly when a main diagonal is entirely the mark |
| `WinDetector.ScanWindows` | tictactoe.py:130-135 | returns true exactly when the list is longer than k and some window of k consecutive entries is all the mark |
| `WinDetector.RowAndColumnLines` | tictactoe.py:105-108 | row_k and column_k at start s lie on the board, and one of them is all the mark exactly when row i or column i holds a run of k starting at s |
| `WinDetector.RowOrColumnStarts` | tictactoe.py:104 | the starts 0 .. n - k the source visits cover every run of k on row i or column i |
| `WinDetector.ScanRowAndColumn` | tictactoe.py:104-116 | for one i, returns true exactly when row i or column i holds k consecutive marks |
| `WinDetector.ScanRowsAndColumns` | tictactoe.py:103-116 | returns true exactly when some row or some column holds k consecutive marks; when k > n it returns false |
| `WinDetector.LineHasWindow` | tictactoe.py:130-141 | a list read along a line has an all-mark window exactly when a run of k starts at one of the line's cells |
| `WinDetector.FallingLower` | tictactoe.py:119 | diag_lower at offset o (cells (o + j, j)) lies on the board, and has an all-mark window exactly when some falling run has row - col == o |
| `WinDetector.FallingUpper` | tictactoe.py:120 | diag_upper at offset o (cells (j, o + j)) lies on the board, and has an all-mark window exactly when some falling run has col - row == o |
| `WinDetector.RisingUpper` | tictactoe.py:145-146 | diag_upper at offset o (cells (n - o - 1 - j, j)) lies on the board, and has an all-mark window exactly when some rising run has row + col == n - 1 - o |
| `WinDetector.RisingLower` | tictactoe.py:147-148 | diag_lower at offset o (cells (n - 1 - j, o + j)) lies on the board, and has an all-mark window exactly when some rising run has row + col == n - 1 + o |
| `WinDetector.FallingOffsets` | tictactoe.py:118 | the offsets n - k down to 1 that the loop visits cover every falling run off the main diagonal |
| `WinDetector.RisingOffsets` | tictactoe.py:144 | the offsets n - k down to 1 that the loop visits cover every rising run off the main anti-diagonal |
| `WinDetector.ScanFallingPair` | tictactoe.py:119-141 | for one offset i, returns true exactly when one of the two falling diagonals at distance i from the main one holds k consecutive marks |
| `WinDetector.ScanFallingDiagonals` | tictactoe.py:117-141 | returns true exactly when some falling diagonal other than the main one holds k consecutive marks |
| `WinDetector.ScanRisingPair` | tictactoe.py:145-169 | for one offset i, returns true exactly when one of the two rising diagonals at distance i from the main anti-diagonal holds k consecutive marks |
| `WinDetector.ScanRisingDiagonals` | tictactoe.py:143-169 | returns true exactly when some rising diagonal other than the main one holds k consecutive marks |
| `WinDetector.ScanMainDiagonals` | tictactoe.py:171-190 | returns true exactly when a run of k lies on the main diagonal or the main anti-diagonal, or one of them is entirely the mark, whatever k is |
| `WinDetector.WinsByParts` | tictactoe.py:101-195 | the parts check_win tests in turn together make up Wins: rows and columns, off-centre diagonals, windows of the main diagonals, and the whole main diagonals |
| `WinDetector.CheckWin` | tictactoe.py:93-195 | returns true exactly when the mark has k in a row on some row, column or diagonal of either direction (off-centre ones included), or fills a whole main diagonal, which also counts when k > n |
| `Engine.HistoryVerdict` | tictactoe.py:220-229 | "no winners" exactly when the board is full; otherwise the player the turn flag names is the winner |
| `Engine.FilledAfterPlacing` | tictactoe.py:258 | placing a mark on a " " cell adds exactly that cell to the filled cells, so the count grows by one |
| `Engine.PlyKeepsConsistent` | tictactoe.py:258-271 | an accepted ply keeps the game invariant: the mover's mark on a " " cell, the new board appended to the history, game over on a win or a full board, and the turn passed on unless the mover won |
| `Engine.HistoryOnlyFills` | tictactoe.py:258-259 | along the history a marked cell keeps its mark in every later snapshot, so cells never go back to " " |
| `Engine.Game.Player` | tictactoe.py:58-66 | the current player is X exactly when the turn flag is set, and never " " |
| `Engine.Game.constructor` | tictactoe.py:19-46 | both parameters default to 3; the new game has the given n and k, the empty n×n board, a history of one empty-board snapshot, X to move and the game not over |
| `Engine.Game.Create` | tictactoe.py:19-46 | both parameters default to 3; fails with the width error when the width is ≤ 1, else with the win-length error when the win length is ≤ 1; otherwise it yields a fresh game in the initial state |
| `Engine.Game.Play` | tictactoe.py:238-271 | a move is accepted exactly when the game is not over, (row, col) is a key of the board and that cell is " ". A refused move changes nothing. An accepted move sets that one cell to the mover's mark and appends the new board to the history. The game ends exactly on a win for the mover or a full board. The turn flag flips twice on a win, so Player() names the winner, and once otherwise |
| `Engine.Game.Summary` | tictactoe.py:212-231 | nothing is reported before the game is over; afterwards the ply count is the history length minus one; the verdict is the show_history verdict, and a named winner really holds a winning line |
| `Scenarios.EmptyBoardNeverWins` | tictactoe.py:93-195 | the empty board is a win for neither player, for any k > 1 |
| `Scenarios.OneMarkCannotWin` | tictactoe.py:93-195 | a board with the mark in at most one cell is no win for that mark |
| `Scenarios.FullBoardWins` | tictactoe.py:93-195 | a board entirely of one mark wins for it: by a row when k ≤ n, by the main diagonal whatever k is |
| `Scenarios.MainAntiDiagonalWindowWins` | tictactoe.py:180-187 | n = 5, k = 4: X at (4,0), (3,1), (2,2), (1,3), a window of diag2, is a win, and no rising run off the main anti-diagonal exists, so only the diag2 window scan finds it |
| `Scenarios.OffCentreRisingRunWins` | tictactoe.py:143-169 | n = 5, k = 4: X at (3,0), (2,1), (1,2), (0,3), on the rising diagonal row + col = 3 that misses the main anti-diagonal, is a win |
| `Scenarios.WholeDiagonalWinsBeyondK` | tictactoe.py:189-190 | n = 2, k = 3: a main diagonal of X is a win although no run of 3 exists |
| `Scenarios.TopRowWins` | tictactoe.py:103-116 | n = 3, k = 3: the board after X (0,0), O (1,1), X (0,1), O (2,2), X (0,2) is a win for X |
| `Scenarios.LastCellWinReportsNoWinner` | tictactoe.py:220-229 | a full board on which X holds the top row is reported as "no winners" |
| `Scenarios.OccupiedCellIsRefused` | tictactoe.py:250-256 | on the default 3×3 game, a second move to (0,0) is refused as occupied and O is still to move |
| `Scenarios.BadConfigurationsAreRefused` | examples.py:27-30 | width 1 (win length left at its default) is refused with the width error; win length 0 (width left at its default) is refused with the win-length error, as the checks at tictactoe.py:32-38 do |

## Left out

- Console I/O: the prompts, `input()`, the parsing of `input().split()` into
  a tuple of ints, the ValueError retry loop and the final "yes" prompt
  (tictactoe.py:235-256, 273-276). `Play` receives an already parsed pair
  `(row, col)`. A tuple of another length is never a key of the board, so
  the source rejects it just as it rejects an off-board pair.
- `display_board` and `generate_line` (tictactoe.py:48-91), and the text
  `show_history` prints. These are terminal rendering. `Summary` keeps only
  the decision that text conveys.
- Python's `isinstance(..., int)` checks in the constructor. The parameters
  are `int` in the model, so a string such as `"test"` cannot be passed. Only
  the `> 1` checks are modelled.
- The loop of `game()` around a ply is modelled as one call of `Play` per
  ply. The caller repeats `Play` the way the source repeats the loop body.
- examples.py holds only commented-out calls. Its configurations appear
  as the concrete lemmas in `Scenarios`.
