/** The game engine (tictactoe.py, class Tictactoe): construction with its
    parameter checks, the state the game mutates in place, one ply of game()
    and the outcome that show_history reports. */
module Engine {
  import opened Board
  import opened Lines
  import WinDetector

  /** The two ValueErrors of the constructor. */
  datatype ConfigError = BadWidth | BadWinLength

  /** Why a move is refused: the source re-prompts on a coordinate that is not
      a key of the board or names a taken cell; no move is taken once the game
      is over. */
  datatype MoveError = OffBoard | Occupied | GameAlreadyOver

  /** The state one accepted ply leaves. */
  datatype Status = Continues | Won(winner: Mark) | Drawn

  datatype Result<+T, +E> = Ok(value: T) | Err(error: E)

  /** What show_history reports at the end of a game. */
  datatype Verdict = WinnerIs(player: Mark) | NoWinners
  datatype Report = NotFinished | Finished(plies: int, verdict: Verdict)

  /** One ply: m placed on a cell of `before` that held " ", nothing else changed. */
  ghost predicate PlacedOne(before: Board, after: Board, m: Mark) {
    exists c :: c in before && before[c] == Empty && after == before[c := m]
  }

  /** The verdict of show_history (tictactoe.py:220-229): the player the turn
      flag names is the winner unless the board is full. */
  function HistoryVerdict(b: Board, current: Mark): (v: Verdict)
    ensures v == NoWinners <==> IsFull(b)
    ensures v.WinnerIs? ==> v.player == current
  {
    if !IsFull(b) then WinnerIs(current) else NoWinners
  }

  lemma FilledAfterPlacing(b: Board, c: Cell, m: Mark)
    requires c in b && b[c] == Empty && m != Empty
    ensures Filled(b[c := m]) == Filled(b) + {c}
    ensures |Filled(b[c := m])| == |Filled(b)| + 1
  {
  }

  /** The game invariant, over the values of the fields: the board is n×n, the
      history starts with the empty board and ends with the current one, ply i
      placed the mark of X when i is even and of O when it is odd, one cell is
      filled per ply, and the flags agree with the board. */
  ghost predicate Consistent(n: int, k: int, board: Board, history: seq<Board>, xTurn: bool, gameOver: bool) {
    n > 1 && k > 1 && IsBoard(board, n) &&
    |history| >= 1 && history[0] == EmptyBoard(n) && history[|history| - 1] == board &&
    (forall i :: 0 <= i < |history| - 1 ==> PlacedOne(history[i], history[i + 1], PlayerFor(i % 2 == 0))) &&
    |Filled(board)| == |history| - 1 &&
    (!gameOver ==> xTurn == (|history| % 2 == 1) && !IsFull(board)) &&
    (gameOver ==> Wins(board, n, k, PlayerFor(xTurn)) || IsFull(board))
  }

  /** An accepted ply keeps the invariant: the mover's mark on an empty cell,
      the new board appended, the game over on a win or a full board, and the
      turn passed on unless the mover won. */
  lemma PlyKeepsConsistent(n: int, k: int, board: Board, history: seq<Board>, xTurn: bool, c: Cell)
    requires Consistent(n, k, board, history, xTurn, false)
    requires c in board && board[c] == Empty
    ensures var after := board[c := PlayerFor(xTurn)];
      var won := Wins(after, n, k, PlayerFor(xTurn));
      Consistent(n, k, after, history + [after], if won then xTurn else !xTurn, won || IsFull(after))
  {
    var mover := PlayerFor(xTurn);
    var after := board[c := mover];
    var h := history + [after];
    FilledAfterPlacing(board, c, mover);
    assert PlacedOne(board, after, mover);
    forall i | 0 <= i < |h| - 1
      ensures PlacedOne(h[i], h[i + 1], PlayerFor(i % 2 == 0))
    {
      if i < |history| - 1 {
        assert h[i] == history[i] && h[i + 1] == history[i + 1];
      } else {
        assert h[i] == board && h[i + 1] == after;
        assert (i % 2 == 0) == xTurn;
      }
    }
    assert IsBoard(after, n);
  }

  /** Along the history a cell that carries a mark keeps it: boards only ever
      fill up. */
  lemma {:induction false} HistoryOnlyFills(n: int, k: int, board: Board, history: seq<Board>, xTurn: bool, gameOver: bool, i: int, j: int)
    requires Consistent(n, k, board, history, xTurn, gameOver)
    requires 0 <= i <= j < |history|
    ensures forall c :: c in history[i] && history[i][c] != Empty ==> c in history[j] && history[j][c] == history[i][c]
    decreases j - i
  {
    if i < j {
      HistoryOnlyFills(n, k, board, history, xTurn, gameOver, i + 1, j);
      assert PlacedOne(history[i], history[i + 1], PlayerFor(i % 2 == 0));
    }
  }

  class Game {
    var n: int
    var k: int
    var board: Board
    var history: seq<Board>
    var xTurn: bool
    var gameOver: bool

    /** The invariant the constructor sets up and every ply keeps. */
    ghost predicate Valid()
      reads this
    {
      Consistent(n, k, board, history, xTurn, gameOver)
    }

    /** get_player_this_turn. */
    function Player(): (m: Mark)
      reads this
      ensures m != Empty
      ensures m == X <==> xTurn
    {
      PlayerFor(xTurn)
    }

    /** The state __init__ leaves (tictactoe.py:40-46), once both parameters
        have passed their checks; both default to 3, as in __init__. */
    constructor (width: int := 3, toWin: int := 3)
      requires width > 1 && toWin > 1
      ensures Valid()
      ensures n == width && k == toWin
      ensures board == EmptyBoard(width) && history == [EmptyBoard(width)]
      ensures xTurn && !gameOver
    {
      n := width;
      gameOver := false;
      board := EmptyBoard(width);
      history := [EmptyBoard(width)];
      xTurn := true;
      k := toWin;
      new;
      assert Filled(board) == {};
      assert (0, 0) in board && board[(0, 0)] == Empty;
    }

    /** Tictactoe(width_of_board, in_a_row_to_win) (tictactoe.py:32-46): the
        width is checked first, then the win length; each must exceed 1, and
        each defaults to 3. */
    static method Create(width: int := 3, toWin: int := 3) returns (r: Result<Game, ConfigError>)
      ensures width <= 1 ==> r == Err(BadWidth)
      ensures width > 1 && toWin <= 1 ==> r == Err(BadWinLength)
      ensures r.Ok? <==> width > 1 && toWin > 1
      ensures r.Ok? ==> (fresh(r.value) && r.value.Valid() &&
        r.value.n == width && r.value.k == toWin &&
        r.value.board == EmptyBoard(width) && r.value.history == [EmptyBoard(width)] &&
        r.value.xTurn && !r.value.gameOver)
    {
      if width <= 1 {
        return Err(BadWidth);
      }
      if toWin <= 1 {
        return Err(BadWinLength);
      }
      var g := new Game(width, toWin);
      return Ok(g);
    }

    /** One ply of game() (tictactoe.py:238-271): a move is taken only while the
        game is not over, on a key of the board whose cell is " "; the mover's
        mark is placed, a copy of the board is appended to the history, and
        check_win, then check_draw, decide the end of the game. The turn flag
        flips once, and once more on a win so that it names the winner. */
    method Play(row: int, col: int) returns (r: Result<Status, MoveError>)
      requires Valid()
      modifies this
      ensures Valid()
      ensures n == old(n) && k == old(k)
      ensures old(gameOver) ==> r == Err(GameAlreadyOver)
      ensures !old(gameOver) && (row, col) !in old(board) ==> r == Err(OffBoard)
      ensures !old(gameOver) && (row, col) in old(board) && old(board)[(row, col)] != Empty ==> r == Err(Occupied)
      ensures r.Ok? <==> !old(gameOver) && (row, col) in old(board) && old(board)[(row, col)] == Empty
      ensures r.Err? ==> (board == old(board) && history == old(history) &&
        xTurn == old(xTurn) && gameOver == old(gameOver))
      ensures r.Ok? ==> board == old(board)[(row, col) := old(Player())]
      ensures r.Ok? ==> history == old(history) + [board]
      ensures r.Ok? ==> gameOver == (Wins(board, n, k, old(Player())) || IsFull(board))
      ensures r.Ok? && Wins(board, n, k, old(Player())) ==> r.value == Won(old(Player())) && xTurn == old(xTurn)
      ensures r.Ok? && !Wins(board, n, k, old(Player())) ==>
        r.value == (if IsFull(board) then Drawn else Continues) && xTurn == !old(xTurn)
    {
      if gameOver {
        return Err(GameAlreadyOver);
      }
      if (row, col) !in board {
        return Err(OffBoard);
      }
      if board[(row, col)] != Empty {
        return Err(Occupied);
      }
      PlyKeepsConsistent(n, k, board, history, xTurn, (row, col));
      var mover := Player();
      board := board[(row, col) := mover];
      history := history + [board];
      var won := WinDetector.CheckWin(board, n, k, mover);
      var status := Continues;
      if won {
        gameOver := true;
        status := Won(mover);
        xTurn := !xTurn;
      } else {
        var draw := CheckDraw(board, n);
        if draw {
          gameOver := true;
          status := Drawn;
        }
      }
      xTurn := !xTurn;
      r := Ok(status);
    }

    /** The outcome show_history prints (tictactoe.py:212-231): nothing before
        the game is over; then the number of plies and, unless the board is
        full, the player the turn flag names as the winner. */
    function Summary(): (rep: Report)
      reads this
      requires Valid()
      ensures rep == NotFinished <==> !gameOver
      ensures rep.Finished? ==> rep.plies == |history| - 1 && rep.verdict == HistoryVerdict(board, Player())
      ensures rep.Finished? && rep.verdict.WinnerIs? ==> Wins(board, n, k, rep.verdict.player)
    {
      if !gameOver then NotFinished
      else Finished(|history| - 1, HistoryVerdict(board, Player()))
    }
  }
}
