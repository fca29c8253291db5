/**
 * The tic-tac-toe session of js/games/game2.js: the `gameState` object
 * (board, current player, active flag, win/loss/tie tally) and the handlers
 * that change it. A click and the bot's delayed reply are separate steps;
 * the bot's random choices arrive as parameters.
 */
module TicTacToe {
  import opened Wrappers
  import opened Board
  import Search
  import ScoreStore

  const GameId: ScoreStore.GameId := "Tic-Tac-Toe"

  /** The values of the difficulty selector. */
  datatype Difficulty = Easy | Medium | Hard

  /** `gameState.scores`: the human's wins, losses and ties on this page. */
  datatype Tally = Tally(wins: nat, losses: nat, ties: nat)

  /** The code saved for a finished game: +1 human (X) win, -1 bot win, 0 tie. */
  function OutcomeCode(r: GameResult): (c: int)
    requires r != InProgress
    ensures c == -Score(r)
    ensures c == 1 <==> r == Won(X)
    ensures c == -1 <==> r == Won(O)
  {
    match r
    case Won(X) => 1
    case Won(O) => -1
    case Tie => 0
  }

  /** updateScores(result): exactly one of the three counters goes up by one. */
  function Count(t: Tally, r: GameResult): (t': Tally)
    requires r != InProgress
    ensures t'.wins + t'.losses + t'.ties == t.wins + t.losses + t.ties + 1
    ensures t'.wins == t.wins + (if r == Won(X) then 1 else 0)
    ensures t'.losses == t.losses + (if r == Won(O) then 1 else 0)
    ensures t'.ties == t.ties + (if r == Tie then 1 else 0)
  {
    match r
    case Won(X) => t.(wins := t.wins + 1)
    case Won(O) => t.(losses := t.losses + 1)
    case Tie => t.(ties := t.ties + 1)
  }

  /** The empty cells from index `k` on, lowest first. */
  function EmptyFrom(b: Board, k: nat): (cells: seq<Index>)
    requires k <= 9
    ensures forall i: Index :: i in cells <==> k <= i && b[i] == Empty
    ensures forall p, q :: 0 <= p < q < |cells| ==> cells[p] < cells[q]
    decreases 9 - k
  {
    if k == 9 then []
    else
      var rest := EmptyFrom(b, k + 1);
      assert forall q :: 0 <= q < |rest| ==> rest[q] in rest;
      if b[k] == Empty then [k as Index] + rest else rest
  }

  /** `board.map(...).filter(...)` in getRandomMove: the indices of the empty cells, in order. */
  function EmptyCells(b: Board): (cells: seq<Index>)
    ensures forall i: Index :: i in cells <==> b[i] == Empty
    ensures |cells| == 0 <==> Empty !in b
    ensures forall p, q :: 0 <= p < q < |cells| ==> cells[p] < cells[q]
  {
    var cells := EmptyFrom(b, 0);
    assert Empty in b ==> exists i: Index :: b[i] == Empty;
    cells
  }

  /**
   * getRandomMove: `pick` stands for `Math.floor(Math.random() * n)`, reduced
   * modulo the number n of empty cells; no empty cell gives undefined (None).
   */
  function RandomMove(b: Board, pick: nat): (m: Option<Index>)
    ensures m.None? <==> Empty !in b
    ensures m.Some? ==> b[m.value] == Empty
  {
    var cells := EmptyCells(b);
    if |cells| == 0 then None else Some(cells[pick % |cells|])
  }

  class Game {
    var board: array<Cell>
    var currentPlayer: Player
    var gameActive: bool
    var scores: Tally
    /** The score log that `updateGameStorage` writes to. */
    const store: ScoreStore.GameStorage
    /** The id of the user logged in when the page loaded, if any. */
    const currentUser: Option<ScoreStore.UserId>

    /** An active game is never already decided. */
    ghost predicate Valid()
      reads this`board, this`gameActive, board
    {
      board.Length == 9 && (gameActive ==> CheckGameResult(board[..]) == InProgress)
    }

    /** The score log after `updateGameStorage` recorded finished result `r`. */
    ghost function Logged(m: ScoreStore.Scores, r: GameResult, now: int): ScoreStore.Scores
      requires r != InProgress
    {
      if currentUser.Some?
      then ScoreStore.WithEntry(m, currentUser.value, GameId, ScoreStore.Entry(OutcomeCode(r), now))
      else m
    }

    /**
     * What checkWinner leaves on the current board, from tally `t0` and
     * score log `m0`: a decided board ends the game and has its result
     * counted and saved once; an undecided one changes neither.
     */
    ghost predicate Settled(t0: Tally, m0: ScoreStore.Scores, now: int)
      requires board.Length == 9
      reads this`board, this`gameActive, this`scores, board, store`scores
    {
      var r := CheckGameResult(board[..]);
      && (r != InProgress ==> !gameActive && scores == Count(t0, r) && store.scores == Logged(m0, r, now))
      && (r == InProgress ==> scores == t0 && store.scores == m0)
    }

    /** The module-level `gameState`, then the closing `resetBoard()`. */
    constructor (store: ScoreStore.GameStorage, currentUser: Option<ScoreStore.UserId>)
      ensures Valid() && fresh(board)
      ensures board[..] == EmptyBoard && currentPlayer == X && !gameActive && scores == Tally(0, 0, 0)
      ensures this.store == store && this.currentUser == currentUser
    {
      board := new Cell[9](_ => Empty);
      currentPlayer := X;
      gameActive := false;
      scores := Tally(0, 0, 0);
      this.store := store;
      this.currentUser := currentUser;
      new;
      assert board[..] == EmptyBoard;
    }

    /** startGame: a new empty board, X to move, the game active. */
    method StartGame()
      modifies this
      ensures Valid() && fresh(board)
      ensures board[..] == EmptyBoard && currentPlayer == X && gameActive
      ensures scores == old(scores)
    {
      gameActive := true;
      board := new Cell[9](_ => Empty);
      currentPlayer := X;
      assert board[..] == EmptyBoard;
    }

    /** resetBoard: only deactivates the game; the board array keeps its marks. */
    method ResetBoard()
      requires Valid()
      modifies this`gameActive
      ensures Valid() && !gameActive
    {
      gameActive := false;
    }

    /** makeMove(index, player): sets that one cell and passes the turn. */
    method MakeMove(index: Index, player: Player)
      requires board.Length == 9
      modifies this`currentPlayer, board
      ensures board[..] == old(board[..])[index := Mark(player)]
      ensures currentPlayer == Other(player)
    {
      board[index] := Mark(player);
      currentPlayer := if player == X then O else X;
    }

    /** updateScores(result). */
    method UpdateScores(result: GameResult)
      requires result != InProgress
      modifies this`scores
      ensures scores == Count(old(scores), result)
    {
      match result
      case Won(X) => scores := scores.(wins := scores.wins + 1);
      case Won(O) => scores := scores.(losses := scores.losses + 1);
      case Tie => scores := scores.(ties := scores.ties + 1);
    }

    /**
     * updateGameStorage(result, difficulty): saves the result for the
     * logged-in user; `saveScore` takes three arguments, so the difficulty
     * is dropped.
     */
    method UpdateGameStorage(result: int, difficulty: Difficulty, now: int)
      modifies store
      ensures store.scores == if currentUser.Some?
        then ScoreStore.WithEntry(old(store.scores), currentUser.value, GameId, ScoreStore.Entry(result, now))
        else old(store.scores)
    {
      if currentUser.Some? {
        store.SaveScore(currentUser.value, GameId, result, now);
      }
    }

    /**
     * checkWinner: on a decided board, deactivates the game, counts the
     * result once and saves its code; otherwise changes nothing.
     */
    method CheckWinner(difficulty: Difficulty, now: int) returns (over: bool)
      requires board.Length == 9
      modifies this`gameActive, this`scores, store
      ensures Valid()
      ensures over <==> CheckGameResult(board[..]) != InProgress
      ensures Settled(old(scores), old(store.scores), now)
      ensures !over ==> gameActive == old(gameActive)
    {
      var result := CheckGameResult(board[..]);
      over := result != InProgress;
      if over {
        gameActive := false;
        UpdateScores(result);
        UpdateGameStorage(OutcomeCode(result), difficulty, now);
      }
    }

    /**
     * handleCellClick on cell `index`: ignored while the game is inactive or
     * the cell is taken; otherwise X is placed there and the result checked.
     * `botScheduled` is whether the bot's reply is queued (the game goes on).
     */
    method HandleCellClick(index: Index, difficulty: Difficulty, now: int) returns (botScheduled: bool)
      requires Valid()
      modifies this`currentPlayer, this`gameActive, this`scores, board, store
      ensures Valid()
      ensures !old(gameActive) || old(board[index]) != Empty ==>
        && !botScheduled && board[..] == old(board[..]) && currentPlayer == old(currentPlayer)
        && gameActive == old(gameActive) && scores == old(scores) && store.scores == old(store.scores)
      ensures old(gameActive) && old(board[index]) == Empty ==>
        && board[..] == old(board[..])[index := Mark(X)] && currentPlayer == O
        && (botScheduled <==> CheckGameResult(board[..]) == InProgress)
        && (gameActive <==> CheckGameResult(board[..]) == InProgress)
        && Settled(old(scores), old(store.scores), now)
    {
      if !gameActive {
        return false;
      }
      if board[index] != Empty {
        return false;
      }
      MakeMove(index, X);
      var over := CheckWinner(difficulty, now);
      if over {
        return false;
      }
      botScheduled := Empty in board[..];
    }

    /**
     * The switch of botMove: the cell the difficulty's policy picks. The
     * search hands the board back unchanged.
     */
    method ChooseBotMove(difficulty: Difficulty, coin: bool, pick: nat) returns (m: Index)
      requires Valid() && gameActive
      modifies board
      ensures board[..] == old(board[..]) && old(board[m]) == Empty
      ensures difficulty == Hard || (difficulty == Medium && coin) ==> IsBestMove(old(board[..]), m)
      ensures difficulty == Easy || (difficulty == Medium && !coin) ==> Some(m) == RandomMove(old(board[..]), pick)
    {
      var move: Option<Index>;
      if difficulty == Hard || (difficulty == Medium && coin) {
        move := Search.GetBestMove(board);
      } else {
        move := RandomMove(board[..], pick);
      }
      if move.None? {
        assert false;
      }
      m := move.value;
    }

    /**
     * botMove: ignored while the game is inactive; otherwise O is placed on
     * the cell the difficulty's policy chooses (`coin` is the medium level's
     * `Math.random() < 0.5`, `pick` the random cell), then the result is
     * checked. `move` reports the cell chosen.
     */
    method BotMove(difficulty: Difficulty, coin: bool, pick: nat, now: int) returns (move: Option<Index>)
      requires Valid()
      modifies this`currentPlayer, this`gameActive, this`scores, board, store
      ensures Valid()
      ensures move.Some? <==> old(gameActive)
      ensures move.None? ==>
        && board[..] == old(board[..]) && currentPlayer == old(currentPlayer)
        && gameActive == old(gameActive) && scores == old(scores) && store.scores == old(store.scores)
      ensures move.Some? ==>
        var m := move.value;
        && old(board[m]) == Empty
        && board[..] == old(board[..])[m := Mark(O)] && currentPlayer == X
        && (difficulty == Hard || (difficulty == Medium && coin) ==> IsBestMove(old(board[..]), m))
        && (difficulty == Easy || (difficulty == Medium && !coin) ==> move == RandomMove(old(board[..]), pick))
      ensures move.Some? ==>
        && (gameActive <==> CheckGameResult(board[..]) == InProgress)
        && Settled(old(scores), old(store.scores), now)
    {
      if !gameActive {
        return None;
      }
      var m := ChooseBotMove(difficulty, coin, pick);
      MakeMove(m, O);
      var _ := CheckWinner(difficulty, now);
      move := Some(m);
    }
  }
}
