/**
 * The tic-tac-toe position evaluator of js/games/game2.js: the 3x3 board,
 * the eight winning lines, `checkGameResult` and the value that `minimax`
 * computes for a position.
 */
module Board {
  import opened Wrappers

  /** The human plays X and always moves first; the bot plays O. */
  datatype Player = X | O

  /** A cell holds '' (Empty) or the mark of one player. */
  datatype Cell = Empty | Mark(owner: Player)

  type Index = i: nat | i < 9

  /** The nine cells, row by row. */
  type Board = b: seq<Cell> | |b| == 9 witness [Empty, Empty, Empty, Empty, Empty, Empty, Empty, Empty, Empty]

  const EmptyBoard: Board := [Empty, Empty, Empty, Empty, Empty, Empty, Empty, Empty, Empty]

  /** Rows, then columns, then the two diagonals, in the order they are tried. */
  const WinningLines: seq<(Index, Index, Index)> :=
    [(0, 1, 2), (3, 4, 5), (6, 7, 8),
     (0, 3, 6), (1, 4, 7), (2, 5, 8),
     (0, 4, 8), (2, 4, 6)]

  /** What `checkGameResult` reports: a mark, 'tie', or null while play goes on. */
  datatype GameResult = Won(winner: Player) | Tie | InProgress

  function Other(p: Player): Player {
    if p == X then O else X
  }

  /** Line `k` holds three equal marks. */
  predicate Complete(b: Board, k: nat)
    requires k < 8
  {
    var (i, j, l) := WinningLines[k];
    b[i] != Empty && b[i] == b[j] && b[i] == b[l]
  }

  /** The mark on the first cell of line `k`. */
  function LineOwner(b: Board, k: nat): Player
    requires k < 8 && Complete(b, k)
  {
    b[WinningLines[k].0].owner
  }

  predicate InLine(k: nat, i: Index)
    requires k < 8
  {
    WinningLines[k].0 == i || WinningLines[k].1 == i || WinningLines[k].2 == i
  }

  /** The owner of the first complete line at position `k` or later. */
  function FirstWinner(b: Board, k: nat): (r: Option<Player>)
    requires k <= 8
    ensures r.None? <==> forall j :: k <= j < 8 ==> !Complete(b, j)
    ensures r.Some? ==>
      exists j :: k <= j < 8 && Complete(b, j) && LineOwner(b, j) == r.value &&
        forall i :: k <= i < j ==> !Complete(b, i)
    decreases 8 - k
  {
    if k == 8 then None
    else if Complete(b, k) then Some(LineOwner(b, k))
    else FirstWinner(b, k + 1)
  }

  /**
   * checkGameResult: the owner of the first complete line (rows, then
   * columns, then diagonals); otherwise a tie when no cell is empty;
   * otherwise the game is still in progress.
   */
  function CheckGameResult(b: Board): (r: GameResult)
    ensures r.Won? <==> exists k :: 0 <= k < 8 && Complete(b, k)
    ensures r.Won? ==>
      exists k :: 0 <= k < 8 && Complete(b, k) && LineOwner(b, k) == r.winner &&
        forall j :: 0 <= j < k ==> !Complete(b, j)
    ensures r == Tie <==> (forall k :: 0 <= k < 8 ==> !Complete(b, k)) && Empty !in b
    ensures r == InProgress <==> (forall k :: 0 <= k < 8 ==> !Complete(b, k)) && Empty in b
  {
    match FirstWinner(b, 0)
    case Some(p) => Won(p)
    case None => if Empty !in b then Tie else InProgress
  }

  /**
   * A move that completes a line, played on a board where no line was
   * complete, wins for the player who made it: every line that becomes
   * complete passes through the new mark.
   */
  lemma {:induction false} CompletingMoveWins(b: Board, i: Index, p: Player)
    requires CheckGameResult(b) != Won(X) && CheckGameResult(b) != Won(O)
    requires b[i] == Empty
    requires exists k :: 0 <= k < 8 && InLine(k, i) && Complete(b[i := Mark(p)], k)
    ensures CheckGameResult(b[i := Mark(p)]) == Won(p)
  {
    var b' := b[i := Mark(p)];
    forall k | 0 <= k < 8 && Complete(b', k)
      ensures LineOwner(b', k) == p
    {
      if !InLine(k, i) {
        assert false;
      }
    }
  }

  /** The score minimax gives a finished game, from O's (the bot's) side. */
  function Score(r: GameResult): (s: int)
    requires r != InProgress
    ensures s == 1 <==> r == Won(O)
    ensures s == -1 <==> r == Won(X)
    ensures s == 0 <==> r == Tie
  {
    match r
    case Won(O) => 1
    case Won(X) => -1
    case Tie => 0
  }

  /** A running best score that may still be -Infinity or +Infinity. */
  datatype Extended = NegInf | Fin(v: int) | PosInf

  /** Math.max(a, v) for a finite v. */
  function MaxWith(a: Extended, v: int): Extended {
    match a
    case NegInf => Fin(v)
    case Fin(w) => Fin(if w >= v then w else v)
    case PosInf => PosInf
  }

  /** Math.min(a, v) for a finite v. */
  function MinWith(a: Extended, v: int): Extended {
    match a
    case NegInf => NegInf
    case Fin(w) => Fin(if w <= v then w else v)
    case PosInf => Fin(v)
  }

  function EmptyCount(b: seq<Cell>): nat {
    multiset(b)[Empty]
  }

  /** The mark minimax tries: O on the maximising level, X on the minimising one. */
  function Mover(maximizing: bool): Player {
    if maximizing then O else X
  }

  /**
   * The value `minimax(board, depth, isMaximizing)` returns: the terminal
   * score of a finished game, otherwise the best (for O: largest, for X:
   * smallest) value over the children reached by filling an empty cell.
   * The search depth plays no part in it.
   */
  function Minimax(b: Board, maximizing: bool): (s: int)
    ensures -1 <= s <= 1
    decreases EmptyCount(b), 1
  {
    var r := CheckGameResult(b);
    if r != InProgress then Score(r)
    else
      var best := Scan(b, maximizing, 0, if maximizing then NegInf else PosInf);
      best.v
  }

  /**
   * The loop over cells `i`..8 of one minimax level, starting from the
   * running best `acc`. Once any empty cell is met the result is finite.
   */
  function Scan(b: Board, maximizing: bool, i: nat, acc: Extended): (best: Extended)
    requires i <= 9
    requires acc.Fin? ==> -1 <= acc.v <= 1
    requires acc != (if maximizing then PosInf else NegInf)
    ensures best.Fin? ==> -1 <= best.v <= 1
    ensures (acc.Fin? || exists j :: i <= j < 9 && b[j] == Empty) ==> best.Fin?
    decreases EmptyCount(b), 0, 9 - i
  {
    if i == 9 then acc
    else if b[i] == Empty then
      var child := b[i := Mark(Mover(maximizing))];
      var s := Minimax(child, !maximizing);
      Scan(b, maximizing, i + 1, if maximizing then MaxWith(acc, s) else MinWith(acc, s))
    else
      Scan(b, maximizing, i + 1, acc)
  }

  /** The value `getBestMove` gives to placing O on cell `i`. */
  function MoveValue(b: Board, i: Index): int
    requires b[i] == Empty
  {
    Minimax(b[i := Mark(O)], false)
  }

  /**
   * The move `getBestMove` must return: an empty cell of maximal value,
   * the lowest such cell when several tie (the comparison is strict).
   */
  ghost predicate IsBestMove(b: Board, m: Index) {
    && b[m] == Empty
    && (forall j: Index :: b[j] == Empty ==> MoveValue(b, j) <= MoveValue(b, m))
    && (forall j: Index :: j < m && b[j] == Empty ==> MoveValue(b, j) < MoveValue(b, m))
  }

  /**
   * When O can complete a line on a board that is not yet won, that cell
   * is worth 1, so the move `getBestMove` picks is worth 1 as well.
   */
  lemma {:induction false} BotTakesImmediateWin(b: Board, i: Index, m: Index)
    requires CheckGameResult(b) != Won(X) && CheckGameResult(b) != Won(O)
    requires b[i] == Empty
    requires exists k :: 0 <= k < 8 && InLine(k, i) && Complete(b[i := Mark(O)], k)
    requires IsBestMove(b, m)
    ensures MoveValue(b, i) == 1 && MoveValue(b, m) == 1
  {
    CompletingMoveWins(b, i, O);
  }
}
