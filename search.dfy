/**
 * The bot's search of js/games/game2.js: `minimax` and `getBestMove`, which
 * place a hypothetical mark in the live board array, recurse, and erase the
 * mark again before trying the next cell. The terminal test reads the same
 * array, so the model has one board, passed to both.
 */
module Search {
  import opened Wrappers
  import opened Board

  /**
   * minimax(board, depth, isMaximizing). Returns the value of the position
   * the array holds, and hands the array back exactly as it received it.
   * `depth` is carried along and never read.
   */
  method MinimaxInPlace(board: array<Cell>, depth: nat, isMaximizing: bool) returns (score: int)
    requires board.Length == 9
    modifies board
    ensures board[..] == old(board[..])
    ensures score == Minimax(old(board[..]), isMaximizing)
    decreases EmptyCount(board[..])
  {
    ghost var b: Board := board[..];
    var result := CheckGameResult(board[..]);
    if result != InProgress {
      return Score(result);
    }
    var best: Extended := if isMaximizing then NegInf else PosInf;
    for i := 0 to 9
      invariant board[..] == b
      invariant best.Fin? ==> -1 <= best.v <= 1
      invariant best != (if isMaximizing then PosInf else NegInf)
      invariant Scan(b, isMaximizing, i, best) == Scan(b, isMaximizing, 0, if isMaximizing then NegInf else PosInf)
    {
      if board[i] == Empty {
        board[i] := Mark(Mover(isMaximizing));
        var s := MinimaxInPlace(board, depth + 1, !isMaximizing);
        board[i] := Empty;
        assert board[..] == b;
        best := if isMaximizing then MaxWith(best, s) else MinWith(best, s);
      }
    }
    score := best.v;
  }

  /**
   * getBestMove: null when no cell is empty; otherwise the empty cell whose
   * O-move scores highest, the lowest index among equals. The board is the
   * same on return.
   */
  method GetBestMove(board: array<Cell>) returns (move: Option<Index>)
    requires board.Length == 9
    modifies board
    ensures board[..] == old(board[..])
    ensures move.None? <==> Empty !in old(board[..])
    ensures move.Some? ==> IsBestMove(old(board[..]), move.value)
  {
    ghost var b: Board := board[..];
    var bestScore: Extended := NegInf;
    move := None;
    for i := 0 to 9
      invariant board[..] == b
      invariant move.None? <==> bestScore == NegInf
      invariant move.None? <==> forall j :: 0 <= j < i ==> b[j] != Empty
      invariant move.Some? ==> move.value < i && b[move.value] == Empty
      invariant move.Some? ==> bestScore == Fin(MoveValue(b, move.value))
      invariant move.Some? ==> forall j: Index :: j < i && b[j] == Empty ==> MoveValue(b, j) <= MoveValue(b, move.value)
      invariant move.Some? ==> forall j: Index :: j < move.value && b[j] == Empty ==> MoveValue(b, j) < MoveValue(b, move.value)
    {
      if board[i] == Empty {
        board[i] := Mark(O);
        var score := MinimaxInPlace(board, 0, false);
        board[i] := Empty;
        assert board[..] == b;
        if bestScore == NegInf || score > bestScore.v {
          bestScore := Fin(score);
          move := Some(i);
        }
      }
    }
  }
}
