/** The Rust engine (src/lib.rs) as it runs: minimax marks and unmarks the
    board in place and updates *alpha and *beta, modelled as values passed
    in and passed back out; best_move searches a copy of the board. Each
    method is proved to compute what the functions of Lib describe. */
module LibEngine {
  import opened Board
  import opened Lib

  /** minimax: board ends as it began; the score and the final *alpha and
      *beta are those of Lib.Minimax. */
  method Minimax(board: array<int>, depth: int, player: int, alpha: int, beta: int)
      returns (score: int, alpha': int, beta': int)
    requires board.Length >= 9 && IsPlayer(player)
    modifies board
    ensures board[..] == old(board[..])
    ensures Search(score, alpha', beta') == Lib.Minimax(old(board[..]), depth, player, alpha, beta)
    decreases Empties(board[..]), 1
  {
    var winner := CheckWin(board[..]);
    if winner != 0 {
      return winner * (10 - depth), alpha, beta;
    }
    if 0 !in board[..] {
      return 0, alpha, beta;
    }
    score, alpha', beta' := TryMoves(board, depth, player, alpha, beta);
  }

  /** The loop of minimax: every empty cell is marked for player, searched
      with the shared window, and unmarked; the result is Lib.Loop from
      cell 0 with best at its starting value. */
  method TryMoves(board: array<int>, depth: int, player: int, alpha: int, beta: int)
      returns (best: int, alpha': int, beta': int)
    requires board.Length >= 9 && IsPlayer(player)
    modifies board
    ensures board[..] == old(board[..])
    ensures Search(best, alpha', beta') == Loop(old(board[..]), depth, player, 0, Initial(player), alpha, beta)
    decreases Empties(board[..]), 0
  {
    ghost var b0 := board[..];
    ghost var res := Loop(b0, depth, player, 0, Initial(player), alpha, beta);
    best := if player == 1 then I32_MIN else I32_MAX;
    alpha', beta' := alpha, beta;
    var i := 0;
    while i < 9
      invariant 0 <= i <= 9
      invariant board[..] == b0
      invariant Loop(b0, depth, player, i, best, alpha', beta') == res
    {
      if board[i] == 0 {
        board[i] := player;
        PlaceEmpties(b0, i, player);
        assert board[..] == b0[i := player];
        var s;
        s, alpha', beta' := Minimax(board, depth + 1, -player, alpha', beta');
        board[i] := 0;
        assert board[..] == b0;

        if player == 1 {
          best := Max(best, s);
          alpha' := Max(alpha', best);
        } else {
          best := Min(best, s);
          beta' := Min(beta', best);
        }
        if beta' <= alpha' {
          break;
        }
      }
      i := i + 1;
    }
  }

  /** best_move: the search runs on a copy, so board is not modified; the
      move is Lib.BestMove of the board. */
  method BestMove(board: array<int>) returns (moveIdx: int)
    requires board.Length >= 9
    ensures moveIdx == Lib.BestMove(board[..])
  {
    var bestScore := I32_MAX;
    moveIdx := 0;
    var copy := new int[board.Length];
    var i := 0;
    while i < board.Length
      invariant 0 <= i <= board.Length
      invariant copy[..i] == board[..i]
      modifies copy
    {
      copy[i] := board[i];
      i := i + 1;
    }
    assert copy[..] == board[..];

    ghost var b0 := board[..];
    ghost var scores := RootScores(b0);
    i := 0;
    while i < 9
      invariant 0 <= i <= 9
      invariant copy[..] == b0
      invariant Lowest(moveIdx, bestScore) == PickLowest(scores, i)
      modifies copy
    {
      if copy[i] == 0 {
        copy[i] := -1;
        assert copy[..] == b0[i := -1];
        var a := I32_MIN;
        var b := I32_MAX;
        var score, _, _ := Minimax(copy, 0, 1, a, b);
        copy[i] := 0;
        assert copy[..] == b0;
        if score < bestScore {
          bestScore := score;
          moveIdx := i;
        }
      }
      i := i + 1;
    }
  }
}
