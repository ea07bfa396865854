/** What the Rust engine's pruning does to its answers. Value is the plain
    minimax value of a position under the same depth-biased scoring, with
    no pruning. MinimaxByValue is the Rust minimax with alpha and beta
    passed by value, as alpha-beta pruning has them: every call gets its
    own copy of the window, and nothing a child does to it reaches the
    parent or the siblings. The by-value search brackets Value exactly as
    alpha-beta should, so from the full window it returns Value and its
    best move is one of least value. The Rust code as written shares one
    window across the whole search, and on the board of Counterexample its
    best_move gives away a win. */
module Pruning {
  import opened Board
  import opened Options
  import opened Lib

  // ---------------------------------------------------------------------
  // The reference: plain minimax

  /** The minimax value of b with player to move at depth, scored as the
      Rust engine scores: the winner times 10 - depth, 0 for a full board. */
  function Value(b: seq<int>, depth: int, player: int): int
    requires |b| >= 9 && IsPlayer(player)
    decreases Empties(b), 1, 0
  {
    var winner := CheckWin(b);
    if winner != 0 then winner * (10 - depth)
    else if 0 !in b then 0
    else ValueLoop(b, depth, player, 0, Initial(player))
  }

  /** The values of the children from cell i on folded into acc: the
      greatest for player 1, the least for player -1. */
  function ValueLoop(b: seq<int>, depth: int, player: int, i: int, acc: int): int
    requires |b| >= 9 && IsPlayer(player) && 0 <= i <= 9
    decreases Empties(b), 0, 9 - i
  {
    if i == 9 then acc
    else if b[i] != 0 then ValueLoop(b, depth, player, i + 1, acc)
    else
      PlaceEmpties(b, i, player);
      var v := Value(b[i := player], depth + 1, -player);
      ValueLoop(b, depth, player, i + 1, if player == 1 then Max(acc, v) else Min(acc, v))
  }

  /** Folding more children only raises a maximum and lowers a minimum. */
  lemma {:induction false} ValueLoopMonotone(b: seq<int>, depth: int, player: int, i: int, acc: int)
    requires |b| >= 9 && IsPlayer(player) && 0 <= i <= 9
    ensures player == 1 ==> ValueLoop(b, depth, player, i, acc) >= acc
    ensures player == -1 ==> ValueLoop(b, depth, player, i, acc) <= acc
    decreases 9 - i
  {
    if i < 9 {
      if b[i] != 0 {
        ValueLoopMonotone(b, depth, player, i + 1, acc);
      } else {
        PlaceEmpties(b, i, player);
        var v := Value(b[i := player], depth + 1, -player);
        ValueLoopMonotone(b, depth, player, i + 1, if player == 1 then Max(acc, v) else Min(acc, v));
      }
    }
  }

  /** On a board of nine marks within ten plies of its end, the value lies
      within 10 - depth of 0. */
  lemma {:induction false} ValueInReach(b: seq<int>, depth: int, player: int)
    requires IsBoard(b) && IsPlayer(player)
    requires 0 <= depth && depth + Empties(b) <= 10
    ensures InReach(Value(b, depth, player), depth)
    decreases Empties(b), 1, 0
  {
    CheckWinMark(b);
    if CheckWin(b) == 0 && 0 in b {
      var j :| 0 <= j < |b| && b[j] == 0;
      ValueLoopInReach(b, depth, player, 0, Initial(player));
    }
  }

  lemma {:induction false} ValueLoopInReach(b: seq<int>, depth: int, player: int, i: int, acc: int)
    requires IsBoard(b) && IsPlayer(player) && 0 <= i <= 9
    requires 0 <= depth && depth + Empties(b) <= 10
    requires InReach(acc, depth) || acc == Initial(player)
    ensures InReach(ValueLoop(b, depth, player, i, acc), depth) ||
            (ValueLoop(b, depth, player, i, acc) == acc && forall j :: i <= j < 9 ==> b[j] != 0)
    decreases Empties(b), 0, 9 - i
  {
    if i < 9 {
      if b[i] != 0 {
        ValueLoopInReach(b, depth, player, i + 1, acc);
      } else {
        var c := b[i := player];
        assert IsBoard(c);
        PlaceEmpties(b, i, player);
        ValueInReach(c, depth + 1, -player);
        var v := Value(c, depth + 1, -player);
        ValueLoopInReach(b, depth, player, i + 1, if player == 1 then Max(acc, v) else Min(acc, v));
      }
    }
  }

  // ---------------------------------------------------------------------
  // The corrected search: alpha and beta passed by value

  /** minimax with alpha and beta passed by value. */
  function MinimaxByValue(b: seq<int>, depth: int, player: int, alpha: int, beta: int): int
    requires |b| >= 9 && IsPlayer(player)
    decreases Empties(b), 1, 0
  {
    var winner := CheckWin(b);
    if winner != 0 then winner * (10 - depth)
    else if 0 !in b then 0
    else LoopByValue(b, depth, player, 0, Initial(player), alpha, beta)
  }

  /** The loop of MinimaxByValue: as Lib.Loop, except that each child is
      searched with this call's own alpha and beta. */
  function LoopByValue(b: seq<int>, depth: int, player: int, i: int, best: int, alpha: int, beta: int): int
    requires |b| >= 9 && IsPlayer(player) && 0 <= i <= 9
    decreases Empties(b), 0, 9 - i
  {
    if i == 9 then best
    else if b[i] != 0 then LoopByValue(b, depth, player, i + 1, best, alpha, beta)
    else
      PlaceEmpties(b, i, player);
      var s := MinimaxByValue(b[i := player], depth + 1, -player, alpha, beta);
      var best' := if player == 1 then Max(best, s) else Min(best, s);
      var alpha' := if player == 1 then Max(alpha, best') else alpha;
      var beta' := if player == 1 then beta else Min(beta, best');
      if beta' <= alpha' then best'
      else LoopByValue(b, depth, player, i + 1, best', alpha', beta')
  }

  /** What a search with window (alpha, beta) promises about the true value
      v when it returns r: a result at or below alpha is an upper bound, one
      at or above beta a lower bound, and one strictly inside is exact. */
  predicate Brackets(r: int, v: int, alpha: int, beta: int) {
    && (r <= alpha ==> v <= r)
    && (alpha < r < beta ==> v == r)
    && (r >= beta ==> v >= r)
  }

  /** The loop's best so far against the true fold acc so far, relative to
      the window (alpha0, beta0) the call was given: for the maximiser, a
      best above alpha0 is exact and one at or below it bounds acc from
      above; the minimiser is the mirror image. */
  predicate LoopAgrees(player: int, best: int, acc: int, alpha0: int, beta0: int) {
    if player == 1 then (best <= alpha0 ==> acc <= best) && (best > alpha0 ==> acc == best)
    else (best >= beta0 ==> acc >= best) && (best < beta0 ==> acc == best)
  }

  /** Alpha-beta with by-value windows brackets the minimax value. */
  lemma {:induction false} ByValueBrackets(b: seq<int>, depth: int, player: int, alpha: int, beta: int)
    requires |b| >= 9 && IsPlayer(player)
    requires I32_MIN <= alpha < beta <= I32_MAX
    ensures Brackets(MinimaxByValue(b, depth, player, alpha, beta), Value(b, depth, player), alpha, beta)
    decreases Empties(b), 1, 0
  {
    if CheckWin(b) == 0 && 0 in b {
      LoopByValueBrackets(b, depth, player, 0, Initial(player), Initial(player), alpha, beta);
    }
  }

  lemma {:induction false} LoopByValueBrackets(b: seq<int>, depth: int, player: int, i: int, best: int, acc: int,
                                               alpha0: int, beta0: int)
    requires |b| >= 9 && IsPlayer(player) && 0 <= i <= 9
    requires I32_MIN <= alpha0 < beta0 <= I32_MAX
    requires player == 1 ==> Max(alpha0, best) < beta0
    requires player == -1 ==> alpha0 < Min(beta0, best)
    requires LoopAgrees(player, best, acc, alpha0, beta0)
    ensures var alpha, beta := if player == 1 then Max(alpha0, best) else alpha0,
                               if player == 1 then beta0 else Min(beta0, best);
            Brackets(LoopByValue(b, depth, player, i, best, alpha, beta),
                     ValueLoop(b, depth, player, i, acc), alpha0, beta0)
    decreases Empties(b), 0, 9 - i
  {
    var alpha, beta := if player == 1 then Max(alpha0, best) else alpha0,
                       if player == 1 then beta0 else Min(beta0, best);
    if i < 9 {
      if b[i] != 0 {
        LoopByValueBrackets(b, depth, player, i + 1, best, acc, alpha0, beta0);
      } else {
        var c := b[i := player];
        PlaceEmpties(b, i, player);
        ByValueBrackets(c, depth + 1, -player, alpha, beta);
        var s := MinimaxByValue(c, depth + 1, -player, alpha, beta);
        var v := Value(c, depth + 1, -player);
        var best' := if player == 1 then Max(best, s) else Min(best, s);
        var acc' := if player == 1 then Max(acc, v) else Min(acc, v);
        var alpha' := if player == 1 then Max(alpha, best') else alpha;
        var beta' := if player == 1 then beta else Min(beta, best');
        if beta' <= alpha' {
          ValueLoopMonotone(b, depth, player, i + 1, acc');
        } else {
          assert LoopAgrees(player, best', acc', alpha0, beta0);
          LoopByValueBrackets(b, depth, player, i + 1, best', acc', alpha0, beta0);
        }
      }
    }
  }

  /** From the full window (i32::MIN, i32::MAX) the by-value search returns
      the minimax value itself. */
  lemma ByValueExact(b: seq<int>, depth: int, player: int)
    requires IsBoard(b) && IsPlayer(player)
    requires 0 <= depth && depth + Empties(b) <= 10
    ensures MinimaxByValue(b, depth, player, I32_MIN, I32_MAX) == Value(b, depth, player)
  {
    ByValueBrackets(b, depth, player, I32_MIN, I32_MAX);
    ValueInReach(b, depth, player);
  }

  // ---------------------------------------------------------------------
  // The corrected best_move

  /** The minimax value for X after O (-1) takes cell i. */
  function GameScore(b: seq<int>, i: int): int
    requires |b| >= 9 && 0 <= i < 9
  {
    Value(b[i := -1], 0, 1)
  }

  /** The root scores of best_move with the by-value search. */
  function RootScoresByValue(b: seq<int>): (vs: seq<Option<int>>)
    requires |b| >= 9
    ensures |vs| == 9
  {
    seq(9, i requires 0 <= i < 9 =>
      if b[i] == 0 then Some(MinimaxByValue(b[i := -1], 0, 1, I32_MIN, I32_MAX)) else None)
  }

  /** best_move with the by-value search: the same root loop. */
  function BestMoveByValue(b: seq<int>): int
    requires |b| >= 9
  {
    PickLowest(RootScoresByValue(b), 9).index
  }

  /** On a board of nine marks with an empty cell, the corrected best_move
      plays an empty cell of least minimax value, the lowest such cell. */
  lemma BestMoveByValueOptimal(b: seq<int>)
    requires IsBoard(b) && 0 in b
    ensures var idx := BestMoveByValue(b);
            && 0 <= idx < 9 && b[idx] == 0
            && (forall j :: 0 <= j < 9 && b[j] == 0 ==> GameScore(b, j) >= GameScore(b, idx))
            && (forall j :: 0 <= j < idx && b[j] == 0 ==> GameScore(b, j) > GameScore(b, idx))
  {
    var vs := RootScoresByValue(b);
    forall k | 0 <= k < 9 && b[k] == 0
      ensures vs[k] == Some(GameScore(b, k)) && GameScore(b, k) < I32_MAX
    {
      var c := b[k := -1];
      assert IsBoard(c);
      PlaceEmpties(b, k, -1);
      ByValueExact(c, 0, 1);
      ValueInReach(c, 0, 1);
    }
    var j :| 0 <= j < |b| && b[j] == 0;
    assert vs[j].Some?;
    PickLowestMinimum(vs, 9);
  }
}
