/** The Rust engine (src/lib.rs) as functions: check_win over the table of
    winning triples, minimax with depth-biased scores whose alpha and beta
    are shared through mutable references, and the root loop of best_move.
    The methods of LibEngine run the same steps on arrays and are proved
    equal to these functions. */
module Lib {
  import opened Board
  import opened Options

  const I32_MIN: int := -0x8000_0000
  const I32_MAX: int := 0x7fff_ffff

  // ---------------------------------------------------------------------
  // check_win

  /** All three cells of l hold the same non-zero value. */
  predicate Triple(b: seq<int>, l: Line)
    requires |b| >= 9
  {
    b[l.a] != 0 && b[l.a] == b[l.b] && b[l.b] == b[l.c]
  }

  /** The triples from wi on, in order: the value of the first one whose
      cells agree, or 0. (The measure names b, which never changes, so that
      a call with a literal wi is unfolded only on demand.) */
  function CheckLines(b: seq<int>, wi: nat): int
    requires |b| >= 9 && wi <= |LINES|
    decreases b, |LINES| - wi
  {
    if wi == |LINES| then 0
    else
      var w := LINES[wi];
      if Triple(b, w) then b[w.a] else CheckLines(b, wi + 1)
  }

  /** check_win. */
  function CheckWin(b: seq<int>): int
    requires |b| >= 9
  {
    CheckLines(b, 0)
  }

  lemma {:induction false} CheckLinesFirstTriple(b: seq<int>, wi: nat)
    requires |b| >= 9 && wi <= |LINES|
    ensures CheckLines(b, wi) == 0 <==> forall wj :: wi <= wj < |LINES| ==> !Triple(b, LINES[wj])
    ensures CheckLines(b, wi) != 0 ==>
              exists wk :: wi <= wk < |LINES| && Triple(b, LINES[wk]) &&
                           b[LINES[wk].a] == CheckLines(b, wi) &&
                           forall wj :: wi <= wj < wk ==> !Triple(b, LINES[wj])
    decreases |LINES| - wi
  {
    if wi < |LINES| && !Triple(b, LINES[wi]) {
      CheckLinesFirstTriple(b, wi + 1);
    }
  }

  /** check_win returns a non-zero v only when some triple holds v in all
      three cells, the first such triple in table order deciding; it returns
      0 exactly when no triple qualifies. */
  lemma CheckWinFirstTriple(b: seq<int>)
    requires |b| >= 9
    ensures CheckWin(b) == 0 <==> forall wi :: 0 <= wi < |LINES| ==> !Triple(b, LINES[wi])
    ensures CheckWin(b) != 0 ==>
              exists wi :: 0 <= wi < |LINES| && Triple(b, LINES[wi]) && b[LINES[wi].a] == CheckWin(b) &&
                           forall wj :: 0 <= wj < wi ==> !Triple(b, LINES[wj])
  {
    CheckLinesFirstTriple(b, 0);
  }

  // ---------------------------------------------------------------------
  // minimax

  /** The score of a call together with the values it leaves in *alpha and
      *beta, which the caller and every later sibling go on to use. */
  datatype Search = Search(score: int, alpha: int, beta: int)

  /** The starting value of best: i32::MIN for the maximising player 1,
      i32::MAX for the other. */
  function Initial(player: int): int {
    if player == 1 then I32_MIN else I32_MAX
  }

  /** minimax(board, depth, player, alpha, beta), with *alpha and *beta
      passed in and their final values passed out. */
  function Minimax(b: seq<int>, depth: int, player: int, alpha: int, beta: int): (r: Search)
    requires |b| >= 9 && IsPlayer(player)
    decreases Empties(b), 1, 0
  {
    var winner := CheckWin(b);
    if winner != 0 then Search(winner * (10 - depth), alpha, beta)
    else if 0 !in b then Search(0, alpha, beta)
    else Loop(b, depth, player, 0, Initial(player), alpha, beta)
  }

  /** The loop of minimax from cell i on: each empty cell is tried for
      player; player 1 raises best and then *alpha to best, the other player
      lowers best and then *beta to best; the loop stops once *beta <= *alpha. */
  function Loop(b: seq<int>, depth: int, player: int, i: int, best: int, alpha: int, beta: int): (r: Search)
    requires |b| >= 9 && IsPlayer(player) && 0 <= i <= 9
    decreases Empties(b), 0, 9 - i
  {
    if i == 9 then Search(best, alpha, beta)
    else if b[i] != 0 then Loop(b, depth, player, i + 1, best, alpha, beta)
    else
      PlaceEmpties(b, i, player);
      var c := Minimax(b[i := player], depth + 1, -player, alpha, beta);
      var best' := if player == 1 then Max(best, c.score) else Min(best, c.score);
      var alpha' := if player == 1 then Max(c.alpha, best') else c.alpha;
      var beta' := if player == 1 then c.beta else Min(c.beta, best');
      if beta' <= alpha' then Search(best', alpha', beta')
      else Loop(b, depth, player, i + 1, best', alpha', beta')
  }

  /** On a board with a winning triple minimax returns the winner scaled by
      10 - depth, on a board without an empty cell it returns 0, and in both
      cases *alpha and *beta are left alone. */
  lemma MinimaxTerminal(b: seq<int>, depth: int, player: int, alpha: int, beta: int)
    requires |b| >= 9 && IsPlayer(player)
    requires (exists wi :: 0 <= wi < |LINES| && Triple(b, LINES[wi])) || 0 !in b
    ensures var r := Minimax(b, depth, player, alpha, beta);
            && r.alpha == alpha && r.beta == beta
            && r.score == (if CheckWin(b) != 0 then CheckWin(b) * (10 - depth) else 0)
            && (CheckWin(b) != 0 || r.score == 0)
  {
    CheckWinFirstTriple(b);
  }

  /** The shared window only ever narrows: a call never lowers *alpha and
      never raises *beta. */
  lemma {:induction false} MinimaxNarrows(b: seq<int>, depth: int, player: int, alpha: int, beta: int)
    requires |b| >= 9 && IsPlayer(player)
    ensures Minimax(b, depth, player, alpha, beta).alpha >= alpha
    ensures Minimax(b, depth, player, alpha, beta).beta <= beta
    decreases Empties(b), 1, 0
  {
    if CheckWin(b) == 0 && 0 in b {
      LoopNarrows(b, depth, player, 0, Initial(player), alpha, beta);
    }
  }

  lemma {:induction false} LoopNarrows(b: seq<int>, depth: int, player: int, i: int, best: int, alpha: int, beta: int)
    requires |b| >= 9 && IsPlayer(player) && 0 <= i <= 9
    ensures Loop(b, depth, player, i, best, alpha, beta).alpha >= alpha
    ensures Loop(b, depth, player, i, best, alpha, beta).beta <= beta
    decreases Empties(b), 0, 9 - i
  {
    if i < 9 {
      if b[i] != 0 {
        LoopNarrows(b, depth, player, i + 1, best, alpha, beta);
      } else {
        PlaceEmpties(b, i, player);
        MinimaxNarrows(b[i := player], depth + 1, -player, alpha, beta);
        var c := Minimax(b[i := player], depth + 1, -player, alpha, beta);
        var best' := if player == 1 then Max(best, c.score) else Min(best, c.score);
        var alpha' := if player == 1 then Max(c.alpha, best') else c.alpha;
        var beta' := if player == 1 then c.beta else Min(c.beta, best');
        if alpha' < beta' {
          LoopNarrows(b, depth, player, i + 1, best', alpha', beta');
        }
      }
    }
  }

  /** A score within reach of depth: at most 10 - depth in magnitude. */
  predicate InReach(s: int, depth: int) {
    -(10 - depth) <= s <= 10 - depth
  }

  /** check_win on a board of marks returns a mark. */
  lemma CheckWinMark(b: seq<int>)
    requires IsBoard(b)
    ensures IsMark(CheckWin(b))
  {
    CheckWinFirstTriple(b);
    if CheckWin(b) != 0 {
      var wi :| 0 <= wi < |LINES| && Triple(b, LINES[wi]) && b[LINES[wi].a] == CheckWin(b);
      assert IsMark(b[LINES[wi].a]);
    }
  }

  /** On a board of nine marks that the game can still reach within ten
      plies, every score lies within 10 - depth of 0: the sentinels
      i32::MIN and i32::MAX never escape. */
  lemma {:induction false} MinimaxInReach(b: seq<int>, depth: int, player: int, alpha: int, beta: int)
    requires IsBoard(b) && IsPlayer(player)
    requires 0 <= depth && depth + Empties(b) <= 10
    ensures InReach(Minimax(b, depth, player, alpha, beta).score, depth)
    decreases Empties(b), 1, 0
  {
    CheckWinMark(b);
    if CheckWin(b) == 0 && 0 in b {
      var j :| 0 <= j < |b| && b[j] == 0;
      LoopInReach(b, depth, player, 0, Initial(player), alpha, beta);
    }
  }

  lemma {:induction false} LoopInReach(b: seq<int>, depth: int, player: int, i: int, best: int, alpha: int, beta: int)
    requires IsBoard(b) && IsPlayer(player) && 0 <= i <= 9
    requires 0 <= depth && depth + Empties(b) <= 10
    requires InReach(best, depth) || best == Initial(player)
    ensures var r := Loop(b, depth, player, i, best, alpha, beta);
            InReach(r.score, depth) || (r.score == best && forall j :: i <= j < 9 ==> b[j] != 0)
    decreases Empties(b), 0, 9 - i
  {
    if i < 9 {
      if b[i] != 0 {
        LoopInReach(b, depth, player, i + 1, best, alpha, beta);
      } else {
        var c := b[i := player];
        assert IsBoard(c);
        PlaceEmpties(b, i, player);
        MinimaxInReach(c, depth + 1, -player, alpha, beta);
        var r := Minimax(c, depth + 1, -player, alpha, beta);
        var best' := if player == 1 then Max(best, r.score) else Min(best, r.score);
        var alpha' := if player == 1 then Max(r.alpha, best') else r.alpha;
        var beta' := if player == 1 then r.beta else Min(r.beta, best');
        assert InReach(best', depth);
        if alpha' < beta' {
          LoopInReach(b, depth, player, i + 1, best', alpha', beta');
        }
      }
    }
  }

  // ---------------------------------------------------------------------
  // best_move

  /** The score the root loop computes for cell i: O (-1) placed there, then
      minimax for X at depth 0 with a fresh window (i32::MIN, i32::MAX). */
  function RootScore(b: seq<int>, i: int): int
    requires |b| >= 9 && 0 <= i < 9
  {
    Minimax(b[i := -1], 0, 1, I32_MIN, I32_MAX).score
  }

  /** The root scores of the nine cells, None for an occupied one. Each
      root search starts from the same board and a fresh window, so the
      scores do not depend on one another. */
  function RootScores(b: seq<int>): (vs: seq<Option<int>>)
    requires |b| >= 9
    ensures |vs| == 9
  {
    seq(9, i requires 0 <= i < 9 => if b[i] == 0 then Some(RootScore(b, i)) else None)
  }

  /** A candidate of best_move's loop: move_idx and best_score. */
  datatype Lowest = Lowest(index: int, score: int)

  /** move_idx and best_score after the loop has seen the first n cells: a
      score replaces the best only when strictly smaller. */
  function PickLowest(vs: seq<Option<int>>, n: nat): Lowest
    requires n <= |vs|
  {
    if n == 0 then Lowest(0, I32_MAX)
    else
      var p := PickLowest(vs, n - 1);
      if vs[n - 1].Some? && vs[n - 1].value < p.score then Lowest(n - 1, vs[n - 1].value) else p
  }

  /** best_move. */
  function BestMove(b: seq<int>): int
    requires |b| >= 9
  {
    PickLowest(RootScores(b), 9).index
  }

  /** The pick is always an index among those seen (0 when nothing was),
      and it stays 0 with score i32::MAX while only occupied cells were seen. */
  lemma {:induction false} PickLowestRange(vs: seq<Option<int>>, n: nat)
    requires n <= |vs|
    ensures 0 <= PickLowest(vs, n).index < (if n == 0 then 1 else n)
    ensures (forall k :: 0 <= k < n ==> vs[k].None?) ==> PickLowest(vs, n) == Lowest(0, I32_MAX)
  {
    if n > 0 {
      PickLowestRange(vs, n - 1);
    }
  }

  /** Over scores below i32::MAX, the pick after some value was seen is the
      lowest index holding the smallest score seen. */
  lemma {:induction false} PickLowestMinimum(vs: seq<Option<int>>, n: nat)
    requires n <= |vs|
    requires forall k :: 0 <= k < |vs| && vs[k].Some? ==> vs[k].value < I32_MAX
    requires exists k :: 0 <= k < n && vs[k].Some?
    ensures var p := PickLowest(vs, n);
            && 0 <= p.index < n && vs[p.index] == Some(p.score)
            && (forall k :: 0 <= k < p.index && vs[k].Some? ==> vs[k].value > p.score)
            && (forall k :: 0 <= k < n && vs[k].Some? ==> vs[k].value >= p.score)
  {
    if exists k :: 0 <= k < n - 1 && vs[k].Some? {
      PickLowestMinimum(vs, n - 1);
    } else {
      PickLowestRange(vs, n - 1);
    }
  }

  /** best_move always returns an index in 0..8, and 0 when none of the
      nine cells is empty. */
  lemma BestMoveRange(b: seq<int>)
    requires |b| >= 9
    ensures 0 <= BestMove(b) < 9
    ensures (forall i :: 0 <= i < 9 ==> b[i] != 0) ==> BestMove(b) == 0
  {
    PickLowestRange(RootScores(b), 9);
  }

  /** On a board of nine marks with an empty cell, best_move returns an
      empty cell, its score is the smallest of all root scores, and no
      lower cell has that score. */
  lemma BestMoveLowestMinimum(b: seq<int>)
    requires IsBoard(b) && 0 in b
    ensures var idx, vs := BestMove(b), RootScores(b);
            && 0 <= idx < 9 && b[idx] == 0
            && (forall j :: 0 <= j < 9 ==> (vs[j].Some? <==> b[j] == 0))
            && vs[idx].Some?
            && (forall j :: 0 <= j < idx && vs[j].Some? ==> vs[j].value > vs[idx].value)
            && (forall j :: 0 <= j < 9 && vs[j].Some? ==> vs[j].value >= vs[idx].value)
  {
    var vs := RootScores(b);
    forall k | 0 <= k < 9 && vs[k].Some?
      ensures vs[k].value < I32_MAX
    {
      var c := b[k := -1];
      assert IsBoard(c);
      PlaceEmpties(b, k, -1);
      MinimaxInReach(c, 0, 1, I32_MIN, I32_MAX);
    }
    var j :| 0 <= j < |b| && b[j] == 0;
    assert vs[j].Some?;
    PickLowestMinimum(vs, 9);
  }

  /** minimax reads the whole slice through contains(&0): the nine cells
      below make O take cell 2 when a tenth cell holds a mark ... */
  lemma TrailingMarkGivesTwo()
    ensures BestMove([1, 1, 0, -1, -1, 1, 1, -1, 0, 1]) == 2
  {
    assert [1, 1, 0, -1, -1, 1, 1, -1, 0, 1][2 := -1] == [1, 1, -1, -1, -1, 1, 1, -1, 0, 1];
    assert [1, 1, -1, -1, -1, 1, 1, -1, 0, 1][8 := 1] == [1, 1, -1, -1, -1, 1, 1, -1, 1, 1];
    assert Minimax([1, 1, -1, -1, -1, 1, 1, -1, 1, 1], 1, -1, I32_MIN, I32_MAX) == Search(0, I32_MIN, I32_MAX);
    assert CheckWin([1, 1, -1, -1, -1, 1, 1, -1, 0, 1]) == 0;
    assert Loop([1, 1, -1, -1, -1, 1, 1, -1, 0, 1], 0, 1, 8, I32_MIN, I32_MIN, I32_MAX) == Search(0, 0, I32_MAX);
    assert Loop([1, 1, -1, -1, -1, 1, 1, -1, 0, 1], 0, 1, 0, I32_MIN, I32_MIN, I32_MAX) == Search(0, 0, I32_MAX);
    assert Minimax([1, 1, -1, -1, -1, 1, 1, -1, 0, 1], 0, 1, I32_MIN, I32_MAX) == Search(0, 0, I32_MAX);
    assert [1, 1, 0, -1, -1, 1, 1, -1, 0, 1][8 := -1] == [1, 1, 0, -1, -1, 1, 1, -1, -1, 1];
    assert [1, 1, 0, -1, -1, 1, 1, -1, -1, 1][2 := 1] == [1, 1, 1, -1, -1, 1, 1, -1, -1, 1];
    assert Minimax([1, 1, 1, -1, -1, 1, 1, -1, -1, 1], 1, -1, I32_MIN, I32_MAX) == Search(9, I32_MIN, I32_MAX);
    assert CheckWin([1, 1, 0, -1, -1, 1, 1, -1, -1, 1]) == 0;
    assert Loop([1, 1, 0, -1, -1, 1, 1, -1, -1, 1], 0, 1, 2, I32_MIN, I32_MIN, I32_MAX) == Search(9, 9, I32_MAX);
    assert Loop([1, 1, 0, -1, -1, 1, 1, -1, -1, 1], 0, 1, 0, I32_MIN, I32_MIN, I32_MAX) == Search(9, 9, I32_MAX);
    assert Minimax([1, 1, 0, -1, -1, 1, 1, -1, -1, 1], 0, 1, I32_MIN, I32_MAX) == Search(9, 9, I32_MAX);
    assert RootScores([1, 1, 0, -1, -1, 1, 1, -1, 0, 1]) == [None, None, Some(0), None, None, None, None, None, Some(9)];
  }

  /** ... and cell 8 when it holds 0: after O takes 2 and X takes 8 no cell
      among the nine is empty, yet the position is searched as unfinished
      and its loop, which visits no cell, scores it i32::MAX. */
  lemma TrailingZeroGivesEight()
    ensures BestMove([1, 1, 0, -1, -1, 1, 1, -1, 0, 0]) == 8
  {
    assert [1, 1, 0, -1, -1, 1, 1, -1, 0, 0][2 := -1] == [1, 1, -1, -1, -1, 1, 1, -1, 0, 0];
    assert [1, 1, -1, -1, -1, 1, 1, -1, 0, 0][8 := 1] == [1, 1, -1, -1, -1, 1, 1, -1, 1, 0];
    assert CheckWin([1, 1, -1, -1, -1, 1, 1, -1, 1, 0]) == 0;
    assert Loop([1, 1, -1, -1, -1, 1, 1, -1, 1, 0], 1, -1, 0, I32_MAX, I32_MIN, I32_MAX) == Search(I32_MAX, I32_MIN, I32_MAX);
    assert Minimax([1, 1, -1, -1, -1, 1, 1, -1, 1, 0], 1, -1, I32_MIN, I32_MAX) == Search(I32_MAX, I32_MIN, I32_MAX);
    assert CheckWin([1, 1, -1, -1, -1, 1, 1, -1, 0, 0]) == 0;
    assert Loop([1, 1, -1, -1, -1, 1, 1, -1, 0, 0], 0, 1, 8, I32_MIN, I32_MIN, I32_MAX) == Search(I32_MAX, I32_MAX, I32_MAX);
    assert Loop([1, 1, -1, -1, -1, 1, 1, -1, 0, 0], 0, 1, 0, I32_MIN, I32_MIN, I32_MAX) == Search(I32_MAX, I32_MAX, I32_MAX);
    assert Minimax([1, 1, -1, -1, -1, 1, 1, -1, 0, 0], 0, 1, I32_MIN, I32_MAX) == Search(I32_MAX, I32_MAX, I32_MAX);
    assert [1, 1, 0, -1, -1, 1, 1, -1, 0, 0][8 := -1] == [1, 1, 0, -1, -1, 1, 1, -1, -1, 0];
    assert [1, 1, 0, -1, -1, 1, 1, -1, -1, 0][2 := 1] == [1, 1, 1, -1, -1, 1, 1, -1, -1, 0];
    assert Minimax([1, 1, 1, -1, -1, 1, 1, -1, -1, 0], 1, -1, I32_MIN, I32_MAX) == Search(9, I32_MIN, I32_MAX);
    assert CheckWin([1, 1, 0, -1, -1, 1, 1, -1, -1, 0]) == 0;
    assert Loop([1, 1, 0, -1, -1, 1, 1, -1, -1, 0], 0, 1, 2, I32_MIN, I32_MIN, I32_MAX) == Search(9, 9, I32_MAX);
    assert Loop([1, 1, 0, -1, -1, 1, 1, -1, -1, 0], 0, 1, 0, I32_MIN, I32_MIN, I32_MAX) == Search(9, 9, I32_MAX);
    assert Minimax([1, 1, 0, -1, -1, 1, 1, -1, -1, 0], 0, 1, I32_MIN, I32_MAX) == Search(9, 9, I32_MAX);
    assert RootScores([1, 1, 0, -1, -1, 1, 1, -1, 0, 0]) == [None, None, Some(I32_MAX), None, None, None, None, None, Some(9)];
  }
}
