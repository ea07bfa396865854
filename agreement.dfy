/** How the three pieces fit together: on boards of marks the component's
    evaluate, the C++ evaluate and the Rust check_win name the same winner,
    and the move the C++ engine returns to aiMove passes aiMove's guard
    exactly when the game is still open. */
module Agreement {
  import opened Board
  import MinMax
  import Lib
  import App

  /** On marks, a line sums to 3 or -3 exactly when its three cells hold
      the same non-zero value, and the sum is three times that value. */
  lemma CompleteIsTriple(b: seq<int>, l: Line)
    requires IsBoard(b)
    ensures Complete(b, l) <==> Lib.Triple(b, l)
    ensures Complete(b, l) ==> LineSum(b, l) == 3 * b[l.a]
  {
    assert IsMark(b[l.a]) && IsMark(b[l.b]) && IsMark(b[l.c]);
  }

  /** The component's evaluate and the C++ evaluate agree on the winner. */
  lemma {:induction false} EvaluateFromAgrees(b: seq<int>, li: nat)
    requires |b| == 9 && li <= |LINES|
    ensures App.EvaluateFrom(b, li).winner == MinMax.ScanLines(b, li)
    decreases |LINES| - li
  {
    if li < |LINES| {
      EvaluateFromAgrees(b, li + 1);
    }
  }

  lemma AppEvaluateAgrees(b: seq<int>)
    requires |b| == 9
    ensures App.Evaluate(b).winner == MinMax.Evaluate(b)
  {
    EvaluateFromAgrees(b, 0);
  }

  /** check_win and the C++ evaluate agree on every board of marks. */
  lemma {:induction false} CheckLinesAgrees(b: seq<int>, li: nat)
    requires IsBoard(b) && li <= |LINES|
    ensures Lib.CheckLines(b, li) == MinMax.ScanLines(b, li)
    decreases |LINES| - li
  {
    if li < |LINES| {
      CompleteIsTriple(b, LINES[li]);
      CheckLinesAgrees(b, li + 1);
    }
  }

  lemma CheckWinAgrees(b: seq<int>)
    requires IsBoard(b)
    ensures Lib.CheckWin(b) == MinMax.Evaluate(b)
  {
    CheckLinesAgrees(b, 0);
  }

  /** aiMove calls best_move(ptr, 9, -1) on the board handleClick produced.
      The index it gets back passes aiMove's guard (mv >= 0 and that cell
      is 0) exactly when the board has no winner and an empty cell, which is
      also when the component shows that the AI is thinking; otherwise the
      index is -1. */
  lemma EngineMoveAccepted(nb: seq<int>, m: MinMax.Memo)
    requires IsBoard(nb) && MinMax.MemoValid(m)
    ensures var mv := MinMax.BestMove(nb, 9, -1, m).index;
            && ((0 <= mv < 9 && nb[mv] == 0) <==> App.Evaluate(nb).winner == 0 && 0 in nb)
            && ((0 <= mv < 9 && nb[mv] == 0) <==> App.Status(nb, false) == App.THINKING)
            && (!(0 <= mv < 9 && nb[mv] == 0) ==> mv == -1)
  {
    assert nb[..9] == nb;
    AppEvaluateAgrees(nb);
    App.StatusMeaning(nb, false);
    App.EvaluateFirstLine(nb);
    MinMax.BestMoveSentinel(nb, 9, -1, m);
    if MinMax.Searches(nb, 9) {
      MinMax.BestMoveFirstMaximum(nb, 9, -1, m);
    }
  }
}
