/** The game rules of the React component (src/App.jsx): evaluate with the
    winning line, the status text, and the transitions of the board, turn
    and loading flag in handleClick, aiMove and reset. React state is the
    fields of a Game object; the deferred call to aiMove that handleClick
    schedules is returned as a value. */
module App {
  import opened Board
  import opened Options

  /** What evaluate returns: the winner (1, -1 or 0) and the winning line's
      three cells, or no cells. */
  datatype Evaluation = Evaluation(winner: int, line: seq<int>)

  /** The lines from li on, in the order of the lines array. (The measure
      names b, which never changes, so that a call with a literal li is
      unfolded only on demand.) */
  function EvaluateFrom(b: seq<int>, li: nat): Evaluation
    requires |b| == 9 && li <= |LINES|
    decreases b, |LINES| - li
  {
    if li == |LINES| then Evaluation(0, [])
    else
      var l := LINES[li];
      var s := LineSum(b, l);
      if s == 3 then Evaluation(1, [l.a, l.b, l.c])
      else if s == -3 then Evaluation(-1, [l.a, l.b, l.c])
      else EvaluateFrom(b, li + 1)
  }

  /** evaluate. */
  function Evaluate(b: seq<int>): Evaluation
    requires |b| == 9
  {
    EvaluateFrom(b, 0)
  }

  /** The cells of a line, as evaluate lists them. */
  function Cells(l: Line): seq<int> {
    [l.a, l.b, l.c]
  }

  lemma {:induction false} EvaluateFromFirstLine(b: seq<int>, li: nat)
    requires |b| == 9 && li <= |LINES|
    ensures var r := EvaluateFrom(b, li);
            && IsMark(r.winner)
            && (r.winner == 0 <==> forall lj :: li <= lj < |LINES| ==> !Complete(b, LINES[lj]))
            && (r.winner == 0 ==> r.line == [])
            && (r.winner != 0 ==>
                  exists lk :: li <= lk < |LINES| && LineSum(b, LINES[lk]) == 3 * r.winner &&
                               r.line == Cells(LINES[lk]) &&
                               forall lj :: li <= lj < lk ==> !Complete(b, LINES[lj]))
    decreases |LINES| - li
  {
    if li < |LINES| && !Complete(b, LINES[li]) {
      EvaluateFromFirstLine(b, li + 1);
    }
  }

  /** evaluate names the first line of the lines array whose cells sum to 3
      (winner 1) or -3 (winner -1) and returns its cells; when no line sums
      to 3 or -3 it returns winner 0 and no cells. */
  lemma EvaluateFirstLine(b: seq<int>)
    requires |b| == 9
    ensures var r := Evaluate(b);
            && IsMark(r.winner)
            && (r.winner == 0 <==> forall li :: 0 <= li < |LINES| ==> !Complete(b, LINES[li]))
            && (r.winner == 0 ==> r.line == [])
            && (r.winner != 0 ==>
                  exists li :: FirstComplete(b, li) && LineSum(b, LINES[li]) == 3 * r.winner &&
                               r.line == Cells(LINES[li]))
  {
    EvaluateFromFirstLine(b, 0);
  }

  /** The status text while the AI is to move, exactly as the source file
      spells it: the three characters that follow "thinking" are those of a
      UTF-8 ellipsis decoded as Windows-1252. */
  const THINKING: string := "AI is thinking\U{E2}\U{20AC}\U{A6}"

  /** The status derivation. */
  function Status(board: seq<int>, xIsNext: bool): string
    requires |board| == 9
  {
    var winner := Evaluate(board).winner;
    if winner == 1 then "You win!"
    else if winner == -1 then "AI wins!"
    else if 0 !in board then "Draw!"
    else if xIsNext then "Your turn"
    else THINKING
  }

  /** Each status text states one situation: a complete line of X's or of
      O's comes first, "Draw!" needs a full board without a complete line,
      and otherwise the text says whose turn it is. */
  lemma StatusMeaning(board: seq<int>, xIsNext: bool)
    requires |board| == 9
    ensures var st, open := Status(board, xIsNext), forall li :: 0 <= li < |LINES| ==> !Complete(board, LINES[li]);
            && (st == "You win!" <==> exists li :: FirstComplete(board, li) && LineSum(board, LINES[li]) == 3)
            && (st == "AI wins!" <==> exists li :: FirstComplete(board, li) && LineSum(board, LINES[li]) == -3)
            && (st == "Draw!" <==> open && 0 !in board)
            && (st == "Your turn" <==> open && 0 in board && xIsNext)
            && (st == THINKING <==> open && 0 in board && !xIsNext)
  {
    EvaluateFirstLine(board);
    forall li, lj | FirstComplete(board, li) && FirstComplete(board, lj)
      ensures li == lj
    {
    }
  }

  /** The all-empty board. */
  const EMPTY: seq<int> := seq(9, _ => 0)

  /** The component's state: board, xIsNext and loadingAI. */
  class Game {
    var board: seq<int>
    var xIsNext: bool
    var loadingAI: bool

    predicate Valid()
      reads this
    {
      |board| == 9
    }

    /** The initial state: an empty board, X to move, not loading. */
    constructor ()
      ensures Valid()
      ensures board == EMPTY && xIsNext && !loadingAI
    {
      board := EMPTY;
      xIsNext := true;
      loadingAI := false;
    }

    /** reset. */
    method Reset()
      modifies this
      ensures Valid()
      ensures board == EMPTY && xIsNext && !loadingAI
    {
      board := EMPTY;
      xIsNext := true;
      loadingAI := false;
    }

    /** handleClick(i): ignored unless it is X's turn, cell i is empty and
        there is no winner; otherwise X is placed in cell i, the turn passes
        to the AI, and aiMove of the new board is scheduled (returned). An
        index outside the board reads as undefined, which is not 0. */
    method HandleClick(i: int) returns (scheduled: Option<seq<int>>)
      requires Valid()
      modifies this
      ensures Valid() && loadingAI == old(loadingAI)
      ensures var accepted := old(xIsNext) && 0 <= i < 9 && old(board)[i] == 0 &&
                              Evaluate(old(board)).winner == 0;
              && (!accepted ==> board == old(board) && xIsNext == old(xIsNext) && scheduled == None)
              && (accepted ==> board == old(board)[i := 1] && !xIsNext && scheduled == Some(board))
    {
      var winner := Evaluate(board).winner;
      if !xIsNext {
        return None;
      }
      if !(0 <= i < |board|) || board[i] != 0 {
        return None;
      }
      if winner != 0 {
        return None;
      }
      var nb := board[i := 1];
      board := nb;
      xIsNext := false;
      return Some(nb);
    }

    /** aiMove(currentBoard), where loaded says whether the module has been
        loaded and mv is what best_move returned for currentBoard. Nothing
        happens before the module is loaded. Otherwise the move is applied
        only when mv is an empty cell of currentBoard: that cell alone
        becomes -1 and the turn passes back to X. Loading ends unset. */
    method AiMove(currentBoard: seq<int>, loaded: bool, mv: int)
      requires Valid() && |currentBoard| == 9
      modifies this
      ensures Valid()
      ensures !loaded ==> board == old(board) && xIsNext == old(xIsNext) && loadingAI == old(loadingAI)
      ensures loaded ==> !loadingAI
      ensures loaded && 0 <= mv < 9 && currentBoard[mv] == 0 ==>
                board == currentBoard[mv := -1] && xIsNext
      ensures loaded && !(0 <= mv < 9 && currentBoard[mv] == 0) ==>
                board == old(board) && xIsNext == old(xIsNext)
    {
      if !loaded {
        return;
      }
      loadingAI := true;
      if 0 <= mv < |currentBoard| && currentBoard[mv] == 0 {
        var nb := currentBoard[mv := -1];
        board := nb;
        xIsNext := true;
      }
      loadingAI := false;
    }
  }
}
