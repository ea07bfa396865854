/** The board on which the Rust best_move gives away a win, with every step
    of the searches it takes written out. Row by row it reads

        O X .
        X . X
        O . .

    with O (-1) to move. O in the centre (cell 4) threatens both diagonals
    at once and wins; the Rust search, whose alpha and beta are shared by
    all calls below the root, scores cell 4 as 7 and cell 8 as -8 and plays
    cell 8, after which X completes the middle row. The by-value search
    plays cell 4. The lemmas named Value followed by nine letters give the
    minimax value of the board they spell row by row (X, O, or E for an
    empty cell) at depth 1; they are steps of GameScore2 to GameScore8. */
module Counterexample {
  import opened Board
  import opened Options
  import opened Lib
  import opened Pruning

  /** O X . / X . X / O . . */
  const FORK: seq<int> := [-1, 1, 0, 1, 0, 1, -1, 0, 0]

  lemma ValueOXOXEXOXE()
    ensures Value([-1, 1, -1, 1, 0, 1, -1, 1, 0], 1, -1) == -8
  {
    assert [-1, 1, -1, 1, 0, 1, -1, 1, 0][4 := -1] == [-1, 1, -1, 1, -1, 1, -1, 1, 0];
    assert Value([-1, 1, -1, 1, -1, 1, -1, 1, 0], 2, 1) == -8;
    assert [-1, 1, -1, 1, 0, 1, -1, 1, 0][8 := -1] == [-1, 1, -1, 1, 0, 1, -1, 1, -1];
    assert [-1, 1, -1, 1, 0, 1, -1, 1, -1][4 := 1] == [-1, 1, -1, 1, 1, 1, -1, 1, -1];
    assert Value([-1, 1, -1, 1, 1, 1, -1, 1, -1], 3, -1) == 7;
    assert CheckWin([-1, 1, -1, 1, 0, 1, -1, 1, -1]) == 0;
    assert ValueLoop([-1, 1, -1, 1, 0, 1, -1, 1, -1], 2, 1, 4, I32_MIN) == 7;
    assert ValueLoop([-1, 1, -1, 1, 0, 1, -1, 1, -1], 2, 1, 0, I32_MIN) == 7;
    assert Value([-1, 1, -1, 1, 0, 1, -1, 1, -1], 2, 1) == 7;
    assert CheckWin([-1, 1, -1, 1, 0, 1, -1, 1, 0]) == 0;
    assert ValueLoop([-1, 1, -1, 1, 0, 1, -1, 1, 0], 1, -1, 8, -8) == -8;
    assert ValueLoop([-1, 1, -1, 1, 0, 1, -1, 1, 0], 1, -1, 4, I32_MAX) == -8;
    assert ValueLoop([-1, 1, -1, 1, 0, 1, -1, 1, 0], 1, -1, 0, I32_MAX) == -8;
  }

  lemma ValueOXOXEXOEX()
    ensures Value([-1, 1, -1, 1, 0, 1, -1, 0, 1], 1, -1) == -8
  {
    assert [-1, 1, -1, 1, 0, 1, -1, 0, 1][4 := -1] == [-1, 1, -1, 1, -1, 1, -1, 0, 1];
    assert Value([-1, 1, -1, 1, -1, 1, -1, 0, 1], 2, 1) == -8;
    assert [-1, 1, -1, 1, 0, 1, -1, 0, 1][7 := -1] == [-1, 1, -1, 1, 0, 1, -1, -1, 1];
    assert [-1, 1, -1, 1, 0, 1, -1, -1, 1][4 := 1] == [-1, 1, -1, 1, 1, 1, -1, -1, 1];
    assert Value([-1, 1, -1, 1, 1, 1, -1, -1, 1], 3, -1) == 7;
    assert CheckWin([-1, 1, -1, 1, 0, 1, -1, -1, 1]) == 0;
    assert ValueLoop([-1, 1, -1, 1, 0, 1, -1, -1, 1], 2, 1, 4, I32_MIN) == 7;
    assert ValueLoop([-1, 1, -1, 1, 0, 1, -1, -1, 1], 2, 1, 0, I32_MIN) == 7;
    assert Value([-1, 1, -1, 1, 0, 1, -1, -1, 1], 2, 1) == 7;
    assert CheckWin([-1, 1, -1, 1, 0, 1, -1, 0, 1]) == 0;
    assert ValueLoop([-1, 1, -1, 1, 0, 1, -1, 0, 1], 1, -1, 7, -8) == -8;
    assert ValueLoop([-1, 1, -1, 1, 0, 1, -1, 0, 1], 1, -1, 4, I32_MAX) == -8;
    assert ValueLoop([-1, 1, -1, 1, 0, 1, -1, 0, 1], 1, -1, 0, I32_MAX) == -8;
  }

  /** The minimax value once O takes cell 2. */
  lemma GameScore2()
    ensures GameScore(FORK, 2) == 9
  {
    assert FORK[2 := -1] == [-1, 1, -1, 1, 0, 1, -1, 0, 0];
    assert [-1, 1, -1, 1, 0, 1, -1, 0, 0][4 := 1] == [-1, 1, -1, 1, 1, 1, -1, 0, 0];
    assert Value([-1, 1, -1, 1, 1, 1, -1, 0, 0], 1, -1) == 9;
    assert [-1, 1, -1, 1, 0, 1, -1, 0, 0][7 := 1] == [-1, 1, -1, 1, 0, 1, -1, 1, 0];
    ValueOXOXEXOXE();
    assert [-1, 1, -1, 1, 0, 1, -1, 0, 0][8 := 1] == [-1, 1, -1, 1, 0, 1, -1, 0, 1];
    ValueOXOXEXOEX();
    assert CheckWin([-1, 1, -1, 1, 0, 1, -1, 0, 0]) == 0;
    assert ValueLoop([-1, 1, -1, 1, 0, 1, -1, 0, 0], 0, 1, 8, 9) == 9;
    assert ValueLoop([-1, 1, -1, 1, 0, 1, -1, 0, 0], 0, 1, 7, 9) == 9;
    assert ValueLoop([-1, 1, -1, 1, 0, 1, -1, 0, 0], 0, 1, 4, I32_MIN) == 9;
    assert ValueLoop([-1, 1, -1, 1, 0, 1, -1, 0, 0], 0, 1, 0, I32_MIN) == 9;
    assert Value([-1, 1, -1, 1, 0, 1, -1, 0, 0], 0, 1) == 9;
  }

  lemma ValueOXXXOXOEE()
    ensures Value([-1, 1, 1, 1, -1, 1, -1, 0, 0], 1, -1) == -8
  {
    assert [-1, 1, 1, 1, -1, 1, -1, 0, 0][7 := -1] == [-1, 1, 1, 1, -1, 1, -1, -1, 0];
    assert [-1, 1, 1, 1, -1, 1, -1, -1, 0][8 := 1] == [-1, 1, 1, 1, -1, 1, -1, -1, 1];
    assert Value([-1, 1, 1, 1, -1, 1, -1, -1, 1], 3, -1) == 7;
    assert CheckWin([-1, 1, 1, 1, -1, 1, -1, -1, 0]) == 0;
    assert ValueLoop([-1, 1, 1, 1, -1, 1, -1, -1, 0], 2, 1, 8, I32_MIN) == 7;
    assert ValueLoop([-1, 1, 1, 1, -1, 1, -1, -1, 0], 2, 1, 0, I32_MIN) == 7;
    assert Value([-1, 1, 1, 1, -1, 1, -1, -1, 0], 2, 1) == 7;
    assert [-1, 1, 1, 1, -1, 1, -1, 0, 0][8 := -1] == [-1, 1, 1, 1, -1, 1, -1, 0, -1];
    assert Value([-1, 1, 1, 1, -1, 1, -1, 0, -1], 2, 1) == -8;
    assert CheckWin([-1, 1, 1, 1, -1, 1, -1, 0, 0]) == 0;
    assert ValueLoop([-1, 1, 1, 1, -1, 1, -1, 0, 0], 1, -1, 8, 7) == -8;
    assert ValueLoop([-1, 1, 1, 1, -1, 1, -1, 0, 0], 1, -1, 7, I32_MAX) == -8;
    assert ValueLoop([-1, 1, 1, 1, -1, 1, -1, 0, 0], 1, -1, 0, I32_MAX) == -8;
  }

  lemma ValueOXEXOXOXE()
    ensures Value([-1, 1, 0, 1, -1, 1, -1, 1, 0], 1, -1) == -8
  {
    assert [-1, 1, 0, 1, -1, 1, -1, 1, 0][2 := -1] == [-1, 1, -1, 1, -1, 1, -1, 1, 0];
    assert Value([-1, 1, -1, 1, -1, 1, -1, 1, 0], 2, 1) == -8;
    assert [-1, 1, 0, 1, -1, 1, -1, 1, 0][8 := -1] == [-1, 1, 0, 1, -1, 1, -1, 1, -1];
    assert Value([-1, 1, 0, 1, -1, 1, -1, 1, -1], 2, 1) == -8;
    assert CheckWin([-1, 1, 0, 1, -1, 1, -1, 1, 0]) == 0;
    assert ValueLoop([-1, 1, 0, 1, -1, 1, -1, 1, 0], 1, -1, 8, -8) == -8;
    assert ValueLoop([-1, 1, 0, 1, -1, 1, -1, 1, 0], 1, -1, 2, I32_MAX) == -8;
    assert ValueLoop([-1, 1, 0, 1, -1, 1, -1, 1, 0], 1, -1, 0, I32_MAX) == -8;
  }

  lemma ValueOXEXOXOEX()
    ensures Value([-1, 1, 0, 1, -1, 1, -1, 0, 1], 1, -1) == -8
  {
    assert [-1, 1, 0, 1, -1, 1, -1, 0, 1][2 := -1] == [-1, 1, -1, 1, -1, 1, -1, 0, 1];
    assert Value([-1, 1, -1, 1, -1, 1, -1, 0, 1], 2, 1) == -8;
    assert [-1, 1, 0, 1, -1, 1, -1, 0, 1][7 := -1] == [-1, 1, 0, 1, -1, 1, -1, -1, 1];
    assert [-1, 1, 0, 1, -1, 1, -1, -1, 1][2 := 1] == [-1, 1, 1, 1, -1, 1, -1, -1, 1];
    assert Value([-1, 1, 1, 1, -1, 1, -1, -1, 1], 3, -1) == 7;
    assert CheckWin([-1, 1, 0, 1, -1, 1, -1, -1, 1]) == 0;
    assert ValueLoop([-1, 1, 0, 1, -1, 1, -1, -1, 1], 2, 1, 2, I32_MIN) == 7;
    assert ValueLoop([-1, 1, 0, 1, -1, 1, -1, -1, 1], 2, 1, 0, I32_MIN) == 7;
    assert Value([-1, 1, 0, 1, -1, 1, -1, -1, 1], 2, 1) == 7;
    assert CheckWin([-1, 1, 0, 1, -1, 1, -1, 0, 1]) == 0;
    assert ValueLoop([-1, 1, 0, 1, -1, 1, -1, 0, 1], 1, -1, 7, -8) == -8;
    assert ValueLoop([-1, 1, 0, 1, -1, 1, -1, 0, 1], 1, -1, 2, I32_MAX) == -8;
    assert ValueLoop([-1, 1, 0, 1, -1, 1, -1, 0, 1], 1, -1, 0, I32_MAX) == -8;
  }

  /** The minimax value once O takes cell 4. */
  lemma GameScore4()
    ensures GameScore(FORK, 4) == -8
  {
    assert FORK[4 := -1] == [-1, 1, 0, 1, -1, 1, -1, 0, 0];
    assert [-1, 1, 0, 1, -1, 1, -1, 0, 0][2 := 1] == [-1, 1, 1, 1, -1, 1, -1, 0, 0];
    ValueOXXXOXOEE();
    assert [-1, 1, 0, 1, -1, 1, -1, 0, 0][7 := 1] == [-1, 1, 0, 1, -1, 1, -1, 1, 0];
    ValueOXEXOXOXE();
    assert [-1, 1, 0, 1, -1, 1, -1, 0, 0][8 := 1] == [-1, 1, 0, 1, -1, 1, -1, 0, 1];
    ValueOXEXOXOEX();
    assert CheckWin([-1, 1, 0, 1, -1, 1, -1, 0, 0]) == 0;
    assert ValueLoop([-1, 1, 0, 1, -1, 1, -1, 0, 0], 0, 1, 8, -8) == -8;
    assert ValueLoop([-1, 1, 0, 1, -1, 1, -1, 0, 0], 0, 1, 7, -8) == -8;
    assert ValueLoop([-1, 1, 0, 1, -1, 1, -1, 0, 0], 0, 1, 2, I32_MIN) == -8;
    assert ValueLoop([-1, 1, 0, 1, -1, 1, -1, 0, 0], 0, 1, 0, I32_MIN) == -8;
    assert Value([-1, 1, 0, 1, -1, 1, -1, 0, 0], 0, 1) == -8;
  }

  lemma ValueOXXXEXOOE()
    ensures Value([-1, 1, 1, 1, 0, 1, -1, -1, 0], 1, -1) == -8
  {
    assert [-1, 1, 1, 1, 0, 1, -1, -1, 0][4 := -1] == [-1, 1, 1, 1, -1, 1, -1, -1, 0];
    assert [-1, 1, 1, 1, -1, 1, -1, -1, 0][8 := 1] == [-1, 1, 1, 1, -1, 1, -1, -1, 1];
    assert Value([-1, 1, 1, 1, -1, 1, -1, -1, 1], 3, -1) == 7;
    assert CheckWin([-1, 1, 1, 1, -1, 1, -1, -1, 0]) == 0;
    assert ValueLoop([-1, 1, 1, 1, -1, 1, -1, -1, 0], 2, 1, 8, I32_MIN) == 7;
    assert ValueLoop([-1, 1, 1, 1, -1, 1, -1, -1, 0], 2, 1, 0, I32_MIN) == 7;
    assert Value([-1, 1, 1, 1, -1, 1, -1, -1, 0], 2, 1) == 7;
    assert [-1, 1, 1, 1, 0, 1, -1, -1, 0][8 := -1] == [-1, 1, 1, 1, 0, 1, -1, -1, -1];
    assert Value([-1, 1, 1, 1, 0, 1, -1, -1, -1], 2, 1) == -8;
    assert CheckWin([-1, 1, 1, 1, 0, 1, -1, -1, 0]) == 0;
    assert ValueLoop([-1, 1, 1, 1, 0, 1, -1, -1, 0], 1, -1, 8, 7) == -8;
    assert ValueLoop([-1, 1, 1, 1, 0, 1, -1, -1, 0], 1, -1, 4, I32_MAX) == -8;
    assert ValueLoop([-1, 1, 1, 1, 0, 1, -1, -1, 0], 1, -1, 0, I32_MAX) == -8;
  }

  lemma ValueOXEXEXOOX()
    ensures Value([-1, 1, 0, 1, 0, 1, -1, -1, 1], 1, -1) == 7
  {
    assert [-1, 1, 0, 1, 0, 1, -1, -1, 1][2 := -1] == [-1, 1, -1, 1, 0, 1, -1, -1, 1];
    assert [-1, 1, -1, 1, 0, 1, -1, -1, 1][4 := 1] == [-1, 1, -1, 1, 1, 1, -1, -1, 1];
    assert Value([-1, 1, -1, 1, 1, 1, -1, -1, 1], 3, -1) == 7;
    assert CheckWin([-1, 1, -1, 1, 0, 1, -1, -1, 1]) == 0;
    assert ValueLoop([-1, 1, -1, 1, 0, 1, -1, -1, 1], 2, 1, 4, I32_MIN) == 7;
    assert ValueLoop([-1, 1, -1, 1, 0, 1, -1, -1, 1], 2, 1, 0, I32_MIN) == 7;
    assert Value([-1, 1, -1, 1, 0, 1, -1, -1, 1], 2, 1) == 7;
    assert [-1, 1, 0, 1, 0, 1, -1, -1, 1][4 := -1] == [-1, 1, 0, 1, -1, 1, -1, -1, 1];
    assert [-1, 1, 0, 1, -1, 1, -1, -1, 1][2 := 1] == [-1, 1, 1, 1, -1, 1, -1, -1, 1];
    assert Value([-1, 1, 1, 1, -1, 1, -1, -1, 1], 3, -1) == 7;
    assert CheckWin([-1, 1, 0, 1, -1, 1, -1, -1, 1]) == 0;
    assert ValueLoop([-1, 1, 0, 1, -1, 1, -1, -1, 1], 2, 1, 2, I32_MIN) == 7;
    assert ValueLoop([-1, 1, 0, 1, -1, 1, -1, -1, 1], 2, 1, 0, I32_MIN) == 7;
    assert Value([-1, 1, 0, 1, -1, 1, -1, -1, 1], 2, 1) == 7;
    assert CheckWin([-1, 1, 0, 1, 0, 1, -1, -1, 1]) == 0;
    assert ValueLoop([-1, 1, 0, 1, 0, 1, -1, -1, 1], 1, -1, 4, 7) == 7;
    assert ValueLoop([-1, 1, 0, 1, 0, 1, -1, -1, 1], 1, -1, 2, I32_MAX) == 7;
    assert ValueLoop([-1, 1, 0, 1, 0, 1, -1, -1, 1], 1, -1, 0, I32_MAX) == 7;
  }

  /** The minimax value once O takes cell 7. */
  lemma GameScore7()
    ensures GameScore(FORK, 7) == 9
  {
    assert FORK[7 := -1] == [-1, 1, 0, 1, 0, 1, -1, -1, 0];
    assert [-1, 1, 0, 1, 0, 1, -1, -1, 0][2 := 1] == [-1, 1, 1, 1, 0, 1, -1, -1, 0];
    ValueOXXXEXOOE();
    assert [-1, 1, 0, 1, 0, 1, -1, -1, 0][4 := 1] == [-1, 1, 0, 1, 1, 1, -1, -1, 0];
    assert Value([-1, 1, 0, 1, 1, 1, -1, -1, 0], 1, -1) == 9;
    assert [-1, 1, 0, 1, 0, 1, -1, -1, 0][8 := 1] == [-1, 1, 0, 1, 0, 1, -1, -1, 1];
    ValueOXEXEXOOX();
    assert CheckWin([-1, 1, 0, 1, 0, 1, -1, -1, 0]) == 0;
    assert ValueLoop([-1, 1, 0, 1, 0, 1, -1, -1, 0], 0, 1, 8, 9) == 9;
    assert ValueLoop([-1, 1, 0, 1, 0, 1, -1, -1, 0], 0, 1, 4, -8) == 9;
    assert ValueLoop([-1, 1, 0, 1, 0, 1, -1, -1, 0], 0, 1, 2, I32_MIN) == 9;
    assert ValueLoop([-1, 1, 0, 1, 0, 1, -1, -1, 0], 0, 1, 0, I32_MIN) == 9;
    assert Value([-1, 1, 0, 1, 0, 1, -1, -1, 0], 0, 1) == 9;
  }

  lemma ValueOXXXEXOEO()
    ensures Value([-1, 1, 1, 1, 0, 1, -1, 0, -1], 1, -1) == -8
  {
    assert [-1, 1, 1, 1, 0, 1, -1, 0, -1][4 := -1] == [-1, 1, 1, 1, -1, 1, -1, 0, -1];
    assert Value([-1, 1, 1, 1, -1, 1, -1, 0, -1], 2, 1) == -8;
    assert [-1, 1, 1, 1, 0, 1, -1, 0, -1][7 := -1] == [-1, 1, 1, 1, 0, 1, -1, -1, -1];
    assert Value([-1, 1, 1, 1, 0, 1, -1, -1, -1], 2, 1) == -8;
    assert CheckWin([-1, 1, 1, 1, 0, 1, -1, 0, -1]) == 0;
    assert ValueLoop([-1, 1, 1, 1, 0, 1, -1, 0, -1], 1, -1, 7, -8) == -8;
    assert ValueLoop([-1, 1, 1, 1, 0, 1, -1, 0, -1], 1, -1, 4, I32_MAX) == -8;
    assert ValueLoop([-1, 1, 1, 1, 0, 1, -1, 0, -1], 1, -1, 0, I32_MAX) == -8;
  }

  lemma ValueOXEXEXOXO()
    ensures Value([-1, 1, 0, 1, 0, 1, -1, 1, -1], 1, -1) == -8
  {
    assert [-1, 1, 0, 1, 0, 1, -1, 1, -1][2 := -1] == [-1, 1, -1, 1, 0, 1, -1, 1, -1];
    assert [-1, 1, -1, 1, 0, 1, -1, 1, -1][4 := 1] == [-1, 1, -1, 1, 1, 1, -1, 1, -1];
    assert Value([-1, 1, -1, 1, 1, 1, -1, 1, -1], 3, -1) == 7;
    assert CheckWin([-1, 1, -1, 1, 0, 1, -1, 1, -1]) == 0;
    assert ValueLoop([-1, 1, -1, 1, 0, 1, -1, 1, -1], 2, 1, 4, I32_MIN) == 7;
    assert ValueLoop([-1, 1, -1, 1, 0, 1, -1, 1, -1], 2, 1, 0, I32_MIN) == 7;
    assert Value([-1, 1, -1, 1, 0, 1, -1, 1, -1], 2, 1) == 7;
    assert [-1, 1, 0, 1, 0, 1, -1, 1, -1][4 := -1] == [-1, 1, 0, 1, -1, 1, -1, 1, -1];
    assert Value([-1, 1, 0, 1, -1, 1, -1, 1, -1], 2, 1) == -8;
    assert CheckWin([-1, 1, 0, 1, 0, 1, -1, 1, -1]) == 0;
    assert ValueLoop([-1, 1, 0, 1, 0, 1, -1, 1, -1], 1, -1, 4, 7) == -8;
    assert ValueLoop([-1, 1, 0, 1, 0, 1, -1, 1, -1], 1, -1, 2, I32_MAX) == -8;
    assert ValueLoop([-1, 1, 0, 1, 0, 1, -1, 1, -1], 1, -1, 0, I32_MAX) == -8;
  }

  /** The minimax value once O takes cell 8. */
  lemma GameScore8()
    ensures GameScore(FORK, 8) == 9
  {
    assert FORK[8 := -1] == [-1, 1, 0, 1, 0, 1, -1, 0, -1];
    assert [-1, 1, 0, 1, 0, 1, -1, 0, -1][2 := 1] == [-1, 1, 1, 1, 0, 1, -1, 0, -1];
    ValueOXXXEXOEO();
    assert [-1, 1, 0, 1, 0, 1, -1, 0, -1][4 := 1] == [-1, 1, 0, 1, 1, 1, -1, 0, -1];
    assert Value([-1, 1, 0, 1, 1, 1, -1, 0, -1], 1, -1) == 9;
    assert [-1, 1, 0, 1, 0, 1, -1, 0, -1][7 := 1] == [-1, 1, 0, 1, 0, 1, -1, 1, -1];
    ValueOXEXEXOXO();
    assert CheckWin([-1, 1, 0, 1, 0, 1, -1, 0, -1]) == 0;
    assert ValueLoop([-1, 1, 0, 1, 0, 1, -1, 0, -1], 0, 1, 7, 9) == 9;
    assert ValueLoop([-1, 1, 0, 1, 0, 1, -1, 0, -1], 0, 1, 4, -8) == 9;
    assert ValueLoop([-1, 1, 0, 1, 0, 1, -1, 0, -1], 0, 1, 2, I32_MIN) == 9;
    assert ValueLoop([-1, 1, 0, 1, 0, 1, -1, 0, -1], 0, 1, 0, I32_MIN) == 9;
    assert Value([-1, 1, 0, 1, 0, 1, -1, 0, -1], 0, 1) == 9;
  }

  /** The Rust score of cell 2: minimax from the full window after O takes it. */
  lemma RustScore2()
    ensures RootScore(FORK, 2) == 9
  {
    assert FORK[2 := -1] == [-1, 1, -1, 1, 0, 1, -1, 0, 0];
    assert [-1, 1, -1, 1, 0, 1, -1, 0, 0][4 := 1] == [-1, 1, -1, 1, 1, 1, -1, 0, 0];
    assert Minimax([-1, 1, -1, 1, 1, 1, -1, 0, 0], 1, -1, I32_MIN, I32_MAX) == Search(9, I32_MIN, I32_MAX);
    assert [-1, 1, -1, 1, 0, 1, -1, 0, 0][7 := 1] == [-1, 1, -1, 1, 0, 1, -1, 1, 0];
    assert [-1, 1, -1, 1, 0, 1, -1, 1, 0][4 := -1] == [-1, 1, -1, 1, -1, 1, -1, 1, 0];
    assert Minimax([-1, 1, -1, 1, -1, 1, -1, 1, 0], 2, 1, 9, I32_MAX) == Search(-8, 9, I32_MAX);
    assert CheckWin([-1, 1, -1, 1, 0, 1, -1, 1, 0]) == 0;
    assert Loop([-1, 1, -1, 1, 0, 1, -1, 1, 0], 1, -1, 4, I32_MAX, 9, I32_MAX) == Search(-8, 9, -8);
    assert Loop([-1, 1, -1, 1, 0, 1, -1, 1, 0], 1, -1, 0, I32_MAX, 9, I32_MAX) == Search(-8, 9, -8);
    assert Minimax([-1, 1, -1, 1, 0, 1, -1, 1, 0], 1, -1, 9, I32_MAX) == Search(-8, 9, -8);
    assert CheckWin([-1, 1, -1, 1, 0, 1, -1, 0, 0]) == 0;
    assert Loop([-1, 1, -1, 1, 0, 1, -1, 0, 0], 0, 1, 7, 9, 9, I32_MAX) == Search(9, 9, -8);
    assert Loop([-1, 1, -1, 1, 0, 1, -1, 0, 0], 0, 1, 4, I32_MIN, I32_MIN, I32_MAX) == Search(9, 9, -8);
    assert Loop([-1, 1, -1, 1, 0, 1, -1, 0, 0], 0, 1, 0, I32_MIN, I32_MIN, I32_MAX) == Search(9, 9, -8);
    assert Minimax([-1, 1, -1, 1, 0, 1, -1, 0, 0], 0, 1, I32_MIN, I32_MAX) == Search(9, 9, -8);
  }

  /** The Rust score of cell 4: minimax from the full window after O takes it. */
  lemma RustScore4()
    ensures RootScore(FORK, 4) == 7
  {
    assert FORK[4 := -1] == [-1, 1, 0, 1, -1, 1, -1, 0, 0];
    assert [-1, 1, 0, 1, -1, 1, -1, 0, 0][2 := 1] == [-1, 1, 1, 1, -1, 1, -1, 0, 0];
    assert [-1, 1, 1, 1, -1, 1, -1, 0, 0][7 := -1] == [-1, 1, 1, 1, -1, 1, -1, -1, 0];
    assert [-1, 1, 1, 1, -1, 1, -1, -1, 0][8 := 1] == [-1, 1, 1, 1, -1, 1, -1, -1, 1];
    assert Minimax([-1, 1, 1, 1, -1, 1, -1, -1, 1], 3, -1, I32_MIN, I32_MAX) == Search(7, I32_MIN, I32_MAX);
    assert CheckWin([-1, 1, 1, 1, -1, 1, -1, -1, 0]) == 0;
    assert Loop([-1, 1, 1, 1, -1, 1, -1, -1, 0], 2, 1, 8, I32_MIN, I32_MIN, I32_MAX) == Search(7, 7, I32_MAX);
    assert Loop([-1, 1, 1, 1, -1, 1, -1, -1, 0], 2, 1, 0, I32_MIN, I32_MIN, I32_MAX) == Search(7, 7, I32_MAX);
    assert Minimax([-1, 1, 1, 1, -1, 1, -1, -1, 0], 2, 1, I32_MIN, I32_MAX) == Search(7, 7, I32_MAX);
    assert CheckWin([-1, 1, 1, 1, -1, 1, -1, 0, 0]) == 0;
    assert Loop([-1, 1, 1, 1, -1, 1, -1, 0, 0], 1, -1, 7, I32_MAX, I32_MIN, I32_MAX) == Search(7, 7, 7);
    assert Loop([-1, 1, 1, 1, -1, 1, -1, 0, 0], 1, -1, 0, I32_MAX, I32_MIN, I32_MAX) == Search(7, 7, 7);
    assert Minimax([-1, 1, 1, 1, -1, 1, -1, 0, 0], 1, -1, I32_MIN, I32_MAX) == Search(7, 7, 7);
    assert CheckWin([-1, 1, 0, 1, -1, 1, -1, 0, 0]) == 0;
    assert Loop([-1, 1, 0, 1, -1, 1, -1, 0, 0], 0, 1, 2, I32_MIN, I32_MIN, I32_MAX) == Search(7, 7, 7);
    assert Loop([-1, 1, 0, 1, -1, 1, -1, 0, 0], 0, 1, 0, I32_MIN, I32_MIN, I32_MAX) == Search(7, 7, 7);
    assert Minimax([-1, 1, 0, 1, -1, 1, -1, 0, 0], 0, 1, I32_MIN, I32_MAX) == Search(7, 7, 7);
  }

  /** The Rust score of cell 7: minimax from the full window after O takes it. */
  lemma RustScore7()
    ensures RootScore(FORK, 7) == 7
  {
    assert FORK[7 := -1] == [-1, 1, 0, 1, 0, 1, -1, -1, 0];
    assert [-1, 1, 0, 1, 0, 1, -1, -1, 0][2 := 1] == [-1, 1, 1, 1, 0, 1, -1, -1, 0];
    assert [-1, 1, 1, 1, 0, 1, -1, -1, 0][4 := -1] == [-1, 1, 1, 1, -1, 1, -1, -1, 0];
    assert [-1, 1, 1, 1, -1, 1, -1, -1, 0][8 := 1] == [-1, 1, 1, 1, -1, 1, -1, -1, 1];
    assert Minimax([-1, 1, 1, 1, -1, 1, -1, -1, 1], 3, -1, I32_MIN, I32_MAX) == Search(7, I32_MIN, I32_MAX);
    assert CheckWin([-1, 1, 1, 1, -1, 1, -1, -1, 0]) == 0;
    assert Loop([-1, 1, 1, 1, -1, 1, -1, -1, 0], 2, 1, 8, I32_MIN, I32_MIN, I32_MAX) == Search(7, 7, I32_MAX);
    assert Loop([-1, 1, 1, 1, -1, 1, -1, -1, 0], 2, 1, 0, I32_MIN, I32_MIN, I32_MAX) == Search(7, 7, I32_MAX);
    assert Minimax([-1, 1, 1, 1, -1, 1, -1, -1, 0], 2, 1, I32_MIN, I32_MAX) == Search(7, 7, I32_MAX);
    assert CheckWin([-1, 1, 1, 1, 0, 1, -1, -1, 0]) == 0;
    assert Loop([-1, 1, 1, 1, 0, 1, -1, -1, 0], 1, -1, 4, I32_MAX, I32_MIN, I32_MAX) == Search(7, 7, 7);
    assert Loop([-1, 1, 1, 1, 0, 1, -1, -1, 0], 1, -1, 0, I32_MAX, I32_MIN, I32_MAX) == Search(7, 7, 7);
    assert Minimax([-1, 1, 1, 1, 0, 1, -1, -1, 0], 1, -1, I32_MIN, I32_MAX) == Search(7, 7, 7);
    assert CheckWin([-1, 1, 0, 1, 0, 1, -1, -1, 0]) == 0;
    assert Loop([-1, 1, 0, 1, 0, 1, -1, -1, 0], 0, 1, 2, I32_MIN, I32_MIN, I32_MAX) == Search(7, 7, 7);
    assert Loop([-1, 1, 0, 1, 0, 1, -1, -1, 0], 0, 1, 0, I32_MIN, I32_MIN, I32_MAX) == Search(7, 7, 7);
    assert Minimax([-1, 1, 0, 1, 0, 1, -1, -1, 0], 0, 1, I32_MIN, I32_MAX) == Search(7, 7, 7);
  }

  /** The Rust score of cell 8: minimax from the full window after O takes it. */
  lemma RustScore8()
    ensures RootScore(FORK, 8) == -8
  {
    assert FORK[8 := -1] == [-1, 1, 0, 1, 0, 1, -1, 0, -1];
    assert [-1, 1, 0, 1, 0, 1, -1, 0, -1][2 := 1] == [-1, 1, 1, 1, 0, 1, -1, 0, -1];
    assert [-1, 1, 1, 1, 0, 1, -1, 0, -1][4 := -1] == [-1, 1, 1, 1, -1, 1, -1, 0, -1];
    assert Minimax([-1, 1, 1, 1, -1, 1, -1, 0, -1], 2, 1, I32_MIN, I32_MAX) == Search(-8, I32_MIN, I32_MAX);
    assert [-1, 1, 1, 1, 0, 1, -1, 0, -1][7 := -1] == [-1, 1, 1, 1, 0, 1, -1, -1, -1];
    assert Minimax([-1, 1, 1, 1, 0, 1, -1, -1, -1], 2, 1, I32_MIN, -8) == Search(-8, I32_MIN, -8);
    assert CheckWin([-1, 1, 1, 1, 0, 1, -1, 0, -1]) == 0;
    assert Loop([-1, 1, 1, 1, 0, 1, -1, 0, -1], 1, -1, 7, -8, I32_MIN, -8) == Search(-8, I32_MIN, -8);
    assert Loop([-1, 1, 1, 1, 0, 1, -1, 0, -1], 1, -1, 4, I32_MAX, I32_MIN, I32_MAX) == Search(-8, I32_MIN, -8);
    assert Loop([-1, 1, 1, 1, 0, 1, -1, 0, -1], 1, -1, 0, I32_MAX, I32_MIN, I32_MAX) == Search(-8, I32_MIN, -8);
    assert Minimax([-1, 1, 1, 1, 0, 1, -1, 0, -1], 1, -1, I32_MIN, I32_MAX) == Search(-8, I32_MIN, -8);
    assert CheckWin([-1, 1, 0, 1, 0, 1, -1, 0, -1]) == 0;
    assert Loop([-1, 1, 0, 1, 0, 1, -1, 0, -1], 0, 1, 2, I32_MIN, I32_MIN, I32_MAX) == Search(-8, -8, -8);
    assert Loop([-1, 1, 0, 1, 0, 1, -1, 0, -1], 0, 1, 0, I32_MIN, I32_MIN, I32_MAX) == Search(-8, -8, -8);
    assert Minimax([-1, 1, 0, 1, 0, 1, -1, 0, -1], 0, 1, I32_MIN, I32_MAX) == Search(-8, -8, -8);
  }

  /** The Rust best_move plays cell 8, which loses: after it X wins with
      best play (value 9), while cell 4 wins for O (value -8). */
  lemma SharedWindowLoses()
    ensures Lib.BestMove(FORK) == 8
    ensures GameScore(FORK, 8) == 9 && GameScore(FORK, 4) == -8
  {
    RustScore2();
    RustScore4();
    RustScore7();
    RustScore8();
    assert RootScores(FORK) == [None, None, Some(9), None, Some(7), None, None, Some(7), Some(-8)];
    GameScore4();
    GameScore8();
  }

  /** With alpha and beta passed by value best_move plays the winning cell 4. */
  lemma ByValuePlaysFork()
    ensures BestMoveByValue(FORK) == 4 && GameScore(FORK, 4) == -8
  {
    GameScore2();
    GameScore4();
    GameScore7();
    GameScore8();
    BestMoveByValueOptimal(FORK);
  }
}
