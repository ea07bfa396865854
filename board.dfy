/** The 3x3 board shared by both engines and the game component: nine cells
    in row-major order, each 0 (empty), 1 (X, the human) or -1 (O, the AI),
    and the eight lines of three cells that win. */
module Board {

  /** An index into the nine cells. */
  type Cell = i: int | 0 <= i < 9

  /** Three cells that form a row, a column or a diagonal. */
  datatype Line = Line(a: Cell, b: Cell, c: Cell)

  /** The winning lines in the order all three source files list them:
      rows, then columns, then the two diagonals. */
  const LINES: seq<Line> := [
    Line(0, 1, 2), Line(3, 4, 5), Line(6, 7, 8),
    Line(0, 3, 6), Line(1, 4, 7), Line(2, 5, 8),
    Line(0, 4, 8), Line(2, 4, 6)
  ]

  predicate IsMark(v: int) {
    v == -1 || v == 0 || v == 1
  }

  predicate IsPlayer(p: int) {
    p == 1 || p == -1
  }

  /** Nine cells, each empty or holding a mark. */
  predicate IsBoard(b: seq<int>) {
    |b| == 9 && forall i :: 0 <= i < 9 ==> IsMark(b[i])
  }

  function LineSum(b: seq<int>, l: Line): int
    requires |b| == 9
  {
    b[l.a] + b[l.b] + b[l.c]
  }

  /** A line whose cells sum to 3 or -3. */
  predicate Complete(b: seq<int>, l: Line)
    requires |b| == 9
  {
    LineSum(b, l) == 3 || LineSum(b, l) == -3
  }

  /** Line number li is complete and no earlier line is. */
  predicate FirstComplete(b: seq<int>, li: int)
    requires |b| == 9
  {
    0 <= li < |LINES| && Complete(b, LINES[li]) &&
    forall lj :: 0 <= lj < li ==> !Complete(b, LINES[lj])
  }

  /** std::max and i32::max. */
  function Max(x: int, y: int): int {
    if x < y then y else x
  }

  /** i32::min. */
  function Min(x: int, y: int): int {
    if y < x then y else x
  }

  /** The number of empty cells. */
  function Empties(b: seq<int>): nat {
    multiset(b)[0]
  }

  /** Marking an empty cell leaves one empty cell fewer. */
  lemma PlaceEmpties(b: seq<int>, i: int, p: int)
    requires 0 <= i < |b| && b[i] == 0 && p != 0
    ensures Empties(b[i := p]) == Empties(b) - 1
  {
    assert b == b[..i] + [0] + b[i + 1..];
    assert b[i := p] == b[..i] + [p] + b[i + 1..];
  }
}
