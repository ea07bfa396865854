/** The C++ engine (src-cpp/minmax.cpp) as functions: line evaluation, the
    base-3 board key, the memo table as a value, negamax with alpha-beta
    pruning that reads and fills the memo table, and the root loop of
    best_move. The class in MinMaxEngine runs the same steps in place and is
    proved equal to these functions. */
module MinMax {
  import opened Board
  import opened Options

  // ---------------------------------------------------------------------
  // evaluate

  /** The lines from li on, scanned in order; the first one summing to 3
      gives 1 and the first one summing to -3 gives -1. (The measure names
      b, which never changes, so that a call with a literal li is unfolded
      only on demand.) */
  function ScanLines(b: seq<int>, li: nat): (r: int)
    requires |b| == 9 && li <= |LINES|
    ensures r == -1 || r == 0 || r == 1
    decreases b, |LINES| - li
  {
    if li == |LINES| then 0
    else
      var s := LineSum(b, LINES[li]);
      if s == 3 then 1
      else if s == -3 then -1
      else ScanLines(b, li + 1)
  }

  /** evaluate: the winner of the first complete line, or 0. */
  function Evaluate(b: seq<int>): (r: int)
    requires |b| == 9
    ensures r == -1 || r == 0 || r == 1
  {
    ScanLines(b, 0)
  }

  /** The scan from line li finds 0 exactly when no line from li on is
      complete, and otherwise the owner of the first complete one. */
  lemma {:induction false} ScanLinesFirstComplete(b: seq<int>, li: nat)
    requires |b| == 9 && li <= |LINES|
    ensures ScanLines(b, li) == 0 <==> forall lj :: li <= lj < |LINES| ==> !Complete(b, LINES[lj])
    ensures ScanLines(b, li) != 0 ==>
              exists lk :: li <= lk < |LINES| && LineSum(b, LINES[lk]) == 3 * ScanLines(b, li) &&
                           forall lj :: li <= lj < lk ==> !Complete(b, LINES[lj])
    decreases |LINES| - li
  {
    if li < |LINES| {
      var s := LineSum(b, LINES[li]);
      if s != 3 && s != -3 {
        ScanLinesFirstComplete(b, li + 1);
      }
    }
  }

  /** evaluate is 0 exactly when no line is complete; otherwise it is 1 or -1
      as the first complete line holds X's or O's. */
  lemma EvaluateFirstComplete(b: seq<int>)
    requires |b| == 9
    ensures Evaluate(b) == 0 <==> forall li :: 0 <= li < |LINES| ==> !Complete(b, LINES[li])
    ensures Evaluate(b) != 0 ==> exists li :: FirstComplete(b, li) && LineSum(b, LINES[li]) == 3 * Evaluate(b)
  {
    ScanLinesFirstComplete(b, 0);
  }

  // ---------------------------------------------------------------------
  // encode_board_key

  /** The board read as a base-3 numeral, most significant cell first, with
      digit b[i] + 1 (so -1, 0, 1 become 0, 1, 2). */
  function Key(s: seq<int>): int
  {
    if s == [] then 0 else Key(s[..|s| - 1]) * 3 + (s[|s| - 1] + 1)
  }

  function Pow3(n: nat): nat
  {
    if n == 0 then 1 else 3 * Pow3(n - 1)
  }

  /** The number of board keys, 3^9. */
  const KEYS: nat := 19683

  /** The inverse of Key: the n cells whose key is k. (The measure names k
      so that a call with a literal n is unfolded only on demand.) */
  function DecodeKey(k: int, n: nat): (s: seq<int>)
    ensures |s| == n
    decreases n, k
  {
    if n == 0 then [] else DecodeKey(k / 3, n - 1) + [k % 3 - 1]
  }

  /** The key of n marks lies in [0, 3^n). */
  lemma {:induction false} KeyRange(s: seq<int>)
    requires forall i :: 0 <= i < |s| ==> IsMark(s[i])
    ensures 0 <= Key(s) < Pow3(|s|)
  {
    if s != [] {
      var p := s[..|s| - 1];
      KeyRange(p);
      assert IsMark(s[|s| - 1]);
    }
  }

  /** Every board's key is below 19683. */
  lemma BoardKeyRange(b: seq<int>)
    requires IsBoard(b)
    ensures 0 <= Key(b) < KEYS
  {
    KeyRange(b);
    assert Pow3(9) == KEYS;
  }

  /** Decoding a key gives the cells back. */
  lemma {:induction false} KeyRoundTrip(s: seq<int>)
    requires forall i :: 0 <= i < |s| ==> IsMark(s[i])
    ensures DecodeKey(Key(s), |s|) == s
  {
    if s != [] {
      var p, d := s[..|s| - 1], s[|s| - 1] + 1;
      assert IsMark(s[|s| - 1]);
      KeyRoundTrip(p);
      KeyRange(p);
      var k := Key(p) * 3 + d;
      assert k / 3 == Key(p) && k % 3 == d;
      assert s == p + [s[|s| - 1]];
    }
  }

  /** Distinct boards have distinct keys. */
  lemma KeyInjective(s: seq<int>, t: seq<int>)
    requires IsBoard(s) && IsBoard(t)
    requires Key(s) == Key(t)
    ensures s == t
  {
    KeyRoundTrip(s);
    KeyRoundTrip(t);
  }

  // ---------------------------------------------------------------------
  // cache_table and init_cache_if_needed

  /** cache_table holds KEYS rows of two int8 entries; entry [key][pidx]
      is element 2 * key + pidx of the row-major layout. */
  const CACHE_SIZE: nat := 2 * KEYS

  /** The value marking an entry that holds nothing yet. */
  const UNSET: int := -2

  /** The entry [key][pidx] of cache_table, pidx being 1 for player 1 and
      0 otherwise: it lies in row key of the flattened table. */
  function Slot(key: int, player: int): (r: int)
    ensures r / 2 == key
    ensures 0 <= key < KEYS ==> 0 <= r < CACHE_SIZE
  {
    2 * key + (if player == 1 then 1 else 0)
  }

  /** The engine's static state: the "inited" flag and cache_table. */
  datatype Memo = Memo(inited: bool, table: seq<int>)

  /** Static storage starts zeroed and not initialised. */
  const INITIAL: Memo := Memo(false, seq(CACHE_SIZE, _ => 0))

  /** init_cache_if_needed: the first call sets every entry to UNSET;
      later calls change nothing. */
  function Init(m: Memo): (r: Memo)
    ensures r.inited
    ensures m.inited ==> r == m
    ensures !m.inited ==> |r.table| == CACHE_SIZE &&
                          forall k :: 0 <= k < CACHE_SIZE ==> r.table[k] == UNSET
  {
    if m.inited then m else Memo(true, seq(CACHE_SIZE, _ => UNSET))
  }

  /** Every entry is UNSET or a game value in [-1, 1], so it fits an int8. */
  predicate MemoValid(m: Memo) {
    |m.table| == CACHE_SIZE &&
    forall k :: 0 <= k < CACHE_SIZE ==> UNSET <= m.table[k] <= 1
  }

  // ---------------------------------------------------------------------
  // negamax

  /** The value of a call and the static state it leaves behind. */
  datatype Outcome = Outcome(value: int, memo: Memo)

  /** The clamp of lines 86-89: the result is in [-1, 1], and a value
      already in that range is kept. */
  function Clamp(v: int): (r: int)
    ensures -1 <= r <= 1
    ensures -1 <= v <= 1 ==> r == v
  {
    if v < -1 then -1 else if v > 1 then 1 else v
  }

  /** negamax(b, player, alpha, beta, depth) from static state m. */
  function Negamax(b: seq<int>, player: int, alpha: int, beta: int, depth: int, m: Memo): (r: Outcome)
    requires IsBoard(b) && IsPlayer(player) && |m.table| == CACHE_SIZE
    ensures |r.memo.table| == CACHE_SIZE
    decreases Empties(b), 1, 0
  {
    if depth > 12 then Outcome(0, m)
    else if Evaluate(b) != 0 then Outcome(Evaluate(b) * player, m)
    else if 0 !in b then Outcome(0, m)
    else
      var m1 := Init(m);
      BoardKeyRange(b);
      var slot := Slot(Key(b), player);
      if m1.table[slot] != UNSET then Outcome(m1.table[slot], m1)
      else
        var r := Scan(b, player, alpha, beta, depth, 0, -1000, m1);
        var best := Clamp(r.value);
        Outcome(best, Memo(r.memo.inited, r.memo.table[slot := best]))
  }

  /** The loop of negamax from cell i on, with the current alpha and best:
      each empty cell is tried for player, its value negated, best and alpha
      raised, and the loop left as soon as alpha >= beta. */
  function Scan(b: seq<int>, player: int, alpha: int, beta: int, depth: int, i: int, best: int, m: Memo): (r: Outcome)
    requires IsBoard(b) && IsPlayer(player) && |m.table| == CACHE_SIZE
    requires 0 <= i <= 9
    ensures |r.memo.table| == CACHE_SIZE
    decreases Empties(b), 0, |b| - i
  {
    if i == 9 then Outcome(best, m)
    else if b[i] != 0 then Scan(b, player, alpha, beta, depth, i + 1, best, m)
    else
      PlaceEmpties(b, i, player);
      var r := Negamax(b[i := player], -player, -beta, -alpha, depth + 1, m);
      var val := -r.value;
      var best' := if val > best then val else best;
      var alpha' := Max(alpha, val);
      if alpha' >= beta then Outcome(best', r.memo)
      else Scan(b, player, alpha', beta, depth, i + 1, best', r.memo)
  }

  /** On a won board, a full board, or past depth 12, negamax returns at
      once: the winner seen from player, or 0; the static state is left as it
      was, not even initialised. */
  lemma NegamaxTerminal(b: seq<int>, player: int, alpha: int, beta: int, depth: int, m: Memo)
    requires IsBoard(b) && IsPlayer(player) && |m.table| == CACHE_SIZE
    requires depth > 12 || Evaluate(b) != 0 || 0 !in b
    ensures Negamax(b, player, alpha, beta, depth, m).memo == m
    ensures Negamax(b, player, alpha, beta, depth, m).value ==
            if depth <= 12 then Evaluate(b) * player else 0
  {
  }

  /** Every value negamax returns lies in [-1, 1], and every entry it leaves
      in the table is UNSET or such a value. */
  lemma {:induction false} NegamaxRange(b: seq<int>, player: int, alpha: int, beta: int, depth: int, m: Memo)
    requires IsBoard(b) && IsPlayer(player) && MemoValid(m)
    ensures -1 <= Negamax(b, player, alpha, beta, depth, m).value <= 1
    ensures MemoValid(Negamax(b, player, alpha, beta, depth, m).memo)
    ensures m.inited ==> Negamax(b, player, alpha, beta, depth, m).memo.inited
    decreases Empties(b), 1, 0
  {
    if depth <= 12 && Evaluate(b) == 0 && 0 in b {
      var m1 := Init(m);
      BoardKeyRange(b);
      var slot := Slot(Key(b), player);
      if m1.table[slot] == UNSET {
        ScanRange(b, player, alpha, beta, depth, 0, -1000, m1);
      }
    }
  }

  lemma {:induction false} ScanRange(b: seq<int>, player: int, alpha: int, beta: int, depth: int, i: int, best: int, m: Memo)
    requires IsBoard(b) && IsPlayer(player) && MemoValid(m)
    requires 0 <= i <= 9
    ensures MemoValid(Scan(b, player, alpha, beta, depth, i, best, m).memo)
    ensures m.inited ==> Scan(b, player, alpha, beta, depth, i, best, m).memo.inited
    decreases Empties(b), 0, |b| - i
  {
    if i < 9 {
      if b[i] != 0 {
        ScanRange(b, player, alpha, beta, depth, i + 1, best, m);
      } else {
        var c := b[i := player];
        assert IsBoard(c);
        PlaceEmpties(b, i, player);
        NegamaxRange(c, -player, -beta, -alpha, depth + 1, m);
        var r := Negamax(c, -player, -beta, -alpha, depth + 1, m);
        var val := -r.value;
        var best' := if val > best then val else best;
        if Max(alpha, val) < beta {
          ScanRange(b, player, Max(alpha, val), beta, depth, i + 1, best', r.memo);
        }
      }
    }
  }

  /** Going from table t0 to t1, only UNSET entries changed, and only entries
      whose board has at most z empty cells. */
  predicate WritesOnly(t0: seq<int>, t1: seq<int>, z: int) {
    |t0| == CACHE_SIZE && |t1| == CACHE_SIZE &&
    forall k :: 0 <= k < CACHE_SIZE && t1[k] != t0[k] ==>
      t0[k] == UNSET && Empties(DecodeKey(k / 2, 9)) <= z
  }

  lemma WritesOnlyTransitive(t0: seq<int>, t1: seq<int>, t2: seq<int>, z: int)
    requires WritesOnly(t0, t1, z) && WritesOnly(t1, t2, z)
    ensures WritesOnly(t0, t2, z)
  {
    forall k | 0 <= k < CACHE_SIZE && t2[k] != t0[k]
      ensures t0[k] == UNSET && Empties(DecodeKey(k / 2, 9)) <= z
    {
      if t1[k] == t0[k] {
        assert t2[k] != t1[k];
      }
    }
  }

  /** Storing the value of b into its own UNSET slot, after a search that
      wrote only entries of boards with fewer empty cells than b, still
      writes only UNSET entries of boards with at most as many as b. */
  lemma StoreWritesOnly(t0: seq<int>, t1: seq<int>, b: seq<int>, player: int, v: int)
    requires IsBoard(b) && IsPlayer(player)
    requires WritesOnly(t0, t1, Empties(b) - 1)
    requires 0 <= Slot(Key(b), player) < CACHE_SIZE && t0[Slot(Key(b), player)] == UNSET
    ensures WritesOnly(t0, t1[Slot(Key(b), player) := v], Empties(b))
  {
    var slot := Slot(Key(b), player);
    KeyRoundTrip(b);
    assert DecodeKey(slot / 2, 9) == b by {
      assert slot / 2 == Key(b);
    }
    var t2 := t1[slot := v];
    forall k | 0 <= k < CACHE_SIZE && t2[k] != t0[k]
      ensures t0[k] == UNSET && Empties(DecodeKey(k / 2, 9)) <= Empties(b)
    {
      if k != slot {
        assert t1[k] != t0[k];
      }
    }
  }

  /** Once initialised, the table is write-once: negamax on b changes only
      entries that were UNSET, and only for positions with no more empty
      cells than b. In particular a stored value is never overwritten. */
  lemma {:induction false} NegamaxWritesOnce(b: seq<int>, player: int, alpha: int, beta: int, depth: int, m: Memo)
    requires IsBoard(b) && IsPlayer(player) && |m.table| == CACHE_SIZE && m.inited
    ensures Negamax(b, player, alpha, beta, depth, m).memo.inited
    ensures WritesOnly(m.table, Negamax(b, player, alpha, beta, depth, m).memo.table, Empties(b))
    decreases Empties(b), 1, 0
  {
    if depth <= 12 && Evaluate(b) == 0 && 0 in b {
      BoardKeyRange(b);
      var slot := Slot(Key(b), player);
      if m.table[slot] == UNSET {
        ScanWritesOnce(b, player, alpha, beta, depth, 0, -1000, m);
        var r := Scan(b, player, alpha, beta, depth, 0, -1000, m);
        StoreWritesOnly(m.table, r.memo.table, b, player, Clamp(r.value));
      }
    }
  }

  lemma {:induction false} ScanWritesOnce(b: seq<int>, player: int, alpha: int, beta: int, depth: int, i: int, best: int, m: Memo)
    requires IsBoard(b) && IsPlayer(player) && |m.table| == CACHE_SIZE && m.inited
    requires 0 <= i <= 9
    ensures Scan(b, player, alpha, beta, depth, i, best, m).memo.inited
    ensures WritesOnly(m.table, Scan(b, player, alpha, beta, depth, i, best, m).memo.table, Empties(b) - 1)
    decreases Empties(b), 0, |b| - i
  {
    if i < 9 {
      if b[i] != 0 {
        ScanWritesOnce(b, player, alpha, beta, depth, i + 1, best, m);
      } else {
        var c := b[i := player];
        assert IsBoard(c);
        PlaceEmpties(b, i, player);
        NegamaxWritesOnce(c, -player, -beta, -alpha, depth + 1, m);
        var r := Negamax(c, -player, -beta, -alpha, depth + 1, m);
        var val := -r.value;
        var best' := if val > best then val else best;
        if Max(alpha, val) < beta {
          ScanWritesOnce(b, player, Max(alpha, val), beta, depth, i + 1, best', r.memo);
          var r2 := Scan(b, player, Max(alpha, val), beta, depth, i + 1, best', r.memo);
          WritesOnlyTransitive(m.table, r.memo.table, r2.memo.table, Empties(b) - 1);
        }
      }
    }
  }

  // ---------------------------------------------------------------------
  // best_move

  /** The value best_move's loop computes for each cell (None for an occupied
      cell) and the static state after the last search. */
  datatype Roots = Roots(values: seq<Option<int>>, memo: Memo)

  /** The searches of best_move's loop from cell i on: each empty cell is
      tried for ai and scored by -negamax with the window (-1000, 1000) at
      depth 0, the table carried from each search to the next. */
  function RootValues(b: seq<int>, ai: int, i: int, m: Memo): (r: Roots)
    requires IsBoard(b) && IsPlayer(ai) && |m.table| == CACHE_SIZE && 0 <= i <= 9
    ensures |r.values| == 9 - i && |r.memo.table| == CACHE_SIZE
    decreases |b| - i
  {
    if i == 9 then Roots([], m)
    else if b[i] != 0 then
      var rest := RootValues(b, ai, i + 1, m);
      Roots([None] + rest.values, rest.memo)
    else
      var c := Negamax(b[i := ai], -ai, -1000, 1000, 0, m);
      var rest := RootValues(b, ai, i + 1, c.memo);
      Roots([Some(-c.value)] + rest.values, rest.memo)
  }

  /** The root of every empty cell is searched, no other, and its value lies
      in [-1, 1]. */
  lemma {:induction false} RootValuesRange(b: seq<int>, ai: int, i: int, m: Memo)
    requires IsBoard(b) && IsPlayer(ai) && MemoValid(m) && 0 <= i <= 9
    ensures forall k :: 0 <= k < 9 - i ==>
              (RootValues(b, ai, i, m).values[k].Some? <==> b[i + k] == 0)
    ensures forall k :: 0 <= k < 9 - i && RootValues(b, ai, i, m).values[k].Some? ==>
              -1 <= RootValues(b, ai, i, m).values[k].value <= 1
    ensures MemoValid(RootValues(b, ai, i, m).memo)
    decreases |b| - i
  {
    if i < 9 {
      var vs := RootValues(b, ai, i, m).values;
      if b[i] != 0 {
        RootValuesRange(b, ai, i + 1, m);
        assert vs[1..] == RootValues(b, ai, i + 1, m).values;
      } else {
        var c := b[i := ai];
        assert IsBoard(c);
        NegamaxRange(c, -ai, -1000, 1000, 0, m);
        var m' := Negamax(c, -ai, -1000, 1000, 0, m).memo;
        RootValuesRange(b, ai, i + 1, m');
        assert vs == [Some(-Negamax(c, -ai, -1000, 1000, 0, m).value)] + RootValues(b, ai, i + 1, m').values;
      }
    }
  }

  /** A candidate of best_move's loop: bestIdx and bestVal. */
  datatype Best = Best(index: int, value: int)

  /** bestIdx and bestVal after the loop has seen the first n cells: a
      value replaces the best only when strictly greater. */
  function PickFirst(vs: seq<Option<int>>, n: nat): Best
    requires n <= |vs|
  {
    if n == 0 then Best(-1, -1000)
    else
      var p := PickFirst(vs, n - 1);
      if vs[n - 1].Some? && vs[n - 1].value > p.value then Best(n - 1, vs[n - 1].value) else p
  }

  /** One step of the pick: cell i replaces the best only with a strictly
      greater value. */
  lemma PickFirstNext(vs: seq<Option<int>>, i: nat)
    requires i < |vs|
    ensures PickFirst(vs, i + 1) ==
            if vs[i].Some? && vs[i].value > PickFirst(vs, i).value then Best(i, vs[i].value) else PickFirst(vs, i)
  {
  }

  /** Over values above -1000, the pick is -1 when nothing was seen, and
      otherwise the lowest index holding the greatest value seen. */
  lemma {:induction false} PickFirstMaximum(vs: seq<Option<int>>, n: nat)
    requires n <= |vs|
    requires forall k :: 0 <= k < |vs| && vs[k].Some? ==> vs[k].value > -1000
    ensures var p := PickFirst(vs, n);
            && (p.index == -1 <==> forall k :: 0 <= k < n ==> vs[k].None?)
            && (p.index == -1 ==> p.value == -1000)
            && (p.index != -1 ==>
                  && 0 <= p.index < n && vs[p.index] == Some(p.value)
                  && (forall k :: 0 <= k < p.index && vs[k].Some? ==> vs[k].value < p.value)
                  && (forall k :: 0 <= k < n && vs[k].Some? ==> vs[k].value <= p.value))
  {
    if n > 0 {
      PickFirstMaximum(vs, n - 1);
    }
  }

  /** The result of best_move and the state it leaves behind. */
  datatype Choice = Choice(index: int, memo: Memo)

  /** The root loop as one fold from cell i on, with the best pick so far:
      the searches of RootValues and the pick of PickFirst taken together,
      in the order the loop performs them. */
  function RootPick(b: seq<int>, ai: int, i: int, m: Memo, p: Best): Choice
    requires IsBoard(b) && IsPlayer(ai) && |m.table| == CACHE_SIZE && 0 <= i <= 9
    decreases b, 9 - i
  {
    if i == 9 then Choice(p.index, m)
    else if b[i] != 0 then RootPick(b, ai, i + 1, m, p)
    else
      var c := Negamax(b[i := ai], -ai, -1000, 1000, 0, m);
      var v := -c.value;
      RootPick(b, ai, i + 1, c.memo, if v > p.value then Best(i, v) else p)
  }

  /** Run together, the searches and the pick give the lowest cell of
      greatest value among the values RootValues lists, and the state
      RootValues leaves. */
  lemma {:induction false} RootPickAgrees(b: seq<int>, ai: int, i: int, m: Memo, vs: seq<Option<int>>)
    requires IsBoard(b) && IsPlayer(ai) && |m.table| == CACHE_SIZE && 0 <= i <= 9
    requires |vs| == 9 && vs[i..] == RootValues(b, ai, i, m).values
    ensures RootPick(b, ai, i, m, PickFirst(vs, i)) == Choice(PickFirst(vs, 9).index, RootValues(b, ai, i, m).memo)
    decreases 9 - i
  {
    if i < 9 {
      assert vs[i] == vs[i..][0];
      assert vs[i + 1..] == vs[i..][1..];
      PickFirstNext(vs, i);
      if b[i] != 0 {
        RootPickAgrees(b, ai, i + 1, m, vs);
      } else {
        var c := Negamax(b[i := ai], -ai, -1000, 1000, 0, m);
        var p := PickFirst(vs, i);
        var p' := if -c.value > p.value then Best(i, -c.value) else p;
        var rest := RootValues(b, ai, i + 1, c.memo);
        assert RootValues(b, ai, i, m) == Roots([Some(-c.value)] + rest.values, rest.memo);
        assert p' == PickFirst(vs, i + 1);
        assert RootPick(b, ai, i, m, p) == RootPick(b, ai, i + 1, c.memo, p');
        RootPickAgrees(b, ai, i + 1, c.memo, vs);
      }
    }
  }

  /** best_move goes past its early exits: n is 9, no line is complete and a
      cell is empty. */
  predicate Searches(board: seq<int>, n: int) {
    n == 9 && |board| >= 9 && Evaluate(board[..9]) == 0 && 0 in board[..9]
  }

  /** best_move(board, n, aiPlayer) from static state m. */
  function BestMove(board: seq<int>, n: int, aiPlayer: int, m: Memo): Choice
    requires n == 9 ==> |board| >= 9 && IsBoard(board[..9])
    requires Searches(board, n) ==> IsPlayer(aiPlayer)
    requires |m.table| == CACHE_SIZE
  {
    if n != 9 then Choice(-1, m)
    else
      var b := board[..9];
      var m1 := Init(m);
      if Evaluate(b) != 0 || 0 !in b then Choice(-1, m1)
      else
        var r := RootValues(b, aiPlayer, 0, m1);
        Choice(PickFirst(r.values, 9).index, r.memo)
  }

  /** best_move returns the sentinel -1 exactly when n is not 9, a line is
      complete, or no cell is empty. */
  lemma BestMoveSentinel(board: seq<int>, n: int, aiPlayer: int, m: Memo)
    requires n == 9 ==> |board| >= 9 && IsBoard(board[..9])
    requires Searches(board, n) ==> IsPlayer(aiPlayer)
    requires MemoValid(m)
    ensures BestMove(board, n, aiPlayer, m).index == -1 <==> !Searches(board, n)
  {
    if Searches(board, n) {
      BestMoveFirstMaximum(board, n, aiPlayer, m);
    }
  }

  /** Otherwise best_move returns an empty cell, and among the values its
      loop computed that cell has the greatest, with ties going to the
      lowest index. */
  lemma BestMoveFirstMaximum(board: seq<int>, n: int, aiPlayer: int, m: Memo)
    requires Searches(board, n) && IsPlayer(aiPlayer) && IsBoard(board[..9])
    requires MemoValid(m)
    ensures var idx := BestMove(board, n, aiPlayer, m).index;
            var vs := RootValues(board[..9], aiPlayer, 0, Init(m)).values;
            && 0 <= idx < 9 && board[idx] == 0
            && (forall j :: 0 <= j < 9 ==> (vs[j].Some? <==> board[j] == 0))
            && vs[idx].Some?
            && (forall j :: 0 <= j < idx && vs[j].Some? ==> vs[j].value < vs[idx].value)
            && (forall j :: 0 <= j < 9 && vs[j].Some? ==> vs[j].value <= vs[idx].value)
  {
    var b := board[..9];
    var m1 := Init(m);
    assert MemoValid(m1);
    RootValuesRange(b, aiPlayer, 0, m1);
    var vs := RootValues(b, aiPlayer, 0, m1).values;
    PickFirstMaximum(vs, 9);
    var j :| 0 <= j < 9 && b[j] == 0;
    assert vs[j].Some?;
  }

  // ---------------------------------------------------------------------
  // The cache invariant across calls

  /** Static storage before the first call satisfies the cache invariant. */
  lemma InitialValid()
    ensures MemoValid(INITIAL)
  {
  }

  /** A call of best_move keeps the cache invariant, so it holds for the
      static state before every call of the program's life. */
  lemma BestMoveKeepsValid(board: seq<int>, n: int, aiPlayer: int, m: Memo)
    requires n == 9 ==> |board| >= 9 && IsBoard(board[..9])
    requires Searches(board, n) ==> IsPlayer(aiPlayer)
    requires MemoValid(m)
    ensures MemoValid(BestMove(board, n, aiPlayer, m).memo)
  {
    if n == 9 {
      assert MemoValid(Init(m));
      if Searches(board, n) {
        RootValuesRange(board[..9], aiPlayer, 0, Init(m));
      }
    }
  }
}
