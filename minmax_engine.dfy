/** The C++ engine (src-cpp/minmax.cpp) as it runs: the board is an array
    that negamax marks and unmarks in place, and the static cache_table and
    "inited" flag are the fields of an Engine object. Each method is proved
    to compute what the functions of MinMax describe. */
module MinMaxEngine {
  import opened Board
  import opened Options
  import opened MinMax

  /** encode_board_key: the base-3 key of the nine cells, accumulated from
      the first cell on. */
  method EncodeBoardKey(b: array<int>) returns (key: int)
    requires b.Length == 9 && IsBoard(b[..])
    ensures key == Key(b[..]) && 0 <= key < KEYS
  {
    key := 0;
    var i := 0;
    while i < 9
      invariant 0 <= i <= 9
      invariant key == Key(b[..i])
    {
      var digit := b[i] + 1;
      assert b[..i + 1][..i] == b[..i];
      key := key * 3 + digit;
      i := i + 1;
    }
    assert b[..9] == b[..];
    BoardKeyRange(b[..]);
  }

  /** The "hasMove" / "any" loop: whether some cell is empty. */
  method HasEmptyCell(b: array<int>) returns (found: bool)
    requires b.Length == 9
    ensures found <==> 0 in b[..]
  {
    found := false;
    var i := 0;
    while i < 9
      invariant 0 <= i <= 9
      invariant forall j :: 0 <= j < i ==> b[j] != 0
    {
      if b[i] == 0 {
        found := true;
        break;
      }
      i := i + 1;
    }
  }

  /** The static state of the C++ module: cache_table, flattened row-major
      into CACHE_SIZE entries, and the flag of init_cache_if_needed. */
  class Engine {
    var table: array<int>
    var inited: bool

    /** The static state as a value. */
    ghost function State(): Memo
      reads this, table
    {
      Memo(inited, table[..])
    }

    /** The table has its declared size and holds only UNSET or values in
        [-1, 1], as MemoValid states. */
    ghost predicate Valid()
      reads this, table
    {
      table.Length == CACHE_SIZE && MemoValid(State())
    }

    /** Static storage before the first call: all entries zero, not inited. */
    constructor ()
      ensures Valid() && fresh(table)
      ensures State() == INITIAL
    {
      table := new int[CACHE_SIZE](_ => 0);
      inited := false;
    }

    /** init_cache_if_needed: fills every entry with -2 on the first call. */
    method InitCacheIfNeeded()
      requires Valid()
      modifies this`inited, table
      ensures Valid() && table == old(table)
      ensures State() == Init(old(State()))
    {
      if !inited {
        var i := 0;
        while i < KEYS
          invariant 0 <= i <= KEYS
          invariant forall k :: 0 <= k < 2 * i ==> table[k] == UNSET
        {
          table[2 * i] := -2;
          table[2 * i + 1] := -2;
          i := i + 1;
        }
        inited := true;
        assert table[..] == seq(CACHE_SIZE, _ => UNSET);
      }
    }

    /** negamax: b is marked and unmarked in place and ends as it began; the
        value and the new static state are those of MinMax.Negamax. */
    method Negamax(b: array<int>, player: int, alpha: int, beta: int, depth: int) returns (v: int)
      requires Valid() && b != table
      requires b.Length == 9 && IsBoard(b[..]) && IsPlayer(player)
      modifies b, this`inited, table
      ensures Valid() && table == old(table)
      ensures b[..] == old(b[..])
      ensures Outcome(v, State()) == MinMax.Negamax(old(b[..]), player, alpha, beta, depth, old(State()))
      ensures -1 <= v <= 1
      decreases Empties(b[..]), 2
    {
      if depth > 12 {
        return 0;
      }
      var score := Evaluate(b[..]);
      if score != 0 {
        return score * player;
      }
      var hasMove := HasEmptyCell(b);
      if !hasMove {
        return 0;
      }
      InitCacheIfNeeded();
      var key := EncodeBoardKey(b);
      var pidx := if player == 1 then 1 else 0;
      var cached := table[2 * key + pidx];
      if cached != -2 {
        return cached;
      }

      var best := TryMoves(b, player, alpha, beta, depth);
      if best < -1 {
        best := -1;
      }
      if best > 1 {
        best := 1;
      }
      table[2 * key + pidx] := best;
      return best;
    }

    /** The loop of negamax: every empty cell is marked for player, searched,
        and unmarked, until alpha reaches beta; the greatest negated value
        and the new static state are those of MinMax.Scan from cell 0. */
    method TryMoves(b: array<int>, player: int, alpha: int, beta: int, depth: int) returns (best: int)
      requires Valid() && b != table
      requires b.Length == 9 && IsBoard(b[..]) && IsPlayer(player)
      modifies b, this`inited, table
      ensures Valid() && table == old(table)
      ensures b[..] == old(b[..])
      ensures Outcome(best, State()) == Scan(old(b[..]), player, alpha, beta, depth, 0, -1000, old(State()))
      decreases Empties(b[..]), 1
    {
      ghost var b0 := b[..];
      ghost var res := Scan(b0, player, alpha, beta, depth, 0, -1000, State());
      best := -1000;
      var a := alpha;
      var i := 0;
      while i < 9
        invariant 0 <= i <= 9
        invariant Valid() && table == old(table) && b[..] == b0
        invariant Scan(b0, player, a, beta, depth, i, best, State()) == res
        decreases 9 - i
      {
        if b[i] == 0 {
          var val := SearchCell(b, i, player, -beta, -a, depth + 1);
          if val > best {
            best := val;
          }
          a := Max(a, val);
          if a >= beta {
            break;
          }
        }
        i := i + 1;
      }
    }

    /** One step of both loops: cell i is marked for player, the position
        is searched for the opponent, and the cell is unmarked; the result
        is the negated value of MinMax.Negamax on the marked board. */
    method SearchCell(b: array<int>, i: int, player: int, alpha: int, beta: int, depth: int) returns (val: int)
      requires Valid() && b != table
      requires b.Length == 9 && IsBoard(b[..]) && IsPlayer(player) && 0 <= i < 9 && b[i] == 0
      modifies b, this`inited, table
      ensures Valid() && table == old(table)
      ensures b[..] == old(b[..])
      ensures var r := MinMax.Negamax(old(b[..])[i := player], -player, alpha, beta, depth, old(State()));
              val == -r.value && State() == r.memo
      ensures -1 <= val <= 1
      decreases Empties(b[..]), 0
    {
      ghost var b0 := b[..];
      b[i] := player;
      PlaceEmpties(b0, i, player);
      assert b[..] == b0[i := player];
      val := Negamax(b, -player, alpha, beta, depth);
      b[i] := 0;
      assert b[..] == b0;
      val := -val;
    }

    /** best_move(board_ptr, n, ai_player): the board is copied into a fresh
        array, so board_ptr is left alone; the move and the new static state
        are those of MinMax.BestMove. */
    method BestMove(boardPtr: array<int>, n: int, aiPlayer: int) returns (idx: int)
      requires Valid() && boardPtr != table
      requires n == 9 ==> boardPtr.Length >= 9 && IsBoard(boardPtr[..9])
      requires Searches(boardPtr[..], n) ==> IsPlayer(aiPlayer)
      modifies this`inited, table
      ensures Valid() && table == old(table)
      ensures Choice(idx, State()) == MinMax.BestMove(boardPtr[..], n, aiPlayer, old(State()))
      ensures idx == -1 <==> !Searches(boardPtr[..], n)
      ensures idx != -1 ==> 0 <= idx < 9 && boardPtr[idx] == 0
    {
      BestMoveSentinel(boardPtr[..], n, aiPlayer, State());
      if Searches(boardPtr[..], n) {
        BestMoveFirstMaximum(boardPtr[..], n, aiPlayer, State());
      }
      if n != 9 {
        return -1;
      }
      var b := new int[9];
      var i := 0;
      while i < 9
        invariant 0 <= i <= 9
        invariant b[..i] == boardPtr[..i]
        modifies b
      {
        b[i] := boardPtr[i];
        i := i + 1;
      }
      assert b[..] == boardPtr[..][..9];

      InitCacheIfNeeded();

      var term := Evaluate(b[..]);
      if term != 0 {
        return -1;
      }
      var any := HasEmptyCell(b);
      if !any {
        return -1;
      }
      RootPickAgrees(b[..], aiPlayer, 0, State(), RootValues(b[..], aiPlayer, 0, State()).values);
      idx := TryRoots(b, aiPlayer);
    }

    /** The root loop of best_move: every empty cell is marked for aiPlayer,
        searched with the full window, and unmarked; the first cell with the
        strictly greatest negated value is kept. The index and the new
        static state are those of the fold RootPick from cell 0. */
    method TryRoots(b: array<int>, aiPlayer: int) returns (bestIdx: int)
      requires Valid() && b != table
      requires b.Length == 9 && IsBoard(b[..]) && IsPlayer(aiPlayer)
      modifies b, this`inited, table
      ensures Valid() && table == old(table)
      ensures b[..] == old(b[..])
      ensures Choice(bestIdx, State()) == RootPick(old(b[..]), aiPlayer, 0, old(State()), Best(-1, -1000))
    {
      var bestVal := -1000;
      bestIdx := -1;
      ghost var b0 := b[..];
      ghost var res := RootPick(b0, aiPlayer, 0, State(), Best(-1, -1000));
      var i := 0;
      while i < 9
        invariant 0 <= i <= 9
        invariant Valid() && table == old(table) && b[..] == b0
        invariant RootPick(b0, aiPlayer, i, State(), Best(bestIdx, bestVal)) == res
      {
        if b[i] == 0 {
          var val := SearchCell(b, i, aiPlayer, -1000, 1000, 0);
          if val > bestVal {
            bestVal := val;
            bestIdx := i;
          }
        }
        i := i + 1;
      }
    }
  }
}
