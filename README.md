# Tic-tac-toe engines, modelled in Dafny

The repository is a tic-tac-toe web game. A React component holds the
board and the turn, and asks an engine for O's reply. There are two
engines:

- a C++ engine compiled with Emscripten. It runs negamax with alpha-beta
  pruning and a global transposition table indexed by a base-3 board key.
- a Rust engine compiled with wasm-bindgen. It runs minimax with a
  depth-biased score and an alpha and beta shared by reference.

Cells hold 1 (X, the human), -1 (O, the AI) or 0 (empty). Cell i is row
i / 3, column i % 3, and the eight winning lines are listed in the same
order in all three files.

The project has the following modules:

- **Board**: the cells, the line table and the helpers shared by all.
- **MinMax**: the C++ engine as functions over values.
  - `Evaluate` and the board key, with its round trip.
  - The static state (`inited` and `cache_table`) as a `Memo` value,
    threaded through `Negamax` and `BestMove`.
  - Lemmas: the result range, what the cache may be written with and when,
    and the tie-break of the root loop.
- **MinMaxEngine**: the C++ engine as it runs. The board is an `array`,
  and the static state is the `table` array and `inited` flag of an
  `Engine` object. Each method is proved to compute exactly the MinMax
  function of the old state and to leave that function's new state behind.
- **Lib**: the Rust engine as functions. The `&mut` alpha and beta are
  passed in and handed back out (`Search(score, alpha, beta)`), so the
  functions see the same window sharing as the code.
- **LibEngine**: the Rust engine as it runs, on arrays, proved equal to
  Lib.
- **App**: the component.
  - `evaluate` (winner and line) and the status text, as functions.
  - A `Game` class whose fields are the `board`, `xIsNext` and `loadingAI`
    state, with `HandleClick`, `AiMove` and `Reset` as methods.
- **Agreement**: the three `evaluate`/`check_win` variants agree on boards
  of marks. The move the C++ engine hands to `aiMove` passes its guard
  exactly when the game is open.
- **Pruning** and **Counterexample**: the finding below. They contain:
  - a plain minimax reference `Value`;
  - the Rust search with alpha and beta passed by value;
  - a concrete board on which the Rust `best_move` as written gives away a
    won game.

## Model

| member | source | states |
|---|---|---|
| Board.LINES | src-cpp/minmax.cpp:8-9 | the eight lines, rows then columns then diagonals, in the order in which all three files list them (also `wins` at src/lib.rs:6-10 and `lines` at src/App.jsx:44-48) |
| MinMax.ScanLines | src-cpp/minmax.cpp:11-23 | the scan from line li on returns -1, 0 or 1 |
| MinMax.Evaluate | src-cpp/minmax.cpp:11-23 | evaluate returns -1, 0 or 1 |
| MinMax.ScanLinesFirstComplete | src-cpp/minmax.cpp:12-22 | 0 iff no line from li on sums to ±3; otherwise the first such line sums to 3 times the result |
| MinMax.EvaluateFirstComplete | src-cpp/minmax.cpp:8-23 | evaluate is 0 iff no line is complete; otherwise the first complete line in LINES order sums to 3·result |
| MinMax.Key | src-cpp/minmax.cpp:25-32 | definition of encode_board_key as a base-3 number; its properties are stated by KeyRange, BoardKeyRange, KeyRoundTrip and KeyInjective |
| MinMax.KeyRange | src-cpp/minmax.cpp:25-32 | the key of n cells of marks lies in [0, 3^n) |
| MinMax.BoardKeyRange | src-cpp/minmax.cpp:25-34 | the key of a board of marks lies in [0, 19683), a valid row of cache_table |
| MinMax.DecodeKey | src-cpp/minmax.cpp:25-32 | decoding a key into n base-3 digits gives n cells |
| MinMax.KeyRoundTrip | src-cpp/minmax.cpp:25-32 | decoding the key of any cells of marks gives those cells back |
| MinMax.KeyInjective | src-cpp/minmax.cpp:25-32 | distinct boards of marks have distinct keys |
| MinMax.Init | src-cpp/minmax.cpp:36-44 | after init the flag is set; the first call sets all 39366 entries to -2; a later call changes nothing |
| MinMax.Slot | src-cpp/minmax.cpp:66-67 | the entry cache_table[key][pidx] lies in row key of the flattened table, and inside the table for every valid key |
| MinMax.Clamp | src-cpp/minmax.cpp:86-89 | the clamped value is in [-1, 1], and a value already in that range is kept |
| MinMax.Negamax | src-cpp/minmax.cpp:46-92 | every call leaves a table of the same size |
| MinMax.Scan | src-cpp/minmax.cpp:72-84 | the loop leaves a table of the same size |
| MinMax.NegamaxTerminal | src-cpp/minmax.cpp:47-62 | past depth 12 the result is 0; on a won board it is evaluate·player; on a full board 0; the static state is untouched in all three cases |
| MinMax.NegamaxRange | src-cpp/minmax.cpp:64-91 | from a table of -2 or values in [-1,1], negamax returns a value in [-1,1] and keeps that table invariant, so every stored value fits an int8 |
| MinMax.ScanRange | src-cpp/minmax.cpp:72-84 | the negamax loop keeps the same table invariant |
| MinMax.WritesOnlyTransitive | src-cpp/minmax.cpp:90 | "only unset entries of boards with at most z empty cells changed" composes |
| MinMax.StoreWritesOnly | src-cpp/minmax.cpp:86-91 | storing into the unset slot of b extends that property to b's number of empty cells |
| MinMax.NegamaxWritesOnce | src-cpp/minmax.cpp:64-91 | an initialised negamax writes only entries that were -2, of boards with no more empty cells than b, so no stored value is ever overwritten |
| MinMax.ScanWritesOnce | src-cpp/minmax.cpp:72-84 | the loop writes only unset entries of boards with fewer empty cells than b |
| MinMax.RootValues | src-cpp/minmax.cpp:120-130 | one entry per remaining cell, with the table kept the same size |
| MinMax.RootValuesRange | src-cpp/minmax.cpp:120-130 | the root loop computes a value exactly for the empty cells, each in [-1,1], and keeps the table invariant |
| MinMax.PickFirst | src-cpp/minmax.cpp:125-128 | definition of the bestVal/bestIdx update; its properties are stated by PickFirstMaximum |
| MinMax.PickFirstMaximum | src-cpp/minmax.cpp:105-132 | the pick is -1 iff nothing was seen; otherwise it holds the greatest value, and every earlier index holds a strictly smaller one |
| MinMax.RootPick | src-cpp/minmax.cpp:120-130 | definition of the root loop as one fold over searches and pick, in loop order; related to RootValues and PickFirst by RootPickAgrees |
| MinMax.RootPickAgrees | src-cpp/minmax.cpp:120-132 | the fold picks the same cell as PickFirst over the values RootValues lists, and leaves the state RootValues leaves |
| MinMax.BestMove | src-cpp/minmax.cpp:95-133 | definition of best_move from a static state; its properties are stated by BestMoveSentinel, BestMoveFirstMaximum and BestMoveKeepsValid |
| MinMax.Searches | src-cpp/minmax.cpp:96-118 | best_move searches exactly when n is 9, no line of the copied cells is complete, and one of them is empty; otherwise it returns -1 before the root loop (used by BestMoveSentinel) |
| MinMax.BestMoveSentinel | src-cpp/minmax.cpp:95-133 | best_move returns -1 exactly when n ≠ 9, a line is complete, or no cell is empty |
| MinMax.BestMoveFirstMaximum | src-cpp/minmax.cpp:120-132 | otherwise it returns an empty cell of greatest root value, the lowest such cell |
| MinMax.InitialValid | src-cpp/minmax.cpp:34-37 | the zeroed static storage before the first call satisfies the cache invariant |
| MinMax.BestMoveKeepsValid | src-cpp/minmax.cpp:95-133 | a call of best_move keeps the cache invariant, so with InitialValid it holds before every call |
| MinMaxEngine.EncodeBoardKey | src-cpp/minmax.cpp:25-32 | the loop computes Key of the array, in [0, 19683) |
| MinMaxEngine.HasEmptyCell | src-cpp/minmax.cpp:55-61 | the hasMove loop, repeated as the any loop of best_move, finds an empty cell iff the board has one |
| MinMaxEngine.Engine.constructor | src-cpp/minmax.cpp:34-37 | static storage starts zeroed and not initialised, and satisfies Valid, which includes the cache invariant |
| MinMaxEngine.Engine.InitCacheIfNeeded | src-cpp/minmax.cpp:36-44 | the new static state is Init of the old one |
| MinMaxEngine.Engine.Negamax | src-cpp/minmax.cpp:46-92 | the board is restored, the value and new static state are those of MinMax.Negamax, the value lies in [-1, 1], and the cache invariant is kept |
| MinMaxEngine.Engine.SearchCell | src-cpp/minmax.cpp:74-77 | one trial move: the cell is marked, searched and unmarked; the result is the negated MinMax.Negamax value of the marked board, in [-1, 1] |
| MinMaxEngine.Engine.TryMoves | src-cpp/minmax.cpp:72-84 | the board is restored, and the best value and new state are those of MinMax.Scan from cell 0 |
| MinMaxEngine.Engine.BestMove | src-cpp/minmax.cpp:95-133 | the index and the new static state are those of MinMax.BestMove; the index is -1 exactly when n ≠ 9, a line is complete or no cell is empty, and otherwise an empty cell |
| MinMaxEngine.Engine.TryRoots | src-cpp/minmax.cpp:120-132 | the board is restored, and the index and new state are those of the fold RootPick from cell 0 |
| Lib.CheckLines | src/lib.rs:11-16 | definition of the loop over the wins table; its properties are stated by CheckLinesFirstTriple |
| Lib.Triple | src/lib.rs:12 | the test of check_win: the first cell of the triple is non-zero and all three are equal |
| Lib.CheckWin | src/lib.rs:5-17 | definition of check_win; its properties are stated by CheckWinFirstTriple and CheckWinMark |
| Lib.CheckLinesFirstTriple | src/lib.rs:11-16 | the scan from line wi on is 0 iff no later triple holds three equal non-zero cells; otherwise the first one holds the result |
| Lib.CheckWinFirstTriple | src/lib.rs:5-17 | check_win is 0 iff no triple holds three equal non-zero cells; otherwise it is the value of the first such triple |
| Lib.Minimax | src/lib.rs:19-48 | definition of minimax with *alpha and *beta passed in and out; its properties are stated by MinimaxTerminal, MinimaxNarrows and MinimaxInReach |
| Lib.Loop | src/lib.rs:28-47 | definition of the loop of minimax; its properties are stated by LoopNarrows and LoopInReach |
| Lib.Initial | src/lib.rs:28 | the starting `best`: i32::MIN for player 1, i32::MAX otherwise |
| Lib.MinimaxTerminal | src/lib.rs:20-26 | a won board scores winner·(10 − depth), a full board 0, and *alpha and *beta are left unchanged |
| Lib.MinimaxNarrows | src/lib.rs:29-46 | a call never lowers *alpha and never raises *beta |
| Lib.LoopNarrows | src/lib.rs:35-44 | the same for the loop from any cell |
| Lib.CheckWinMark | src/lib.rs:5-17 | on a board of marks check_win is -1, 0 or 1 |
| Lib.MinimaxInReach | src/lib.rs:19-48 | on a board of marks the score lies in [−(10 − depth), 10 − depth] |
| Lib.LoopInReach | src/lib.rs:28-47 | the loop's score is in that range, or is the starting value when no empty cell is left |
| Lib.RootScore | src/lib.rs:55-60 | definition of one root search: O in cell i, then minimax for X at depth 0 from the full window |
| Lib.RootScores | src/lib.rs:54-60 | one score per cell |
| Lib.PickLowest | src/lib.rs:61-64 | definition of the best_score/move_idx update; its properties are stated by PickLowestRange and PickLowestMinimum |
| Lib.BestMove | src/lib.rs:50-68 | definition of best_move; its properties are stated by BestMoveRange and BestMoveLowestMinimum |
| Lib.PickLowestRange | src/lib.rs:50-68 | the pick is an index below n, and it is 0 when no cell was searched |
| Lib.PickLowestMinimum | src/lib.rs:61-64 | the pick holds the smallest score seen, and every earlier index holds a strictly greater one |
| Lib.BestMoveRange | src/lib.rs:50-68 | best_move returns an index in 0..8, and 0 on a full board |
| Lib.BestMoveLowestMinimum | src/lib.rs:54-66 | on a board with an empty cell, best_move returns an empty cell of least root score, the lowest such cell |
| Lib.TrailingMarkGivesTwo | src/lib.rs:23-25 | with a mark in a tenth cell, best_move on cells 1, 1, 0, −1, −1, 1, 1, −1, 0 returns 2 |
| Lib.TrailingZeroGivesEight | src/lib.rs:23-25 | with 0 in the tenth cell, the same nine cells give 8: `contains(&0)` reads the whole slice |
| LibEngine.Minimax | src/lib.rs:19-48 | the board ends as it began; the score and the final *alpha and *beta are those of Lib.Minimax |
| LibEngine.TryMoves | src/lib.rs:28-47 | the board is restored, and the result is Lib.Loop from cell 0 |
| LibEngine.BestMove | src/lib.rs:50-68 | the input is not modified, and the move is Lib.BestMove of it |
| App.EvaluateFrom | src/App.jsx:49-54 | definition of the loop over lines; its properties are stated by EvaluateFromFirstLine |
| App.Evaluate | src/App.jsx:43-55 | definition of evaluate; its properties are stated by EvaluateFirstLine |
| App.Status | src/App.jsx:60-65 | definition of the status text; its properties are stated by StatusMeaning |
| App.THINKING | src/App.jsx:64 | the status text while the AI moves, character for character as the file encodes it |
| App.EMPTY | src/App.jsx:6 | the nine zero cells of `Array(9).fill(0)`, the initial board and the one reset installs |
| App.EvaluateFromFirstLine | src/App.jsx:49-54 | from line li on: winner 0 with no cells iff no line sums to ±3; otherwise the first such line, its cells, and the sign of its sum |
| App.EvaluateFirstLine | src/App.jsx:43-55 | evaluate names the first line of the array that sums to ±3, with its three cells, or gives {winner: 0, line: []} |
| App.StatusMeaning | src/App.jsx:60-65 | each status text holds exactly when its situation does; a win takes precedence over "Draw!" |
| App.Game.constructor | src/App.jsx:6-8 | an empty board, X to move, not loading |
| App.Game.Reset | src/App.jsx:105-109 | an empty board, X to move, not loading |
| App.Game.HandleClick | src/App.jsx:67-78 | a click is ignored unless it is X's turn, the cell is empty and there is no winner; otherwise only cell i becomes 1, the turn passes to the AI, and aiMove of that board is scheduled |
| App.Game.AiMove | src/App.jsx:80-103 | nothing happens before the module is loaded; otherwise the move is applied only when mv is an empty cell, only that cell becomes -1 and X moves next, and loading ends unset |
| Agreement.CompleteIsTriple | src-cpp/minmax.cpp:16-20 | on marks, a line sums to ±3 iff its three cells are equal and non-zero |
| Agreement.EvaluateFromAgrees | src/App.jsx:49-54 | the component's line scan names the same winner as the C++ scan |
| Agreement.AppEvaluateAgrees | src/App.jsx:43-55 | the component's evaluate and the C++ evaluate agree |
| Agreement.CheckLinesAgrees | src/lib.rs:11-16 | the Rust scan from any line and the C++ scan agree on boards of marks |
| Agreement.CheckWinAgrees | src/lib.rs:5-17 | check_win and the C++ evaluate agree on boards of marks |
| Agreement.EngineMoveAccepted | src/App.jsx:92-100 | the C++ move passes aiMove's guard iff there is no winner and an empty cell, iff the status reads "AI is thinking…"; otherwise it is -1 |
| Pruning.Value | src/lib.rs:19-48 | definition of plain minimax with the same scoring and no pruning; the reference for ByValueBrackets |
| Pruning.ValueLoop | src/lib.rs:28-47 | definition of its fold over the children |
| Pruning.MinimaxByValue | src/lib.rs:19-48 | definition of minimax with alpha and beta passed by value; its properties are stated by ByValueBrackets and ByValueExact |
| Pruning.LoopByValue | src/lib.rs:28-47 | definition of its loop; its properties are stated by LoopByValueBrackets |
| Pruning.ValueLoopMonotone | src/lib.rs:35-41 | folding more children only raises a maximum or lowers a minimum |
| Pruning.ValueInReach | src/lib.rs:19-48 | the plain minimax value lies in [−(10 − depth), 10 − depth] on boards of marks |
| Pruning.ValueLoopInReach | src/lib.rs:28-47 | the same for its fold |
| Pruning.ByValueBrackets | src/lib.rs:19-48 | with by-value windows, a result at or below alpha bounds the true value from above, one at or above beta from below, and one in between is exact |
| Pruning.LoopByValueBrackets | src/lib.rs:28-47 | the loop keeps that bracket from any cell |
| Pruning.ByValueExact | src/lib.rs:57-59 | from the full window (i32::MIN, i32::MAX) the by-value search returns the minimax value |
| Pruning.RootScoresByValue | src/lib.rs:54-60 | one score per cell |
| Pruning.GameScore | src/lib.rs:55-60 | definition: the minimax value for X once O takes cell i |
| Pruning.BestMoveByValue | src/lib.rs:50-68 | definition of best_move over the by-value search; its properties are stated by BestMoveByValueOptimal |
| Pruning.BestMoveByValueOptimal | src/lib.rs:54-66 | the corrected best_move returns an empty cell of least minimax value, the lowest such cell |
| Counterexample.RustScore2 | src/lib.rs:54-60 | on the fork board the Rust root score of cell 2 is 9 |
| Counterexample.RustScore4 | src/lib.rs:54-60 | the Rust root score of cell 4 is 7 |
| Counterexample.RustScore7 | src/lib.rs:54-60 | the Rust root score of cell 7 is 7 |
| Counterexample.RustScore8 | src/lib.rs:54-60 | the Rust root score of cell 8 is -8 |
| Counterexample.GameScore2 | src/lib.rs:19-48 | the minimax value after O takes cell 2 is 9 |
| Counterexample.GameScore4 | src/lib.rs:19-48 | the minimax value after O takes cell 4 is -8, a win for O |
| Counterexample.GameScore7 | src/lib.rs:19-48 | the minimax value after O takes cell 7 is 9 |
| Counterexample.GameScore8 | src/lib.rs:19-48 | the minimax value after O takes cell 8 is 9, a win for X |
| Counterexample.SharedWindowLoses | src/lib.rs:19-68 | the Rust best_move as written plays cell 8 (value 9) although cell 4 has value -8 |
| Counterexample.ByValuePlaysFork | src/lib.rs:19-68 | the corrected best_move plays cell 4 |

## Left out

- The wasm-bindgen and Emscripten export glue have no logic, so they are not modelled. This covers `#[wasm_bindgen]`, `EMSCRIPTEN_KEEPALIVE` and the `extern "C"` block.
- The component's module loading and readiness polling are asynchronous I/O and timing (`createMinMaxModule`, `performance.now`, `setTimeout`). `AiMove` takes `loaded`, whether the module is there, as a parameter.
- `_malloc`, `_free` and the `HEAP32` copy are foreign memory management. `AiMove` takes `mv`, the engine's answer, as a parameter. Agreement.EngineMoveAccepted connects that parameter to MinMax.BestMove.
- Deferring `aiMove` with `setTimeout` and React's state batching are event-loop scheduling. `HandleClick` returns the board it schedules `aiMove` for, and the fields of `Game` are updated at once.
- JSX rendering, CSS and the winning-line highlight are presentation only and are not modelled.
- Neither engine is proved to play optimally.
  - The Rust engine does not; see Findings.
  - The C++ engine reads a cached value as exact even when it was stored from a search cut off by a narrow window. Its moves can therefore depend on which positions were searched, and with which window, before. The model keeps the cache exactly as the code does, but proves only the range and write-once properties of the cache and the cache invariant across calls. No position where the cache changes the move is exhibited.
- Cell values outside {-1, 0, 1} are excluded by the `requires` of the C++ functions: with such values `encode_board_key` can index outside `cache_table`, which is undefined behaviour. Players other than ±1 are excluded as a modelling choice. An `ai_player` of 0, which marks nothing, would still give a well-defined search, but the callers use only -1. The code checks nothing except `n != 9`.
- Lib: integer overflow of `i32` arithmetic is not modelled. On nine cells of marks every score lies within ±10 (Lib.MinimaxInReach). Longer slices can return the sentinels i32::MIN or i32::MAX as scores (Lib.TrailingZeroGivesEight), but no arithmetic is done on a score, so no overflow occurs either way.
- Lib.BestMove: slices shorter than nine cells make the Rust code panic, so the model requires at least nine. Cells past the ninth are copied and are read by `contains(&0)` in minimax: a 0 there keeps the search going when cells 0 to 8 are full, and `best` then stays at its starting value. This can change the move, and the model reproduces it (`0 !in b` in Lib.Minimax; Lib.TrailingMarkGivesTwo and Lib.TrailingZeroGivesEight show one such board).
- THINKING is the status string exactly as the source file spells it. The ellipsis is stored as the three characters of its UTF-8 bytes read as Windows-1252.
- Agreement.EngineMoveAccepted is stated for the C++ engine only. The component calls only the C++ export `best_move`.

Behaviour of the code a reader might not expect, which the model follows:
- the Rust `best_move` returns 0, never -1, on a full board;
- the Rust engine is not optimal (see Findings); the C++ engine is not proved optimal, and its cache can make its answers depend on earlier searches;
- no input is validated beyond `n != 9`;
- the C++ cache is one global table that persists across calls to `best_move`.

## Findings

| source | as written | input that shows it | evidently intended | confidence | as-written member | corrected member |
|---|---|---|---|---|---|---|
| src/lib.rs:19-59 | `alpha` and `beta` are `&mut i32` shared by every call below the root. A child's narrowing of the window leaks into its siblings and its parent, so a subtree is cut off against bounds that do not belong to it. | board O X . / X . X / O . . (`[-1,1,0,1,0,1,-1,0,0]`), O to move: the Rust root scores are 9, 7, 7, -8 for cells 2, 4, 7, 8, so best_move plays 8, after which X wins; cell 4 wins for O (minimax value -8) | alpha-beta with the window passed by value, which returns the minimax value from the full window, so best_move picks a cell of least minimax value | not executed | Counterexample.SharedWindowLoses | Pruning.BestMoveByValueOptimal, Counterexample.ByValuePlaysFork |
