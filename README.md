# 3t: a verified model of a self-learning noughts-and-crosses engine

This project models the core of `3t`, a TypeScript noughts-and-crosses engine
that learns by self-play, and proves properties of that model. It has three
coupled parts.

- **The board** (`Board`, with the grid helpers of `Utils`). A board is a flat,
  row-major list of cells. From it the engine derives:
  - its rows, columns and diagonals;
  - the winner, draw and completion rules;
  - the next mover and the available positions.

  It also applies moves by copy-on-write and encodes a board as a base-3
  integer id (and back).
- **The brain** (`BrainStore`, with the older `LegacyLearn`). A table from game
  id to three counters: X wins, O wins and draws, seeded at one each. `learn`
  credits every board of a finished game with that game's outcome. `recall`
  and `predict` look a board up, inserting it when missing. `load` merges saved
  records, and `toJson` lists them in insertion order.
- **The simulation driver** (`Simulations`). It plays random legal games from
  the empty board until each game is complete, and has one shared brain learn
  each game.

Files:

- `utils.dfy`: module `Utils`, for lib/utils.ts.
- `game_state.dfy`: module `Board`, for lib/game_state.ts.
- `brain.dfy`: module `BrainStore`, for lib/brain.ts.
- `learn.dfy`: module `LegacyLearn`, for lib/learn.ts.
- `simulation.dfy`: module `Simulations`, for lib/simulation.ts.
- `wrappers.dfy`: an `Option` type.

Modelling choices:

- **Types.**
  - A cell is `Cross | Circle | NoMove` (the source's `1 | 0 | null`).
  - A board is a value, because `GameState` copies its list on construction
    and every move builds a new instance.
  - Ids and counters are unbounded naturals.
  - Predictions are reals.
- **Brains are classes.**
  - The brain classes hold a map from id to mutable record objects, plus the
    key insertion order of the JavaScript `Map`.
  - Each method is proved against functions on the abstract state
    (`Recalled`, `LearnOne`, `Learned`, `Merge`, `Extend`, `Records`).
  - What those functions do is proved as lemmas.
- **Randomness.** `Math.random` is replaced by a nondeterministic choice
  (`Utils.RandomElem`). The driver is therefore proved for every sequence of
  choices.
- **File input.** The file `load` reads becomes the list of records it
  contains. The simulation constructor receives those records as an optional
  argument.
- **Code over specification.** Where the repository's own description and the
  code disagree, the model follows the code:
  - The id of the all-empty n-cell board is 3^n − 1, not 0.
  - `load` merges into the existing table; it does not replace it.
  - On a board with no cells, `winner` is X: both diagonals are empty lists,
    and every cell of an empty list is X.
  - Ids do not identify boards across lengths. `toId` reads the digits
    without their count, so a board beginning with O gets the same id as the
    board without those leading O cells: O X and X both have id 1. Ids are
    distinct only among boards of one length (`Board.ToIdInjective`,
    `Board.ToIdCollision`).

## Model

| member | source | states |
|---|---|---|
| Utils.Tail | lib/utils.ts:5 | for a non-empty list, the result is its last element (the list is the rest followed by it) |
| Utils.Slice | lib/utils.ts:14 | `slice` with clamped bounds: the exact sub-list when the bounds are in range, empty when they start past the end |
| Utils.Isqrt | lib/game_state.ts:47 | the integer stand-in for `Math.sqrt` of the cell count; IsqrtBounds and RootUnique prove it is the exact side on a square count |
| Utils.IsqrtBounds | lib/game_state.ts:46-48 | the integer side used for `Math.sqrt` of the cell count satisfies r² ≤ n < (r+1)² |
| Utils.RootUnique | lib/game_state.ts:46-48 | on a perfect square g², the side is exactly g |
| Utils.Chunkify | lib/utils.ts:11-15 | `chunkify` returns exactly `size` chunks |
| Utils.ChunkSlice | lib/utils.ts:11-15 | on a g×g list, chunk i is the slice from i·g to (i+1)·g |
| Utils.ChunkAt | lib/utils.ts:11-15 | on a g×g list, cell j of chunk i is flat cell i·g+j, and every chunk has length g |
| Utils.ChunkifyFlatten | lib/utils.ts:11-15 | concatenating the chunks of a size×size list gives the list back |
| Utils.Column | lib/utils.ts:24-28 | the cells that one pass of the outer loop of `transpose` copies into a result row: a column of exactly g cells |
| Utils.Transposed | lib/utils.ts:21-31 | the transposed list, as a value: the columns of the grid concatenated; TransposedAt gives every cell |
| Utils.TransposedAt | lib/utils.ts:21-31 | the transpose keeps the length and holds cell (j, i) at position (i, j) |
| Utils.Transpose | lib/utils.ts:21-31 | the nested-loop copy over an array returns exactly the transpose |
| Utils.TransposeExample | tests/utils.ts:21-34 | [0..8] transposes to [0,3,6,1,4,7,2,5,8] |
| Utils.Reversed | lib/utils.ts:37 | `reverse`: same length, element i is element n−1−i |
| Utils.DiagonalsAt | lib/utils.ts:33-40 | leading diagonal cell i is grid cell (i, i); trailing diagonal cell i is grid cell (g−1−i, i) |
| Utils.GridDiagonals | lib/utils.ts:33-40 | `diagonals` of a g×g list gives two lists of length g |
| Utils.Diagonals | lib/utils.ts:33-40 | both diagonals have the grid's side as length |
| Utils.DiagonalsExample | tests/utils.ts:36-45 | the diagonals of [0..8] are [0,4,8] and [6,4,2] |
| Utils.RandomElem | lib/utils.ts:54-56 | on a non-empty list, returns some element of the list |
| Board.GridLength | lib/game_state.ts:46-48 | `gridLength`: the side of the grid, exact on a square cell count (Utils.RootUnique) |
| Board.NewGame | lib/game_state.ts:37 | `newGame(n)` has n cells, all empty |
| Board.Empty | lib/game_state.ts:216-220 | `empty(n)` has n cells, all empty |
| Board.Count | lib/game_state.ts:122-123 | a `filter(...).length` count never exceeds the number of cells |
| Board.CountAbsent | lib/game_state.ts:121-128 | a `filter(...).length` count is 0 exactly when no cell holds that value |
| Board.CountUpdate | lib/game_state.ts:137-142 | overwriting one cell moves one unit of count from the old value to the new one |
| Board.CountNewGame | lib/game_state.ts:37 | the empty board has n empty cells and no X or O |
| Board.Rows | lib/game_state.ts:54-56 | `rows`: the grid's chunks top to bottom; RowAt gives every cell |
| Board.Columns | lib/game_state.ts:62-64 | `columns`: the chunks of the transposed grid; ColumnAt gives every cell |
| Board.Diagonals | lib/game_state.ts:69-71 | `diagonals`: the two grid diagonals; Utils.DiagonalsAt gives every cell |
| Board.RowAt | lib/game_state.ts:54-56 | row i, cell j of the board is flat cell i·g+j |
| Board.ColumnAt | lib/game_state.ts:62-64 | column j, cell i of the board is flat cell i·g+j, so column j is [m[j], m[g+j], …] |
| Board.ColumnsExample | tests/game_state.unit.ts:72-80 | the board O O O / X X X / O O O has the column O X O three times |
| Board.RowFilledIff | lib/game_state.ts:77-83 | a row of `rows` is all v exactly when every cell of that grid row is v |
| Board.ColumnFilledIff | lib/game_state.ts:77-83 | a column of `columns` is all v exactly when every cell of that grid column is v |
| Board.DiagonalsFilledIff | lib/game_state.ts:77-83 | each diagonal of `diagonals` is all v exactly when every cell of that grid diagonal is v |
| Board.LinesWon | lib/game_state.ts:77-83 | some line of rows, columns and diagonals is all v exactly when some grid row, column or diagonal is |
| Board.WonLineIsGridLine | lib/game_state.ts:78-79 | a line returned by the getters that is all v lies on a grid row, column or diagonal |
| Board.GridLineIsWonLine | lib/game_state.ts:78-79 | a full grid row, column or diagonal appears among the getters' lines |
| Board.Winner | lib/game_state.ts:77-83 | `winner` over the lines of the getters; WinnerMeaning states what it means |
| Board.WinnerMeaning | lib/game_state.ts:77-83 | `winner` is X exactly when X has a line; O exactly when O has one and X has none; otherwise none (X takes priority) |
| Board.ZeroCellWinner | lib/game_state.ts:77-83 | on the board with no cells, `winner` is X, because both diagonals are empty |
| Board.CrossRowWins | tests/game_state.unit.ts:83-86 | three X along the top row of the empty 3×3 board: X wins |
| Board.CircleRowWins | tests/game_state.unit.ts:87-90 | three O along the top row: O wins |
| Board.EmptyHasNoWinner | tests/game_state.unit.ts:91-93 | the empty 3×3 board has no winner |
| Board.Drawn | lib/game_state.ts:89-94 | `drawn`: no winner and no empty cell; DrawnMeaning states it in terms of lines |
| Board.Complete | lib/game_state.ts:100-102 | `complete`: drawn or won; DrawnMeaning and CompleteIffNoneAvailable state what it means |
| Board.DrawnMeaning | lib/game_state.ts:89-102 | `drawn` holds exactly when neither mark has a line and no cell is empty; `complete` exactly when a mark has a line or no cell is empty |
| Board.DrawnBoardNoLine | tests/game_state.unit.ts:107-112 | X X O / O O X / X X O has no line of either mark |
| Board.DrawnExample | tests/game_state.unit.ts:106-113 | X X O / O O X / X X O is drawn and complete |
| Board.WonBoardExample | tests/game_state.unit.ts:217-224 | X X X / O O X / X _ _ is won, not drawn and complete, and offers no position although two cells are empty |
| Board.NextMover | lib/game_state.ts:121-128 | `nextMover`: none on a full board, X when O has played at least as often as X, O otherwise; NextMoverMeaning states it on balanced boards |
| Board.NextMoverMeaning | lib/game_state.ts:121-128 | `nextMover` is none exactly on a full board; on a balanced board it is X exactly when the counts are level, O exactly when X leads by one |
| Board.NextMoverExample | tests/game_state.unit.ts:155-163 | from the empty board the movers are X, then O; a board holding one O alone has X to move |
| Board.WithMove | lib/game_state.ts:137-142 | the copy has the same length, holds m at pos, and keeps every other cell |
| Board.ApplyMove | lib/game_state.ts:137-142 | the array copy with one cell written is exactly that board |
| Board.EmptyIndices | lib/game_state.ts:187-189 | exactly the indices of empty cells, strictly ascending, as many as there are empty cells |
| Board.Available | lib/game_state.ts:184-192 | `availablePositions` is [] once there is a winner; otherwise its members are exactly the empty cells, strictly ascending |
| Board.AvailablePositions | lib/game_state.ts:184-192 | the pushing scan returns exactly the available positions |
| Board.CompleteIffNoneAvailable | lib/game_state.ts:89-102 | a board is complete exactly when no position is available |
| Board.NotCompleteHasMove | lib/simulation.ts:36-38 | a board that is not complete has an available position and a next mover, so the `null` exit is never taken |
| Board.IsStep | lib/game_state.ts:137-153 | one legal step: the next mover placed on an available position; PossibleNextStates, ApplyRandomMove and StepInvariants characterise it |
| Board.PossibleNextStates | lib/game_state.ts:171-175 | one state per available position; a board is among them exactly when it is one legal step away |
| Board.ApplyRandomMove | lib/game_state.ts:149-153 | with a position available, the result is one legal step away; with none, the board is unchanged |
| Board.StepInvariants | lib/game_state.ts:137-153 | a legal step keeps the size, fills exactly one more cell and keeps the X/O counts balanced |
| Board.Pow3 | lib/game_state.ts:231 | every power of three is at least 1 |
| Board.Digit | lib/game_state.ts:224-228 | each cell maps to one base-3 digit: O to 0, X to 1, empty to 2 |
| Board.Digits | lib/game_state.ts:223-229 | the digit list has one digit per cell, each the digit of that cell |
| Board.Undigit | lib/game_state.ts:244-248 | decoding a digit gives the cell that encodes to it |
| Board.ToId | lib/game_state.ts:222-232 | the id of an n-cell board is below 3^n |
| Board.ToIdHead | lib/game_state.ts:222-232 | the first cell is the most significant base-3 digit: id = digit(m₀)·3^(n−1) + id of the rest |
| Board.ToIdEmptyBoard | lib/game_state.ts:222-232 | the all-empty n-cell board has id 3^n − 1 |
| Board.ToIdExample | tests/game_state.unit.ts:24-30 | X, O and seven empty cells has id 8747, the numeral 102222222 in base 3 |
| Board.FromId | lib/game_state.ts:239-251 | as written, the decoded board has one cell per digit of the unpadded base-3 numeral |
| Board.Base3 | lib/game_state.ts:241 | `toString(3)` has at least one digit, all below 3 |
| Board.ToIdPositive | tests/game_state.unit.ts:143-152 | a board that does not start with O has a positive id |
| Board.Base3ToId | lib/game_state.ts:239-251 | without a leading O, the numeral of the id is exactly the board's digits |
| Board.FromIdRoundTrip | lib/game_state.ts:239-251 | `fromId(toId(m)).moves == m` for a non-empty m that does not start with O |
| Board.Base3Length | lib/game_state.ts:241 | an id below 3^n has at most n base-3 digits |
| Board.FromIdDropsLeadingCircle | lib/game_state.ts:239-251 | as written, a board of two or more cells starting with O decodes to a shorter board |
| Board.ToIdCollision | lib/game_state.ts:222-232 | O X and X are different boards with the same id, so ids are not unique across lengths |
| Board.FromIdCounterexample | lib/game_state.ts:239-251 | as written, O X has id 1 and decodes to the single cell X |
| Board.PaddedDigits | lib/game_state.ts:241 | the padded numeral has exactly n digits, all below 3 |
| Board.FromIdPadded | lib/game_state.ts:239-251 | the corrected decoder gives a board of exactly the requested length |
| Board.FromIdPaddedSnoc | lib/game_state.ts:239-251 | the corrected decoder's last cell is the decoded lowest digit, and the other cells are the decoding of id / 3 |
| Board.PaddedRoundTrip | lib/game_state.ts:239-251 | with padding to the board length, decoding inverts `toId` on every board |
| Board.ToIdInjective | lib/game_state.ts:222-232 | two boards of one length with the same id are the same board |
| Board.PaddedInverse | lib/game_state.ts:222-251 | every id below 3^n is the id of the n-cell board it decodes to |
| BrainStore.PredictionsOf | lib/brain.ts:79-87 | the three shares sum to 1 and each times the total is its counter; no prediction when the total is 0 |
| BrainStore.FreshPredictsThirds | lib/brain.ts:70-87 | a fresh (1,1,1) record predicts 1/3 for each outcome |
| BrainStore.Credited | lib/brain.ts:116-119 | crediting n outcomes keeps the id, adds n to the total and lowers no counter |
| BrainStore.CreditedAdd | lib/brain.ts:116-119 | crediting m outcomes and then n more is crediting m+n |
| BrainStore.Recalled | lib/brain.ts:130-138 | the abstract `recall`: the table unchanged when id is present, else with a fresh (1,1,1) entry; Brain.Recall is proved against it |
| BrainStore.LearnOne | lib/brain.ts:113-120 | one state of `learn`: recall, then credit the outcome once; LearnAt states the effect |
| BrainStore.Learned | lib/brain.ts:110-121 | the abstract `learn` over a trajectory; LearnDomain, LearnAt and LearnEffect state what it does |
| BrainStore.LearnedStep | lib/brain.ts:113-120 | learning one more state is one more `recall` and boost |
| BrainStore.Occurrences | lib/brain.ts:113-120 | an id occurs zero times exactly when it is absent |
| BrainStore.LearnDomain | lib/brain.ts:110-121 | after `learn`, the ids present are exactly those present before plus those of the trajectory |
| BrainStore.LearnAt | lib/brain.ts:110-121 | the entry of an id after `learn` is its old (or fresh) record credited once per occurrence in the trajectory |
| BrainStore.LearnEffect | lib/brain.ts:110-121 | every entry at once: trajectory ids added when missing, each credited per occurrence, all others untouched |
| BrainStore.LearnNeverDecreases | lib/learn.ts:107-125 | learning drops no entry and lowers no counter |
| BrainStore.Ids | lib/brain.ts:114 | one id per state, the state's `toId` |
| BrainStore.Extend | lib/brain.ts:130-138 | the key order of the `Map` after inserting keys in turn; ExtendFacts states its properties |
| BrainStore.ExtendFacts | lib/brain.ts:155-158 | `Map` insertion keeps the old keys first and in place, lists exactly the old and new keys, and never lists one twice |
| BrainStore.ExtendStep | lib/brain.ts:135 | inserting one more key extends the order by that key alone |
| BrainStore.ExtendRebuilds | lib/brain.ts:150-152 | inserting a duplicate-free key list into an empty table yields that list as the order |
| BrainStore.Merge | lib/brain.ts:150-152 | the abstract `load`: one `set` per record, in order; MergeEffect states the result |
| BrainStore.MergeStep | lib/brain.ts:150-152 | merging one more record sets the entry of its id |
| BrainStore.LastFor | lib/brain.ts:150-152 | the last record for an id, present exactly when some record has that id |
| BrainStore.MergeEffect | lib/brain.ts:150-152 | after `load` an id holds its last record; an id without records keeps its entry or stays absent |
| BrainStore.RecordIds | lib/brain.ts:150-152 | one id per record, in order |
| BrainStore.Records | lib/brain.ts:155-158 | `toJson`'s list has one record per key, in key order, equal to the entry |
| BrainStore.MergeRecords | lib/brain.ts:150-161 | merging `toJson`'s list into an empty table gives the entries of the listed keys |
| BrainStore.JsonRoundTrip | lib/brain.ts:150-161 | loading `toJson`'s list into an empty brain reproduces the same entries in the same key order |
| BrainStore.GameStateMemory.Json | lib/brain.ts:89-96 | `json`: the four fields of the record object as a plain record; the boosts, Total and Predictions are stated through it |
| BrainStore.GameStateMemory.constructor | lib/brain.ts:40-45 | the record object holds exactly the given counters and id |
| BrainStore.GameStateMemory.NewEmpty | lib/brain.ts:70-77 | `newEmpty(id)` is a new object holding (1,1,1) and id |
| BrainStore.GameStateMemory.Total | lib/brain.ts:47-49 | `total` is x + o + draw of the record |
| BrainStore.GameStateMemory.Predictions | lib/brain.ts:79-87 | `predictions` are the record's shares as `PredictionsOf` states them |
| BrainStore.GameStateMemory.BoostX | lib/brain.ts:58-60 | one more X win, the other counters and the id unchanged; returns the new count |
| BrainStore.GameStateMemory.BoostO | lib/brain.ts:62-64 | one more O win, the other counters and the id unchanged; returns the new count |
| BrainStore.GameStateMemory.BoostDraw | lib/brain.ts:66-68 | one more draw, the other counters and the id unchanged; returns the new count |
| BrainStore.BoostedInPlace | lib/brain.ts:115-119 | a boost of one record in place changes only that id's entry and keeps the table well formed |
| BrainStore.KeyedAfterCredit | lib/brain.ts:116-119 | crediting an entry keeps it under its own id |
| BrainStore.ContentsOfUpdate | lib/brain.ts:135 | setting an object under an id sets that id's entry to the object's record |
| BrainStore.ContentsPointChange | lib/brain.ts:115-119 | when only the object under one id may have changed, only that entry has |
| BrainStore.ObjectsOfInsert | lib/brain.ts:134-135 | inserting under a new id adds exactly that object |
| BrainStore.ShapedInsert | lib/brain.ts:134-135 | inserting a new object under a new id keeps ids distinct and appends the id to the key order |
| BrainStore.WellKeyedCoherent | lib/brain.ts:99-104 | a well-formed table has coherent abstract entries |
| BrainStore.Brain.constructor | lib/brain.ts:102-104 | a new brain holds no entries and no keys |
| BrainStore.Brain.Recall | lib/brain.ts:130-138 | the existing record of id, or a fresh (1,1,1) one inserted last; no other entry is added or altered |
| BrainStore.Brain.Predict | lib/brain.ts:141-145 | the same table effect as `recall`, returning that record's predictions |
| BrainStore.Brain.LearnState | lib/brain.ts:113-120 | one state of `learn`: recall, then the counter of the outcome grows by 1 |
| BrainStore.Brain.Learn | lib/brain.ts:110-121 | the table becomes `Learned` of the old one, with the trajectory's ids and the last state's winner; the key order grows by the new ids |
| BrainStore.Brain.Store | lib/brain.ts:151 | one record replaces or inserts the entry of its id; the key order grows only by a new id |
| BrainStore.Brain.Load | lib/brain.ts:147-153 | the table becomes the merge of the old one with the records, in order |
| BrainStore.Brain.ToJson | lib/brain.ts:155-161 | one record per key, in key order, equal to the stored record |
| LegacyLearn.Brain.constructor | lib/learn.ts:99-101 | a new brain holds no entries and no keys |
| LegacyLearn.Brain.Insert | lib/learn.ts:115-118 | a missing id gets a new (1,1,1) object, appended to the key order; nothing else changes |
| LegacyLearn.Brain.LearnState | lib/learn.ts:111-123 | one state: insert a fresh record if missing, then the counter of the outcome grows by 1 |
| LegacyLearn.Brain.Learn | lib/learn.ts:107-125 | the same table effect as the newer brain's `learn` |
| LegacyLearn.Brain.Store | lib/learn.ts:130 | one record replaces or inserts the entry of its id |
| LegacyLearn.Brain.Load | lib/learn.ts:127-132 | the table becomes the merge of the old one with the records, other entries kept |
| Simulations.PlayStateFacts | lib/simulation.ts:34-41 | state i of a play has `size` cells, exactly i of them filled, and balanced X/O counts |
| Simulations.PlayLength | lib/simulation.ts:36-41 | a play has at most size + 1 states, so the loop runs at most `size` times |
| Simulations.PlayEnds | lib/simulation.ts:36 | no legal step leaves the last board of a finished play |
| Simulations.PartialPlayStep | lib/simulation.ts:37-40 | appending a legal step to a play-in-progress gives a play-in-progress |
| Simulations.AllPlaysStep | lib/simulation.ts:27-31 | appending a finished play to finished plays keeps them all finished |
| Simulations.AfterPlaysStep | lib/simulation.ts:27-31 | learning one more play is one more `learn` of that play |
| Simulations.PlaysRemembered | lib/simulation.ts:27-42 | every board of every play learnt has an entry afterwards |
| Simulations.PlayOut | lib/simulation.ts:34-41 | the move loop yields a finished play: from the empty board, one legal step at a time, ending complete |
| Simulations.Simulation.constructor | lib/simulation.ts:16-22 | a new brain, holding the merge of the saved records when there are some |
| Simulations.Simulation.DispatchSimulation | lib/simulation.ts:33-43 | one finished play is made and learnt exactly once by the shared brain |
| Simulations.Simulation.Run | lib/simulation.ts:27-31 | exactly `simulations` finished plays, learnt in sequence by the same brain |

## Left out

- I/O is not modelled: `console.log`, `require(file)` in `load`, `save` with
  `writeFile`/`writeFileSync`, and `JSON.stringify` in `toJson`. `load` is
  modelled from the parsed record list on; `toJson` up to the record list.
- `print`, `dividerString` and `toString` are left out. They only render the
  board to the console.
- bin/simulate.ts and bin/predict.ts are not part of this model. They are
  command-line glue, and bin/simulate.ts calls `load` and `save` methods that
  `Simulation` does not have.
- `Simulation.cleanUp` is left out; its body is empty.
- Floating point: `Math.random` and `randomInt` become a nondeterministic
  choice. The divisions in `predictions` are exact reals.
- Board.ToId: the 2^53 precision limit of JavaScript numbers is not modelled;
  ids are unbounded naturals. Distinct boards of one length get distinct ids
  (Board.ToIdInjective); boards of different lengths can share one
  (Board.ToIdCollision).
- Board.ToId: on the empty list the source computes `parseInt("", 3)`, which
  is NaN; the model gives 0.
- BrainStore.PredictionsOf: a record whose counters are all zero gives NaN
  shares in the source; the model returns no prediction instead.
- `Math.sqrt` becomes an integer square root, and every member built on the
  grid requires a perfect-square number of cells (`WellFormed`, `IsSquare`).
  That requirement stands for the source's error path: on a non-square count
  `Math.sqrt` is not an integer, and `new Array(size)` in `chunkify` throws a
  `RangeError`. The throwing path is not modelled.
  - `rows`, `columns`, `diagonals` and `Utils.Diagonals` throw directly.
  - So does everything built on them: `winner`, `drawn`, `complete`,
    `availablePositions`, `possibleNextStates` and `applyRandomMove`. Here that
    means Board.ApplyRandomMove and Board.PossibleNextStates.
  - `learn` throws through the `winner` of its last state. That is the
    `WellFormed(Tail(...))` requirement of BrainStore.Brain.Learn and
    LegacyLearn.Brain.Learn.
  - Simulations.PlayOut requires `IsSquare(size)`, because its first
    `complete` check would throw.
  - Simulations.Simulation.constructor requires it as well. The source's
    constructor accepts any size, but with a non-square size every later
    `dispatchSimulation` throws. A `Simulation` of non-square size, which
    could only be constructed and loaded, is not modelled.
  - Utils.Transpose: `transpose` alone does not throw on a non-square list. It
    writes to fractional indices, which JavaScript stores as named properties.
    Its only caller, `columns`, then throws in `chunkify`. The model does not
    cover the non-square case.
- Board.ApplyMove and Board.WithMove require pos to be in range. JavaScript
  would instead grow the array, or set a property named `undefined`.
- BrainStore.Brain.Learn and LegacyLearn.Brain.Learn require a non-empty
  trajectory. On an empty one, `tail` gives `undefined` and reading `winner`
  from it throws.
- Utils.Tail requires a non-empty list; on an empty list the source returns
  `undefined`.
- Utils.Diagonals: `diagonals` reverses its local `rows` array in place. The
  model computes the reversed list as a value; the array is local and nothing
  else sees it.
- Board.ApplyRandomMove: with no position available, the source calls
  `applyMove(nextMover, undefined)`. That sets a non-index property and keeps
  every cell, so the model returns the board unchanged. The `null` check in
  the simulation loop is absent, because `applyRandomMove` never returns
  `null`; Board.NotCompleteHasMove shows that the loop only calls it when a
  move exists.
- `GameStateMemory` of lib/learn.ts (lines 31-94) is textually the same class
  as in lib/brain.ts. Both brains share one model of it,
  `BrainStore.GameStateMemory`.
- The `Map` is keyed by numbers, and the model keys it by unbounded naturals.
  Saved records are taken as well typed: the JSON is not validated.

## Findings

| source | as written | input that shows it | evidently intended | confidence | as-written member | corrected member |
|---|---|---|---|---|---|---|
| lib/game_state.ts:239-251 | `fromId` decodes the digits of `id.toString(3)`, which has no leading zeros, so a board whose first cell is O loses that cell (and any O cells right after it) | the board O X has `toId` 1; `fromId(1)` is the one-cell board X | decode to the board's own length, left-padding the numeral with zeros, so that `fromId(toId(m))` is `m` | not executed | Board.FromIdCounterexample | Board.PaddedRoundTrip |
