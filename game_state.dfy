/**
 * The board of lib/game_state.ts: a flat, row-major list of cells, the lines
 * derived from it, the game rules read off those lines, copy-on-write moves,
 * and the base-3 id codec.
 *
 * `GameState` copies its list on construction and every move builds a new
 * instance, so a board is a value here.
 */
module Board {
  import opened Utils

  /** A cell: X (1 in the source), O (0) or empty (`null`). */
  datatype Move = Cross | Circle | NoMove

  /** A board: its cells, row by row. */
  datatype GameState = GameState(moves: seq<Move>)

  /** The grid getters take the square root of the cell count, so they need a square. */
  predicate WellFormed(s: GameState)
  {
    IsSquare(|s.moves|)
  }

  /** `gridLength`: the side of the grid. */
  function GridLength(s: GameState): nat
    requires WellFormed(s)
  {
    Isqrt(|s.moves|)
  }

  // ----- construction -----

  /** `newGame`: `n` empty cells. */
  function NewGame(n: nat): (ms: seq<Move>)
    ensures |ms| == n
    ensures forall k :: 0 <= k < n ==> ms[k] == NoMove
  {
    seq(n, _ => NoMove)
  }

  /** `GameState.empty`: the board of `n` empty cells. */
  function Empty(n: nat): (s: GameState)
    ensures |s.moves| == n
    ensures forall k :: 0 <= k < n ==> s.moves[k] == NoMove
  {
    GameState(NewGame(n))
  }

  // ----- counting cells (the `filter(...).length` of the source) -----

  function Count(ms: seq<Move>, v: Move): (c: nat)
    ensures c <= |ms|
  {
    if ms == [] then 0 else Count(ms[..|ms| - 1], v) + (if ms[|ms| - 1] == v then 1 else 0)
  }

  /** No cell holds `v` exactly when none is counted. */
  lemma {:induction false} CountAbsent(ms: seq<Move>, v: Move)
    ensures Count(ms, v) == 0 <==> v !in ms
  {
    if ms != [] {
      var init := ms[..|ms| - 1];
      CountAbsent(init, v);
      assert ms == init + [ms[|ms| - 1]];
    }
  }

  /** Overwriting one cell moves one unit of count from its old value to its new one. */
  lemma {:induction false} CountUpdate(ms: seq<Move>, pos: nat, m: Move, v: Move)
    requires pos < |ms|
    ensures Count(ms[pos := m], v) + (if ms[pos] == v then 1 else 0)
         == Count(ms, v) + (if m == v then 1 else 0)
  {
    var n := |ms|;
    var ms' := ms[pos := m];
    if pos == n - 1 {
      assert ms'[..n - 1] == ms[..n - 1];
    } else {
      assert ms'[..n - 1] == ms[..n - 1][pos := m];
      CountUpdate(ms[..n - 1], pos, m, v);
    }
  }

  /** The empty board has `n` empty cells and no X or O. */
  lemma {:induction false} CountNewGame(n: nat, v: Move)
    ensures Count(NewGame(n), v) == if v == NoMove then n else 0
  {
    if n > 0 {
      assert NewGame(n)[..n - 1] == NewGame(n - 1);
      CountNewGame(n - 1, v);
    }
  }

  // ----- lines -----

  /** `rows`: the grid's rows, top to bottom. */
  function Rows(s: GameState): seq<seq<Move>>
    requires WellFormed(s)
  {
    Chunkify(s.moves, GridLength(s))
  }

  /** `columns`: the rows of the transposed grid, left to right. */
  function Columns(s: GameState): seq<seq<Move>>
    requires WellFormed(s)
  {
    Chunkify(Transposed(s.moves), GridLength(s))
  }

  /** `diagonals`: the leading and the trailing diagonal. */
  function Diagonals(s: GameState): (seq<Move>, seq<Move>)
    requires WellFormed(s)
  {
    Utils.Diagonals(s.moves)
  }

  /** Row `i`, cell `j` is grid cell (i, j). */
  lemma RowAt(s: GameState, g: nat, i: nat, j: nat)
    requires WellFormed(s) && GridLength(s) == g && i < g && j < g
    ensures |Rows(s)| == g && |Rows(s)[i]| == g
    ensures Cell(g, i, j) < |s.moves| && Rows(s)[i][j] == s.moves[Cell(g, i, j)]
  {
    ChunkAt(s.moves, g, i, j);
  }

  /** Column `j`, cell `i` is grid cell (i, j): column j is `[m[j], m[g + j], ...]`. */
  lemma ColumnAt(s: GameState, g: nat, j: nat, i: nat)
    requires WellFormed(s) && GridLength(s) == g && i < g && j < g
    ensures |Columns(s)| == g && |Columns(s)[j]| == g
    ensures Cell(g, i, j) < |s.moves| && Columns(s)[j][i] == s.moves[Cell(g, i, j)]
  {
    TransposedAt(s.moves, g, j, i);
    ChunkAt(Transposed(s.moves), g, j, i);
  }

  /** Every line the winner is looked for in: rows, then columns, then both diagonals. */
  function Lines(s: GameState): seq<seq<Move>>
    requires WellFormed(s)
  {
    Rows(s) + Columns(s) + [Diagonals(s).0, Diagonals(s).1]
  }

  predicate AllAre(line: seq<Move>, v: Move)
  {
    forall k :: 0 <= k < |line| ==> line[k] == v
  }

  /** `cases.some(xWins)` / `cases.some(oWins)`. */
  predicate Wins(s: GameState, v: Move)
    requires WellFormed(s)
  {
    exists l :: l in Lines(s) && AllAre(l, v)
  }

  /** `winner`: X if some line is all X, else O if some line is all O, else none. */
  function Winner(s: GameState): Move
    requires WellFormed(s)
  {
    if Wins(s, Cross) then Cross else if Wins(s, Circle) then Circle else NoMove
  }

  // ----- an independent description of a finished line, by grid cells -----

  predicate CellIs(s: GameState, k: nat, v: Move)
  {
    k < |s.moves| && s.moves[k] == v
  }

  predicate RowFilled(s: GameState, g: nat, i: nat, v: Move)
  {
    forall j :: 0 <= j < g ==> CellIs(s, Cell(g, i, j), v)
  }

  predicate ColumnFilled(s: GameState, g: nat, j: nat, v: Move)
  {
    forall i :: 0 <= i < g ==> CellIs(s, Cell(g, i, j), v)
  }

  predicate LeadingFilled(s: GameState, g: nat, v: Move)
  {
    forall i :: 0 <= i < g ==> CellIs(s, Cell(g, i, i), v)
  }

  /** Cell `i` of the trailing diagonal: row g-1-i, column i. */
  function TrailingCell(g: nat, i: nat): nat
    requires i < g
  {
    Cell(g, g - 1 - i, i)
  }

  predicate TrailingFilled(s: GameState, g: nat, v: Move)
  {
    forall i :: 0 <= i < g ==> CellIs(s, TrailingCell(g, i), v)
  }

  /** Some row, column or diagonal of the grid holds `v` in every cell. */
  predicate HasLine(s: GameState, v: Move)
    requires WellFormed(s)
  {
    var g := GridLength(s);
    (exists i :: 0 <= i < g && RowFilled(s, g, i, v))
    || (exists j :: 0 <= j < g && ColumnFilled(s, g, j, v))
    || LeadingFilled(s, g, v)
    || TrailingFilled(s, g, v)
  }

  lemma RowFilledIff(s: GameState, g: nat, i: nat, v: Move)
    requires WellFormed(s) && GridLength(s) == g && i < g
    ensures |Rows(s)| == g
    ensures AllAre(Rows(s)[i], v) <==> RowFilled(s, g, i, v)
  {
    forall j | 0 <= j < g
      ensures |Rows(s)[i]| == g && Rows(s)[i][j] == s.moves[Cell(g, i, j)]
    {
      RowAt(s, g, i, j);
    }
    RowAt(s, g, i, 0);
  }

  lemma ColumnFilledIff(s: GameState, g: nat, j: nat, v: Move)
    requires WellFormed(s) && GridLength(s) == g && j < g
    ensures |Columns(s)| == g
    ensures AllAre(Columns(s)[j], v) <==> ColumnFilled(s, g, j, v)
  {
    var col := Columns(s)[j];
    ColumnAt(s, g, j, 0);
    forall i | 0 <= i < g
      ensures col[i] == v <==> CellIs(s, Cell(g, i, j), v)
    {
      ColumnAt(s, g, j, i);
    }
  }

  lemma DiagonalsFilledIff(s: GameState, g: nat, v: Move)
    requires WellFormed(s) && GridLength(s) == g
    ensures AllAre(Diagonals(s).0, v) <==> LeadingFilled(s, g, v)
    ensures AllAre(Diagonals(s).1, v) <==> TrailingFilled(s, g, v)
  {
    var lead, trail := Diagonals(s).0, Diagonals(s).1;
    assert |lead| == g && |trail| == g;
    forall i | 0 <= i < g
      ensures lead[i] == v <==> CellIs(s, Cell(g, i, i), v)
      ensures trail[i] == v <==> CellIs(s, TrailingCell(g, i), v)
    {
      DiagonalsAt(s.moves, g, i);
    }
  }

  /** A line of `Lines` is all `v` exactly when some row, column or diagonal of the grid is. */
  lemma LinesWon(s: GameState, v: Move)
    requires WellFormed(s)
    ensures Wins(s, v) <==> HasLine(s, v)
  {
    if Wins(s, v) {
      WonLineIsGridLine(s, v);
    }
    if HasLine(s, v) {
      GridLineIsWonLine(s, v);
    }
  }

  lemma WonLineIsGridLine(s: GameState, v: Move)
    requires WellFormed(s) && Wins(s, v)
    ensures HasLine(s, v)
  {
    var g := GridLength(s);
    var rows, cols, d := Rows(s), Columns(s), Diagonals(s);
    var lines := Lines(s);
    assert lines == rows + cols + [d.0, d.1];
    assert |rows| == g && |cols| == g;
    var l :| l in lines && AllAre(l, v);
    var k :| 0 <= k < |lines| && lines[k] == l;
    if k < g {
      assert l == rows[k];
      RowFilledIff(s, g, k, v);
    } else if k < 2 * g {
      assert l == cols[k - g];
      ColumnFilledIff(s, g, k - g, v);
    } else {
      DiagonalsFilledIff(s, g, v);
      if k == 2 * g {
        assert l == d.0;
      } else {
        assert l == d.1;
      }
    }
  }

  lemma GridLineIsWonLine(s: GameState, v: Move)
    requires WellFormed(s) && HasLine(s, v)
    ensures Wins(s, v)
  {
    var g := GridLength(s);
    var rows, cols, d := Rows(s), Columns(s), Diagonals(s);
    assert Lines(s) == rows + cols + [d.0, d.1];
    DiagonalsFilledIff(s, g, v);
    if i :| 0 <= i < g && RowFilled(s, g, i, v) {
      RowFilledIff(s, g, i, v);
      assert rows[i] in Lines(s);
    } else if j :| 0 <= j < g && ColumnFilled(s, g, j, v) {
      ColumnFilledIff(s, g, j, v);
      assert cols[j] in Lines(s);
    } else if LeadingFilled(s, g, v) {
      assert d.0 in Lines(s);
    } else {
      assert d.1 in Lines(s);
    }
  }

  /** X wins when X has a line; O wins when O has one and X has none; otherwise nobody. */
  lemma WinnerMeaning(s: GameState)
    requires WellFormed(s)
    ensures Winner(s) == Cross <==> HasLine(s, Cross)
    ensures Winner(s) == Circle <==> !HasLine(s, Cross) && HasLine(s, Circle)
    ensures Winner(s) == NoMove <==> !HasLine(s, Cross) && !HasLine(s, Circle)
  {
    LinesWon(s, Cross);
    LinesWon(s, Circle);
  }

  /** On a board with no cells both diagonals are empty, so X is reported as the winner. */
  lemma ZeroCellWinner()
    ensures WellFormed(GameState([])) && Winner(GameState([])) == Cross
  {
    RootUnique(0, 0);
    WinnerMeaning(GameState([]));
  }

  /** Three crosses along the top row of an otherwise empty 3x3 board: X has won. */
  lemma CrossRowWins()
    ensures var x := GameState([Cross, Cross, Cross] + NewGame(6));
      WellFormed(x) && Winner(x) == Cross
  {
    NineCellRoot();
    var x := GameState([Cross, Cross, Cross] + NewGame(6));
    assert RowFilled(x, 3, 0, Cross);
    WinnerMeaning(x);
  }

  /** Three circles along the top row: O has won, and X has no line. */
  lemma CircleRowWins()
    ensures var o := GameState([Circle, Circle, Circle] + NewGame(6));
      WellFormed(o) && Winner(o) == Circle
  {
    NineCellRoot();
    var o := GameState([Circle, Circle, Circle] + NewGame(6));
    assert RowFilled(o, 3, 0, Circle);
    assert !HasLine(o, Cross) by {
      assert !LeadingFilled(o, 3, Cross) && !TrailingFilled(o, 3, Cross) by {
        assert !CellIs(o, Cell(3, 0, 0), Cross);
        assert !CellIs(o, TrailingCell(3, 2), Cross);
      }
      forall i | 0 <= i < 3 ensures !RowFilled(o, 3, i, Cross) && !ColumnFilled(o, 3, i, Cross) {
        assert !CellIs(o, Cell(3, i, 0), Cross);
        assert !CellIs(o, Cell(3, 0, i), Cross);
      }
    }
    WinnerMeaning(o);
  }

  /** The empty 3x3 board has no winner. */
  lemma EmptyHasNoWinner()
    ensures WellFormed(Empty(9)) && Winner(Empty(9)) == NoMove
  {
    NineCellRoot();
    var e := Empty(9);
    forall v | v != NoMove ensures !HasLine(e, v) {
      assert !CellIs(e, Cell(3, 0, 0), v);
      assert !CellIs(e, TrailingCell(3, 0), v);
      forall i | 0 <= i < 3 ensures !RowFilled(e, 3, i, v) && !ColumnFilled(e, 3, i, v) {
        assert !CellIs(e, Cell(3, i, 0), v);
        assert !CellIs(e, Cell(3, 0, i), v);
      }
    }
    WinnerMeaning(e);
  }

  /** The board of tests/game_state.unit.ts with rows O O O / X X X / O O O has every column O X O. */
  lemma ColumnsExample()
    ensures var s := GameState([Circle, Circle, Circle, Cross, Cross, Cross, Circle, Circle, Circle]);
      WellFormed(s) && Columns(s) == [[Circle, Cross, Circle], [Circle, Cross, Circle], [Circle, Cross, Circle]]
  {
    NineCellRoot();
    var s := GameState([Circle, Circle, Circle, Cross, Cross, Cross, Circle, Circle, Circle]);
    var cols := Columns(s);
    forall j | 0 <= j < 3 ensures cols[j] == [Circle, Cross, Circle] {
      ColumnAt(s, 3, j, 0);
      ColumnAt(s, 3, j, 1);
      ColumnAt(s, 3, j, 2);
    }
    ColumnAt(s, 3, 0, 0);
  }

  // ----- drawn, complete, next mover -----

  /** `drawn`: no winner and no empty cell. */
  predicate Drawn(s: GameState)
    requires WellFormed(s)
  {
    Winner(s) == NoMove && NoMove !in s.moves
  }

  /** `complete`: drawn or won. */
  predicate Complete(s: GameState)
    requires WellFormed(s)
  {
    Drawn(s) || Winner(s) != NoMove
  }

  /** Drawn and complete in terms of the grid lines and the empty-cell count. */
  lemma DrawnMeaning(s: GameState)
    requires WellFormed(s)
    ensures Drawn(s) <==> !HasLine(s, Cross) && !HasLine(s, Circle) && Count(s.moves, NoMove) == 0
    ensures Complete(s) <==> HasLine(s, Cross) || HasLine(s, Circle) || Count(s.moves, NoMove) == 0
  {
    WinnerMeaning(s);
    CountAbsent(s.moves, NoMove);
  }

  /** `nextMover`: none on a full board; X when O has played at least as often as X; O otherwise. */
  function NextMover(s: GameState): Move
  {
    if Count(s.moves, NoMove) == 0 then NoMove
    else if Count(s.moves, Circle) >= Count(s.moves, Cross) then Cross
    else Circle
  }

  /** X may lead O by one move at most, and never trail it. */
  predicate Balanced(s: GameState)
  {
    Count(s.moves, Cross) == Count(s.moves, Circle) || Count(s.moves, Cross) == Count(s.moves, Circle) + 1
  }

  /** The full board X X O / O O X / X X O has no line of either mark. */
  lemma DrawnBoardNoLine(v: Move)
    requires v != NoMove
    ensures var d := GameState([Cross, Cross, Circle, Circle, Circle, Cross, Cross, Cross, Circle]);
      WellFormed(d) && !HasLine(d, v)
  {
    NineCellRoot();
    var d := GameState([Cross, Cross, Circle, Circle, Circle, Cross, Cross, Cross, Circle]);
    assert !CellIs(d, Cell(3, 0, 0), v) || !CellIs(d, Cell(3, 1, 1), v);
    assert !CellIs(d, TrailingCell(3, 0), v) || !CellIs(d, TrailingCell(3, 1), v);
    forall i | 0 <= i < 3 ensures !RowFilled(d, 3, i, v) {
      assert !CellIs(d, Cell(3, i, 1), v) || !CellIs(d, Cell(3, i, 2), v);
    }
    forall j | 0 <= j < 3 ensures !ColumnFilled(d, 3, j, v) {
      assert !CellIs(d, Cell(3, 0, j), v) || !CellIs(d, Cell(3, 1, j), v);
    }
  }

  /** X X O / O O X / X X O is drawn. */
  lemma DrawnExample()
    ensures var d := GameState([Cross, Cross, Circle, Circle, Circle, Cross, Cross, Cross, Circle]);
      WellFormed(d) && Drawn(d) && Complete(d)
  {
    DrawnBoardNoLine(Cross);
    DrawnBoardNoLine(Circle);
    WinnerMeaning(GameState([Cross, Cross, Circle, Circle, Circle, Cross, Cross, Cross, Circle]));
  }

  /** X X X / O O X / X _ _ is won, hence not drawn, and offers no position although two cells are empty. */
  lemma WonBoardExample()
    ensures var w := GameState([Cross, Cross, Cross, Circle, Circle, Cross, Cross, NoMove, NoMove]);
      WellFormed(w) && !Drawn(w) && Complete(w) && Available(w) == []
  {
    NineCellRoot();
    var w := GameState([Cross, Cross, Cross, Circle, Circle, Cross, Cross, NoMove, NoMove]);
    assert RowFilled(w, 3, 0, Cross);
    WinnerMeaning(w);
  }

  /** There is no next mover exactly on a full board; on a balanced board X moves when the counts are level. */
  lemma NextMoverMeaning(s: GameState)
    ensures NextMover(s) == NoMove <==> NoMove !in s.moves
    ensures Balanced(s) && NoMove in s.moves ==>
      (NextMover(s) == Cross <==> Count(s.moves, Cross) == Count(s.moves, Circle))
    ensures Balanced(s) && NoMove in s.moves ==>
      (NextMover(s) == Circle <==> Count(s.moves, Cross) == Count(s.moves, Circle) + 1)
  {
    CountAbsent(s.moves, NoMove);
  }

  // ----- moves -----

  /** The board `applyMove(m, pos)` returns: cell `pos` set to `m`, every other cell kept. */
  function WithMove(s: GameState, m: Move, pos: nat): (r: GameState)
    requires pos < |s.moves|
    ensures |r.moves| == |s.moves| && r.moves[pos] == m
    ensures forall k :: 0 <= k < |s.moves| && k != pos ==> r.moves[k] == s.moves[k]
  {
    GameState(s.moves[pos := m])
  }

  /** `applyMove`: copies the cells into a fresh buffer, writes one cell, wraps the copy. */
  method ApplyMove(s: GameState, m: Move, pos: nat) returns (t: GameState)
    requires pos < |s.moves|
    ensures t == WithMove(s, m, pos)
  {
    var newMoves := new Move[|s.moves|](k requires 0 <= k < |s.moves| => s.moves[k]);
    newMoves[pos] := m;
    t := GameState(newMoves[..]);
  }

  /** From the empty board the movers go X, then O; a board holding one O alone has X to move. */
  lemma NextMoverExample(n: nat)
    requires n >= 2
    ensures NextMover(Empty(n)) == Cross
    ensures NextMover(WithMove(Empty(n), Cross, 0)) == Circle
    ensures NextMover(WithMove(Empty(n), Circle, 1)) == Cross
  {
    var ms := NewGame(n);
    CountNewGame(n, NoMove);
    CountNewGame(n, Cross);
    CountNewGame(n, Circle);
    CountUpdate(ms, 0, Cross, NoMove);
    CountUpdate(ms, 0, Cross, Cross);
    CountUpdate(ms, 0, Cross, Circle);
    CountUpdate(ms, 1, Circle, NoMove);
    CountUpdate(ms, 1, Circle, Cross);
    CountUpdate(ms, 1, Circle, Circle);
  }

  // ----- available positions -----

  /** Indices of the empty cells, in ascending order. */
  function EmptyIndices(ms: seq<Move>): (r: seq<nat>)
    ensures forall i :: 0 <= i < |r| ==> r[i] < |ms| && ms[r[i]] == NoMove
    ensures forall k :: k in r <==> 0 <= k < |ms| && ms[k] == NoMove
    ensures forall a, b :: 0 <= a < b < |r| ==> r[a] < r[b]
    ensures |r| == Count(ms, NoMove)
  {
    if ms == [] then []
    else
      var n := |ms|;
      var init := ms[..n - 1];
      var r0 := EmptyIndices(init);
      assert forall k :: 0 <= k < n - 1 ==> init[k] == ms[k];
      r0 + (if ms[n - 1] == NoMove then [n - 1] else [])
  }

  /**
   * `availablePositions`: nothing once there is a winner, even with empty
   * cells left; otherwise the empty cells in ascending order.
   */
  function Available(s: GameState): (ps: seq<nat>)
    requires WellFormed(s)
    ensures Winner(s) != NoMove ==> ps == []
    ensures forall i :: 0 <= i < |ps| ==> ps[i] < |s.moves| && s.moves[ps[i]] == NoMove
    ensures Winner(s) == NoMove ==> forall k :: k in ps <==> 0 <= k < |s.moves| && s.moves[k] == NoMove
    ensures forall a, b :: 0 <= a < b < |ps| ==> ps[a] < ps[b]
  {
    if Winner(s) != NoMove then [] else EmptyIndices(s.moves)
  }

  /** `availablePositions` as the source computes it: a scan that pushes each empty index. */
  method AvailablePositions(s: GameState) returns (ps: seq<nat>)
    requires WellFormed(s)
    ensures ps == Available(s)
  {
    ps := [];
    if Winner(s) != NoMove {
      return;
    }
    for i := 0 to |s.moves|
      invariant ps == EmptyIndices(s.moves[..i])
    {
      assert s.moves[..i + 1][..i] == s.moves[..i];
      if s.moves[i] == NoMove {
        ps := ps + [i];
      }
    }
    assert s.moves[..|s.moves|] == s.moves;
  }

  /** A board is complete exactly when no position is available. */
  lemma CompleteIffNoneAvailable(s: GameState)
    requires WellFormed(s)
    ensures Complete(s) <==> Available(s) == []
  {
    if Winner(s) == NoMove {
      var ps := Available(s);
      if ps != [] {
        assert ps[0] in ps;
      }
      if NoMove in s.moves {
        var k :| 0 <= k < |s.moves| && s.moves[k] == NoMove;
        assert k in ps;
      }
    }
  }

  /** The `nextState === null` exit of the simulation loop is never taken: an unfinished game has a move. */
  lemma NotCompleteHasMove(s: GameState)
    requires WellFormed(s) && !Complete(s)
    ensures Available(s) != []
    ensures NextMover(s) != NoMove
  {
    CompleteIffNoneAvailable(s);
    var k := Available(s)[0];
    assert s.moves[k] == NoMove;
    NextMoverMeaning(s);
  }

  /** `b` is `a` with its next mover placed on one of its available positions. */
  predicate IsStep(a: GameState, b: GameState)
  {
    WellFormed(a) && exists k :: k in Available(a) && k < |a.moves| && b == WithMove(a, NextMover(a), k)
  }

  /** `possibleNextStates`: the next mover played on each available position. */
  function PossibleNextStates(s: GameState): (r: seq<GameState>)
    requires WellFormed(s)
    ensures |r| == |Available(s)|
    ensures forall t :: t in r <==> IsStep(s, t)
  {
    var ps := Available(s);
    var r := seq(|ps|, i requires 0 <= i < |ps| => WithMove(s, NextMover(s), ps[i]));
    assert forall t :: IsStep(s, t) ==> t in r by {
      forall t | IsStep(s, t) ensures t in r {
        var k :| k in ps && k < |s.moves| && t == WithMove(s, NextMover(s), k);
        var i :| 0 <= i < |ps| && ps[i] == k;
        assert r[i] == t;
      }
    }
    r
  }

  /**
   * `applyRandomMove`: the next mover on a nondeterministically chosen available
   * position. With nothing available the source indexes the copy with `undefined`,
   * which leaves every cell as it was.
   */
  method ApplyRandomMove(s: GameState) returns (t: GameState)
    requires WellFormed(s)
    ensures Available(s) == [] ==> t == s
    ensures Available(s) != [] ==> IsStep(s, t)
  {
    var ps := AvailablePositions(s);
    var mover := NextMover(s);
    if ps == [] {
      t := s;
    } else {
      var pos := RandomElem(ps);
      t := ApplyMove(s, mover, pos);
    }
  }

  /** Number of occupied cells. */
  function Filled(s: GameState): nat
  {
    |s.moves| - Count(s.moves, NoMove)
  }

  /** A step keeps the board size, fills exactly one more cell and keeps X and O balanced. */
  lemma StepInvariants(a: GameState, b: GameState)
    requires IsStep(a, b)
    ensures |b.moves| == |a.moves| && WellFormed(b)
    ensures Filled(b) == Filled(a) + 1
    ensures Balanced(a) ==> Balanced(b)
  {
    var k :| k in Available(a) && k < |a.moves| && b == WithMove(a, NextMover(a), k);
    var m := NextMover(a);
    assert a.moves[k] == NoMove && b.moves == a.moves[k := m];
    NextMoverMeaning(a);
    CountUpdate(a.moves, k, m, NoMove);
    CountUpdate(a.moves, k, m, Cross);
    CountUpdate(a.moves, k, m, Circle);
  }

  // ----- the id codec -----

  function Pow3(n: nat): (p: nat)
    ensures p >= 1
  {
    if n == 0 then 1 else 3 * Pow3(n - 1)
  }

  /** The base-3 digit of a cell: empty 2, X 1, O 0. */
  function Digit(m: Move): (d: nat)
    ensures d < 3
  {
    match m
    case NoMove => 2
    case Cross => 1
    case Circle => 0
  }

  /** The cell a base-3 digit stands for (`fromId`: 2 is empty, any other digit is kept). */
  function Undigit(d: nat): (m: Move)
    requires d < 3
    ensures Digit(m) == d
  {
    if d == 2 then NoMove else if d == 1 then Cross else Circle
  }

  /**
   * `toId`: the cells read as the digits of a base-3 numeral, first cell
   * most significant.
   */
  function ToId(ms: seq<Move>): (id: nat)
    ensures id < Pow3(|ms|)
  {
    if ms == [] then 0 else ToId(ms[..|ms| - 1]) * 3 + Digit(ms[|ms| - 1])
  }

  /** The first cell weighs 3^(n-1). */
  lemma {:induction false} ToIdHead(ms: seq<Move>)
    requires ms != []
    ensures ToId(ms) == Digit(ms[0]) * Pow3(|ms| - 1) + ToId(ms[1..])
  {
    var n := |ms|;
    if n > 1 {
      var init := ms[..n - 1];
      var rest := ms[1..];
      ToIdHead(init);
      assert init[1..] == rest[..n - 2];
      assert init[0] == ms[0];
      var d, a, b := Digit(ms[0]), ToId(init[1..]), Digit(ms[n - 1]);
      assert ToId(rest) == a * 3 + b;
      assert ToId(ms) == ToId(init) * 3 + b;
      ShiftDigit(d, Pow3(n - 2), a, b);
    }
  }

  /** Shifting a numeral with leading digit `d` one place left and appending `b`. */
  lemma ShiftDigit(d: nat, p: nat, a: nat, b: nat)
    ensures (d * p + a) * 3 + b == d * (3 * p) + (a * 3 + b)
  {
  }

  /** The empty board's id is the all-twos numeral, 3^n - 1 (not 0). */
  lemma {:induction false} ToIdEmptyBoard(n: nat)
    ensures ToId(NewGame(n)) == Pow3(n) - 1
  {
    if n > 0 {
      assert NewGame(n)[..n - 1] == NewGame(n - 1);
      ToIdEmptyBoard(n - 1);
    }
  }

  /** X, then O, then seven empty cells reads as the numeral 102222222 in base 3. */
  lemma ToIdExample()
    ensures ToId([Cross, Circle] + NewGame(7)) == 8747
  {
    var ms := [Cross, Circle] + NewGame(7);
    ToIdHead(ms);
    ToIdHead(ms[1..]);
    assert ms[1..][1..] == NewGame(7);
    ToIdEmptyBoard(7);
  }

  /**
   * `id.toString(3)`: the base-3 numeral of `id` with no leading zeros
   * (0 is the single digit 0).
   */
  function Base3(id: nat): (ds: seq<nat>)
    ensures |ds| >= 1
    ensures forall k :: 0 <= k < |ds| ==> ds[k] < 3
  {
    if id < 3 then [id] else Base3(id / 3) + [id % 3]
  }

  /** `fromId`, as written: decodes the digits of `id.toString(3)` with no padding. */
  function FromId(id: nat): (s: GameState)
    ensures |s.moves| == |Base3(id)|
  {
    var ds := Base3(id);
    GameState(seq(|ds|, k requires 0 <= k < |ds| => Undigit(ds[k])))
  }

  /** The digits `toId` reads from a board. */
  function Digits(ms: seq<Move>): (ds: seq<nat>)
    ensures |ds| == |ms|
    ensures forall k :: 0 <= k < |ms| ==> ds[k] == Digit(ms[k])
  {
    seq(|ms|, k requires 0 <= k < |ms| => Digit(ms[k]))
  }

  /** A board whose first cell is not O has a positive id. */
  lemma {:induction false} ToIdPositive(ms: seq<Move>)
    requires ms != [] && ms[0] != Circle
    ensures ToId(ms) >= 1
  {
    ToIdHead(ms);
  }

  /** Without a leading O, the numeral of the id is exactly the board's digits. */
  lemma {:induction false} Base3ToId(ms: seq<Move>)
    requires ms != [] && ms[0] != Circle
    ensures Base3(ToId(ms)) == Digits(ms)
  {
    var n := |ms|;
    if n > 1 {
      var init := ms[..n - 1];
      Base3ToId(init);
      ToIdPositive(init);
      var x := ToId(init);
      var d := Digit(ms[n - 1]);
      assert ToId(ms) == x * 3 + d;
      assert (x * 3 + d) / 3 == x && (x * 3 + d) % 3 == d;
      assert Digits(ms) == Digits(init) + [d];
    }
  }

  /** `fromId(toId(m))` gives `m` back when `m` is non-empty and does not start with O. */
  lemma FromIdRoundTrip(ms: seq<Move>)
    requires ms != [] && ms[0] != Circle
    ensures FromId(ToId(ms)).moves == ms
  {
    Base3ToId(ms);
  }

  /** A numeral of an id below 3^n has at most n digits. */
  lemma {:induction false} Base3Length(id: nat, n: nat)
    requires n >= 1 && id < Pow3(n)
    ensures |Base3(id)| <= n
  {
    if id >= 3 {
      Base3Length(id / 3, n - 1);
    }
  }

  /**
   * The defect of `fromId`: a board starting with O loses that cell, because
   * `toString(3)` drops leading zeros, so the decoded board is shorter.
   */
  lemma FromIdDropsLeadingCircle(ms: seq<Move>)
    requires |ms| >= 2 && ms[0] == Circle
    ensures |FromId(ToId(ms)).moves| < |ms|
  {
    ToIdHead(ms);
    Base3Length(ToId(ms[1..]), |ms| - 1);
  }

  /** The smallest instance: O then X has id 1 and decodes to the one-cell board X. */
  lemma FromIdCounterexample()
    ensures ToId([Circle, Cross]) == 1
    ensures FromId(ToId([Circle, Cross])) == GameState([Cross])
  {
    assert [Circle, Cross][..1] == [Circle];
    assert [Circle][..0] == [];
  }

  /** The last `n` base-3 digits of `id`, most significant first (left-padded with zeros). */
  function PaddedDigits(id: nat, n: nat): (ds: seq<nat>)
    ensures |ds| == n
    ensures forall k :: 0 <= k < n ==> ds[k] < 3
  {
    if n == 0 then [] else PaddedDigits(id / 3, n - 1) + [id % 3]
  }

  /** The decoder with the padding the codec needs: `n` cells always come back. */
  function FromIdPadded(id: nat, n: nat): (s: GameState)
    ensures |s.moves| == n
  {
    var ds := PaddedDigits(id, n);
    GameState(seq(n, k requires 0 <= k < n => Undigit(ds[k])))
  }

  /** Decoding `n + 1` cells: the first `n` come from `id / 3`, the last from `id % 3`. */
  lemma FromIdPaddedSnoc(id: nat, n: nat)
    ensures FromIdPadded(id, n + 1).moves == FromIdPadded(id / 3, n).moves + [Undigit(id % 3)]
  {
    var ds := PaddedDigits(id, n + 1);
    assert ds == PaddedDigits(id / 3, n) + [id % 3];
  }

  /** Appending digit `d` to the numeral `x`. */
  lemma AppendDigit(x: nat, d: nat)
    requires d < 3
    ensures (x * 3 + d) / 3 == x && (x * 3 + d) % 3 == d
  {
  }

  /** With padding to the board length the codec round-trips every board. */
  lemma {:induction false} PaddedRoundTrip(ms: seq<Move>)
    ensures FromIdPadded(ToId(ms), |ms|).moves == ms
  {
    var n := |ms|;
    if n > 0 {
      var init := ms[..n - 1];
      PaddedRoundTrip(init);
      var x := ToId(init);
      var d := Digit(ms[n - 1]);
      AppendDigit(x, d);
      FromIdPaddedSnoc(ToId(ms), n - 1);
      assert ms == init + [ms[n - 1]];
    }
  }

  /** Every id below 3^n is the id of the n-cell board it decodes to. */
  lemma {:induction false} PaddedInverse(id: nat, n: nat)
    requires id < Pow3(n)
    ensures ToId(FromIdPadded(id, n).moves) == id
  {
    if n > 0 {
      PaddedInverse(id / 3, n - 1);
      var ms := FromIdPadded(id, n).moves;
      FromIdPaddedSnoc(id, n - 1);
      assert ms[..n - 1] == FromIdPadded(id / 3, n - 1).moves;
      assert Digit(ms[n - 1]) == id % 3;
    }
  }

  /** Boards of one length get distinct ids. */
  lemma ToIdInjective(a: seq<Move>, b: seq<Move>)
    requires |a| == |b| && ToId(a) == ToId(b)
    ensures a == b
  {
    PaddedRoundTrip(a);
    PaddedRoundTrip(b);
  }

  /** Across lengths ids collide: O X and X are different boards with the same id. */
  lemma ToIdCollision()
    ensures [Circle, Cross] != [Cross]
    ensures ToId([Circle, Cross]) == ToId([Cross])
  {
    FromIdCounterexample();
    assert [Circle, Cross][0] != [Cross][0];
    assert [Cross][..0] == [];
  }
}
