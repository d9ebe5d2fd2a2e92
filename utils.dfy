/**
 * Grid helpers over a flat, row-major list of cells: `tail`, `chunkify`,
 * `transpose`, `diagonals` and `randomElem` of lib/utils.ts.
 *
 * The source takes `Math.sqrt` of the list length; here the grid side is an
 * integer square root and the helpers that need a whole grid ask for a
 * perfect-square length.
 */
module Utils {

  /** The last element of a non-empty list. */
  function Tail<T>(arr: seq<T>): (r: T)
    requires |arr| > 0
    ensures r in arr
    ensures arr == arr[..|arr| - 1] + [r]
  {
    arr[|arr| - 1]
  }

  function Min(a: nat, b: nat): nat { if a <= b then a else b }

  /** `Array.prototype.slice(from, to)` for non-negative bounds: both bounds are clamped to the length. */
  function Slice<T>(arr: seq<T>, from: nat, to: nat): (r: seq<T>)
    ensures from <= to <= |arr| ==> r == arr[from..to]
    ensures |arr| <= from ==> r == []
  {
    var lo := Min(from, |arr|);
    var hi := Min(to, |arr|);
    if lo <= hi then arr[lo..hi] else []
  }

  // ----- integer square root -----

  /** The least `r >= k` whose successor squared exceeds `n`; `sq` carries `k * k`. */
  function RootFrom(n: nat, k: nat, sq: nat): nat
    decreases n - k
  {
    if k >= n || sq + 2 * k + 1 > n then k else RootFrom(n, k + 1, sq + 2 * k + 1)
  }

  /** The integer square root: the side of the largest square grid that fits in `n` cells. */
  function Isqrt(n: nat): nat
  {
    RootFrom(n, 0, 0)
  }

  lemma {:induction false} RootFromBounds(n: nat, k: nat, sq: nat)
    requires sq == k * k <= n
    ensures var r := RootFrom(n, k, sq); r * r <= n < (r + 1) * (r + 1)
    decreases n - k
  {
    assert (k + 1) * (k + 1) == sq + 2 * k + 1;
    if k >= n {
      MulLe(1, k, k);
    } else if sq + 2 * k + 1 > n {
    } else {
      RootFromBounds(n, k + 1, sq + 2 * k + 1);
    }
  }

  /** Isqrt(n) is the integer square root of n. */
  lemma IsqrtBounds(n: nat)
    ensures Isqrt(n) * Isqrt(n) <= n < (Isqrt(n) + 1) * (Isqrt(n) + 1)
  {
    RootFromBounds(n, 0, 0);
  }

  /** A list length that a square grid can have. */
  predicate IsSquare(n: nat)
  {
    Isqrt(n) * Isqrt(n) == n
  }

  /** Multiplication by a natural number is monotone. */
  lemma MulLe(a: nat, b: nat, g: nat)
    ensures a <= b ==> a * g <= b * g
  {
    if a <= b {
      assert b * g == a * g + (b - a) * g;
    }
  }

  lemma {:induction false} RootUnique(g: nat, n: nat)
    requires g * g == n
    ensures Isqrt(n) == g
  {
    var r := Isqrt(n);
    IsqrtBounds(n);
    if r < g {
      SquareLe(r + 1, g);
      assert false;
    } else if r > g {
      SquareLe(g + 1, r);
      assert false;
    }
  }

  /** Squaring a natural number is monotone. */
  lemma SquareLe(a: nat, b: nat)
    requires a <= b
    ensures a * a <= b * b
  {
    MulLe(a, b, a);
    MulLe(a, b, b);
    assert a * b == b * a;
  }

  /** The flat, row-major index of row `i`, column `j` in a grid of side `g`. */
  function Cell(g: nat, i: nat, j: nat): nat
  {
    i * g + j
  }

  /** Row `i`, column `j` of a grid of side `g` lies inside the grid, and row `i + 1` starts `g` cells later. */
  lemma CellInGrid(g: nat, i: nat, j: nat)
    requires i < g && j < g
    ensures Cell(g, i, j) < Cell(g, i + 1, 0) <= g * g
    ensures Cell(g, i + 1, 0) == Cell(g, i, 0) + g
  {
    MulLe(i + 1, g, g);
  }

  // ----- chunkify -----

  /** `chunkify(arr, size)`: exactly `size` slices of `size` elements each, clamped at the end of `arr`. */
  function Chunkify<T>(arr: seq<T>, size: nat): (r: seq<seq<T>>)
    ensures |r| == size
  {
    seq(size, i requires 0 <= i < size => Slice(arr, i * size, (i + 1) * size))
  }

  /** Chunk `i` of a `g` x `g` list is the slice holding row `i`. */
  lemma ChunkSlice<T>(arr: seq<T>, g: nat, i: nat)
    requires |arr| == g * g && i < g
    ensures Cell(g, i, 0) <= Cell(g, i + 1, 0) <= |arr|
    ensures Chunkify(arr, g)[i] == arr[Cell(g, i, 0)..Cell(g, i + 1, 0)]
  {
    CellInGrid(g, i, 0);
    assert Chunkify(arr, g)[i] == Slice(arr, Cell(g, i, 0), Cell(g, i + 1, 0));
  }

  /** Cell `j` of chunk `i` of a square grid is the flat cell (i, j). */
  lemma ChunkAt<T>(arr: seq<T>, g: nat, i: nat, j: nat)
    requires |arr| == g * g && i < g && j < g
    ensures Cell(g, i, j) < |arr| && |Chunkify(arr, g)[i]| == g
    ensures Chunkify(arr, g)[i][j] == arr[Cell(g, i, j)]
  {
    CellInGrid(g, i, j);
    ChunkSlice(arr, g, i);
  }

  /** The rows of a square grid all have the grid's side as length. */
  lemma ChunkLengths<T>(arr: seq<T>, g: nat)
    requires |arr| == g * g
    ensures forall k :: 0 <= k < g ==> |Chunkify(arr, g)[k]| == g
  {
    forall k | 0 <= k < g ensures |Chunkify(arr, g)[k]| == g {
      ChunkSlice(arr, g, k);
    }
  }

  /** The concatenation of a list of lists, in order. */
  function Flatten<T>(chunks: seq<seq<T>>): seq<T>
  {
    if chunks == [] then [] else Flatten(chunks[..|chunks| - 1]) + chunks[|chunks| - 1]
  }

  /** The chunks of a `size` x `size` list concatenate back to the list. */
  lemma ChunkifyFlatten<T>(arr: seq<T>, size: nat)
    requires |arr| == size * size
    ensures Flatten(Chunkify(arr, size)) == arr
  {
    var chunks := Chunkify(arr, size);
    var k := 0;
    while k < size
      invariant 0 <= k <= size
      invariant Cell(size, k, 0) <= |arr|
      invariant Flatten(chunks[..k]) == arr[..Cell(size, k, 0)]
    {
      ChunkSlice(arr, size, k);
      var lo, hi := Cell(size, k, 0), Cell(size, k + 1, 0);
      assert chunks[..k + 1][..k] == chunks[..k];
      assert arr[..hi] == arr[..lo] + arr[lo..hi];
      k := k + 1;
    }
    assert chunks[..size] == chunks;
    assert Cell(size, size, 0) == |arr|;
  }

  // ----- transpose -----

  /** Column `c` of a grid of side `g`, top to bottom. */
  function Column<T>(arr: seq<T>, g: nat, c: nat): (col: seq<T>)
    requires |arr| == g * g && c < g
    ensures |col| == g
  {
    seq(g, i requires 0 <= i < g => CellInGrid(g, i, c); arr[Cell(g, i, c)])
  }

  /** The transpose of a square grid: its columns laid out one after another. */
  function Transposed<T>(arr: seq<T>): (r: seq<T>)
    requires IsSquare(|arr|)
  {
    var g := Isqrt(|arr|);
    Flatten(seq(g, c requires 0 <= c < g => Column(arr, g, c)))
  }

  /** In a list of `n` chunks of length `g`, cell (i, j) of the concatenation is cell `j` of chunk `i`. */
  lemma {:induction false} FlattenAt<T>(chunks: seq<seq<T>>, g: nat, i: nat, j: nat)
    requires forall k :: 0 <= k < |chunks| ==> |chunks[k]| == g
    requires i < |chunks| && j < g
    ensures |Flatten(chunks)| == Cell(g, |chunks|, 0)
    ensures Cell(g, i, j) < |Flatten(chunks)| && Flatten(chunks)[Cell(g, i, j)] == chunks[i][j]
    decreases |chunks|
  {
    var n := |chunks|;
    var init := chunks[..n - 1];
    FlattenLength(chunks, g);
    if i < n - 1 {
      FlattenAt(init, g, i, j);
    } else {
      FlattenLength(init, g);
    }
  }

  lemma {:induction false} FlattenLength<T>(chunks: seq<seq<T>>, g: nat)
    requires forall k :: 0 <= k < |chunks| ==> |chunks[k]| == g
    ensures |Flatten(chunks)| == Cell(g, |chunks|, 0)
    decreases |chunks|
  {
    if chunks != [] {
      FlattenLength(chunks[..|chunks| - 1], g);
    }
  }

  /** Row `i`, column `j` of the transpose is row `j`, column `i` of the grid. */
  lemma TransposedAt<T>(arr: seq<T>, g: nat, i: nat, j: nat)
    requires IsSquare(|arr|) && Isqrt(|arr|) == g
    requires i < g && j < g
    ensures |Transposed(arr)| == |arr|
    ensures Cell(g, i, j) < |arr| && Cell(g, j, i) < |arr|
    ensures Transposed(arr)[Cell(g, i, j)] == arr[Cell(g, j, i)]
  {
    var columns := seq(g, c requires 0 <= c < g => Column(arr, g, c));
    CellInGrid(g, i, j);
    CellInGrid(g, j, i);
    FlattenAt(columns, g, i, j);
  }

  lemma TransposedLength<T>(arr: seq<T>, g: nat)
    requires IsSquare(|arr|) && Isqrt(|arr|) == g
    ensures |Transposed(arr)| == |arr|
  {
    FlattenLength(seq(g, c requires 0 <= c < g => Column(arr, g, c)), g);
  }

  /**
   * `transpose`: copies the list into a fresh buffer and overwrites cell
   * (i, j) with cell (j, i) in two nested loops.
   */
  method Transpose<T>(arr: seq<T>) returns (r: seq<T>)
    requires IsSquare(|arr|)
    ensures r == Transposed(arr)
  {
    var g := Isqrt(|arr|);
    var result := new T[|arr|](k requires 0 <= k < |arr| => arr[k]);
    ghost var t := Transposed(arr);
    TransposedLength(arr, g);
    for i := 0 to g
      invariant Cell(g, i, 0) <= |arr|
      invariant forall k :: 0 <= k < |arr| ==>
        result[k] == if k < Cell(g, i, 0) then t[k] else arr[k]
    {
      for j := 0 to g
        invariant Cell(g, i, j) <= |arr|
        invariant forall k :: 0 <= k < |arr| ==>
          result[k] == if k < Cell(g, i, j) then t[k] else arr[k]
      {
        TransposedAt(arr, g, i, j);
        CellInGrid(g, i, j);
        result[Cell(g, i, j)] := arr[Cell(g, j, i)];
      }
      CellInGrid(g, i, 0);
    }
    r := result[..];
    assert r == t;
  }

  // ----- diagonals -----

  /** A list in the opposite order (`Array.prototype.reverse`). */
  function Reversed<T>(s: seq<T>): (r: seq<T>)
    ensures |r| == |s|
    ensures forall i :: 0 <= i < |s| ==> r[i] == s[|s| - 1 - i]
  {
    if s == [] then [] else Reversed(s[1..]) + [s[0]]
  }

  /** Cell `i` of row `i`, for every row `i` of a square list of rows. */
  function DiagonalOf<T>(rows: seq<seq<T>>): (d: seq<T>)
    requires forall k :: 0 <= k < |rows| ==> |rows[k]| == |rows|
    ensures |d| == |rows|
  {
    seq(|rows|, i requires 0 <= i < |rows| => rows[i][i])
  }

  /**
   * `diagonals`: the leading diagonal takes cell `i` of row `i`, the trailing
   * diagonal cell `i` of row `i` of the rows in reverse order.
   */
  function Diagonals<T>(arr: seq<T>): (r: (seq<T>, seq<T>))
    requires IsSquare(|arr|)
    ensures |r.0| == Isqrt(|arr|) && |r.1| == Isqrt(|arr|)
  {
    GridDiagonals(arr, Isqrt(|arr|))
  }

  /** The two diagonals of a grid of side `g`. */
  function GridDiagonals<T>(arr: seq<T>, g: nat): (r: (seq<T>, seq<T>))
    requires |arr| == g * g
    ensures |r.0| == g && |r.1| == g
  {
    var rows := Chunkify(arr, g);
    ChunkLengths(arr, g);
    (DiagonalOf(rows), DiagonalOf(Reversed(rows)))
  }

  /** Cell `i` of the leading diagonal is grid cell (i, i); of the trailing one, grid cell (g-1-i, i). */
  lemma DiagonalsAt<T>(arr: seq<T>, g: nat, i: nat)
    requires IsSquare(|arr|) && Isqrt(|arr|) == g && i < g
    ensures Cell(g, i, i) < |arr| && Diagonals(arr).0[i] == arr[Cell(g, i, i)]
    ensures Cell(g, g - 1 - i, i) < |arr| && Diagonals(arr).1[i] == arr[Cell(g, g - 1 - i, i)]
  {
    var rows := Chunkify(arr, g);
    ChunkLengths(arr, g);
    ChunkAt(arr, g, i, i);
    ChunkAt(arr, g, g - 1 - i, i);
    assert Reversed(rows)[i] == rows[g - 1 - i];
  }

  // ----- randomElem -----

  /**
   * `randomElem`: `Math.random` is replaced by a nondeterministic choice of an
   * index; any element of the list may come back.
   */
  method RandomElem<T>(arr: seq<T>) returns (x: T)
    requires |arr| > 0
    ensures x in arr
  {
    var k :| 0 <= k < |arr|;
    x := arr[k];
  }

  // ----- the examples of tests/utils.ts -----

  lemma NineCellRoot()
    ensures Isqrt(9) == 3
  {
    RootUnique(3, 9);
  }

  lemma TransposeExample(arr: seq<int>)
    requires arr == [0, 1, 2, 3, 4, 5, 6, 7, 8]
    ensures IsSquare(|arr|) && Transposed(arr) == [0, 3, 6, 1, 4, 7, 2, 5, 8]
  {
    NineCellRoot();
    var t := Transposed(arr);
    TransposedLength(arr, 3);
    assert t[0] == 0 by { TransposedAt(arr, 3, 0, 0); }
    assert t[1] == 3 by { TransposedAt(arr, 3, 0, 1); }
    assert t[2] == 6 by { TransposedAt(arr, 3, 0, 2); }
    assert t[3] == 1 by { TransposedAt(arr, 3, 1, 0); }
    assert t[4] == 4 by { TransposedAt(arr, 3, 1, 1); }
    assert t[5] == 7 by { TransposedAt(arr, 3, 1, 2); }
    assert t[6] == 2 by { TransposedAt(arr, 3, 2, 0); }
    assert t[7] == 5 by { TransposedAt(arr, 3, 2, 1); }
    assert t[8] == 8 by { TransposedAt(arr, 3, 2, 2); }
  }

  lemma DiagonalsExample()
    ensures Isqrt(9) == 3
    ensures Diagonals([0, 1, 2, 3, 4, 5, 6, 7, 8]) == ([0, 4, 8], [6, 4, 2])
  {
    var arr := [0, 1, 2, 3, 4, 5, 6, 7, 8];
    NineCellRoot();
    DiagonalsAt(arr, 3, 0);
    DiagonalsAt(arr, 3, 1);
    DiagonalsAt(arr, 3, 2);
    var d := Diagonals(arr);
    assert d.0 == [d.0[0], d.0[1], d.0[2]];
    assert d.1 == [d.1[0], d.1[1], d.1[2]];
  }
}
