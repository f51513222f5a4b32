/**
 * Row-major data blocks. A query answers a grid of cells (one sequence per
 * returned row); the flat buffer it returns is that grid laid out row after
 * row, so the cell of row `i`, column `c` sits at index `i * stride + c`.
 */
module Blocks {
  import opened Scalars
  import opened MasterStates
  import opened Extents

  /** The grid laid out row after row. */
  function RowMajor(grid: seq<seq<Scalar>>): seq<Scalar> {
    if grid == [] then [] else grid[0] + RowMajor(grid[1..])
  }

  /** Every row of the grid has `stride` cells. */
  ghost predicate Rectangular(grid: seq<seq<Scalar>>, stride: nat) {
    forall i :: 0 <= i < |grid| ==> |grid[i]| == stride
  }

  ghost predicate AllValid(grid: seq<seq<Scalar>>) {
    forall i, c :: 0 <= i < |grid| && 0 <= c < |grid[i]| ==> IsValid(grid[i][c])
  }

  lemma {:induction false} RowMajorLength(grid: seq<seq<Scalar>>, stride: nat)
    requires Rectangular(grid, stride)
    ensures |RowMajor(grid)| == |grid| * stride
  {
    if grid != [] {
      RowMajorLength(grid[1..], stride);
      assert |grid| * stride == stride + (|grid| - 1) * stride;
    }
  }

  /** The cell of row `i`, column `c` of the grid is at flat index `i * stride + c`. */
  lemma {:induction false} RowMajorAt(grid: seq<seq<Scalar>>, stride: nat, i: nat, c: nat)
    requires Rectangular(grid, stride)
    requires i < |grid| && c < stride
    ensures i * stride + c < |RowMajor(grid)|
    ensures RowMajor(grid)[i * stride + c] == grid[i][c]
  {
    RowMajorLength(grid, stride);
    if i > 0 {
      RowMajorAt(grid[1..], stride, i - 1, c);
      assert i * stride + c == stride + ((i - 1) * stride + c);
    }
  }

  /** Laying a grid out keeps exactly its cells, so a grid with no invalid cell gives a block with none. */
  lemma {:induction false} RowMajorValid(grid: seq<seq<Scalar>>)
    requires AllValid(grid)
    ensures forall k :: 0 <= k < |RowMajor(grid)| ==> IsValid(RowMajor(grid)[k])
  {
    if grid != [] {
      RowMajorValid(grid[1..]);
      forall k | 0 <= k < |RowMajor(grid)|
        ensures IsValid(RowMajor(grid)[k])
      {
        if k >= |grid[0]| {
          assert RowMajor(grid)[k] == RowMajor(grid[1..])[k - |grid[0]|];
        }
      }
    }
  }

  lemma MulMono(a: int, b: int, s: int)
    requires a <= b && s >= 0
    ensures a * s <= b * s
  {
    assert b * s == a * s + (b - a) * s;
  }

  /** Euclidean division is unique: q * stride + m with 0 <= m < stride divides back to q, remainder m. */
  lemma DivModUnique(k: int, stride: int, q: int, m: int)
    requires 0 <= m < stride && k == q * stride + m
    ensures k / stride == q && k % stride == m
  {
    var q', m' := k / stride, k % stride;
    assert k == q' * stride + m';
    var d := q - q';
    assert d * stride == m' - m by {
      assert q * stride - q' * stride == (q - q') * stride;
    }
    if d >= 1 {
      MulMono(1, d, stride);
      assert false;
    } else if d <= -1 {
      MulMono(1, -d, stride);
      assert false;
    }
  }

  /** Every index is its row times the stride plus its column. */
  lemma Decompose(k: int, stride: int)
    requires stride > 0
    ensures k == (k / stride) * stride + k % stride
  {
  }

  /** A flat index is within the block and decodes back to its row and column. */
  lemma FlatIndex(i: int, c: int, n: int, stride: int)
    requires 0 <= i < n && 0 <= c < stride
    ensures 0 <= i * stride + c < n * stride
    ensures (i * stride + c) / stride == i && (i * stride + c) % stride == c
  {
    MulMono(i + 1, n, stride);
    MulMono(0, i, stride);
    DivModUnique(i * stride + c, stride, i, c);
  }

  /** Every index of an `n`-row block decodes to a row below `n`. */
  lemma RowOfIndex(k: int, n: int, stride: int)
    requires 0 <= k < n * stride && n >= 0
    ensures stride > 0 && 0 <= k / stride < n
  {
    if stride <= 0 {
      MulMono(stride, 0, n);
      assert false;
    }
    var q := k / stride;
    if q >= n {
      MulMono(n, q, stride);
      assert false;
    }
  }

  /** A rectangular grid of valid cells lays out to |grid| * stride cells, none of them invalid. */
  lemma BlockShape(grid: seq<seq<Scalar>>, stride: nat)
    requires Rectangular(grid, stride) && AllValid(grid)
    ensures |RowMajor(grid)| == |grid| * stride
    ensures forall k :: 0 <= k < |RowMajor(grid)| ==> IsValid(RowMajor(grid)[k])
  {
    RowMajorLength(grid, stride);
    RowMajorValid(grid);
  }

  // ---------------------------------------------------------------------
  // Filling a block column by column, as the queries do.

  /**
   * `buf` agrees with `block` on every column before `c`, and on column `c`
   * for the rows before `r`.
   */
  ghost predicate Filled(buf: seq<Scalar>, block: seq<Scalar>, stride: int, c: int, r: int) {
    |buf| == |block| &&
    (stride > 0 ==>
      forall k :: 0 <= k < |buf| && (k % stride < c || (k % stride == c && k / stride < r)) ==> buf[k] == block[k])
  }

  /** Nothing is filled yet. */
  lemma FillStart(buf: seq<Scalar>, block: seq<Scalar>, stride: int)
    requires |buf| == |block|
    ensures Filled(buf, block, stride, 0, 0)
  {
    if stride > 0 {
      forall k | 0 <= k < |buf|
        ensures k % stride >= 0 && k / stride >= 0
      {
        Decompose(k, stride);
      }
    }
  }

  /** Writing the block's cell of row `r`, column `c` extends the filled part by that cell. */
  lemma FillStep(before: seq<Scalar>, block: seq<Scalar>, n: nat, stride: nat, c: nat, r: nat)
    requires r < n && c < stride && |before| == |block| == n * stride
    requires Filled(before, block, stride, c, r)
    ensures r * stride + c < |before|
    ensures Filled(before[r * stride + c := block[r * stride + c]], block, stride, c, r + 1)
  {
    FlatIndex(r, c, n, stride);
    var after := before[r * stride + c := block[r * stride + c]];
    forall k | 0 <= k < |after| && (k % stride < c || (k % stride == c && k / stride < r + 1))
      ensures after[k] == block[k]
    {
      if k % stride == c && k / stride == r {
        Decompose(k, stride);
      }
    }
  }

  /** Once every row of column `c` is written, the next column starts. */
  lemma FillNextColumn(buf: seq<Scalar>, block: seq<Scalar>, n: nat, stride: nat, c: nat)
    requires |buf| == n * stride
    requires Filled(buf, block, stride, c, n)
    ensures Filled(buf, block, stride, c + 1, 0)
  {
    if stride > 0 {
      forall k | 0 <= k < |buf| && k % stride < c + 1
        ensures buf[k] == block[k]
      {
        RowOfIndex(k, n, stride);
      }
    }
  }

  /** A buffer with every column written is the block. */
  lemma FillDone(buf: seq<Scalar>, block: seq<Scalar>, n: nat, stride: nat)
    requires |buf| == |block| == n * stride
    requires Filled(buf, block, stride, stride, 0)
    ensures buf == block
  {
    if stride == 0 {
      assert |buf| == 0;
    } else {
      assert forall k :: 0 <= k < |buf| ==> buf[k] == block[k];
    }
  }

  // ---------------------------------------------------------------------
  // The grids of the three query forms.

  /**
   * The grid a range query answers over the window `columns` of the sanitized
   * column range: `n` rows, the i-th read at master row startRow + i, one cell
   * per column of the window, normalized. Reads start at the REQUESTED first
   * row `startRow`, not at the sanitized one.
   */
  function RangeGrid(st: MasterState, columns: seq<string>, startRow: int, n: nat): seq<seq<Scalar>> {
    seq(n, i =>
      seq(|columns|, c requires 0 <= c < |columns| => Normalize(st.readRow(columns[c], startRow + i))))
  }

  /** The grid a query by row indices answers: one row per listed index, in list order. */
  function RowsGrid(st: MasterState, columns: seq<string>, stride: nat, rows: seq<nat>): seq<seq<Scalar>>
    requires stride <= |columns|
  {
    seq(|rows|, i requires 0 <= i < |rows| =>
      seq(stride, c requires 0 <= c < stride => Normalize(st.readRow(columns[c], rows[i]))))
  }

  /** The grid a query by primary keys answers: one row per listed key, in list order. */
  function KeysGrid(st: MasterState, columns: seq<string>, stride: nat, keys: seq<Scalar>): seq<seq<Scalar>>
    requires stride <= |columns|
  {
    seq(|keys|, i requires 0 <= i < |keys| =>
      seq(stride, c requires 0 <= c < stride => Normalize(st.readKey(columns[c], keys[i]))))
  }

  /** The block of a range query with `n` rows over a window of columns: n * |columns| cells, none invalid. */
  lemma RangeBlockShape(st: MasterState, columns: seq<string>, startRow: int, n: nat)
    ensures |RowMajor(RangeGrid(st, columns, startRow, n))| == n * |columns|
    ensures forall k :: 0 <= k < |RowMajor(RangeGrid(st, columns, startRow, n))| ==>
      IsValid(RowMajor(RangeGrid(st, columns, startRow, n))[k])
  {
    RangeGridFacts(st, columns, startRow, n);
    BlockShape(RangeGrid(st, columns, startRow, n), |columns|);
  }

  /**
   * The cell at block row `i`, block column `c` of a range block is at index
   * i * stride + c and holds the normalized master-state cell of the window's
   * column `c` at row startRow + i.
   */
  lemma RangeBlockCell(st: MasterState, columns: seq<string>, startRow: int, n: nat, stride: nat, i: nat, c: nat)
    requires stride == |columns| && i < n && c < stride
    ensures var block := RowMajor(RangeGrid(st, columns, startRow, n));
      && i * stride + c < |block|
      && block[i * stride + c] == Normalize(st.readRow(columns[c], startRow + i))
  {
    RangeGridFacts(st, columns, startRow, n);
    RowMajorAt(RangeGrid(st, columns, startRow, n), stride, i, c);
  }

  lemma RangeGridFacts(st: MasterState, columns: seq<string>, startRow: int, n: nat)
    ensures |RangeGrid(st, columns, startRow, n)| == n
    ensures Rectangular(RangeGrid(st, columns, startRow, n), |columns|)
    ensures AllValid(RangeGrid(st, columns, startRow, n))
  {
    var grid := RangeGrid(st, columns, startRow, n);
    forall i, c | 0 <= i < |grid| && 0 <= c < |grid[i]| ensures IsValid(grid[i][c]) {
      assert grid[i][c] == Normalize(st.readRow(columns[c], startRow + i));
    }
  }

  /**
   * A range query whose every bound is already in range keeps its extents, and
   * answers, at block row `i` and block column `j`, the normalized cell of view
   * column startCol + j at view row startRow + i.
   */
  lemma RangeInBounds(st: MasterState, columns: seq<string>, nrows: nat, ncols: nat,
                      startRow: int, endRow: int, startCol: int, endCol: int, i: nat, j: nat)
    requires ncols <= |columns|
    requires 0 <= startRow && startRow + i < endRow <= nrows
    requires 0 <= startCol && startCol + j < endCol <= ncols
    ensures SanitizeExtents(nrows, ncols, startRow, endRow, startCol, endCol) == Extents(startRow, endRow, startCol, endCol)
    ensures var block := RowMajor(RangeGrid(st, columns[startCol..endCol], startRow, endRow - startRow));
      && i * (endCol - startCol) + j < |block|
      && block[i * (endCol - startCol) + j] == Normalize(st.readRow(columns[startCol + j], startRow + i))
  {
    var window := columns[startCol..endCol];
    assert window[j] == columns[startCol + j];
    RangeBlockCell(st, window, startRow, endRow - startRow, endCol - startCol, i, j);
  }

  /** The block of a query by row indices: |rows| * stride cells, none invalid. */
  lemma RowsBlockShape(st: MasterState, columns: seq<string>, stride: nat, rows: seq<nat>)
    requires stride <= |columns|
    ensures |RowMajor(RowsGrid(st, columns, stride, rows))| == |rows| * stride
    ensures forall k :: 0 <= k < |RowMajor(RowsGrid(st, columns, stride, rows))| ==>
      IsValid(RowMajor(RowsGrid(st, columns, stride, rows))[k])
  {
    RowsGridFacts(st, columns, stride, rows);
    BlockShape(RowsGrid(st, columns, stride, rows), stride);
  }

  /** Index i * stride + c of a block by row indices holds the normalized cell of column `c` at row rows[i]. */
  lemma RowsBlockCell(st: MasterState, columns: seq<string>, stride: nat, rows: seq<nat>, i: nat, c: nat)
    requires stride <= |columns|
    requires i < |rows| && c < stride
    ensures var block := RowMajor(RowsGrid(st, columns, stride, rows));
      && i * stride + c < |block|
      && block[i * stride + c] == Normalize(st.readRow(columns[c], rows[i]))
  {
    RowsGridFacts(st, columns, stride, rows);
    RowMajorAt(RowsGrid(st, columns, stride, rows), stride, i, c);
  }

  lemma RowsGridFacts(st: MasterState, columns: seq<string>, stride: nat, rows: seq<nat>)
    requires stride <= |columns|
    ensures |RowsGrid(st, columns, stride, rows)| == |rows|
    ensures Rectangular(RowsGrid(st, columns, stride, rows), stride)
    ensures AllValid(RowsGrid(st, columns, stride, rows))
  {
    var grid := RowsGrid(st, columns, stride, rows);
    forall i, j | 0 <= i < |grid| && 0 <= j < |grid[i]| ensures IsValid(grid[i][j]) {
      assert grid[i][j] == Normalize(st.readRow(columns[j], rows[i]));
    }
  }

  /** The block of a query by primary keys: |keys| * stride cells, none invalid. */
  lemma KeysBlockShape(st: MasterState, columns: seq<string>, stride: nat, keys: seq<Scalar>)
    requires stride <= |columns|
    ensures |RowMajor(KeysGrid(st, columns, stride, keys))| == |keys| * stride
    ensures forall k :: 0 <= k < |RowMajor(KeysGrid(st, columns, stride, keys))| ==>
      IsValid(RowMajor(KeysGrid(st, columns, stride, keys))[k])
  {
    KeysGridFacts(st, columns, stride, keys);
    BlockShape(KeysGrid(st, columns, stride, keys), stride);
  }

  /** Index i * stride + c of a block by keys holds the normalized cell of column `c` for key keys[i]. */
  lemma KeysBlockCell(st: MasterState, columns: seq<string>, stride: nat, keys: seq<Scalar>, i: nat, c: nat)
    requires stride <= |columns|
    requires i < |keys| && c < stride
    ensures var block := RowMajor(KeysGrid(st, columns, stride, keys));
      && i * stride + c < |block|
      && block[i * stride + c] == Normalize(st.readKey(columns[c], keys[i]))
  {
    KeysGridFacts(st, columns, stride, keys);
    RowMajorAt(KeysGrid(st, columns, stride, keys), stride, i, c);
  }

  lemma KeysGridFacts(st: MasterState, columns: seq<string>, stride: nat, keys: seq<Scalar>)
    requires stride <= |columns|
    ensures |KeysGrid(st, columns, stride, keys)| == |keys|
    ensures Rectangular(KeysGrid(st, columns, stride, keys), stride)
    ensures AllValid(KeysGrid(st, columns, stride, keys))
  {
    var grid := KeysGrid(st, columns, stride, keys);
    forall i, j | 0 <= i < |grid| && 0 <= j < |grid[i]| ensures IsValid(grid[i][j]) {
      assert grid[i][j] == Normalize(st.readKey(columns[j], keys[i]));
    }
  }

  // ---------------------------------------------------------------------
  // A column of each grid is the normalized column read from the master state.

  lemma RangeGridColumn(st: MasterState, columns: seq<string>, startRow: int, n: nat, c: nat)
    requires c < |columns|
    ensures forall r :: 0 <= r < n ==>
      RangeGrid(st, columns, startRow, n)[r][c] == Normalize(ReadColumnRange(st, columns[c], startRow, n)[r])
  {
  }

  lemma RowsGridColumn(st: MasterState, columns: seq<string>, stride: nat, rows: seq<nat>, j: nat)
    requires stride <= |columns| && j < stride
    ensures var grid := RowsGrid(st, columns, stride, rows);
      var column := ReadColumnRows(st, columns[j], rows);
      forall r :: 0 <= r < |rows| ==> grid[r][j] == Normalize(column[r])
  {
  }

  lemma KeysGridColumn(st: MasterState, columns: seq<string>, stride: nat, keys: seq<Scalar>, j: nat)
    requires stride <= |columns| && j < stride
    ensures var grid := KeysGrid(st, columns, stride, keys);
      var column := ReadColumnKeys(st, columns[j], keys);
      forall r :: 0 <= r < |keys| ==> grid[r][j] == Normalize(column[r])
  {
  }
}
