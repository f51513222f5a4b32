/**
 * The unpivoted ("unit") view context: it tracks which primary keys changed
 * in the current update cycle and answers data queries straight from the
 * master state, one output row per master-state row.
 */
module ContextUnit {
  import opened Scalars
  import opened MasterStates
  import opened Extents
  import opened Blocks
  import opened UnitDelta

  /** What a delta read returns: the "rows changed" flag, the number of changed rows and their data. */
  datatype RowDelta = RowDelta(rowsChanged: bool, numRowsChanged: nat, data: seq<Scalar>)

  class UnitContext {
    const schema: Schema
    /** The context's symbol table, as the function that interns a scalar. */
    const intern: Scalar -> Scalar
    var gstate: MasterState

    var deltaPkeys: set<Scalar>
    var hasDelta: bool
    var rowsChanged: bool
    var columnsChanged: bool
    var isInit: bool

    /**
     * The master state never has more columns than the schema names: every
     * query indexes the schema's column list by master-state column.
     */
    ghost predicate Valid()
      reads this
    {
      gstate.numColumns <= |schema.columns|
    }

    /** The delta-tracking fields as a value. */
    function State(): DeltaState
      reads this
    {
      DeltaState(deltaPkeys, hasDelta, rowsChanged, columnsChanged, isInit)
    }

    constructor (schema: Schema, gstate: MasterState, intern: Scalar -> Scalar)
      requires gstate.numColumns <= |schema.columns|
      ensures Valid()
      ensures this.schema == schema && this.gstate == gstate && this.intern == intern
      ensures State() == UnitDelta.Initial()
    {
      this.schema := schema;
      this.gstate := gstate;
      this.intern := intern;
      deltaPkeys := {};
      hasDelta := false;
      rowsChanged := false;
      columnsChanged := false;
      isInit := false;
    }

    /** Points the context at the current master state (done by the update pipeline). */
    method SetState(st: MasterState)
      requires st.numColumns <= |schema.columns|
      modifies this`gstate
      ensures gstate == st && Valid()
    {
      gstate := st;
    }

    method Init()
      modifies this`isInit
      ensures State() == UnitDelta.Init(old(State()))
    {
      isInit := true;
    }

    method StepBegin()
      modifies this`deltaPkeys, this`rowsChanged, this`columnsChanged
      ensures State() == UnitDelta.StepBegin(old(State()))
    {
      if !isInit {
        return;
      }
      deltaPkeys := {};
      rowsChanged := false;
      columnsChanged := false;
    }

    method AddDeltaPkey(pkey: Scalar)
      modifies this`deltaPkeys
      ensures State() == UnitDelta.AddDeltaPkey(old(State()), pkey)
      ensures deltaPkeys == old(deltaPkeys) + {pkey}
    {
      deltaPkeys := deltaPkeys + {pkey};
    }

    /** Notify after a batch into a master state that already held data. */
    method Notify(flattened: seq<Record>) returns (outcome: NotifyOutcome)
      modifies this`deltaPkeys, this`hasDelta
      ensures (State(), outcome) == UnitDelta.Notify(old(State()), intern, flattened)
    {
      ghost var s0 := State();
      var nrecs := |flattened|;
      var deleteEncountered := false;
      var idx: nat := 0;
      NotifyProgressStart(s0, intern, flattened);
      NotifyLoopMatches(s0, intern, flattened, 0, s0.pkeys, false);
      while idx < nrecs
        invariant idx <= nrecs
        invariant NotifyLoop(s0, intern, flattened, idx, deltaPkeys, deleteEncountered) == UnitDelta.Notify(s0, intern, flattened)
        invariant hasDelta == s0.hasDelta
      {
        var pkey := intern(flattened[idx].pkey);
        var op := flattened[idx].op;
        if op == OP_INSERT {
        } else if op == OP_DELETE {
          deleteEncountered := true;
        } else {
          outcome := UnexpectedOp(idx, op);
          return;
        }
        AddDeltaPkey(pkey);
        idx := idx + 1;
      }
      hasDelta := |deltaPkeys| > 0 || deleteEncountered;
      outcome := Notified;
    }

    /** Notify after the first batch into an empty master state. */
    method NotifyFirst(flattened: seq<Record>)
      modifies this`deltaPkeys, this`hasDelta
      ensures State() == UnitDelta.NotifyFirst(old(State()), intern, flattened)
    {
      var nrecs := |flattened|;
      hasDelta := true;
      var idx := 0;
      while idx < nrecs
        invariant 0 <= idx <= nrecs
        invariant deltaPkeys == old(deltaPkeys) + InternedKeys(intern, flattened[..idx])
        invariant hasDelta
      {
        var pkey := intern(flattened[idx].pkey);
        InternedKeysSnoc(intern, flattened, idx);
        AddDeltaPkey(pkey);
        idx := idx + 1;
      }
      assert flattened[..idx] == flattened;
    }

    function HasDeltas(): (b: bool)
      reads this
      ensures b == State().hasDelta
    {
      hasDelta
    }

    method Reset()
      modifies this`hasDelta
      ensures State() == UnitDelta.DropDeltaFlag(old(State()))
    {
      hasDelta := false;
    }

    method ClearDeltas()
      modifies this`hasDelta
      ensures State() == UnitDelta.DropDeltaFlag(old(State()))
    {
      hasDelta := false;
    }

    function GetRowCount(): (n: nat)
      reads this
      ensures n == gstate.numRows
    {
      gstate.numRows
    }

    function GetColumnCount(): (n: nat)
      reads this
      ensures n == gstate.numColumns
    {
      gstate.numColumns
    }

    /**
     * The name of column `idx`, or "" when there is none. The index is signed
     * but compared unsigned, so a negative index has no column either.
     */
    function GetColumnName(idx: int): (name: string)
      ensures 0 <= idx < |schema.columns| ==> name == schema.columns[idx]
      ensures !(0 <= idx < |schema.columns|) ==> name == ""
    {
      if idx < 0 || idx >= |schema.columns| then "" else schema.columns[idx]
    }

    /**
     * The declared type of column `idx`; DNone when the index is past the
     * master state's columns or the schema declares no type under that
     * column's name.
     */
    function GetColumnDtype(idx: nat): (t: DType)
      reads this
      ensures idx >= gstate.numColumns ==> t == DNone
      ensures idx < gstate.numColumns && HasColumn(schema, GetColumnName(idx)) ==> t == schema.dtypes[GetColumnName(idx)]
      ensures idx < gstate.numColumns && !HasColumn(schema, GetColumnName(idx)) ==> t == DNone
      ensures Valid() && idx < gstate.numColumns ==> GetColumnName(idx) == schema.columns[idx]
    {
      if idx >= GetColumnCount() then DNone
      else
        var name := GetColumnName(idx);
        if !HasColumn(schema, name) then DNone else schema.dtypes[name]
    }

    /**
     * A range query. The requested extents are sanitized against the view's
     * size; the block is the grid of sanitized rows and columns laid out row
     * after row, every cell normalized.
     */
    method GetDataRange(startRow: int, endRow: int, startCol: int, endCol: int) returns (values: seq<Scalar>)
      requires Valid()
      ensures var ext := SanitizeExtents(gstate.numRows, gstate.numColumns, startRow, endRow, startCol, endCol);
        && values == RowMajor(RangeGrid(gstate, schema.columns[ext.scol..ext.ecol], startRow, ext.erow - ext.srow))
        && |values| == (ext.erow - ext.srow) * (ext.ecol - ext.scol)
        && forall k :: 0 <= k < |values| ==> IsValid(values[k])
    {
      var ctxNrows := GetRowCount();
      var ctxNcols := GetColumnCount();
      var ext := SanitizeExtents(ctxNrows, ctxNcols, startRow, endRow, startCol, endCol);
      values := ReadRangeBlock(gstate, schema.columns[ext.scol..ext.ecol], startRow, ext.erow - ext.srow);
      RangeBlockShape(gstate, schema.columns[ext.scol..ext.ecol], startRow, ext.erow - ext.srow);
    }

    /**
     * A query by row indices (not necessarily contiguous): one block row per
     * listed index, every column of the view, every cell normalized.
     */
    method GetDataRows(rows: seq<nat>) returns (values: seq<Scalar>)
      requires Valid()
      ensures values == RowMajor(RowsGrid(gstate, schema.columns, gstate.numColumns, rows))
      ensures |values| == |rows| * gstate.numColumns && forall k :: 0 <= k < |values| ==> IsValid(values[k])
    {
      var stride := GetColumnCount();
      var buffer := new Scalar[|rows| * stride];
      var columns := schema.columns;
      var st := gstate;

      ghost var grid := RowsGrid(st, columns, stride, rows);
      ghost var block := RowMajor(grid);
      assert Rectangular(grid, stride);
      RowMajorLength(grid, stride);
      FillStart(buffer[..], block, stride);

      var cidx := 0;
      while cidx < stride
        invariant 0 <= cidx <= stride
        invariant Filled(buffer[..], block, stride, cidx, 0)
      {
        var outData := ReadColumnRows(st, columns[cidx], rows);
        RowsGridColumn(st, columns, stride, rows, cidx);
        FillColumn(buffer, outData, grid, |rows|, stride, cidx);
        FillNextColumn(buffer[..], block, |rows|, stride, cidx);
        cidx := cidx + 1;
      }
      FillDone(buffer[..], block, |rows|, stride);
      values := buffer[..];
      RowsBlockShape(st, columns, stride, rows);
    }

    /**
     * A query by primary keys: one block row per listed key, every column of
     * the view, every cell normalized.
     */
    method GetDataKeys(pkeys: seq<Scalar>) returns (values: seq<Scalar>)
      requires Valid()
      ensures values == RowMajor(KeysGrid(gstate, schema.columns, gstate.numColumns, pkeys))
      ensures |values| == |pkeys| * gstate.numColumns && forall k :: 0 <= k < |values| ==> IsValid(values[k])
    {
      var stride := GetColumnCount();
      var buffer := new Scalar[|pkeys| * stride];
      var columns := schema.columns;
      var st := gstate;

      ghost var grid := KeysGrid(st, columns, stride, pkeys);
      ghost var block := RowMajor(grid);
      assert Rectangular(grid, stride);
      RowMajorLength(grid, stride);
      FillStart(buffer[..], block, stride);

      var cidx := 0;
      while cidx < stride
        invariant 0 <= cidx <= stride
        invariant Filled(buffer[..], block, stride, cidx, 0)
      {
        var outData := ReadColumnKeys(st, columns[cidx], pkeys);
        KeysGridColumn(st, columns, stride, pkeys, cidx);
        FillColumn(buffer, outData, grid, |pkeys|, stride, cidx);
        FillNextColumn(buffer[..], block, |pkeys|, stride, cidx);
        cidx := cidx + 1;
      }
      FillDone(buffer[..], block, |pkeys|, stride);
      values := buffer[..];
      KeysBlockShape(st, columns, stride, pkeys);
    }

    /**
     * Reads the delta of this cycle: the "rows changed" flag, the tracked keys
     * copied into a vector (in no particular order: `order` is that vector),
     * their count and their data; then drops the delta flag. The key set
     * itself is left as it was.
     */
    method GetRowDelta() returns (delta: RowDelta, ghost order: seq<Scalar>)
      requires Valid()
      modifies this`hasDelta
      ensures State() == UnitDelta.DropDeltaFlag(old(State()))
      ensures delta.rowsChanged == old(rowsChanged)
      ensures |order| == |deltaPkeys| && forall k :: k in order <==> k in deltaPkeys
      ensures forall i, j :: 0 <= i < j < |order| ==> order[i] != order[j]
      ensures delta.numRowsChanged == |deltaPkeys|
      ensures delta.data == RowMajor(KeysGrid(gstate, schema.columns, gstate.numColumns, order))
    {
      var rowsChangedNow := rowsChanged;
      var keys := CopyKeys(deltaPkeys);
      order := keys;
      var data := GetDataKeys(keys);
      delta := RowDelta(rowsChangedNow, |keys|, data);
      ClearDeltas();
    }
  }

  /**
   * One update cycle on an initialized context that has just received its
   * first batch: step_begin, the first-batch notify, then a delta read. The
   * read reports one row per distinct primary key of the batch, "rows
   * changed" is false, and the delta flag ends up down.
   */
  method FirstCycle(ctx: UnitContext, batch: seq<Record>) returns (delta: RowDelta)
    requires ctx.Valid() && ctx.isInit && Injective(ctx.intern)
    modifies ctx`deltaPkeys, ctx`hasDelta, ctx`rowsChanged, ctx`columnsChanged
    ensures delta.numRowsChanged == |PrimaryKeys(batch)|
    ensures !delta.rowsChanged && !ctx.HasDeltas()
    ensures ctx.deltaPkeys == InternedKeys(ctx.intern, batch)
  {
    ctx.StepBegin();
    ctx.NotifyFirst(batch);
    BatchKeyCount(ctx.intern, batch);
    ghost var order;
    delta, order := ctx.GetRowDelta();
  }

  /**
   * The column loop of a range query: reads each column of the window for
   * `numRows` rows from `startRow` on and writes it into its place in a
   * row-major buffer.
   */
  method ReadRangeBlock(st: MasterState, columns: seq<string>, startRow: int, numRows: nat) returns (values: seq<Scalar>)
    ensures values == RowMajor(RangeGrid(st, columns, startRow, numRows))
  {
    var stride := |columns|;
    var buffer := new Scalar[numRows * stride];

    ghost var grid := RangeGrid(st, columns, startRow, numRows);
    ghost var block := RowMajor(grid);
    RangeGridFacts(st, columns, startRow, numRows);
    RowMajorLength(grid, stride);
    FillStart(buffer[..], block, stride);

    var cidx := 0;
    while cidx < stride
      invariant 0 <= cidx <= stride
      invariant Filled(buffer[..], block, stride, cidx, 0)
    {
      var outData := ReadColumnRange(st, columns[cidx], startRow, numRows);
      RangeGridColumn(st, columns, startRow, numRows, cidx);
      FillColumn(buffer, outData, grid, numRows, stride, cidx);
      FillNextColumn(buffer[..], block, numRows, stride, cidx);
      cidx := cidx + 1;
    }
    FillDone(buffer[..], block, numRows, stride);
    values := buffer[..];
  }

  /**
   * Copies a key set into a vector, as the delta read does before querying
   * by keys: every key exactly once, in the order the loop picks them.
   */
  method CopyKeys(pkeys: set<Scalar>) returns (keys: seq<Scalar>)
    ensures |keys| == |pkeys|
    ensures forall k :: k in keys <==> k in pkeys
    ensures forall i, j :: 0 <= i < j < |keys| ==> keys[i] != keys[j]
  {
    keys := [];
    var remaining := pkeys;
    while remaining != {}
      invariant remaining <= pkeys && |keys| + |remaining| == |pkeys|
      invariant forall k :: k in pkeys <==> k in keys || k in remaining
      invariant forall k :: k in keys ==> k !in remaining
      invariant forall i, j :: 0 <= i < j < |keys| ==> keys[i] != keys[j]
      decreases |remaining|
    {
      var k :| k in remaining;
      keys := keys + [k];
      remaining := remaining - {k};
    }
  }

  /**
   * The inner loop shared by the three queries: writes column `c` of an
   * `n`-row block, replacing every cell that is not valid by "none", and
   * leaves every cell of the other columns as it was.
   */
  method FillColumn(buffer: array<Scalar>, column: seq<Scalar>, ghost grid: seq<seq<Scalar>>, n: nat, stride: nat, c: nat)
    requires buffer.Length == n * stride && |column| == n && |grid| == n && c < stride
    requires Rectangular(grid, stride)
    requires forall r :: 0 <= r < n ==> grid[r][c] == Normalize(column[r])
    requires Filled(buffer[..], RowMajor(grid), stride, c, 0)
    modifies buffer
    ensures Filled(buffer[..], RowMajor(grid), stride, c, n)
    ensures forall k :: 0 <= k < buffer.Length && k % stride != c ==> buffer[k] == old(buffer[k])
  {
    ghost var block := RowMajor(grid);
    var none := MkNone();
    var r := 0;
    while r < n
      invariant 0 <= r <= n
      invariant Filled(buffer[..], block, stride, c, r)
      invariant forall k :: 0 <= k < buffer.Length && k % stride != c ==> buffer[k] == old(buffer[k])
    {
      FlatIndex(r, c, n, stride);
      var v := column[r];
      if !IsValid(v) {
        v := none;
      }
      RowMajorAt(grid, stride, r, c);
      FillStep(buffer[..], block, n, stride, c, r);
      buffer[r * stride + c] := v;
      r := r + 1;
    }
  }
}
