/**
 * The context's view of its collaborators: the schema it was built with and
 * the master state it reads from. Both are abstract: the master state is a
 * table of known size whose cells are read by row index or by primary key.
 */
module MasterStates {
  import opened Scalars

  /** Column names in order and the declared type of each known column. */
  datatype Schema = Schema(columns: seq<string>, dtypes: map<string, DType>)

  predicate HasColumn(schema: Schema, name: string) {
    name in schema.dtypes
  }

  /**
   * The master state as the unpivoted context sees it: row and column counts
   * and two read functions, one by row index and one by primary key. A read
   * may return a cell that is not valid.
   */
  datatype MasterState = MasterState(
    numRows: nat,
    numColumns: nat,
    readRow: (string, int) -> Scalar,
    readKey: (string, Scalar) -> Scalar)

  /**
   * Reading `n` cells of column `name` starting at row `startRow`: slot `i`
   * receives row `startRow + i`.
   */
  function ReadColumnRange(st: MasterState, name: string, startRow: int, n: nat): (out: seq<Scalar>)
    ensures |out| == n
    ensures forall i :: 0 <= i < n ==> out[i] == st.readRow(name, startRow + i)
  {
    seq(n, i => st.readRow(name, startRow + i))
  }

  /** Reading column `name` at the listed row indices, in list order. */
  function ReadColumnRows(st: MasterState, name: string, rows: seq<nat>): (out: seq<Scalar>)
    ensures |out| == |rows|
    ensures forall i :: 0 <= i < |rows| ==> out[i] == st.readRow(name, rows[i])
  {
    seq(|rows|, i requires 0 <= i < |rows| => st.readRow(name, rows[i]))
  }

  /** Reading column `name` at the listed primary keys, in list order. */
  function ReadColumnKeys(st: MasterState, name: string, keys: seq<Scalar>): (out: seq<Scalar>)
    ensures |out| == |keys|
    ensures forall i :: 0 <= i < |keys| ==> out[i] == st.readKey(name, keys[i])
  {
    seq(|keys|, i requires 0 <= i < |keys| => st.readKey(name, keys[i]))
  }
}
