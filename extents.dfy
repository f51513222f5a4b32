/** Sanitizing the extents of a range query against the current view size. */
module Extents {

  /** Half-open row range [srow, erow) and column range [scol, ecol). */
  datatype Extents = Extents(srow: int, erow: int, scol: int, ecol: int)

  function Clamp(x: int, lo: int, hi: int): int
    requires lo <= hi
  {
    if x < lo then lo else if x > hi then hi else x
  }

  /**
   * Narrows a requested range to the view: both ends are clamped into
   * [0, nrows] (resp. [0, ncols]) and an inverted range becomes empty. No
   * request is an error.
   */
  function SanitizeExtents(nrows: nat, ncols: nat, startRow: int, endRow: int, startCol: int, endCol: int): (e: Extents)
    ensures 0 <= e.srow <= e.erow <= nrows
    ensures 0 <= e.scol <= e.ecol <= ncols
    ensures 0 <= startRow <= endRow <= nrows ==> e.srow == startRow && e.erow == endRow
    ensures 0 <= startCol <= endCol <= ncols ==> e.scol == startCol && e.ecol == endCol
  {
    var srow := Clamp(startRow, 0, nrows);
    var erow := Clamp(endRow, srow, nrows);
    var scol := Clamp(startCol, 0, ncols);
    var ecol := Clamp(endCol, scol, ncols);
    Extents(srow, erow, scol, ecol)
  }
}
