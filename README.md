# Unpivoted view context (`t_ctxunit`)

This project models the unpivoted ("unit") view context of the Perspective
engine: the context a view uses when it has no pivots, filters or sorts. It
does two jobs.

- **Delta tracking.** During an update cycle the context collects the interned
  primary keys of every row the update pipeline hands it. It also keeps a
  "has delta" flag, two "changed" flags and an init flag. `step_begin` opens
  a cycle. The two `notify` forms add keys. `get_row_delta` reads the cycle's
  changes. `reset` and `clear_deltas` drop the flag.
- **Data queries.** Three `get_data` forms (a rectangular range, a list of row
  indices, a list of primary keys) read the cells they need from the master
  state column by column. They write the cells into one flat row-major
  buffer, cell (i, c) at index `i * stride + c`, and replace every invalid
  cell by the "none" scalar. The range form first clamps the requested extents to the view's size.

Layout:

- `scalars.dfy` (`Scalars`): scalars with a validity status, "none",
  normalization of a returned cell, operation tags, injectivity of interning.
- `master_state.dfy` (`MasterStates`): the schema and an abstract master state
  with row/column counts and two read functions (by row index, by key).
- `extents.dfy` (`Extents`): range sanitization.
- `unit_delta.dfy` (`UnitDelta`): the delta state as a value, one transition
  function per operation, and the properties of the cycle.
- `blocks.dfy` (`Blocks`): the grid each query form answers, its row-major
  layout, and the column-by-column filling argument.
- `context_unit.dfy` (`ContextUnit`): the class `UnitContext` with the
  context's fields and one method per operation. Each mutating method is
  proved to perform its `UnitDelta` transition on `State()`. Each query
  method is proved to return the row-major layout of its grid.

Some behaviour one might expect of the context does not hold in the code,
and the model follows the code:

- `get_row_delta` leaves the delta key set as it is; only `step_begin` empties
  it (`UnitDelta.ReadKeepsKeys`). A second read with no `step_begin` in
  between reports the same keys again, not an empty delta.
- `get_row_delta` reports `m_rows_changed`, which no operation of this class
  ever raises (`UnitDelta.ChangedFlagsOnlyFall`). It does not report the
  "has delta" flag.
- `clear_deltas` drops only the "has delta" flag.
- The full `notify` accepts only the insert and delete tags. Every other tag
  aborts.

## Model

| member | source | states |
|---|---|---|
| Scalars.Normalize | cpp/perspective/src/cpp/context_unit.cpp:97-101 | the returned cell is always valid; a valid cell is kept as it is, any other becomes "none" |
| Extents.SanitizeExtents | cpp/perspective/src/cpp/context_unit.cpp:80-81 | sanitized extents satisfy 0 <= srow <= erow <= row count and 0 <= scol <= ecol <= column count; a request already in range is kept unchanged |
| MasterStates.ReadColumnRange | cpp/perspective/src/cpp/context_unit.cpp:92-94 | reading n cells from row startRow gives n cells, slot i holding row startRow + i of that column |
| MasterStates.ReadColumnRows | cpp/perspective/src/cpp/context_unit.cpp:127-128 | one cell per listed row index, in list order |
| MasterStates.ReadColumnKeys | cpp/perspective/src/cpp/context_unit.cpp:153-154 | one cell per listed primary key, in list order |
| UnitDelta.FirstUnexpectedOp | cpp/perspective/src/cpp/context_unit.cpp:263-270 | no result exactly when every tag is insert or delete; otherwise the index of the first row with another tag, every row before it having a known tag |
| UnitDelta.InternedKeysSnoc | cpp/perspective/src/cpp/context_unit.cpp:258-273 | taking one more row of the batch tracks exactly that row's interned key in addition |
| UnitDelta.HasDeleteSnoc | cpp/perspective/src/cpp/context_unit.cpp:266-268 | one more row sets the delete flag exactly when that row is a delete |
| UnitDelta.NotifyLoopMatches | cpp/perspective/src/cpp/context_unit.cpp:257-276 | the loop of the full notify, resumed from any row its progress has reached, ends in the same state and outcome as the declarative `UnitDelta.Notify` |
| UnitDelta.InjectiveImageSize | cpp/perspective/src/cpp/context_unit.cpp:259 | interning a set of keys with an injective symbol table keeps its size |
| UnitDelta.BatchKeyCount | cpp/perspective/src/cpp/context_unit.cpp:307-309 | the keys a batch tracks are as many as its distinct primary keys: duplicates collapse, distinct keys never do |
| UnitDelta.StepBeginSpec | cpp/perspective/src/cpp/context_unit.cpp:43-51 | once initialized, step_begin empties the key set and clears both "changed" flags; before init it changes nothing; the delta and init flags are never touched |
| UnitDelta.NotifySpec | cpp/perspective/src/cpp/context_unit.cpp:244-277 | the full notify never removes a key; it is accepted exactly when every tag is known, and then adds the batch's interned keys and raises the flag exactly when a key is tracked or a row is a delete; otherwise it reports the first bad row and its tag, adds only the keys of the rows before it and leaves the flag |
| UnitDelta.DeleteForcesDelta | cpp/perspective/src/cpp/context_unit.cpp:266-276 | an accepted batch with a delete raises the flag |
| UnitDelta.NonEmptyBatchRaisesDelta | cpp/perspective/src/cpp/context_unit.cpp:272-276 | an accepted non-empty batch raises the flag |
| UnitDelta.NotifyFirstSpec | cpp/perspective/src/cpp/context_unit.cpp:285-299 | the first-batch notify raises the flag even for an empty batch and tracks every row's interned key |
| UnitDelta.FirstCycleCount | cpp/perspective/src/cpp/context_unit.cpp:285-299 | step_begin then the first-batch notify leaves as many keys as the batch has distinct primary keys, the flag up and "rows changed" down |
| UnitDelta.CycleCount | cpp/perspective/src/cpp/context_unit.cpp:244-277 | step_begin then an all-known full notify leaves as many keys as distinct primary keys, with the flag up exactly for a non-empty batch |
| UnitDelta.ReadKeepsKeys | cpp/perspective/src/cpp/context_unit.cpp:333-336 | dropping the flag keeps the key set and "rows changed", and doing it twice is the same as once |
| UnitDelta.ChangedFlagsOnlyFall | cpp/perspective/src/cpp/context_unit.cpp:43-51 | no operation raises either "changed" flag |
| ContextUnit.UnitContext.constructor | cpp/perspective/src/cpp/context_unit.cpp:23-26 | a new context tracks no key, has every flag down and is not initialized |
| ContextUnit.UnitContext.Init | cpp/perspective/src/cpp/context_unit.cpp:30-33 | sets the init flag and nothing else |
| ContextUnit.UnitContext.StepBegin | cpp/perspective/src/cpp/context_unit.cpp:43-51 | performs the step_begin transition, including the early exit before init |
| ContextUnit.UnitContext.AddDeltaPkey | cpp/perspective/src/cpp/context_unit.cpp:306-309 | adds one key to the tracked set |
| ContextUnit.UnitContext.Notify | cpp/perspective/src/cpp/context_unit.cpp:244-277 | the loop's new state and outcome are exactly those of `UnitDelta.Notify` |
| ContextUnit.UnitContext.NotifyFirst | cpp/perspective/src/cpp/context_unit.cpp:285-299 | the new state is that of `UnitDelta.NotifyFirst` |
| ContextUnit.UnitContext.HasDeltas | cpp/perspective/src/cpp/context_unit.cpp:311-314 | reports the delta flag |
| ContextUnit.UnitContext.Reset | cpp/perspective/src/cpp/context_unit.cpp:218-221 | drops the delta flag and nothing else |
| ContextUnit.UnitContext.ClearDeltas | cpp/perspective/src/cpp/context_unit.cpp:333-336 | drops the delta flag and nothing else |
| ContextUnit.UnitContext.GetRowCount | cpp/perspective/src/cpp/context_unit.cpp:56-59 | the master state's row count |
| ContextUnit.UnitContext.GetColumnCount | cpp/perspective/src/cpp/context_unit.cpp:61-64 | the master state's column count |
| ContextUnit.UnitContext.GetColumnName | cpp/perspective/src/cpp/context_unit.cpp:169-178 | the schema's name of column idx, or "" for any index with no column (a negative one included) |
| ContextUnit.UnitContext.GetColumnDtype | cpp/perspective/src/cpp/context_unit.cpp:319-331 | DTYPE_NONE past the master state's columns or for an undeclared name, the declared type otherwise |
| ContextUnit.UnitContext.GetDataRange | cpp/perspective/src/cpp/context_unit.cpp:76-108 | returns the row-major layout of the grid over the sanitized extents, read from the requested first row: (erow - srow) * (ecol - scol) cells, none invalid |
| ContextUnit.ReadRangeBlock | cpp/perspective/src/cpp/context_unit.cpp:83-105 | the column loop fills the buffer with exactly the row-major layout of the range grid |
| ContextUnit.FillColumn | cpp/perspective/src/cpp/context_unit.cpp:96-104 | the inner loop writes every row of one column at index row * stride + column, normalized, keeps the columns already written and leaves every cell of the other columns as it was |
| ContextUnit.UnitContext.GetDataRows | cpp/perspective/src/cpp/context_unit.cpp:117-141 | returns the row-major layout of the grid of listed rows by every view column: (number of rows) * (column count) cells, none invalid |
| ContextUnit.UnitContext.GetDataKeys | cpp/perspective/src/cpp/context_unit.cpp:143-167 | returns the row-major layout of the grid of listed keys by every view column: (number of keys) * (column count) cells, none invalid |
| ContextUnit.CopyKeys | cpp/perspective/src/cpp/context_unit.cpp:195-199 | copying the key set gives a vector as long as the set holding each key exactly once |
| ContextUnit.UnitContext.GetRowDelta | cpp/perspective/src/cpp/context_unit.cpp:191-206 | reports the earlier "rows changed" flag, a row count equal to the key set's size and the key-query data of the keys in some order without repeats; afterwards only the delta flag has changed (it is down) |
| ContextUnit.FirstCycle | cpp/perspective/src/cpp/context_unit.cpp:191-206 | step_begin, the first-batch notify and a delta read on an initialized context report one row per distinct primary key of the batch, "rows changed" false, and leave the flag down |
| Blocks.RowMajorAt | cpp/perspective/src/cpp/context_unit.cpp:103 | the cell of grid row i, column c sits at flat index i * stride + c |
| Blocks.RangeBlockShape | cpp/perspective/src/cpp/context_unit.cpp:83-85 | a range block has rows * window-columns cells, none invalid |
| Blocks.RangeBlockCell | cpp/perspective/src/cpp/context_unit.cpp:96-103 | block row i, block column c holds the normalized cell of the window's column c at row startRow + i |
| Blocks.RangeInBounds | cpp/perspective/src/cpp/context_unit.cpp:91-103 | a range query already within bounds keeps its extents and answers, at block row i and block column j, the normalized cell of view column startCol + j at view row startRow + i |
| Blocks.RowsBlockShape | cpp/perspective/src/cpp/context_unit.cpp:119-120 | a block by row indices has (number of rows) * stride cells, none invalid |
| Blocks.RowsBlockCell | cpp/perspective/src/cpp/context_unit.cpp:130-136 | index i * stride + c holds the normalized cell of column c at row rows[i] |
| Blocks.KeysBlockShape | cpp/perspective/src/cpp/context_unit.cpp:145-146 | a block by keys has (number of keys) * stride cells, none invalid |
| Blocks.KeysBlockCell | cpp/perspective/src/cpp/context_unit.cpp:156-162 | index i * stride + c holds the normalized cell of column c for key keys[i] |

## Left out

- `get_pkeys` always aborts as not implemented, so it has no behaviour to model.
- `repr` and `pprint` only format text.
- `get_deltas_enabled`, `sidedness` and `get_column_names` are constant or pass-through accessors.
- `step_end` and the destructor have empty bodies.
- `UnitContext.Notify` takes only the flattened table: the other five table arguments of the full `notify` (`delta`, `prev`, `curr`, `transitions`, `existed`) are never read by its body.
- The master state is abstract: its storage, `read_column`, `num_rows` and `num_columns` are not part of this model. The range read is assumed to put row `start_row + i` into slot `i` (line 94 passes the raw requested first row). The cell correspondence with view rows is claimed only for in-range requests (`Blocks.RangeInBounds`).
- Extents.SanitizeExtents: `get_data_extents.h` is not part of this model. The body is one clamping that meets the stated bounds; only its contract is claimed.
- The symbol table is the function `intern`. Its storage and thread safety are not modelled. Its injectivity is assumed where key counts are stated.
- The iteration order of the key set is not modelled. `GetRowDelta` returns the order it used as a ghost value; only set properties and the absence of repeats are stated.
- Concurrency and locking around the delta snapshot are not modelled. Every call runs alone.
- The op codes of the insert, delete and clear tags come from `base.h`, which is not part of this model; they are taken as 0, 1 and 2. Only "insert or delete" matters to the model.
- An abort on an unexpected tag is modelled as the outcome `UnexpectedOp(row, tag)`. The keys of earlier rows stay tracked and the bad row's key does not.
- Integer widths (`t_index`, `t_uindex`) are unbounded. Sizes stay far below the width limits, and sizes are never negative after sanitizing.
- Floating point and date payloads of scalars are not modelled; the queries only copy cells.
- The defaults of `m_rows_changed`, `m_columns_changed` and `m_init` come from a header that is not part of this model; they are taken as false.
- Pointing the context at a master state (`SetState`) stands for the base-class wiring, which is not part of this model.
