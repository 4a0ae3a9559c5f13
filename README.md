# LeafModel: a windowed grid over an HDF5 leaf

ViTables shows PyTables leaves (tables and arrays) in a Qt table view. A
leaf can hold far more rows than fit in memory, so `LeafModel` shows at most
one chunk of them. It is a fixed-size grid whose rows are the read buffer's
current window. Grid row `r` shows leaf row `rbuffer.start + r`, and its
header says so: the header label is that leaf row's 1-based number. When it
is built, the model fixes four things:

- its row count: the leaf's row count, capped at the chunk size;
- its column count, chosen by leaf kind and array rank;
- its time columns;
- the formatter for all other cells.

Only `loadData` changes anything after that. It asks the buffer for a new
window and signals the view that the row labels changed.

This project models that class in Dafny:

- `wrappers.dfy`: `Result` and `Outcome`, which stand for the Python
  exceptions.
- `leaf.dfy`, module `Leaves`:
  - the leaf as a closed datatype, `Table` or `Array`, holding the metadata
    the model reads;
  - the construction-time rules as functions: `NumRows`, `NumColumns`,
    `ContentFormatter`, `TimeColumns`;
  - the column loop as a method, `CollectTimeColumns`, proved to compute
    `TimePositions`;
  - lemmas relating the time columns to a declarative description of "the
    columns whose cells hold times".
- `buffer.dfy`, module `Buffers`: the read buffer, reduced to what the model
  uses:
  - the leaf and its row count (fixed);
  - the window, made of `start`, `chunkSize` and a cell function (mutable);
  - `ReadBuffer`. Its file I/O is a parameter `io`, and it logs every call in
    `requests`.
- `leaf_model.dfy`, module `LeafModels`: the class `LeafModel`.
  - Its fields are `const`, because the source never reassigns them after
    `__init__`.
  - `emitted` logs the signals sent.
  - `Open` is `__init__`, including its error paths.
  - `HeaderData`, `Data`, `RowCount` and `ColumnCount` are read-only
    functions.
  - `LoadData` is a method.
  - Lemmas tie the queries to each other and to the leaf's metadata.
- `scenarios.dfy`: client methods that derive concrete answers from the
  contracts alone. Examples: a 5-column, 1000-row table read 100 rows at a
  time, then scrolled to row 500; a one-dimensional time array; a time-series
  table with no dates column.

Qt roles, orientations and alignment flags use Qt's own values
(`DisplayRole` 0, `TextAlignmentRole` 7, `AlignLeft` 0x1, `AlignRight` 0x2,
`AlignTop` 0x20, `AlignVCenter` 0x80). A rendered cell is a tag: `TimeText`
stands for `time.ctime` of the cell, and `Formatted(f, cell)` for formatter
`f` applied to the cell. `Number(n)` is an integer shown as text.

Behaviour of the code that is easy to miss:

- Construction fails with the lookup error the code would raise. That is a
  `KeyError` from the column type or descriptor maps, or an `AttributeError`
  for an array whose CLASS attribute is `TimeSeriesTable`. There is no
  dedicated inspection error type.
- The CLASS test comes before the table test, so it applies to every leaf.
- A cell query also requires a valid index (`isValid`), not only a row inside
  the window.
- The column label indexes `colnames` with Python semantics. A negative
  section counts from the end, and an out-of-range one raises `IndexError`.
- After `loadData(start, n)` the row labels count from the buffer's new
  `start`, whatever the buffer settled on. The code does not promise that
  this equals the `start` requested.
- A failed read passes its error straight on. Nothing is signalled, and the
  model keeps no window of its own: it shows whatever window the buffer was
  left holding.

## Model

| member | source | states |
|---|---|---|
| `Leaves.NumRows` | vitables/vtTables/leafModel.py:95-97 | the row count is the smaller of the leaf's rows and the chunk size: it exceeds neither, equals one of them, and is non-negative when both are |
| `Leaves.NumColumns` | vitables/vtTables/leafModel.py:102-113 | a table shows all of its top-level columns; an array of rank above one shows `shape[1]` columns; an array of rank at most one is one column |
| `Leaves.ContentFormatter` | vitables/vtTables/leafModel.py:120-139 | tables always keep the generic array formatter; the time, object and string formatters are each chosen exactly when the leaf is an array not marked as a time series with a time, `object` or variable-length string atom |
| `Leaves.CollectTimeColumns` | vitables/vtTables/leafModel.py:125-130 | the loop over the column path names yields exactly the specified time positions, or the first missing-key error |
| `Leaves.TimePositionsSucceeds` | vitables/vtTables/leafModel.py:127-130 | collecting the time columns of a table succeeds iff every path has a type and every time-typed path has a descriptor; a failure names a key that is one of the paths |
| `Leaves.TimePositionsInOrder` | vitables/vtTables/leafModel.py:127-130 | on success the result has one entry per time-typed path, in path order, each the descriptor position of that path |
| `Leaves.TimeColumnsSucceeds` | vitables/vtTables/leafModel.py:121-134 | choosing time columns raises nothing iff the leaf's metadata has every key the lookups need (a time series table with a dates column, or a table whose lookups all hit, or a plain array) |
| `Leaves.TimeColumnsMembers` | vitables/vtTables/leafModel.py:121-134 | the chosen time columns are exactly the positions of columns that hold times; a time series table has exactly one (its dates column), an array none |
| `Buffers.Buffer.ReadBuffer` | vitables/vtTables/leafModel.py:219 | each call is recorded with its arguments; afterwards the buffer holds the window the read left it with, and a failed read reports its error |
| `LeafModels.ListItem` | vitables/vtTables/leafModel.py:168 | indexing the column names succeeds iff the index is within `-len .. len-1`; a non-negative index gives the name at that index, a negative one the name that many places from the end |
| `LeafModels.LeafModel.Open` | vitables/vtTables/leafModel.py:70-142 | building succeeds iff the metadata lookups succeed and the first read does; then the model satisfies `Valid` (row count, column count, time columns, formatter as the leaf prescribes), its recorded build-time chunk size is the buffer's chunk size before the call, it has read the buffer's own start and chunk size once and has sent one row-header signal; a lookup failure reads nothing and changes nothing, a read failure passes the read's error on |
| `LeafModels.LeafModel.HeaderData` | vitables/vtTables/leafModel.py:149-171 | alignment is left/vcenter for columns and right/vcenter for rows; other non-display roles give nothing; a row label is the window start plus the section plus one; a column label is the table's column name at that section, counted from the end for a negative section, failing exactly outside Python's index range, or the section plus one for arrays |
| `LeafModels.LeafModel.Data` | vitables/vtTables/leafModel.py:173-194 | nothing outside the window or for an invalid index; inside it, the cell comes from leaf row `start + row`, shown as a time iff its column is a time column and by the model's formatter otherwise; alignment role gives left/top |
| `LeafModels.LeafModel.ColumnCount` | vitables/vtTables/leafModel.py:196-201 | the column count is the one the leaf's kind and shape prescribe (the number of names for a table) |
| `LeafModels.LeafModel.RowCount` | vitables/vtTables/leafModel.py:203-208 | the row count is the smaller of the leaf's rows and the buffer's chunk size when the model was built (that chunk size is fixed by `Open`) |
| `LeafModels.LeafModel.LoadData` | vitables/vtTables/leafModel.py:210-221 | one read request with the given arguments; on success the buffer shows the new window and one signal for row headers `0 .. numrows-1` is sent; on failure the error is passed on, nothing is signalled, and every cell answer is unchanged if the buffer was left with its old window; dimensions, time columns and formatter are constants it cannot change |
| `LeafModels.HorizontalLabelsCoverColumns` | vitables/vtTables/leafModel.py:164-169 | every counted column has a label that does not raise: the column name of a table, the 1-based number for an array |
| `LeafModels.RowLabelsNameShownRows` | vitables/vtTables/leafModel.py:170-186 | the label of each grid row is the 1-based number of the leaf row whose cells are shown there, whether they are rendered by ctime or by the formatter; the first row is `start + 1` and the last `start + numrows` |
| `LeafModels.TimeCellsFollowMetadata` | vitables/vtTables/leafModel.py:183-190 | in a valid model a shown cell is rendered by ctime iff the leaf metadata says its column holds times; other cells of a table use the generic array formatter |
| `LeafModels.ArrayCellsUseAtomFormatter` | vitables/vtTables/leafModel.py:131-139 | every shown cell of an array goes through its formatter, never through ctime, and that formatter is the time formatter iff the atom type is a time type |

## Left out

- `last_row_width` (line 86) is computed but never used, so it is not modelled.
- The translation helper `__tr` (lines 144-147) is not modelled.
- The `parent` argument of the constructor is not modelled.
- The unused imports are not modelled.
- `QVariant` wrapping is replaced by the `Variant` datatype.
- The emitted signal is a log entry in `emitted`, not a Qt signal delivery.
- `vitables.utils` formatters, `time.ctime` and `unicode` of an integer are
  foreign rendering calls. They appear as tags, not as text.
- The read buffer's chunked HDF5 I/O and caching are not modelled. The
  outcome of a read is a parameter of `ReadBuffer`, and the model says
  nothing about how the buffer picks its new start.
- LeafModels.LeafModel.LoadData: "a failed load leaves the shown cells as
  they were" is not promised unconditionally. It holds only if the buffer
  keeps its window when a read fails, and the buffer's code is not part of
  this model.
- `getCell` is a total function of the absolute address. Whatever the buffer
  does for an address outside its chunk is not modelled.
- PyTables type tests (`isinstance`, `hasattr(..., 'description')`,
  `_v_attrs.CLASS`) become the closed `Leaf` datatype and its `classAttr`
  field. A `Table` is exactly a leaf with a description.
- `LeafModels.LeafModel.Data`: Python calls `getCell` before it looks at the
  role. The model, a pure function, performs that read only for the value it
  returns, so the read's side effects and exceptions are not modelled.
- Concurrency is not modelled: the source has none.
