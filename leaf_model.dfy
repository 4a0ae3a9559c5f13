/**
 * LeafModel: the table model a view uses to show a leaf. It shows at most
 * one chunk of the leaf's rows; the rows shown are the buffer's current
 * window, so the same grid row shows a different leaf row whenever the
 * window moves. Dimensions, time columns and formatter are fixed when the
 * model is built.
 */
module LeafModels {
  import opened Wrappers
  import opened Leaves
  import opened Buffers

  // Qt's alignment flags, item data roles and header orientations.
  const AlignLeft: bv32 := 0x0001
  const AlignRight: bv32 := 0x0002
  const AlignTop: bv32 := 0x0020
  const AlignVCenter: bv32 := 0x0080

  const AlignLeftVCenter: int := (AlignLeft | AlignVCenter) as int
  const AlignRightVCenter: int := (AlignRight | AlignVCenter) as int
  const AlignLeftTop: int := (AlignLeft | AlignTop) as int

  /** An item data role; the model answers two of them. */
  type Role = int
  const DisplayRole: Role := 0
  const TextAlignmentRole: Role := 7

  datatype Orientation = Horizontal | Vertical

  /**
   * What the model hands the view. Rendering itself (the formatters, the
   * C library's ctime, integer to text) is left to the view's side, so a
   * rendered value is the renderer together with what it renders.
   */
  datatype Variant =
    | Null                                       // an empty variant
    | Int(n: int)                                // alignment flags
    | Text(s: string)                            // a column name
    | Number(n: int)                             // an integer shown as text
    | TimeText(cell: Cell)                       // ctime of the cell
    | Formatted(formatter: Formatter, cell: Cell)

  /** An item index: it is valid when it has a model and no negative coordinate. */
  datatype ModelIndex = ModelIndex(row: int, column: int, hasModel: bool) {
    predicate IsValid() {
      0 <= row && 0 <= column && hasModel
    }
  }

  /** A notification sent to the view. */
  datatype Signal = HeaderDataChanged(orientation: Orientation, first: int, last: int)

  /** Indexing a name list out of range raises IndexError. */
  datatype QueryError = IndexError(index: int)

  /** Why building a model raised. */
  datatype OpenError =
    | Inspection(reason: InspectionError)  // the leaf's metadata lacked a key
    | ReadFailed(readError: ReadError)     // the first load of the window failed

  /** List indexing with negative indices counting from the end. */
  function ListItem(names: seq<string>, i: int): (r: Result<string, QueryError>)
    ensures r.Success? <==> -|names| <= i < |names|
    ensures r.Success? ==> r.value in names
    ensures 0 <= i < |names| ==> r == Success(names[i])
    ensures -|names| <= i < 0 ==> r == Success(names[|names| + i])
  {
    if 0 <= i < |names| then Success(names[i])
    else if -|names| <= i < 0 then Success(names[|names| + i])
    else Failure(IndexError(i))
  }

  class LeafModel {
    /** The leaf shown, and the buffer that reads it. */
    const dataSource: Leaf
    const rbuffer: Buffer
    /** The grid's dimensions, fixed when the model is built. */
    const numrows: int
    const numcols: int
    /** The positions of the columns whose cells are shown as times. */
    const timeCols: seq<int>
    /** The formatter for every other cell. */
    const formatContent: Formatter
    /** The buffer's chunk size when the model was built. */
    ghost const initialChunkSize: int
    /** Every signal sent so far, oldest first. */
    var emitted: seq<Signal>

    /** The fixed fields are what the leaf's metadata prescribes. */
    ghost predicate Valid() {
      dataSource == rbuffer.dataSource &&
      numrows == NumRows(rbuffer.leafNumrows, initialChunkSize) &&
      numcols == NumColumns(dataSource) &&
      TimeColumns(dataSource) == Success(timeCols) &&
      formatContent == ContentFormatter(dataSource)
    }

    constructor Init(rbuffer: Buffer, numrows: int, numcols: int, timeCols: seq<int>,
                     formatContent: Formatter, ghost initialChunkSize: int)
      ensures this.dataSource == rbuffer.dataSource && this.rbuffer == rbuffer
      ensures this.numrows == numrows && this.numcols == numcols
      ensures this.timeCols == timeCols && this.formatContent == formatContent
      ensures this.initialChunkSize == initialChunkSize
      ensures emitted == []
    {
      this.dataSource := rbuffer.dataSource;
      this.rbuffer := rbuffer;
      this.numrows := numrows;
      this.numcols := numcols;
      this.timeCols := timeCols;
      this.formatContent := formatContent;
      this.initialChunkSize := initialChunkSize;
      emitted := [];
    }

    /**
     * Builds the model of `rbuffer`'s leaf and loads its first window; `io`
     * is the outcome of that load's read. Raises when a metadata lookup
     * finds no key (before anything is read) or when the read fails.
     */
    static method Open(rbuffer: Buffer, io: Result<Window, ReadFailure>) returns (r: Result<LeafModel, OpenError>)
      modifies rbuffer
      ensures r.Success? <==> TimeColumns(rbuffer.dataSource).Success? && io.Success?
      ensures TimeColumns(rbuffer.dataSource).Failure? ==>
        r == Failure(Inspection(TimeColumns(rbuffer.dataSource).error)) && unchanged(rbuffer)
      ensures TimeColumns(rbuffer.dataSource).Success? ==>
        rbuffer.requests == old(rbuffer.requests) + [Request(old(rbuffer.start), old(rbuffer.chunkSize))]
      ensures TimeColumns(rbuffer.dataSource).Success? && io.Failure? ==>
        r == Failure(ReadFailed(io.error.error)) && rbuffer.CurrentWindow() == io.error.left
      ensures r.Success? ==>
        fresh(r.value) && r.value.Valid() && r.value.rbuffer == rbuffer &&
        r.value.initialChunkSize == old(rbuffer.chunkSize) &&
        r.value.numrows == NumRows(rbuffer.leafNumrows, old(rbuffer.chunkSize)) &&
        r.value.emitted == [HeaderDataChanged(Vertical, 0, r.value.numrows - 1)] &&
        rbuffer.CurrentWindow() == io.value
    {
      var dataSource := rbuffer.dataSource;

      // At most one chunk of rows is shown.
      var numrows := rbuffer.leafNumrows;
      if numrows > rbuffer.chunkSize {
        numrows := rbuffer.chunkSize;
      }

      // Every column is shown.
      var numcols: int;
      if dataSource.Table? {
        numcols := |dataSource.colnames|;
      } else {
        var shape := dataSource.shape;
        if |shape| > 1 {
          numcols := shape[1];
        } else {
          numcols := 1;
        }
      }

      // The cell formatter and the time columns.
      var formatContent := FormatArrayContent;
      var timeCols: seq<int> := [];
      if dataSource.classAttr == TimeSeriesClass {
        if dataSource.Array? {
          return Failure(Inspection(MissingAttribute("coldescrs")));
        }
        if DatesColumn !in dataSource.coldescrs {
          return Failure(Inspection(MissingKey(DatesColumn)));
        }
        timeCols := timeCols + [dataSource.coldescrs[DatesColumn]];
        assert timeCols == [dataSource.coldescrs[DatesColumn]];
      } else if dataSource.Table? {
        var collected := CollectTimeColumns(dataSource.colpathnames, dataSource.coltypes, dataSource.coldescrs);
        if collected.Failure? {
          return Failure(Inspection(collected.error));
        }
        timeCols := timeCols + collected.value;
        assert timeCols == collected.value;
      } else {
        var atomType := dataSource.atomType;
        if atomType in TimeTypes {
          formatContent := FormatTimeContent;
        }
        if atomType == ObjectType {
          formatContent := FormatObjectContent;
        } else if atomType in VarLengthStringTypes {
          formatContent := FormatStringContent;
        }
      }

      var m := new LeafModel.Init(rbuffer, numrows, numcols, timeCols, formatContent, rbuffer.chunkSize);
      // The first window shown is the one the buffer already points at.
      var loaded := m.LoadData(rbuffer.start, rbuffer.chunkSize, io);
      if loaded.Fail? {
        return Failure(ReadFailed(loaded.error));
      }
      return Success(m);
    }

    /** Grid row `index.row` lies in the window and the index is valid. */
    predicate InWindow(index: ModelIndex) {
      index.IsValid() && 0 <= index.row < numrows
    }

    /**
     * The header label or alignment of a section. Row sections are labelled
     * by the 1-based number of the leaf row shown there; column sections by
     * the table's column name, or by their 1-based number for an array.
     */
    function HeaderData(section: int, orientation: Orientation, role: Role): (r: Result<Variant, QueryError>)
      reads rbuffer
      ensures role == TextAlignmentRole ==>
        r == Success(Int(if orientation == Horizontal then AlignLeftVCenter else AlignRightVCenter))
      ensures role != TextAlignmentRole && role != DisplayRole ==> r == Success(Null)
      ensures role == DisplayRole && orientation == Vertical ==>
        r == Success(Number(rbuffer.start + section + 1))
      ensures role == DisplayRole && orientation == Horizontal && dataSource.Array? ==>
        r == Success(Number(section + 1))
      ensures role == DisplayRole && orientation == Horizontal && dataSource.Table? ==>
        (r.Success? <==> -|dataSource.colnames| <= section < |dataSource.colnames|) &&
        (r.Success? ==> r.value.Text? && r.value.s in dataSource.colnames) &&
        (0 <= section < |dataSource.colnames| ==> r == Success(Text(dataSource.colnames[section]))) &&
        (-|dataSource.colnames| <= section < 0 ==>
          r == Success(Text(dataSource.colnames[|dataSource.colnames| + section])))
    {
      if role == TextAlignmentRole then
        if orientation == Horizontal then Success(Int(AlignLeftVCenter)) else Success(Int(AlignRightVCenter))
      else if role != DisplayRole then Success(Null)
      else if orientation == Horizontal then
        if dataSource.Table? then
          match ListItem(dataSource.colnames, section)
          case Success(name) => Success(Text(name))
          case Failure(e) => Failure(e)
        else Success(Number(section + 1))
      else Success(Number(rbuffer.start + section + 1))
    }

    /**
     * The data of a cell. Outside the window, or for an invalid index,
     * there is none; inside, the cell comes from the leaf row the window
     * shows at that grid row, and is shown as a time in a time column and
     * by the model's formatter elsewhere.
     */
    function Data(index: ModelIndex, role: Role): (v: Variant)
      reads rbuffer
      ensures !InWindow(index) ==> v == Null
      ensures v == Null <==> !InWindow(index) || (role != DisplayRole && role != TextAlignmentRole)
      ensures v.TimeText? <==> InWindow(index) && role == DisplayRole && index.column in timeCols
      ensures v.Formatted? <==> InWindow(index) && role == DisplayRole && index.column !in timeCols
      ensures v.Formatted? ==> v.formatter == formatContent
      ensures v.TimeText? || v.Formatted? ==> v.cell == rbuffer.GetCell(rbuffer.start + index.row, index.column)
      ensures v.Int? <==> InWindow(index) && role == TextAlignmentRole
      ensures v.Int? ==> v.n == AlignLeftTop
      ensures !v.Text? && !v.Number?
    {
      if !index.IsValid() || !(0 <= index.row < numrows) then Null
      else
        var cell := rbuffer.GetCell(rbuffer.start + index.row, index.column);
        if role == DisplayRole then
          if index.column in timeCols then TimeText(cell) else Formatted(formatContent, cell)
        else if role == TextAlignmentRole then Int(AlignLeftTop)
        else Null
    }

    /** The number of columns: the one the leaf's shape prescribes. */
    function ColumnCount(index: ModelIndex): (n: int)
      requires Valid()
      ensures n == NumColumns(dataSource)
      ensures dataSource.Table? ==> n == |dataSource.colnames|
    {
      numcols
    }

    /** The number of rows: the leaf's rows, but at most one chunk. */
    function RowCount(index: ModelIndex): (n: int)
      requires Valid()
      ensures n <= rbuffer.leafNumrows && n <= initialChunkSize
      ensures n == rbuffer.leafNumrows || n == initialChunkSize
      ensures 0 <= rbuffer.leafNumrows && 0 <= initialChunkSize ==> 0 <= n
    {
      numrows
    }

    /**
     * Asks the buffer for the window of `chunkSize` rows from `start`, then
     * tells the view that every row label may have changed. `io` is the
     * outcome of the buffer's read; when it fails, the failure is passed on
     * and nothing is signalled. The cells shown then stay as they were
     * provided the buffer kept its window.
     */
    method LoadData(start: int, chunkSize: int, io: Result<Window, ReadFailure>) returns (r: Outcome<ReadError>)
      modifies this, rbuffer
      ensures rbuffer.requests == old(rbuffer.requests) + [Request(start, chunkSize)]
      ensures io.Success? ==>
        r == Pass && rbuffer.CurrentWindow() == io.value &&
        emitted == old(emitted) + [HeaderDataChanged(Vertical, 0, numrows - 1)]
      ensures io.Failure? ==>
        r == Fail(io.error.error) && rbuffer.CurrentWindow() == io.error.left &&
        emitted == old(emitted)
      ensures io.Failure? && io.error.left == old(rbuffer.CurrentWindow()) ==>
        forall index, role :: Data(index, role) == old(Data(index, role))
    {
      r := rbuffer.ReadBuffer(start, chunkSize, io);
      if r.Fail? {
        return;
      }
      emitted := emitted + [HeaderDataChanged(Vertical, 0, numrows - 1)];
    }
  }

  // -----------------------------------------------------------------------
  // How the queries fit together
  // -----------------------------------------------------------------------

  /**
   * Every column counted has a label: its name for a table, its 1-based
   * number for an array.
   */
  lemma HorizontalLabelsCoverColumns(m: LeafModel, index: ModelIndex)
    requires m.Valid()
    ensures forall s :: 0 <= s < m.ColumnCount(index) ==>
      m.HeaderData(s, Horizontal, DisplayRole) ==
        Success(if m.dataSource.Table? then Text(m.dataSource.colnames[s]) else Number(s + 1))
  {
  }

  /**
   * The label of a grid row is the 1-based number of the leaf row whose
   * cells the grid shows there: the first row is labelled one past the
   * window's start, the last one past the start plus the row count less one.
   */
  lemma RowLabelsNameShownRows(m: LeafModel)
    ensures forall row, column ::
      m.InWindow(ModelIndex(row, column, true)) &&
      (m.Data(ModelIndex(row, column, true), DisplayRole).Formatted? ||
       m.Data(ModelIndex(row, column, true), DisplayRole).TimeText?) ==>
        m.Data(ModelIndex(row, column, true), DisplayRole).cell == m.rbuffer.GetCell(m.rbuffer.start + row, column) &&
        m.HeaderData(row, Vertical, DisplayRole) == Success(Number(m.rbuffer.start + row + 1))
    ensures 0 < m.numrows ==>
      m.HeaderData(0, Vertical, DisplayRole) == Success(Number(m.rbuffer.start + 1)) &&
      m.HeaderData(m.numrows - 1, Vertical, DisplayRole) == Success(Number(m.rbuffer.start + m.numrows))
  {
  }

  /**
   * A shown cell is rendered as a time exactly when its column holds times
   * according to the leaf's metadata; every other shown cell of a table
   * uses the generic array formatter.
   */
  lemma TimeCellsFollowMetadata(m: LeafModel, index: ModelIndex)
    requires m.Valid() && m.InWindow(index)
    ensures m.Data(index, DisplayRole).TimeText? <==> IsTimeColumn(m.dataSource, index.column)
    ensures m.dataSource.Table? && !IsTimeColumn(m.dataSource, index.column) ==>
      m.Data(index, DisplayRole).Formatted? && m.Data(index, DisplayRole).formatter == FormatArrayContent
  {
    TimeColumnsMembers(m.dataSource, m.timeCols);
  }

  /** An array never shows a cell as a time through ctime; its atom type decides the formatter. */
  lemma ArrayCellsUseAtomFormatter(m: LeafModel, index: ModelIndex)
    requires m.Valid() && m.dataSource.Array? && m.InWindow(index)
    ensures m.Data(index, DisplayRole).Formatted?
    ensures m.Data(index, DisplayRole).formatter == FormatTimeContent <==> IsTimeType(m.dataSource.atomType)
  {
  }
}
