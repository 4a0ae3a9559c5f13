/**
 * Clients of the model: what a view can conclude from the contracts alone
 * about a few concrete leaves.
 */
module Scenarios {
  import opened Wrappers
  import opened Leaves
  import opened Buffers
  import opened LeafModels

  /** The raw element at a leaf address, for these examples. */
  function SampleCell(row: int, column: int): Cell {
    if 0 <= row < 256 && 0 <= column < 256 then [row as bv8, column as bv8] else []
  }

  /** A five column table of 1000 rows read 100 rows at a time, then scrolled to row 500. */
  method ScrollTable() {
    var names := ["a", "b", "c", "d", "e"];
    var types := map["a" := "int32", "b" := "int32", "c" := "float64", "d" := "int32", "e" := "string"];
    var table := Table("TABLE", names, names, types, map[]);
    assert TimePositions(names[4..], types, map[]) == Success([]);
    assert TimePositions(names[3..], types, map[]) == Success([]);
    assert TimePositions(names[2..], types, map[]) == Success([]);
    assert TimePositions(names[1..], types, map[]) == Success([]);
    assert TimeColumns(table) == Success([]);

    var rbuffer := new Buffer(table, 1000, 0, 100, SampleCell);
    var built := LeafModel.Open(rbuffer, Success(Window(0, 100, SampleCell)));
    assert built.Success?;
    var m := built.value;
    var noIndex := ModelIndex(-1, -1, false);
    assert m.RowCount(noIndex) == 100;
    assert m.ColumnCount(noIndex) == 5;
    assert m.HeaderData(0, Vertical, DisplayRole) == Success(Number(1));
    assert m.HeaderData(99, Vertical, DisplayRole) == Success(Number(100));
    assert m.HeaderData(2, Horizontal, DisplayRole) == Success(Text("c"));
    assert m.Data(ModelIndex(100, 0, true), DisplayRole) == Null;

    var loaded := m.LoadData(500, 100, Success(Window(500, 100, SampleCell)));
    assert loaded == Pass;
    assert m.HeaderData(0, Vertical, DisplayRole) == Success(Number(501));
    assert m.Data(ModelIndex(0, 0, true), DisplayRole) == Formatted(FormatArrayContent, SampleCell(500, 0));
    assert m.emitted == [HeaderDataChanged(Vertical, 0, 99), HeaderDataChanged(Vertical, 0, 99)];

    var failed := m.LoadData(900, 100, Failure(ReadFailure(ReadError("disk"), Window(500, 100, SampleCell))));
    assert failed.Fail?;
    assert m.HeaderData(0, Vertical, DisplayRole) == Success(Number(501));
    assert |rbuffer.requests| == 3;
  }

  /** A one-dimensional array of 50 time stamps, read 100 rows at a time. */
  method ShowTimeVector() {
    var vector := Array("ARRAY", [50], "time64");
    var rbuffer := new Buffer(vector, 50, 0, 100, SampleCell);
    var built := LeafModel.Open(rbuffer, Success(Window(0, 100, SampleCell)));
    assert built.Success?;
    var m := built.value;
    assert m.numcols == 1 && m.numrows == 50;
    assert m.HeaderData(0, Horizontal, DisplayRole) == Success(Number(1));
    assert m.Data(ModelIndex(3, 0, true), DisplayRole) == Formatted(FormatTimeContent, SampleCell(3, 0));
  }

  /** A time series table whose dates column is missing cannot be shown. */
  method MissingDates() {
    var series := Table(TimeSeriesClass, ["x"], ["x"], map["x" := "float64"], map["x" := 0]);
    var rbuffer := new Buffer(series, 10, 0, 100, SampleCell);
    var built := LeafModel.Open(rbuffer, Success(Window(0, 100, SampleCell)));
    assert built == Failure(Inspection(MissingKey(DatesColumn)));
    assert rbuffer.requests == [];
  }
}
