/**
 * The read buffer a LeafModel draws its cells from. Only the interface the
 * model uses is modelled: the leaf, its row count, the current window
 * (start row, chunk size, the cells it can hand out) and `ReadBuffer`, which
 * moves the window. How the buffer reads chunks from the HDF5 file is not
 * modelled: the outcome of that I/O is a parameter of `ReadBuffer`.
 */
module Buffers {
  import opened Wrappers
  import opened Leaves

  /** A raw element of the leaf, as read from the file; never looked into. */
  type Cell = seq<bv8>

  /** Why a read from the file failed. */
  datatype ReadError = ReadError(reason: string)

  /** A window as the buffer's I/O produced it. */
  datatype Window = Window(start: int, chunkSize: int, cells: (int, int) -> Cell)

  /** A failed read: the error, and the window the buffer was left with. */
  datatype ReadFailure = ReadFailure(error: ReadError, left: Window)

  /** One call of `ReadBuffer`, with the arguments it was given. */
  datatype Request = Request(start: int, chunkSize: int)

  class Buffer {
    /** The leaf the buffer reads from. */
    const dataSource: Leaf
    /** The number of rows of the leaf. */
    const leafNumrows: int
    /** The first leaf row of the current window. */
    var start: int
    /** The number of rows the buffer reads at once. */
    var chunkSize: int
    /** The cell at an absolute (leaf row, column) address. */
    var cells: (int, int) -> Cell
    /** Every `ReadBuffer` call so far, oldest first. */
    var requests: seq<Request>

    constructor (dataSource: Leaf, leafNumrows: int, start: int, chunkSize: int, cells: (int, int) -> Cell)
      ensures this.dataSource == dataSource && this.leafNumrows == leafNumrows
      ensures this.start == start && this.chunkSize == chunkSize && this.cells == cells
      ensures requests == []
    {
      this.dataSource := dataSource;
      this.leafNumrows := leafNumrows;
      this.start := start;
      this.chunkSize := chunkSize;
      this.cells := cells;
      requests := [];
    }

    /** The current window as a value. */
    function CurrentWindow(): (w: Window)
      reads this
      ensures w.start == start && w.chunkSize == chunkSize && w.cells == cells
    {
      Window(start, chunkSize, cells)
    }

    /** The cell at absolute leaf row `row` and column `col`. */
    function GetCell(row: int, col: int): Cell
      reads this
    {
      cells(row, col)
    }

    /**
     * Asks for a new window of `size` rows from leaf row `start`. `io` is
     * what the read produced: the window the buffer holds afterwards
     * (whatever start it settled on) and, for a failed read, the error.
     * Either way the call is recorded.
     */
    method ReadBuffer(start: int, size: int, io: Result<Window, ReadFailure>) returns (r: Outcome<ReadError>)
      modifies this
      ensures requests == old(requests) + [Request(start, size)]
      ensures io.Success? ==> r == Pass && CurrentWindow() == io.value
      ensures io.Failure? ==> r == Fail(io.error.error) && CurrentWindow() == io.error.left
    {
      requests := requests + [Request(start, size)];
      match io
      case Success(w) =>
        this.start, chunkSize, cells := w.start, w.chunkSize, w.cells;
        r := Pass;
      case Failure(ReadFailure(e, w)) =>
        this.start, chunkSize, cells := w.start, w.chunkSize, w.cells;
        r := Fail(e);
    }
  }
}
