/**
 * The HDF5 leaf a LeafModel displays, reduced to the metadata the model
 * inspects when it is built, and the rules by which that metadata fixes the
 * model's column count, its time columns and its cell formatter.
 */
module Leaves {
  import opened Wrappers

  /** The value of a leaf's CLASS attribute that marks a time series table. */
  const TimeSeriesClass: string := "TimeSeriesTable"
  /** The column that holds the dates of a time series table. */
  const DatesColumn: string := "_dates"
  /** Column and atom types whose values are seconds since the epoch. */
  const TimeTypes: seq<string> := ["time32", "time64"]
  /** The atom type of arrays of pickled objects. */
  const ObjectType: string := "object"
  /** Atom types of variable length string arrays. */
  const VarLengthStringTypes: seq<string> := ["vlstring", "vlunicode"]

  /**
   * A leaf is either a table (named, typed columns) or an array of some
   * shape. `classAttr` is the leaf's CLASS attribute; `coltypes` maps a
   * column path name to its type and `coldescrs` maps it to the position of
   * its descriptor. Both maps may lack keys: the model reads them without
   * checking first.
   */
  datatype Leaf =
    | Table(classAttr: string, colnames: seq<string>, colpathnames: seq<string>,
            coltypes: map<string, string>, coldescrs: map<string, int>)
    | Array(classAttr: string, shape: seq<nat>, atomType: string)

  /** The cell formatters a model can pick for its non-time cells. */
  datatype Formatter =
    | FormatArrayContent
    | FormatTimeContent
    | FormatObjectContent
    | FormatStringContent

  /** Why inspecting a leaf's metadata raised instead of finishing. */
  datatype InspectionError =
    | MissingKey(key: string)         // a column lookup raised KeyError
    | MissingAttribute(name: string)  // an array has no column descriptors

  predicate IsTimeType(t: string) {
    t in TimeTypes
  }

  /**
   * The number of rows shown: the leaf's row count, capped at the chunk
   * size, i.e. the smaller of the two.
   */
  function NumRows(leafRows: int, chunkSize: int): (n: int)
    ensures n <= leafRows && n <= chunkSize
    ensures n == leafRows || n == chunkSize
    ensures 0 <= leafRows && 0 <= chunkSize ==> 0 <= n
  {
    if leafRows > chunkSize then chunkSize else leafRows
  }

  /**
   * The number of columns shown: every top level column of a table; the
   * second dimension of an array shown as a matrix; one for an array of
   * rank at most one, shown as a column vector.
   */
  function NumColumns(leaf: Leaf): (n: nat)
    ensures leaf.Table? ==> n == |leaf.colnames|
    ensures leaf.Array? && |leaf.shape| > 1 ==> n == leaf.shape[1]
    ensures leaf.Array? && |leaf.shape| <= 1 ==> n == 1
  {
    match leaf
    case Table(_, colnames, _, _, _) => |colnames|
    case Array(_, shape, _) => if |shape| > 1 then shape[1] else 1
  }

  /**
   * The formatter for non-time cells. Only an array not marked as a time
   * series chooses by its atom type; every other leaf keeps the generic
   * array formatter.
   */
  function ContentFormatter(leaf: Leaf): (f: Formatter)
    ensures leaf.Table? ==> f == FormatArrayContent
    ensures f == FormatTimeContent <==>
      leaf.Array? && leaf.classAttr != TimeSeriesClass && IsTimeType(leaf.atomType)
    ensures f == FormatObjectContent <==>
      leaf.Array? && leaf.classAttr != TimeSeriesClass && leaf.atomType == ObjectType
    ensures f == FormatStringContent <==>
      leaf.Array? && leaf.classAttr != TimeSeriesClass && leaf.atomType in VarLengthStringTypes
  {
    if leaf.Table? || leaf.classAttr == TimeSeriesClass then FormatArrayContent
    else if IsTimeType(leaf.atomType) then FormatTimeContent
    else if leaf.atomType == ObjectType then FormatObjectContent
    else if leaf.atomType in VarLengthStringTypes then FormatStringContent
    else FormatArrayContent
  }

  /** Puts `acc` in front of a successful list of positions; keeps an error. */
  function Prepend(acc: seq<int>, r: Result<seq<int>, InspectionError>): Result<seq<int>, InspectionError> {
    match r
    case Success(cols) => Success(acc + cols)
    case Failure(e) => Failure(e)
  }

  lemma PrependNothing(r: Result<seq<int>, InspectionError>)
    ensures Prepend([], r) == r
  {
    if r.Success? {
      assert [] + r.value == r.value;
    }
  }

  lemma PrependTwice(a: seq<int>, b: seq<int>, r: Result<seq<int>, InspectionError>)
    ensures Prepend(a, Prepend(b, r)) == Prepend(a + b, r)
  {
    if r.Success? {
      assert a + (b + r.value) == (a + b) + r.value;
    }
  }

  /**
   * The positions of the time typed columns among `paths`, in order. Every
   * path's type is looked up, and the descriptor of every time typed one;
   * the first lookup that finds no key is the error.
   */
  function TimePositions(paths: seq<string>, types: map<string, string>, descrs: map<string, int>)
    : Result<seq<int>, InspectionError>
  {
    if paths == [] then Success([])
    else if paths[0] !in types then Failure(MissingKey(paths[0]))
    else if !IsTimeType(types[paths[0]]) then TimePositions(paths[1..], types, descrs)
    else if paths[0] !in descrs then Failure(MissingKey(paths[0]))
    else Prepend([descrs[paths[0]]], TimePositions(paths[1..], types, descrs))
  }

  /**
   * The time columns of a leaf: the dates column of a time series table,
   * the time typed columns of any other table, none for an array.
   */
  function TimeColumns(leaf: Leaf): Result<seq<int>, InspectionError> {
    if leaf.classAttr == TimeSeriesClass then
      if leaf.Array? then Failure(MissingAttribute("coldescrs"))
      else if DatesColumn !in leaf.coldescrs then Failure(MissingKey(DatesColumn))
      else Success([leaf.coldescrs[DatesColumn]])
    else if leaf.Table? then TimePositions(leaf.colpathnames, leaf.coltypes, leaf.coldescrs)
    else Success([])
  }

  /**
   * Walks the column path names once, appending the position of each time
   * typed column, as the table branch of the model's construction does.
   */
  method CollectTimeColumns(paths: seq<string>, types: map<string, string>, descrs: map<string, int>)
    returns (r: Result<seq<int>, InspectionError>)
    ensures r == TimePositions(paths, types, descrs)
  {
    var cols: seq<int> := [];
    var i := 0;
    assert paths[i..] == paths;
    PrependNothing(TimePositions(paths, types, descrs));
    while i < |paths|
      invariant 0 <= i <= |paths|
      invariant TimePositions(paths, types, descrs) == Prepend(cols, TimePositions(paths[i..], types, descrs))
    {
      var p := paths[i];
      assert paths[i..][1..] == paths[i + 1..];
      if p !in types {
        return Failure(MissingKey(p));
      }
      if IsTimeType(types[p]) {
        if p !in descrs {
          return Failure(MissingKey(p));
        }
        PrependTwice(cols, [descrs[p]], TimePositions(paths[i + 1..], types, descrs));
        cols := cols + [descrs[p]];
      }
      i := i + 1;
    }
    assert paths[i..] == [];
    assert cols + [] == cols;
    return Success(cols);
  }

  // ---------------------------------------------------------------------
  // Independent descriptions of the dispatch, and lemmas connecting them
  // ---------------------------------------------------------------------

  /** Every metadata lookup that building a model makes finds its key. */
  ghost predicate Inspectable(leaf: Leaf) {
    if leaf.classAttr == TimeSeriesClass then leaf.Table? && DatesColumn in leaf.coldescrs
    else leaf.Table? ==>
      forall p :: p in leaf.colpathnames ==>
        p in leaf.coltypes && (IsTimeType(leaf.coltypes[p]) ==> p in leaf.coldescrs)
  }

  /** `c` is the position of a column whose cells hold times. */
  ghost predicate IsTimeColumn(leaf: Leaf, c: int) {
    leaf.Table? &&
    if leaf.classAttr == TimeSeriesClass then
      DatesColumn in leaf.coldescrs && leaf.coldescrs[DatesColumn] == c
    else
      exists p :: p in leaf.colpathnames && p in leaf.coltypes && IsTimeType(leaf.coltypes[p]) &&
        p in leaf.coldescrs && leaf.coldescrs[p] == c
  }

  /** The time typed paths among `paths`, in order. */
  ghost function TimedPaths(paths: seq<string>, types: map<string, string>): (t: seq<string>)
    requires forall p :: p in paths ==> p in types
  {
    if paths == [] then []
    else if IsTimeType(types[paths[0]]) then [paths[0]] + TimedPaths(paths[1..], types)
    else TimedPaths(paths[1..], types)
  }

  lemma {:induction false} TimedPathsMembers(paths: seq<string>, types: map<string, string>)
    requires forall p :: p in paths ==> p in types
    ensures forall p :: p in TimedPaths(paths, types) <==> p in paths && IsTimeType(types[p])
  {
    if paths != [] {
      TimedPathsMembers(paths[1..], types);
      assert forall p :: p in paths <==> p == paths[0] || p in paths[1..];
    }
  }

  /** The table lookups succeed exactly when every key they need is there. */
  lemma {:induction false} TimePositionsSucceeds(paths: seq<string>, types: map<string, string>, descrs: map<string, int>)
    ensures TimePositions(paths, types, descrs).Success? <==>
      forall p :: p in paths ==> p in types && (IsTimeType(types[p]) ==> p in descrs)
    ensures TimePositions(paths, types, descrs).Failure? ==>
      TimePositions(paths, types, descrs).error.MissingKey? &&
      TimePositions(paths, types, descrs).error.key in paths
  {
    if paths != [] {
      TimePositionsSucceeds(paths[1..], types, descrs);
      assert forall p :: p in paths <==> p == paths[0] || p in paths[1..];
    }
  }

  /**
   * On success the table lookups give the descriptor positions of exactly
   * the time typed paths, one each, in the order of `paths`.
   */
  lemma {:induction false} TimePositionsInOrder(paths: seq<string>, types: map<string, string>, descrs: map<string, int>)
    requires TimePositions(paths, types, descrs).Success?
    ensures forall p :: p in paths ==> p in types
    ensures forall p :: p in TimedPaths(paths, types) ==> p in descrs
    ensures |TimePositions(paths, types, descrs).value| == |TimedPaths(paths, types)|
    ensures forall j :: 0 <= j < |TimedPaths(paths, types)| ==>
      TimePositions(paths, types, descrs).value[j] == descrs[TimedPaths(paths, types)[j]]
  {
    TimePositionsSucceeds(paths, types, descrs);
    TimedPathsMembers(paths, types);
    if paths != [] {
      TimePositionsInOrder(paths[1..], types, descrs);
    }
  }

  /** A leaf can be inspected exactly when its time columns come out. */
  lemma TimeColumnsSucceeds(leaf: Leaf)
    ensures TimeColumns(leaf).Success? <==> Inspectable(leaf)
  {
    if leaf.Table? && leaf.classAttr != TimeSeriesClass {
      TimePositionsSucceeds(leaf.colpathnames, leaf.coltypes, leaf.coldescrs);
    }
  }

  /**
   * The time columns are exactly the positions of the columns whose cells
   * hold times; a time series table has just its dates column and an array
   * has none.
   */
  lemma TimeColumnsMembers(leaf: Leaf, cols: seq<int>)
    requires TimeColumns(leaf) == Success(cols)
    ensures forall c :: c in cols <==> IsTimeColumn(leaf, c)
    ensures leaf.classAttr == TimeSeriesClass ==> |cols| == 1
    ensures leaf.Array? ==> cols == []
  {
    if leaf.Table? && leaf.classAttr != TimeSeriesClass {
      var paths, types, descrs := leaf.colpathnames, leaf.coltypes, leaf.coldescrs;
      TimePositionsInOrder(paths, types, descrs);
      TimedPathsMembers(paths, types);
      var timed := TimedPaths(paths, types);
      forall c | c in cols ensures IsTimeColumn(leaf, c) {
        var j :| 0 <= j < |cols| && cols[j] == c;
        assert timed[j] in timed;
      }
      forall c | IsTimeColumn(leaf, c) ensures c in cols {
        var p :| p in paths && p in types && IsTimeType(types[p]) && p in descrs && descrs[p] == c;
        assert p in timed;
        var j :| 0 <= j < |timed| && timed[j] == p;
        assert cols[j] == c;
      }
    }
  }
}
