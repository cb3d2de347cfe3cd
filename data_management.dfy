/** The column bookkeeping and row selection of `data_management.py`. A data frame is a list
    of column names and a list of rows, each row a map from column name to value; dates are
    day numbers. The scaler that produces the scaled columns is a parameter. */
module DataManagement {
  import opened Wrappers
  import opened Seqs

  // ---------------------------------------------------------------------------------------
  // ColumnTracker

  /** The column roles of a data set. */
  datatype ColumnTracker = ColumnTracker(
    columns: seq<string>,
    target: string,
    categorical: seq<string>,
    notrain: seq<string>,
    inputs: seq<string>)

  const DefaultTarget: string := "outcome"
  const DefaultCategorical: seq<string> := ["homeTeamID", "awayTeamID"]
  const DefaultNotrain: seq<string> := ["id", "inOT", "datePlayed"]

  function NotIn(excluded: seq<string>): string -> bool
  {
    (c: string) => c !in excluded
  }

  /** `ColumnTracker(columns, target, categorical, notrain)`: the inputs are the columns, in
      order, that are neither the target nor a notrain column. */
  function MakeColumnTracker(columns: seq<string>, target: string, categorical: seq<string>, notrain: seq<string>): ColumnTracker
  {
    ColumnTracker(columns, target, categorical, notrain, Filter(columns, NotIn([target] + notrain)))
  }

  /** `get_noscale_columns`. */
  function NoscaleColumns(ct: ColumnTracker): (r: seq<string>)
    ensures |r| == 1 + |ct.categorical| + |ct.notrain|
    ensures r[0] == ct.target && r[1..1 + |ct.categorical|] == ct.categorical && r[1 + |ct.categorical|..] == ct.notrain
  {
    [ct.target] + ct.categorical + ct.notrain
  }

  /** `get_scale_columns`. */
  function ScaleColumns(ct: ColumnTracker): seq<string>
  {
    Filter(ct.inputs, NotIn(NoscaleColumns(ct)))
  }

  /** The inputs keep the order of the columns and are exactly the columns other than the
      target and the notrain columns. */
  lemma InputsAreTrainColumns(columns: seq<string>, target: string, categorical: seq<string>, notrain: seq<string>)
    ensures var ct := MakeColumnTracker(columns, target, categorical, notrain);
      && IsSubsequence(ct.inputs, columns)
      && forall c :: c in ct.inputs <==> c in columns && c != target && c !in notrain
  {
    FilterIsSubsequence(columns, NotIn([target] + notrain));
    FilterMembers(columns, NotIn([target] + notrain));
  }

  /** The scale columns keep the order of the inputs and are exactly the columns that are not
      target, categorical or notrain. */
  lemma ScaleColumnsAreScaled(columns: seq<string>, target: string, categorical: seq<string>, notrain: seq<string>)
    ensures var ct := MakeColumnTracker(columns, target, categorical, notrain);
      && IsSubsequence(ScaleColumns(ct), ct.inputs)
      && forall c :: c in ScaleColumns(ct) <==> c in columns && c != target && c !in categorical && c !in notrain
  {
    var ct := MakeColumnTracker(columns, target, categorical, notrain);
    InputsAreTrainColumns(columns, target, categorical, notrain);
    FilterIsSubsequence(ct.inputs, NotIn(NoscaleColumns(ct)));
    FilterMembers(ct.inputs, NotIn(NoscaleColumns(ct)));
  }

  // ---------------------------------------------------------------------------------------
  // Frames

  type Row = map<string, real>

  datatype Frame = Frame(columns: seq<string>, rows: seq<Row>)

  /** Every row has a value in column `c` (otherwise pandas raises KeyError). */
  predicate HasColumn(f: Frame, c: string)
  {
    c in f.columns && forall i :: 0 <= i < |f.rows| ==> c in f.rows[i]
  }

  /** The values of column `c`, in row order. */
  function ColumnValues(f: Frame, c: string): (v: seq<real>)
    requires HasColumn(f, c)
    ensures |v| == |f.rows| && forall i :: 0 <= i < |v| ==> v[i] == f.rows[i][c]
  {
    seq(|f.rows|, i requires 0 <= i < |f.rows| && HasColumn(f, c) => f.rows[i][c])
  }

  /** A row whose home and away team are both known (not the -1 sentinel). */
  predicate KnownTeams(r: Row)
  {
    && ("homeTeamID" in r ==> r["homeTeamID"] != -1.0)
    && ("awayTeamID" in r ==> r["awayTeamID"] != -1.0)
  }

  function KnownTeamsMask(): Row -> bool
  {
    (r: Row) => KnownTeams(r)
  }

  function HomeKnownMask(): Row -> bool
  {
    (r: Row) => "homeTeamID" in r ==> r["homeTeamID"] != -1.0
  }

  function AwayKnownMask(): Row -> bool
  {
    (r: Row) => "awayTeamID" in r ==> r["awayTeamID"] != -1.0
  }

  /** The two successive masks of `ZamboniData.__init__`. */
  function DropUnknownTeams(f: Frame): (r: Frame)
    requires HasColumn(f, "homeTeamID") && HasColumn(f, "awayTeamID")
    ensures r.columns == f.columns
    ensures r.rows == Filter(f.rows, KnownTeamsMask())
    ensures IsSubsequence(r.rows, f.rows)
    ensures forall x :: x in r.rows <==> x in f.rows && x["homeTeamID"] != -1.0 && x["awayTeamID"] != -1.0
    ensures forall x :: x in f.rows ==>
      multiset(r.rows)[x] == if x["homeTeamID"] != -1.0 && x["awayTeamID"] != -1.0 then multiset(f.rows)[x] else 0
  {
    FilterFilter(f.rows, HomeKnownMask(), AwayKnownMask(), KnownTeamsMask());
    FilterIsSubsequence(f.rows, KnownTeamsMask());
    FilterMembers(f.rows, KnownTeamsMask());
    FilterMultiplicities(f.rows, KnownTeamsMask());
    Frame(f.columns, Filter(Filter(f.rows, HomeKnownMask()), AwayKnownMask()))
  }

  /** The date mask of `select_by_date`: both bounds inclusive. */
  function DateMask(begin: real, end: real, column: string): Row -> bool
  {
    (r: Row) => column in r && begin <= r[column] <= end
  }

  /** The rows `select_by_date` keeps. */
  function SelectRowsByDate(f: Frame, begin: real, end: real, column: string): (r: Frame)
    requires HasColumn(f, column)
    ensures r.columns == f.columns
    ensures IsSubsequence(r.rows, f.rows)
    ensures forall x :: x in r.rows <==> x in f.rows && begin <= x[column] <= end
    ensures forall x :: x in f.rows ==>
      multiset(r.rows)[x] == if begin <= x[column] <= end then multiset(f.rows)[x] else 0
  {
    FilterIsSubsequence(f.rows, DateMask(begin, end, column));
    FilterMembers(f.rows, DateMask(begin, end, column));
    FilterMultiplicities(f.rows, DateMask(begin, end, column));
    Frame(f.columns, Filter(f.rows, DateMask(begin, end, column)))
  }

  lemma FilterKeepsColumn(f: Frame, p: Row -> bool, c: string)
    requires HasColumn(f, c)
    ensures HasColumn(Frame(f.columns, Filter(f.rows, p)), c)
  {
    FilterMembers(f.rows, p);
    var rows := Filter(f.rows, p);
    forall i | 0 <= i < |rows| ensures c in rows[i] {
      assert rows[i] in rows;
      var j :| 0 <= j < |f.rows| && f.rows[j] == rows[i];
    }
  }

  /** Both selections keep every column of the frame. */
  lemma SelectionsKeepColumn(f: Frame, begin: real, end: real, column: string, c: string)
    requires HasColumn(f, c)
    ensures HasColumn(f, column) ==> HasColumn(SelectRowsByDate(f, begin, end, column), c)
    ensures HasColumn(f, "homeTeamID") && HasColumn(f, "awayTeamID") ==> HasColumn(DropUnknownTeams(f), c)
  {
    FilterKeepsColumn(f, DateMask(begin, end, column), c);
    FilterKeepsColumn(f, KnownTeamsMask(), c);
  }

  function SelectedMask(begin: real, end: real, column: string): Row -> bool
  {
    (r: Row) => DateMask(begin, end, column)(r) && KnownTeams(r)
  }

  /** The data of the set `select_by_date` returns: the rows dated in [begin, end] whose teams
      are known (the new set's constructor drops the others). */
  function SelectedByDate(f: Frame, begin: real, end: real, column: string): (r: Frame)
    requires HasColumn(f, column)
    ensures r.columns == f.columns
  {
    Frame(f.columns, Filter(f.rows, SelectedMask(begin, end, column)))
  }

  /** The selection keeps the frame's columns, exactly the dated known-team rows, and is the
      date mask followed by the constructor's team masks. */
  lemma SelectedByDateRows(f: Frame, begin: real, end: real, column: string)
    requires HasColumn(f, column) && HasColumn(f, "homeTeamID") && HasColumn(f, "awayTeamID")
    ensures HasColumn(SelectRowsByDate(f, begin, end, column), "homeTeamID")
    ensures HasColumn(SelectRowsByDate(f, begin, end, column), "awayTeamID")
    ensures SelectedByDate(f, begin, end, column) == DropUnknownTeams(SelectRowsByDate(f, begin, end, column))
    ensures forall x :: x in SelectedByDate(f, begin, end, column).rows <==>
      x in f.rows && begin <= x[column] <= end && x["homeTeamID"] != -1.0 && x["awayTeamID"] != -1.0
  {
    SelectionsKeepColumn(f, begin, end, column, "homeTeamID");
    SelectionsKeepColumn(f, begin, end, column, "awayTeamID");
    FilterFilter(f.rows, DateMask(begin, end, column), KnownTeamsMask(), SelectedMask(begin, end, column));
    FilterMembers(f.rows, SelectedMask(begin, end, column));
  }

  /** The selection keeps every column of the frame. */
  lemma SelectedByDateKeepsColumn(f: Frame, begin: real, end: real, column: string, c: string)
    requires HasColumn(f, column) && HasColumn(f, c)
    ensures HasColumn(SelectedByDate(f, begin, end, column), c)
  {
    FilterKeepsColumn(f, SelectedMask(begin, end, column), c);
  }

  /** Selecting the same date range twice keeps the same rows. */
  lemma SelectByDateIdempotent(f: Frame, begin: real, end: real, column: string)
    requires HasColumn(f, column)
    ensures HasColumn(SelectRowsByDate(f, begin, end, column), column)
    ensures SelectRowsByDate(SelectRowsByDate(f, begin, end, column), begin, end, column) == SelectRowsByDate(f, begin, end, column)
  {
    FilterKeepsColumn(f, DateMask(begin, end, column), column);
    FilterIdempotent(f.rows, DateMask(begin, end, column));
  }

  /** Dropping the unknown-team rows a second time changes nothing. */
  lemma DropUnknownTeamsIdempotent(f: Frame)
    requires HasColumn(f, "homeTeamID") && HasColumn(f, "awayTeamID")
    ensures HasColumn(DropUnknownTeams(f), "homeTeamID") && HasColumn(DropUnknownTeams(f), "awayTeamID")
    ensures DropUnknownTeams(DropUnknownTeams(f)) == DropUnknownTeams(f)
  {
    FilterKeepsColumn(f, KnownTeamsMask(), "homeTeamID");
    FilterKeepsColumn(f, KnownTeamsMask(), "awayTeamID");
    FilterIdempotent(f.rows, KnownTeamsMask());
  }

  // ---------------------------------------------------------------------------------------
  // ZamboniData

  /** A column added to a frame: an existing name keeps its place, a new one goes last. */
  function AddColumn(names: seq<string>, c: string): (r: seq<string>)
    ensures c in r && forall x :: x in names ==> x in r
    ensures forall x :: x in r ==> x in names || x == c
  {
    if c in names then names else names + [c]
  }

  /** Every column of `cols` that is not a notrain column is in `data`. */
  predicate Readdable(data: Frame, notrain: seq<string>, cols: seq<string>)
  {
    forall c :: c in cols && c !in notrain ==> HasColumn(data, c)
  }

  /** The scaled frame after `readd_noscale_columns` has processed `cols`, in order: each
      column that is not a notrain column is (re)assigned from the unscaled data. */
  function Readded(data: Frame, notrain: seq<string>, names: seq<string>, cells: map<string, seq<real>>, cols: seq<string>): (seq<string>, map<string, seq<real>>)
    requires Readdable(data, notrain, cols)
  {
    if cols == [] then (names, cells)
    else
      var prev := Readded(data, notrain, names, cells, cols[..|cols| - 1]);
      var c := cols[|cols| - 1];
      if c in notrain then prev
      else (AddColumn(prev.0, c), prev.1[c := ColumnValues(data, c)])
  }

  /** After `readd_noscale_columns`, every target or categorical column that is not notrain
      holds the unscaled values, no notrain column is added, and the other scaled columns
      are untouched. */
  lemma {:induction false} ReaddedColumns(data: Frame, notrain: seq<string>, names: seq<string>, cells: map<string, seq<real>>, cols: seq<string>)
    requires Readdable(data, notrain, cols)
    ensures var r := Readded(data, notrain, names, cells, cols);
      && (forall c :: c in cols && c !in notrain ==> c in r.0 && c in r.1 && r.1[c] == ColumnValues(data, c))
      && (forall c :: c in r.0 ==> c in names || (c in cols && c !in notrain))
      && (forall c :: c in names ==> c in r.0)
      && (forall c :: c !in cols || c in notrain ==> (c in r.1 <==> c in cells) && (c in cells ==> r.1[c] == cells[c]))
  {
    if cols != [] {
      var init := cols[..|cols| - 1];
      assert forall c :: c in init ==> c in cols;
      ReaddedColumns(data, notrain, names, cells, init);
      assert forall c :: c in cols ==> c in init || c == cols[|cols| - 1];
    }
  }

  /** One more column processed by `readd_noscale_columns`. */
  lemma ReaddedStep(data: Frame, notrain: seq<string>, names: seq<string>, cells: map<string, seq<real>>, cols: seq<string>, i: nat)
    requires i < |cols|
    requires Readdable(data, notrain, cols)
    ensures Readdable(data, notrain, cols[..i]) && Readdable(data, notrain, cols[..i + 1])
    ensures var prev := Readded(data, notrain, names, cells, cols[..i]);
      Readded(data, notrain, names, cells, cols[..i + 1])
        == if cols[i] in notrain then prev else (AddColumn(prev.0, cols[i]), prev.1[cols[i] := ColumnValues(data, cols[i])])
  {
    assert cols[..i + 1][..i] == cols[..i];
  }

  /** `names` and `cells` are the scaled frame once the first `i` of `cols` are processed. */
  predicate ReaddedUpTo(data: Frame, notrain: seq<string>, names0: seq<string>, cells0: map<string, seq<real>>, cols: seq<string>, i: nat, names: seq<string>, cells: map<string, seq<real>>)
  {
    && i <= |cols| && Readdable(data, notrain, cols) && Readdable(data, notrain, cols[..i])
    && (names, cells) == Readded(data, notrain, names0, cells0, cols[..i])
  }

  /** The body of the `readd_noscale_columns` loop: column `cols[i]`, unless it is a notrain
      column, is copied from the unscaled data. */
  method ReaddNext(data: Frame, notrain: seq<string>, names0: seq<string>, cells0: map<string, seq<real>>, cols: seq<string>, i: nat, names: seq<string>, cells: map<string, seq<real>>)
    returns (names': seq<string>, cells': map<string, seq<real>>)
    requires i < |cols| && ReaddedUpTo(data, notrain, names0, cells0, cols, i, names, cells)
    ensures ReaddedUpTo(data, notrain, names0, cells0, cols, i + 1, names', cells')
  {
    ReaddedStep(data, notrain, names0, cells0, cols, i);
    var column := cols[i];
    names', cells' := names, cells;
    if column !in notrain {
      names' := AddColumn(names, column);
      cells' := cells[column := ColumnValues(data, column)];
    }
  }

  class ZamboniData {
    var data: Frame
    var columnTracker: ColumnTracker
    /** The column order of `data_scaled`, and its columns. */
    var scaledNames: seq<string>
    var scaled: map<string, seq<real>>

    /** `ZamboniData(data, column_tracker)`: drops the rows with an unknown team and, without a
        tracker, builds the default one from the columns. */
    constructor(frame: Frame, tracker: Option<ColumnTracker>)
      requires HasColumn(frame, "homeTeamID") && HasColumn(frame, "awayTeamID")
      ensures data == DropUnknownTeams(frame)
      ensures columnTracker == if tracker.Some? then tracker.value
                               else MakeColumnTracker(frame.columns, DefaultTarget, DefaultCategorical, DefaultNotrain)
      ensures scaledNames == [] && scaled == map[]
    {
      data := DropUnknownTeams(frame);
      columnTracker := if tracker.Some? then tracker.value
                       else MakeColumnTracker(frame.columns, DefaultTarget, DefaultCategorical, DefaultNotrain);
      scaledNames := [];
      scaled := map[];
    }

    /** `select_by_date(begin, end)`: a new data set with the rows dated in [begin, end] and the
        same column tracker. */
    method SelectByDate(begin: real, end: real, column: string) returns (r: ZamboniData)
      requires HasColumn(data, column) && HasColumn(data, "homeTeamID") && HasColumn(data, "awayTeamID")
      ensures fresh(r)
      ensures r.data == SelectedByDate(data, begin, end, column)
      ensures r.columnTracker == columnTracker
    {
      var selected := SelectRowsByDate(data, begin, end, column);
      SelectedByDateRows(data, begin, end, column);
      r := new ZamboniData(selected, Some(columnTracker));
    }

    /** The assignment `scale_data` ends with: the scaled frame holds the scale columns, with
        the values the scaler produced. */
    method SetScaled(features: map<string, seq<real>>)
      requires forall c :: c in ScaleColumns(columnTracker) ==> c in features
      modifies this
      ensures scaledNames == ScaleColumns(columnTracker)
      ensures scaled == map c | c in features && c in ScaleColumns(columnTracker) :: features[c]
      ensures data == old(data) && columnTracker == old(columnTracker)
    {
      scaledNames := ScaleColumns(columnTracker);
      scaled := map c | c in features && c in ScaleColumns(columnTracker) :: features[c];
    }

    /** `readd_noscale_columns`. */
    method ReaddNoscaleColumns()
      requires Readdable(data, columnTracker.notrain, NoscaleColumns(columnTracker))
      modifies this
      ensures data == old(data) && columnTracker == old(columnTracker)
      ensures (scaledNames, scaled) == Readded(data, columnTracker.notrain, old(scaledNames), old(scaled), NoscaleColumns(columnTracker))
    {
      var cols := NoscaleColumns(columnTracker);
      var notrain := columnTracker.notrain;
      var unscaled := data;
      var names0, cells0 := scaledNames, scaled;
      var names, cells := names0, cells0;
      var i := 0;
      assert cols[..0] == [];
      while i < |cols|
        invariant unchanged(this)
        invariant ReaddedUpTo(unscaled, notrain, names0, cells0, cols, i, names, cells)
      {
        names, cells := ReaddNext(unscaled, notrain, names0, cells0, cols, i, names, cells);
        i := i + 1;
      }
      assert cols[..i] == cols;
      scaledNames, scaled := names, cells;
    }
  }

  /** The default tracker's noscale columns: the target, the two team columns, then the
      notrain columns. */
  lemma DefaultNoscaleColumns(columns: seq<string>)
    ensures var ct := MakeColumnTracker(columns, DefaultTarget, DefaultCategorical, DefaultNotrain);
      ct.notrain == DefaultNotrain && NoscaleColumns(ct) == ["outcome", "homeTeamID", "awayTeamID"] + DefaultNotrain
  {
    var ct := MakeColumnTracker(columns, DefaultTarget, DefaultCategorical, DefaultNotrain);
    assert NoscaleColumns(ct) == [DefaultTarget] + DefaultCategorical + DefaultNotrain;
  }

  /** With the default roles, `readd_noscale_columns` puts back the outcome and both team
      columns and leaves every notrain column as it was. */
  lemma DefaultReaddColumns(data: Frame, columns: seq<string>, names: seq<string>, cells: map<string, seq<real>>)
    requires HasColumn(data, "outcome") && HasColumn(data, "homeTeamID") && HasColumn(data, "awayTeamID")
    ensures var ct := MakeColumnTracker(columns, DefaultTarget, DefaultCategorical, DefaultNotrain);
      var r := Readded(data, ct.notrain, names, cells, NoscaleColumns(ct));
      && (forall c :: c in ["outcome", "homeTeamID", "awayTeamID"] ==> c in r.1 && r.1[c] == ColumnValues(data, c))
      && (forall c :: c in DefaultNotrain ==> (c in r.1 <==> c in cells) && (c in r.0 ==> c in names))
  {
    DefaultNoscaleColumns(columns);
    var kept := ["outcome", "homeTeamID", "awayTeamID"];
    var cols := kept + DefaultNotrain;
    assert forall c :: c in kept ==> c !in DefaultNotrain;
    assert forall c :: c in cols ==> c in kept || c in DefaultNotrain;
    ReaddedColumns(data, DefaultNotrain, names, cells, cols);
  }
}
