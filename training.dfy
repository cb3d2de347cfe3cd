/** The walk-forward control flow and result analysis of `training.py`. The network, the
    optimiser and the scaler are oracles: the day loop records what it asks of them in a
    trace, and predictions come from a function of the scaler fit and the row. */
module Training {
  import opened Wrappers
  import opened Seqs
  import opened DataManagement

  // ---------------------------------------------------------------------------------------
  // OneSplitStrategy.split_by_percentage

  /** Python's `int(x)`: truncation toward zero. */
  function TruncToInt(x: real): (n: int)
    ensures x >= 0.0 ==> n == x.Floor
    ensures (n as real).Floor == n && (if x >= 0.0 then n as real <= x < n as real + 1.0 else n as real - 1.0 < x <= n as real)
  {
    if x >= 0.0 then x.Floor else -((-x).Floor)
  }

  /** The position a slice bound `k` denotes in a sequence of length `n` (`iloc[:k]`): a negative
      bound counts from the end, and both ends are clamped. */
  function SliceBound(k: int, n: nat): (b: nat)
    ensures b <= n
    ensures 0 <= k <= n ==> b == k
    ensures k > n ==> b == n
    ensures k < 0 ==> b == if n + k < 0 then 0 else n + k
  {
    if k < 0 then (if n + k < 0 then 0 else n + k) else if k > n then n else k
  }

  predicate TeamColumns(f: Frame)
  {
    HasColumn(f, "homeTeamID") && HasColumn(f, "awayTeamID")
  }

  function Prefix(f: Frame, c: nat): (r: Frame)
    requires c <= |f.rows|
    ensures r.rows == f.rows[..c] && r.columns == f.columns
    ensures forall col :: HasColumn(f, col) ==> HasColumn(r, col)
  {
    Frame(f.columns, f.rows[..c])
  }

  function Suffix(f: Frame, c: nat): (r: Frame)
    requires c <= |f.rows|
    ensures r.rows == f.rows[c..] && r.columns == f.columns
    ensures forall col :: HasColumn(f, col) ==> HasColumn(r, col)
  {
    assert forall i :: 0 <= i < |f.rows| - c ==> f.rows[c..][i] == f.rows[c + i];
    Frame(f.columns, f.rows[c..])
  }

  /** The row index `split_by_percentage` splits `n` rows at. */
  function SplitIndex(n: nat, percentage: real): (c: nat)
    ensures c <= n
  {
    SliceBound(TruncToInt(n as real * percentage), n)
  }

  /** `split_by_percentage`: the train data is the first `int(n * percentage)` rows and the test
      data the rest, each wrapped as a data set (which drops unknown-team rows again). */
  function SplitByPercentage(f: Frame, percentage: real): (Frame, Frame)
    requires TeamColumns(f)
  {
    var c := SplitIndex(|f.rows|, percentage);
    (DropUnknownTeams(Prefix(f, c)), DropUnknownTeams(Suffix(f, c)))
  }

  /** A percentage in [0, 1] of `n` rows, truncated, is a row count of at most `n`. */
  lemma SplitIndexBounds(n: nat, percentage: real)
    requires 0.0 <= percentage <= 1.0
    ensures 0.0 <= n as real * percentage <= n as real
    ensures 0 <= TruncToInt(n as real * percentage) == (n as real * percentage).Floor <= n
  {
    assert n as real * percentage <= n as real * 1.0 by {
      assert n as real >= 0.0;
    }
  }

  /** Train and test data partition the data set: the train rows followed by the test rows are
      its known-team rows. */
  lemma SplitByPercentagePartition(f: Frame, percentage: real)
    requires TeamColumns(f)
    ensures SplitByPercentage(f, percentage).0.rows + SplitByPercentage(f, percentage).1.rows == DropUnknownTeams(f).rows
    ensures SplitByPercentage(f, percentage).0.columns == f.columns == SplitByPercentage(f, percentage).1.columns
  {
    var c := SplitIndex(|f.rows|, percentage);
    assert f.rows == f.rows[..c] + f.rows[c..];
    FilterConcat(f.rows[..c], f.rows[c..], KnownTeamsMask());
  }

  /** For a percentage in [0, 1] of a data set whose rows all have known teams, the train data
      is exactly the first floor(n * percentage) rows and the test data the rest. */
  lemma SplitByPercentagePrefix(f: Frame, percentage: real)
    requires TeamColumns(f)
    requires 0.0 <= percentage <= 1.0
    requires forall i :: 0 <= i < |f.rows| ==> KnownTeams(f.rows[i])
    ensures 0 <= (|f.rows| as real * percentage).Floor <= |f.rows|
    ensures var n := (|f.rows| as real * percentage).Floor;
      SplitByPercentage(f, percentage).0.rows == f.rows[..n] && SplitByPercentage(f, percentage).1.rows == f.rows[n..]
  {
    SplitIndexBounds(|f.rows|, percentage);
    var c := (|f.rows| as real * percentage).Floor;
    assert SplitIndex(|f.rows|, percentage) == c;
    FilterKeepsAll(f.rows[..c], KnownTeamsMask());
    assert forall i :: 0 <= i < |f.rows| - c ==> f.rows[c..][i] == f.rows[c + i];
    FilterKeepsAll(f.rows[c..], KnownTeamsMask());
  }

  // ---------------------------------------------------------------------------------------
  // ConsecutiveStrategy.prediction_date_bounds

  /** The dates of the first and the last row; None where `iloc[0]` raises IndexError. */
  function PredictionDateBounds(f: Frame): (r: Option<(real, real)>)
    requires HasColumn(f, "datePlayed")
    ensures r.None? <==> f.rows == []
    ensures r.Some? ==> r.value == (f.rows[0]["datePlayed"], f.rows[|f.rows| - 1]["datePlayed"])
  {
    if f.rows == [] then None
    else Some((f.rows[0]["datePlayed"], f.rows[|f.rows| - 1]["datePlayed"]))
  }

  // ---------------------------------------------------------------------------------------
  // IncrementalStrategy.run

  /** What a scaler was fit on: the rows dated in [lo, hi] of all games, or today's rows. */
  datatype Scaling = RangeFit(lo: real, hi: real) | TodayFit(day: real)

  /** A call the loop makes on the scaler or the trainer. */
  datatype Event = Fit(fit: Scaling) | Train(day: real) | Eval(day: real, scaling: Scaling, count: nat)

  datatype RunOutput = RunOutput(trace: seq<Event>, preds: seq<real>, labels: seq<real>)

  /** `run`'s exceptions: IndexError for no prediction rows, and the AttributeError of reading
      `todays_zdata.loader` on `day`. */
  datatype RunError = NoPredictionRows | LoaderMissing(day: real)

  /** The columns `run` reads from the prediction data. */
  predicate PredictionColumns(f: Frame)
  {
    && HasColumn(f, "datePlayed") && HasColumn(f, "outcome")
    && HasColumn(f, "homeTeamID") && HasColumn(f, "awayTeamID")
  }

  /** The prediction rows dated `day`, as a data set. */
  function TodaysRows(f: Frame, day: real): (r: Frame)
    requires PredictionColumns(f)
    ensures PredictionColumns(r)
  {
    SelectedByDateKeepsColumn(f, day, day, "datePlayed", "datePlayed");
    SelectedByDateKeepsColumn(f, day, day, "datePlayed", "outcome");
    SelectedByDateKeepsColumn(f, day, day, "datePlayed", "homeTeamID");
    SelectedByDateKeepsColumn(f, day, day, "datePlayed", "awayTeamID");
    SelectedByDate(f, day, day, "datePlayed")
  }

  /** The scaler used to predict on `day`: today's rows on the start date, otherwise every
      game from the start date up to yesterday. */
  function ScalingFor(start: real, day: real): Scaling
  {
    if day != start then RangeFit(start, day - 1.0) else TodayFit(day)
  }

  function PredictWith(predict: (Scaling, Row) -> real, s: Scaling): Row -> real
  {
    (r: Row) => predict(s, r)
  }

  /** The calls and outputs of the loop body on `day`. */
  function Day(f: Frame, start: real, day: real, predict: (Scaling, Row) -> real): RunOutput
    requires PredictionColumns(f)
  {
    var fits := if day != start then [Fit(RangeFit(start, day - 1.0))] else [];
    var today := TodaysRows(f, day);
    if |today.rows| > 0 then
      var s := ScalingFor(start, day);
      RunOutput(fits + (if day == start then [Fit(TodayFit(day))] else []) + [Eval(day, s, |today.rows|)],
                Map(today.rows, PredictWith(predict, s)),
                ColumnValues(today, "outcome"))
    else RunOutput(fits, [], [])
  }

  function Append(a: RunOutput, b: RunOutput): RunOutput
  {
    RunOutput(a.trace + b.trace, a.preds + b.preds, a.labels + b.labels)
  }

  /** The loop run for the `k` days starting at `first`, one day after another. */
  function Days(f: Frame, start: real, first: real, k: nat, predict: (Scaling, Row) -> real): RunOutput
    requires PredictionColumns(f)
  {
    if k == 0 then RunOutput([], [], [])
    else Append(Days(f, start, first, k - 1, predict), Day(f, start, first + (k - 1) as real, predict))
  }

  /** One more day of the run. */
  lemma DaysNext(f: Frame, start: real, first: real, k: nat, predict: (Scaling, Row) -> real)
    requires PredictionColumns(f)
    ensures Days(f, start, first, k + 1, predict) == Append(Days(f, start, first, k, predict), Day(f, start, first + k as real, predict))
  {
    assert (k + 1 - 1) as real == k as real;
  }

  /** The number of days from `first` to `end`, both included, in steps of one day. */
  function DayCount(first: real, end: real): nat
  {
    if first <= end then (end - first).Floor + 1 else 0
  }

  /** The day `k` days after `first` is at most `end` exactly for the first DayCount days. */
  lemma DayCountBound(first: real, end: real, k: nat)
    ensures first + k as real <= end <==> k < DayCount(first, end)
  {
    if first <= end {
      var n := (end - first).Floor;
      assert n as real <= end - first < n as real + 1.0;
    }
  }

  /** The number of predictions the evaluations in `trace` report. */
  function Evaluated(trace: seq<Event>): nat
  {
    if trace == [] then 0
    else (if trace[0].Eval? then trace[0].count else 0) + Evaluated(trace[1..])
  }

  lemma {:induction false} EvaluatedConcat(a: seq<Event>, b: seq<Event>)
    ensures Evaluated(a + b) == Evaluated(a) + Evaluated(b)
  {
    if a != [] {
      assert (a + b)[1..] == a[1..] + b;
      EvaluatedConcat(a[1..], b);
    } else {
      assert a + b == b;
    }
  }

  /** What the trace of one day holds. */
  predicate DayEvent(f: Frame, start: real, e: Event)
    requires PredictionColumns(f)
  {
    && !e.Train?
    && (e.Fit? && e.fit.RangeFit? ==> e.fit.lo == start)
    && (e.Fit? && e.fit.TodayFit? ==> e.fit.day == start)
    && (e.Eval? ==> e.count == |TodaysRows(f, e.day).rows| > 0 && e.scaling == ScalingFor(start, e.day))
  }

  /** One day's predictions and labels have equal length, the number its evaluation reports;
      a day without rows adds none. */
  lemma DayLengths(f: Frame, start: real, day: real, predict: (Scaling, Row) -> real)
    requires PredictionColumns(f)
    ensures var d := Day(f, start, day, predict);
      && |d.preds| == |d.labels| == Evaluated(d.trace)
      && (|TodaysRows(f, day).rows| == 0 ==> d.preds == [] && d.labels == [])
  {
    var fits := if day != start then [Fit(RangeFit(start, day - 1.0))] else [];
    var today := TodaysRows(f, day);
    assert Evaluated(fits) == 0;
    if |today.rows| > 0 {
      var s := ScalingFor(start, day);
      var e := Eval(day, s, |today.rows|);
      var fitToday: seq<Event> := if day == start then [Fit(TodayFit(day))] else [];
      assert Evaluated([e]) == |today.rows|;
      assert Evaluated(fitToday) == 0;
      EvaluatedConcat(fits, fitToday);
      EvaluatedConcat(fits + fitToday, [e]);
    }
  }

  /** Every call of one day is a fit, or an evaluation of that day. */
  lemma DayTrace(f: Frame, start: real, day: real, predict: (Scaling, Row) -> real)
    requires PredictionColumns(f)
    ensures forall e :: e in Day(f, start, day, predict).trace ==> DayEvent(f, start, e) && (e.Eval? ==> e.day == day)
  {
  }

  /** Over the whole run, predictions and labels have equal length, the number the
      evaluations report. */
  lemma {:induction false} DaysLengths(f: Frame, start: real, first: real, k: nat, predict: (Scaling, Row) -> real)
    requires PredictionColumns(f)
    ensures var d := Days(f, start, first, k, predict);
      |d.preds| == |d.labels| == Evaluated(d.trace)
  {
    if k > 0 {
      var a := Days(f, start, first, k - 1, predict);
      var day := first + (k - 1) as real;
      var b := Day(f, start, day, predict);
      assert Days(f, start, first, k, predict) == Append(a, b);
      DaysLengths(f, start, first, k - 1, predict);
      DayLengths(f, start, day, predict);
      EvaluatedConcat(a.trace, b.trace);
    }
  }

  /** Over the whole run, the trainer is never called, and every evaluation is of a non-empty
      day of the run, with the scaler fit on today's rows on the start date and on all earlier
      games of the run otherwise. */
  lemma {:induction false} DaysEvents(f: Frame, start: real, first: real, k: nat, predict: (Scaling, Row) -> real)
    requires PredictionColumns(f)
    ensures forall e :: e in Days(f, start, first, k, predict).trace ==>
      DayEvent(f, start, e) && (e.Eval? ==> first <= e.day <= first + (k - 1) as real)
  {
    if k > 0 {
      var a := Days(f, start, first, k - 1, predict);
      var day := first + (k - 1) as real;
      var b := Day(f, start, day, predict);
      assert Days(f, start, first, k, predict).trace == a.trace + b.trace;
      DaysEvents(f, start, first, k - 1, predict);
      DayTrace(f, start, day, predict);
    }
  }

  /** Whether the day `k` days after `first` has prediction rows. */
  predicate RowsOnDay(f: Frame, first: real, k: nat)
    requires PredictionColumns(f)
  {
    |TodaysRows(f, first + k as real).rows| > 0
  }

  /** None of the first `k` days from `first` has prediction rows. */
  predicate NoRowsBefore(f: Frame, first: real, k: nat)
    requires PredictionColumns(f)
  {
    forall j: nat :: j < k ==> !RowsOnDay(f, first, j)
  }

  lemma NoRowsStep(f: Frame, first: real, k: nat)
    requires PredictionColumns(f) && NoRowsBefore(f, first, k) && !RowsOnDay(f, first, k)
    ensures NoRowsBefore(f, first, k + 1)
  {
  }

  /** The first prediction row is on the first day, unless its team is unknown. */
  lemma FirstDayHasRows(f: Frame)
    requires PredictionColumns(f) && f.rows != [] && KnownTeams(f.rows[0])
    ensures RowsOnDay(f, f.rows[0]["datePlayed"], 0)
  {
    var d := f.rows[0]["datePlayed"];
    assert d + 0 as real == d;
    SelectedByDateRows(f, d, d, "datePlayed");
    assert f.rows[0] in f.rows;
    assert f.rows[0] in TodaysRows(f, d).rows;
  }

  class IncrementalStrategy {
    const predictionData: Frame
    var startDate: Option<real>
    var endDate: Option<real>

    constructor(predictionData: Frame, startDate: Option<real>, endDate: Option<real>)
      ensures this.predictionData == predictionData
      ensures this.startDate == startDate && this.endDate == endDate
    {
      this.predictionData := predictionData;
      this.startDate := startDate;
      this.endDate := endDate;
    }

    /** The body of `run`'s loop on `current`: fit the scaler on today's rows on the start
        date and on the games from the start date up to yesterday otherwise (retraining is
        skipped, as no game of yesterday is collected), then predict on today's rows. */
    method RunDay(start: real, current: real, predict: (Scaling, Row) -> real) returns (today: RunOutput)
      requires PredictionColumns(predictionData)
      ensures today == Day(predictionData, start, current, predict)
    {
      var yesterdaysGames: seq<Row> := [];
      var fitToday := true;
      var calls: seq<Event> := [];
      if current != start {
        fitToday := false;
        calls := calls + [Fit(RangeFit(start, current - 1.0))];
        if |yesterdaysGames| > 0 {
          calls := calls + [Train(current - 1.0)];
        }
      }
      var todays := TodaysRows(predictionData, current);
      today := RunOutput(calls, [], []);
      if |todays.rows| > 0 {
        var s := if fitToday then TodayFit(current) else RangeFit(start, current - 1.0);
        if fitToday {
          calls := calls + [Fit(TodayFit(current))];
        }
        calls := calls + [Eval(current, s, |todays.rows|)];
        today := RunOutput(calls, Map(todays.rows, PredictWith(predict, s)), ColumnValues(todays, "outcome"));
      }
    }

    /** `run`: from the first prediction date, one day at a time while the date is at most the
        end date, fit the scaler, predict on the day's rows and collect the predictions and
        labels. A missing start date becomes `earliest` (the first date in the database); a
        missing end date becomes the last prediction date. */
    method Run(earliest: real, predict: (Scaling, Row) -> real) returns (r: Result<RunOutput, RunError>)
      requires PredictionColumns(predictionData)
      modifies this
      ensures r.Err? <==> predictionData.rows == []
      ensures r.Err? ==> startDate == old(startDate) && endDate == old(endDate)
      ensures r.Ok? ==>
        var (first, last) := PredictionDateBounds(predictionData).value;
        && startDate == (if old(startDate).None? then Some(earliest) else old(startDate))
        && endDate == (if old(endDate).None? then Some(last) else old(endDate))
        && r.value == Days(predictionData, startDate.value, first, DayCount(first, endDate.value), predict)
    {
      var bounds := PredictionDateBounds(predictionData);
      if bounds.None? {
        return Err(NoPredictionRows);
      }
      var (first, last) := bounds.value;
      if startDate.None? {
        startDate := Some(earliest);
      }
      if endDate.None? {
        endDate := Some(last);
      }
      var out := RunDays(startDate.value, first, endDate.value, predict);
      r := Ok(out);
    }

    /** `run` as written. `prep_data` no longer creates the set's dataset and dataloader (those
        calls are commented out), so the first day with rows fails on `todays_zdata.loader`;
        the start and end dates are set by then. On a data set, whose rows all have known
        teams, that is the first day whenever it is not after the end date. */
    method RunAsWritten(earliest: real, predict: (Scaling, Row) -> real) returns (r: Result<RunOutput, RunError>)
      requires PredictionColumns(predictionData)
      modifies this
      ensures r == Err(NoPredictionRows) <==> predictionData.rows == []
      ensures r == Err(NoPredictionRows) ==> startDate == old(startDate) && endDate == old(endDate)
      ensures r != Err(NoPredictionRows) ==>
        var (first, last) := PredictionDateBounds(predictionData).value;
        && startDate == (if old(startDate).None? then Some(earliest) else old(startDate))
        && endDate == (if old(endDate).None? then Some(last) else old(endDate))
        && (r.Ok? <==> NoRowsBefore(predictionData, first, DayCount(first, endDate.value)))
        && (r.Ok? ==> r.value == Days(predictionData, startDate.value, first, DayCount(first, endDate.value), predict))
      ensures predictionData.rows != [] && KnownTeams(predictionData.rows[0]) ==>
        var (first, last) := PredictionDateBounds(predictionData).value;
        first <= endDate.value ==> r == Err(LoaderMissing(first))
    {
      var bounds := PredictionDateBounds(predictionData);
      if bounds.None? {
        return Err(NoPredictionRows);
      }
      var (first, last) := bounds.value;
      if startDate.None? {
        startDate := Some(earliest);
      }
      if endDate.None? {
        endDate := Some(last);
      }
      if KnownTeams(predictionData.rows[0]) {
        FirstDayHasRows(predictionData);
      }
      r := RunDaysAsWritten(startDate.value, first, endDate.value, predict);
      if first <= endDate.value {
        DayCountBound(first, endDate.value, 0);
      }
    }

    /** `run`'s loop body as written: a day with rows fails on the missing loader. */
    method RunDayAsWritten(start: real, current: real, predict: (Scaling, Row) -> real)
      returns (r: Result<RunOutput, RunError>)
      requires PredictionColumns(predictionData)
      ensures r == if |TodaysRows(predictionData, current).rows| > 0 then Err(LoaderMissing(current))
                   else Ok(Day(predictionData, start, current, predict))
    {
      var todays := TodaysRows(predictionData, current);
      if |todays.rows| > 0 {
        return Err(LoaderMissing(current));
      }
      var today := RunDay(start, current, predict);
      r := Ok(today);
    }

    /** `run`'s loop as written: it stops at the first day with rows, on the missing loader. */
    method RunDaysAsWritten(start: real, first: real, end: real, predict: (Scaling, Row) -> real)
      returns (r: Result<RunOutput, RunError>)
      requires PredictionColumns(predictionData)
      ensures r.Ok? <==> NoRowsBefore(predictionData, first, DayCount(first, end))
      ensures r.Ok? ==> r.value == Days(predictionData, start, first, DayCount(first, end), predict)
      ensures r.Err? ==> exists k: nat :: && k < DayCount(first, end) && RowsOnDay(predictionData, first, k)
                                         && r.error == LoaderMissing(first + k as real)
                                         && NoRowsBefore(predictionData, first, k)
    {
      var current := first;
      var out := RunOutput([], [], []);
      var k: nat := 0;
      while current <= end
        invariant current == first + k as real
        invariant k <= DayCount(first, end)
        invariant out == Days(predictionData, start, first, k, predict)
        invariant NoRowsBefore(predictionData, first, k)
        decreases DayCount(first, end) - k
      {
        DayCountBound(first, end, k);
        var day := RunDayAsWritten(start, current, predict);
        if day.Err? {
          assert RowsOnDay(predictionData, first, k);
          return day;
        }
        NoRowsStep(predictionData, first, k);
        DaysNext(predictionData, start, first, k, predict);
        out := Append(out, day.value);
        current := current + 1.0;
        k := k + 1;
      }
      DayCountBound(first, end, k);
      r := Ok(out);
    }

    /** `run`'s loop: the days from `first` while the date is at most `end`. */
    method RunDays(start: real, first: real, end: real, predict: (Scaling, Row) -> real) returns (out: RunOutput)
      requires PredictionColumns(predictionData)
      ensures out == Days(predictionData, start, first, DayCount(first, end), predict)
    {
      var current := first;
      out := RunOutput([], [], []);
      var k: nat := 0;
      while current <= end
        invariant current == first + k as real
        invariant k <= DayCount(first, end)
        invariant out == Days(predictionData, start, first, k, predict)
        decreases DayCount(first, end) - k
      {
        DayCountBound(first, end, k);
        DaysNext(predictionData, start, first, k, predict);
        var today := RunDay(start, current, predict);
        out := Append(out, today);
        current := current + 1.0;
        k := k + 1;
      }
      DayCountBound(first, end, k);
    }
  }

  // ---------------------------------------------------------------------------------------
  // ResultsAnalyzer

  /** numpy's `round`: to the nearest integer, halves to the even one. */
  function RoundHalfEven(x: real): (n: int)
    ensures x - 0.5 <= n as real <= x + 0.5
    ensures (n as real == x - 0.5 || n as real == x + 0.5) ==> n % 2 == 0
  {
    var f := x.Floor;
    if x - f as real < 0.5 then f
    else if x - f as real > 0.5 then f + 1
    else if f % 2 == 0 then f else f + 1
  }

  lemma RoundHalfEvenHalves()
    ensures RoundHalfEven(0.5) == 0 && RoundHalfEven(1.5) == 2 && RoundHalfEven(2.5) == 2
    ensures RoundHalfEven(0.49) == 0 && RoundHalfEven(0.51) == 1
  {
  }

  function Abs(x: real): real
  {
    if x < 0.0 then -x else x
  }

  datatype Scored = Scored(pred: real, truth: real)

  function Zip(preds: seq<real>, labels: seq<real>): (r: seq<Scored>)
    requires |preds| == |labels|
    ensures |r| == |preds| && forall i :: 0 <= i < |r| ==> r[i] == Scored(preds[i], labels[i])
  {
    if preds == [] then [] else [Scored(preds[0], labels[0])] + Zip(preds[1..], labels[1..])
  }

  /** A prediction far enough from one half: above `threshold` or below `1 - threshold`. */
  function Confident(threshold: real): Scored -> bool
  {
    (s: Scored) => Abs(s.pred) > threshold || Abs(s.pred) < 1.0 - threshold
  }

  /** The rounded prediction equals the label. */
  function Correct(): Scored -> bool
  {
    (s: Scored) => RoundHalfEven(s.pred) as real == s.truth
  }

  /** `correct / counted`, or 0 when nothing was counted. */
  function Ratio(correct: nat, counted: nat): (r: real)
    ensures counted == 0 ==> r == 0.0
    ensures counted > 0 ==> r * counted as real == correct as real
    ensures correct <= counted ==> 0.0 <= r <= 1.0
    ensures 0 < counted == correct ==> r == 1.0
  {
    if counted == 0 then 0.0
    else
      var r := correct as real / counted as real;
      assert r * counted as real == correct as real;
      r
  }

  /** `get_accuracy(threshold)`: among the confident predictions, the share whose rounding
      equals the label; 0 when no prediction is confident. */
  function GetAccuracy(preds: seq<real>, labels: seq<real>, threshold: real): (r: real)
    requires |preds| == |labels|
    ensures 0.0 <= r <= 1.0
    ensures var counted := Filter(Zip(preds, labels), Confident(threshold));
      && (counted == [] ==> r == 0.0)
      && (counted != [] ==> r * |counted| as real == Count(counted, Correct()) as real)
  {
    var counted := Filter(Zip(preds, labels), Confident(threshold));
    CountIsFilterLength(counted, Correct());
    Ratio(Count(counted, Correct()), |counted|)
  }

  /** A prediction inside the band [1 - threshold, threshold] does not change the accuracy. */
  lemma GetAccuracyIgnoresUnconfident(preds: seq<real>, labels: seq<real>, threshold: real, p: real, l: real)
    requires |preds| == |labels|
    requires !Confident(threshold)(Scored(p, l))
    ensures GetAccuracy(preds + [p], labels + [l], threshold) == GetAccuracy(preds, labels, threshold)
  {
    assert Zip(preds + [p], labels + [l]) == Zip(preds, labels) + [Scored(p, l)];
    FilterConcat(Zip(preds, labels), [Scored(p, l)], Confident(threshold));
    assert Filter([Scored(p, l)], Confident(threshold)) == [];
    assert Filter(Zip(preds, labels), Confident(threshold)) + [] == Filter(Zip(preds, labels), Confident(threshold));
  }

  /** A confident prediction is counted. */
  lemma ConfidentCounted(preds: seq<real>, labels: seq<real>, threshold: real, i: nat)
    requires |preds| == |labels| && i < |preds|
    requires Confident(threshold)(Scored(preds[i], labels[i]))
    ensures Filter(Zip(preds, labels), Confident(threshold)) != []
  {
    var z := Zip(preds, labels);
    assert z[i] in z;
    FilterMember(z, Confident(threshold), z[i]);
  }

  /** Every counted prediction is one of the confident ones. */
  lemma CountedAreCorrect(preds: seq<real>, labels: seq<real>, threshold: real)
    requires |preds| == |labels|
    requires forall i :: 0 <= i < |preds| && Confident(threshold)(Scored(preds[i], labels[i])) ==>
      RoundHalfEven(preds[i]) as real == labels[i]
    ensures var counted := Filter(Zip(preds, labels), Confident(threshold));
      forall j :: 0 <= j < |counted| ==> Correct()(counted[j])
  {
    var z := Zip(preds, labels);
    var counted := Filter(z, Confident(threshold));
    FilterMembers(z, Confident(threshold));
    forall j | 0 <= j < |counted| ensures Correct()(counted[j]) {
      assert counted[j] in counted;
      var m :| 0 <= m < |z| && z[m] == counted[j];
    }
  }

  /** When every confident prediction rounds to its label and one exists, the accuracy is 1. */
  lemma GetAccuracyAllCorrect(preds: seq<real>, labels: seq<real>, threshold: real)
    requires |preds| == |labels|
    requires exists i :: 0 <= i < |preds| && Confident(threshold)(Scored(preds[i], labels[i]))
    requires forall i :: 0 <= i < |preds| && Confident(threshold)(Scored(preds[i], labels[i])) ==>
      RoundHalfEven(preds[i]) as real == labels[i]
    ensures GetAccuracy(preds, labels, threshold) == 1.0
  {
    var counted := Filter(Zip(preds, labels), Confident(threshold));
    var i :| 0 <= i < |preds| && Confident(threshold)(Scored(preds[i], labels[i]));
    ConfidentCounted(preds, labels, threshold, i);
    CountedAreCorrect(preds, labels, threshold);
    FilterKeepsAll(counted, Correct());
    CountIsFilterLength(counted, Correct());
    assert Count(counted, Correct()) == |counted|;
  }
}
