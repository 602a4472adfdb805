/**
 * scripts/check_drift.py: take the most recent window of valid observations,
 * derive the model's features from that window alone, score how far each
 * feature has moved, measure the model's error on the window and classify it.
 */
module CheckDrift {
  import opened Wrappers
  import opened Tables
  import opened History
  import ModelUtils

  /** `load_recent_data`'s default `window`, the one `detect_drift` uses. */
  const DefaultWindow: int := 20

  /** `feature_cols` of `detect_drift`. */
  const FeatureColumns: seq<string> := ["lag_1", "lag_2", "hour", "day_of_week", "month", "is_weekend", "is_festival"]

  datatype DriftError =
    | MissingTimestampColumn              // ValueError: CSV missing 'timestamp' column
    | NotEnoughData(need: int, got: int)  // ValueError: Not enough valid data for drift detection
    | MissingColumns(names: seq<string>)  // KeyError from df[...]
    | NoRows                              // the model and the error metric refuse an empty table
    | PredictionCountMismatch             // the metric refuses predictions and actuals of different lengths

  /** The rows `load_recent_data` hands on: the last `window` of the valid ones, ascending by time. */
  function LoadRecentData(raw: Table, window: int): (r: Result<Loaded, DriftError>)
    requires WellFormed(raw)
    ensures "timestamp" !in raw.names ==> r == Failure(MissingTimestampColumn)
    ensures "timestamp" in raw.names ==>
              var j := StampIndex(raw);
              var valid := |raw.rows| - InvalidCount(raw.rows, j);
              && (r.Success? <==> valid >= window + 2)
              && (r.Failure? ==> r.error == NotEnoughData(window + 2, valid))
              && (r.Success? ==>
                    && r.value.table.names == raw.names
                    && r.value.numBad == InvalidCount(raw.rows, j)
                    && r.value.table.rows == Tail(CleanSorted(raw).table.rows, window)
                    && (window >= 0 ==> |r.value.table.rows| == window)
                    && AllStamped(r.value.table.rows, j) && SortedByTime(r.value.table.rows, j))
  {
    if "timestamp" !in raw.names then Failure(MissingTimestampColumn)
    else
      var c := CleanSorted(raw);
      var rows := c.table.rows;
      if |rows| < window + 2 then Failure(NotEnoughData(window + 2, |rows|))
      else
        RecentRows(rows, StampIndex(raw), window);
        Success(Loaded(Table(raw.names, Tail(rows, window)), c.numBad))
  }

  /** The last `window` rows of a sorted sequence with room for them are `window` rows, still sorted. */
  lemma RecentRows(rows: seq<seq<Cell>>, j: nat, window: int)
    requires AllStamped(rows, j) && SortedByTime(rows, j) && |rows| >= window + 2
    ensures window >= 0 ==> |Tail(rows, window)| == window
    ensures AllStamped(Tail(rows, window), j) && SortedByTime(Tail(rows, window), j)
  {
    SortedSuffix(rows, j, |rows| - |Tail(rows, window)|);
  }

  /**
   * `build_features`: the six columns are written into the caller's frame,
   * and the frame returned is that frame without its incomplete rows.
   */
  method BuildFeatures(df: Frame) returns (r: Frame)
    requires df.Valid() && Derivable(df.Value())
    modifies df
    ensures df.Valid() && df.Value() == DerivedColumns(old(df.Value()))
    ensures fresh(r) && r.Valid() && r.Value() == DropNA(df.Value())
  {
    ghost var t := df.Value();
    var pv := Column(t, "page_views");
    var ts := Column(t, "timestamp");
    df.SetColumn("lag_1", Shift(df.Get("page_views"), 1));
    assert df.Get("page_views") == pv;
    df.SetColumn("lag_2", Shift(df.Get("page_views"), 2));
    assert df.Value() == WithLags(t);
    assert df.Get("timestamp") == ts;
    df.SetColumn("hour", HourCells(df.Get("timestamp")));
    assert df.Get("timestamp") == ts;
    df.SetColumn("day_of_week", DayOfWeekCells(df.Get("timestamp")));
    assert df.Get("timestamp") == ts;
    df.SetColumn("month", MonthCells(df.Get("timestamp")));
    assert df.Get("day_of_week") == DayOfWeekCells(ts);
    df.SetColumn("is_weekend", WeekendCells(df.Get("day_of_week")));
    r := df.DropNulls();
  }

  /** `df[col].mean()`, skipping nulls, minus the first row's value, in absolute terms. */
  function DriftScore(cells: seq<Cell>): (s: real)
    requires |cells| > 0 && cells[0].Num?
    ensures s >= 0.0
  {
    assert NumValues(cells) == [cells[0].x] + NumValues(cells[1..]);
    Abs(Mean(NumValues(cells)) - cells[0].x)
  }

  lemma {:induction false} SumOfConstant(xs: seq<real>, v: real)
    requires forall i :: 0 <= i < |xs| ==> xs[i] == v
    ensures Sum(xs) == ModelUtils.Times(|xs|, v)
  {
    if xs != [] {
      SumOfConstant(xs[1..], v);
    }
  }

  /** A feature that has not moved at all, every row holding the same value, scores 0. */
  lemma {:induction false} ConstantColumnScoresZero(cells: seq<Cell>, v: real)
    requires |cells| > 0 && forall i :: 0 <= i < |cells| ==> cells[i] == Num(v)
    ensures DriftScore(cells) == 0.0
  {
    AllNumValues(cells);
    var xs := NumValues(cells);
    SumOfConstant(xs, v);
    ModelUtils.TimesIsProduct(|xs|, v);
    assert |xs| > 0;
    assert Mean(xs) == (|xs| as real * v) / |xs| as real;
    assert (|xs| as real * v) / |xs| as real == v;
  }

  /** A column 10, 20, 30 has mean 20 and scores 10 against its first row. */
  lemma ScoreExample()
    ensures DriftScore([Num(10.0), Num(20.0), Num(30.0)]) == 10.0
  {
    var cells := [Num(10.0), Num(20.0), Num(30.0)];
    assert NumValues(cells) == [10.0, 20.0, 30.0] by {
      assert cells[1..] == [Num(20.0), Num(30.0)];
      assert cells[1..][1..] == [Num(30.0)];
    }
    assert Sum([10.0, 20.0, 30.0]) == 60.0 by {
      assert [10.0, 20.0, 30.0][1..] == [20.0, 30.0];
      assert [20.0, 30.0][1..] == [30.0];
    }
  }

  /** The columns the score loop and the model read, each with a number in every row. */
  predicate Scorable(df: Table) {
    && WellFormed(df) && |df.rows| > 0
    && forall c :: c in FeatureColumns + ["page_views"] ==>
         c in df.names && forall i :: 0 <= i < |df.rows| ==> Column(df, c)[i].Num?
  }

  /** `drift_scores`: one entry per feature column, each the column's drift score. */
  function Scores(df: Table): (m: map<string, real>)
    requires Scorable(df)
    ensures forall c :: c in m <==> c in FeatureColumns
    ensures forall c :: c in m ==> m[c] == DriftScore(Column(df, c)) && m[c] >= 0.0
  {
    map c | c in FeatureColumns :: DriftScore(Column(df, c))
  }

  /** The `for col in feature_cols` loop that fills `drift_scores`. */
  method DriftScores(df: Table) returns (scores: map<string, real>)
    requires Scorable(df)
    ensures scores == Scores(df)
  {
    scores := map[];
    var i := 0;
    while i < |FeatureColumns|
      invariant 0 <= i <= |FeatureColumns|
      invariant forall c :: c in scores <==> c in FeatureColumns[..i]
      invariant forall c :: c in scores ==> c in FeatureColumns && scores[c] == DriftScore(Column(df, c))
    {
      var col := FeatureColumns[i];
      assert FeatureColumns[..i + 1] == FeatureColumns[..i] + [col];
      scores := scores[col := DriftScore(Column(df, col))];
      i := i + 1;
    }
    assert FeatureColumns[..i] == FeatureColumns;
    assert scores.Keys == Scores(df).Keys;
  }

  function AbsErrors(actual: seq<real>, predicted: seq<real>): (e: seq<real>)
    requires |actual| == |predicted|
    ensures |e| == |actual|
    ensures forall i :: 0 <= i < |e| ==> e[i] == Abs(actual[i] - predicted[i])
  {
    seq(|actual|, i requires 0 <= i < |actual| => Abs(actual[i] - predicted[i]))
  }

  lemma {:induction false} SumOfNonNegative(xs: seq<real>)
    requires forall i :: 0 <= i < |xs| ==> xs[i] >= 0.0
    ensures Sum(xs) >= 0.0
    ensures Sum(xs) == 0.0 <==> forall i :: 0 <= i < |xs| ==> xs[i] == 0.0
  {
    if xs != [] {
      SumOfNonNegative(xs[1..]);
      if Sum(xs) == 0.0 {
        forall i | 0 <= i < |xs| ensures xs[i] == 0.0 {
          if i > 0 {
            assert xs[i] == xs[1..][i - 1];
          }
        }
      }
    }
  }

  /**
   * `mean_absolute_error(y_true, y_pred)`: never negative, and zero exactly
   * when every prediction equals its actual value.
   */
  function MeanAbsoluteError(actual: seq<real>, predicted: seq<real>): (mae: real)
    requires |actual| == |predicted| > 0
    ensures mae >= 0.0
    ensures mae == 0.0 <==> actual == predicted
  {
    var errors := AbsErrors(actual, predicted);
    SumOfNonNegative(errors);
    var n := |errors| as real;
    assert Sum(errors) == Mean(errors) * n;
    assert actual == predicted <==> forall i :: 0 <= i < |errors| ==> errors[i] == 0.0 by {
      if forall i :: 0 <= i < |errors| ==> errors[i] == 0.0 {
        forall i | 0 <= i < |actual| ensures actual[i] == predicted[i] {
          assert errors[i] == 0.0;
        }
      }
    }
    Mean(errors)
  }

  datatype Decision = NoDrift | MildDrift | SevereDrift

  /** The string written into the report. */
  function Label(d: Decision): string {
    match d
    case NoDrift => "NO_DRIFT"
    case MildDrift => "MILD_DRIFT"
    case SevereDrift => "SEVERE_DRIFT"
  }

  /** The drift decision: below 50 no drift, from 50 below 120 mild, from 120 on severe. */
  function Classify(mae: real): (d: Decision)
    ensures d == NoDrift <==> mae < 50.0
    ensures d == MildDrift <==> 50.0 <= mae < 120.0
    ensures d == SevereDrift <==> mae >= 120.0
  {
    if mae < 50.0 then NoDrift
    else if mae < 120.0 then MildDrift
    else SevereDrift
  }

  function Severity(d: Decision): nat {
    match d
    case NoDrift => 0
    case MildDrift => 1
    case SevereDrift => 2
  }

  /** A larger error never gives a milder decision. */
  lemma ClassifyMonotone(a: real, b: real)
    requires a <= b
    ensures Severity(Classify(a)) <= Severity(Classify(b))
  {
  }

  /** The values on either side of both thresholds. */
  lemma ClassifyBoundaries()
    ensures Classify(49.9) == NoDrift && Classify(50.0) == MildDrift
    ensures Classify(119.9) == MildDrift && Classify(120.0) == SevereDrift
    ensures Label(Classify(49.9)) == "NO_DRIFT" && Label(Classify(50.0)) == "MILD_DRIFT"
    ensures Label(Classify(119.9)) == "MILD_DRIFT" && Label(Classify(120.0)) == "SEVERE_DRIFT"
  {
  }

  /** The saved report; its time of writing is not modelled. */
  datatype Report = Report(mae: real, driftScores: map<string, real>, decision: Decision)

  /**
   * The features `detect_drift` evaluates: a CSV-shaped table (the derived
   * window) without its incomplete rows is numeric in every column read.
   */
  lemma {:induction false} WindowFeaturesNumeric(d: Table)
    requires CsvShaped(d) && "page_views" in d.names
    requires forall c :: c in FeatureColumns ==> c in d.names
    requires |DropNA(d).rows| > 0
    ensures Scorable(DropNA(d))
  {
    assert "timestamp" !in FeatureColumns + ["page_views"];
    forall c | c in FeatureColumns + ["page_views"]
      ensures c in DropNA(d).names && forall i :: 0 <= i < |DropNA(d).rows| ==> Column(DropNA(d), c)[i].Num?
    {
      NumericAfterDropNA(d, c);
    }
  }

  /** The error, the scores and the decision on the features of the window. */
  function Evaluate(df: Table, predict: Table -> seq<real>): (r: Result<Report, DriftError>)
    requires Scorable(df)
    ensures r.Failure? <==> |predict(Select(df, FeatureColumns))| != |df.rows|
    ensures r.Failure? ==> r.error == PredictionCountMismatch
    ensures r.Success? ==> Classify(r.value.mae) == r.value.decision && r.value.mae >= 0.0
    ensures r.Success? ==> r.value.driftScores == Scores(df)
    ensures r.Success? ==>
              && |NumValues(Column(df, "page_views"))| == |df.rows|
              && r.value.mae == MeanAbsoluteError(NumValues(Column(df, "page_views")), predict(Select(df, FeatureColumns)))
  {
    var yTrue := Column(df, "page_views");
    var yPred := predict(Select(df, FeatureColumns));
    if |yPred| != |yTrue| then Failure(PredictionCountMismatch)
    else
      AllNumValues(yTrue);
      var mae := MeanAbsoluteError(NumValues(yTrue), yPred);
      Success(Report(mae, Scores(df), Classify(mae)))
  }

  /**
   * `detect_drift` from the loaded window on: without `page_views` or
   * `is_festival` the selection raises a `KeyError` (every derived column is
   * always there); otherwise the report is `Evaluate` of the derived window
   * without its incomplete rows, unless no row is left.
   */
  function DriftOnWindow(w: Table, predict: Table -> seq<real>): (r: Result<Report, DriftError>)
    requires CsvShaped(w) && "timestamp" in w.names
    ensures r.Failure? ==> r.error.MissingColumns? || r.error == NoRows || r.error == PredictionCountMismatch
    ensures "page_views" !in w.names ==> r == Failure(MissingColumns(["page_views"]))
    ensures "page_views" in w.names && "is_festival" !in w.names ==>
              && r.Failure? && r.error.MissingColumns?
              && forall c :: c in r.error.names <==> c == "is_festival"
    ensures "page_views" in w.names && "is_festival" in w.names ==>
              && Derivable(w)
              && var df := DropNA(DerivedColumns(w));
                 && (|df.rows| == 0 ==> r == Failure(NoRows))
                 && (|df.rows| > 0 ==> Scorable(df) && r == Evaluate(df, predict))
  {
    if "page_views" !in w.names then Failure(MissingColumns(["page_views"]))
    else
      var d := DerivedColumns(w);
      var df := DropNA(d);
      var missing := Missing(df.names, FeatureColumns);
      WindowFeatureNames(w);
      if missing != [] then Failure(MissingColumns(missing))
      else if |df.rows| == 0 then Failure(NoRows)
      else
        DerivedColumnsSpec(w);
        CsvDerived(w, d);
        WindowFeaturesNumeric(d);
        Evaluate(df, predict)
  }

  /** After the derivation the selection can miss only `is_festival`, and misses it exactly when the window lacks it. */
  lemma {:induction false} WindowFeatureNames(w: Table)
    requires Derivable(w)
    ensures var missing := Missing(DropNA(DerivedColumns(w)).names, FeatureColumns);
            && (missing == [] <==> "is_festival" in w.names)
            && forall c :: c in missing <==> c == "is_festival" && "is_festival" !in w.names
  {
    var d := DerivedColumns(w);
    FestivalNotDerived();
    assert "is_festival" in d.names <==> "is_festival" in w.names;
    MissingFeatures(DropNA(d).names);
  }

  /** Of a column list holding the six derived names, the selection can miss only `is_festival`. */
  lemma {:induction false} MissingFeatures(names: seq<string>)
    requires "lag_1" in names && "lag_2" in names && "hour" in names
    requires "day_of_week" in names && "month" in names && "is_weekend" in names
    ensures var missing := Missing(names, FeatureColumns);
            && (missing == [] <==> "is_festival" in names)
            && forall c :: c in missing <==> c == "is_festival" && "is_festival" !in names
  {
    var missing := Missing(names, FeatureColumns);
    if missing != [] {
      assert missing[0] in missing;
    }
    if "is_festival" !in names {
      assert "is_festival" in missing;
    }
  }

  /** Loading keeps the table CSV-shaped. */
  lemma {:induction false} LoadedWindowShape(raw: Table, window: int)
    requires CsvShaped(raw) && "timestamp" in raw.names
    ensures CsvShaped(Table(raw.names, Tail(CleanSorted(raw).table.rows, window)))
  {
    var rows := CleanSorted(raw).table.rows;
    CsvCleanSorted(raw);
    CsvSubRows(CleanSorted(raw).table, Tail(rows, window));
  }

  /** `detect_drift`, with the model's `predict` as a parameter. */
  function Drift(raw: Table, predict: Table -> seq<real>): (r: Result<Report, DriftError>)
    requires CsvShaped(raw)
    ensures LoadRecentData(raw, DefaultWindow).Failure? ==> r == Failure(LoadRecentData(raw, DefaultWindow).error)
    ensures (r.Failure? && r.error.NotEnoughData?) <==>
              (LoadRecentData(raw, DefaultWindow).Failure? && LoadRecentData(raw, DefaultWindow).error.NotEnoughData?)
    ensures r.Success? ==>
              && LoadRecentData(raw, DefaultWindow).Success?
              && var w := LoadRecentData(raw, DefaultWindow).value.table;
                 && Derivable(w) && Scorable(DropNA(DerivedColumns(w)))
                 && r == Evaluate(DropNA(DerivedColumns(w)), predict)
    ensures LoadRecentData(raw, DefaultWindow).Success? ==>
              && var w := LoadRecentData(raw, DefaultWindow).value.table;
                 && CsvShaped(w) && "timestamp" in w.names
                 && r == DriftOnWindow(w, predict)
  {
    match LoadRecentData(raw, DefaultWindow)
    case Failure(e) => Failure(e)
    case Success(loaded) =>
      LoadedWindowShape(raw, DefaultWindow);
      DriftOnWindow(loaded.table, predict)
  }

  /** The measuring half of `detect_drift`: select, predict, measure, score and classify. */
  method EvaluateFrame(df: Frame, predict: Table -> seq<real>) returns (r: Result<Report, DriftError>)
    requires df.Valid() && Scorable(df.Value())
    ensures r == Evaluate(df.Value(), predict)
  {
    FeatureColumnsDistinct();
    var x := df.SelectColumns(FeatureColumns);
    var yTrue := df.Get("page_views");
    var yPred := predict(x.Value());
    if |yPred| != |yTrue| {
      return Failure(PredictionCountMismatch);
    }
    AllNumValues(yTrue);
    var mae := MeanAbsoluteError(NumValues(yTrue), yPred);
    var scores := DriftScores(df.Value());
    r := Success(Report(mae, scores, Classify(mae)));
  }

  /** `detect_drift` from the loaded window on: the features are written into a frame built from it. */
  method DriftFromWindow(w: Table, predict: Table -> seq<real>) returns (r: Result<Report, DriftError>)
    requires CsvShaped(w) && "timestamp" in w.names
    ensures r == DriftOnWindow(w, predict)
  {
    if "page_views" !in w.names {
      return Failure(MissingColumns(["page_views"]));
    }
    var frame := new Frame(w);
    var df := BuildFeatures(frame);
    var missing := Missing(df.names, FeatureColumns);
    if missing != [] {
      return Failure(MissingColumns(missing));
    }
    if |df.rows| == 0 {
      return Failure(NoRows);
    }
    DerivedColumnsSpec(w);
    CsvDerived(w, frame.Value());
    WindowFeaturesNumeric(frame.Value());
    r := EvaluateFrame(df, predict);
  }

  /** `detect_drift`: load the recent window, then derive, predict, measure, score and classify. */
  method DetectDrift(raw: Table, predict: Table -> seq<real>) returns (r: Result<Report, DriftError>)
    requires CsvShaped(raw)
    ensures r == Drift(raw, predict)
  {
    var loaded := LoadRecentData(raw, DefaultWindow);
    if loaded.Failure? {
      return Failure(loaded.error);
    }
    LoadedWindowShape(raw, DefaultWindow);
    r := DriftFromWindow(loaded.value.table, predict);
  }

  lemma FeatureColumnsDistinct()
    ensures Distinct(FeatureColumns)
  {
    ModelUtils.FeatureColsDistinct();
  }

  /**
   * With the default window of 20 and no nulls in the loaded rows, exactly
   * 18 rows are scored, and their lags come from the window itself.
   */
  lemma {:induction false} WindowLosesTwoRows(raw: Table)
    requires CsvShaped(raw) && "page_views" in raw.names
    requires LoadRecentData(raw, DefaultWindow).Success? && NoNulls(LoadRecentData(raw, DefaultWindow).value.table)
    ensures var w := LoadRecentData(raw, DefaultWindow).value.table;
            var df := DropNA(DerivedColumns(w));
            && |df.rows| == DefaultWindow - 2
            && forall i :: 0 <= i < DefaultWindow - 2 ==>
                 Column(df, "lag_1")[i] == Column(w, "page_views")[i + 1] && Column(df, "lag_2")[i] == Column(w, "page_views")[i]
  {
    var w := LoadRecentData(raw, DefaultWindow).value.table;
    WindowReady(raw, w);
    WindowLags(w, DerivedColumns(w));
  }

  /** A loaded default window has 20 stamped rows and the columns the derivation needs. */
  lemma WindowReady(raw: Table, w: Table)
    requires CsvShaped(raw) && "page_views" in raw.names
    requires LoadRecentData(raw, DefaultWindow).Success? && w == LoadRecentData(raw, DefaultWindow).value.table
    ensures Derivable(w) && AllStamped(w.rows, StampIndex(w)) && |w.rows| == DefaultWindow
  {
    assert w.names == raw.names && StampIndex(w) == StampIndex(raw);
  }

  lemma {:induction false} WindowLags(w: Table, d: Table)
    requires Derivable(w) && AllStamped(w.rows, StampIndex(w)) && |w.rows| == DefaultWindow && NoNulls(w)
    requires d == DerivedColumns(w)
    ensures var df := DropNA(d);
            && |df.rows| == DefaultWindow - 2
            && forall i :: 0 <= i < DefaultWindow - 2 ==>
                 Column(df, "lag_1")[i] == Column(w, "page_views")[i + 1] && Column(df, "lag_2")[i] == Column(w, "page_views")[i]
  {
    DerivedColumnsSpec(w);
    SurvivorLags(w, d);
  }
}
