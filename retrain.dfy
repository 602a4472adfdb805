/**
 * scripts/retrain.py: load every valid observation in time order, derive the
 * training features in the caller's frame, and split off the feature matrix X
 * and the target y. Fitting and saving the regressor are not modelled.
 */
module Retrain {
  import opened Wrappers
  import opened Calendar
  import opened Tables
  import opened History

  /** The column list `build_training_features` selects for X. */
  const TrainingColumns: seq<string> := ["lag_1", "lag_2", "hour", "day_of_week", "month", "is_weekend", "is_festival"]

  datatype TrainError =
    | MissingTimestampColumn              // ValueError: CSV missing 'timestamp' column
    | MissingColumns(names: seq<string>)  // KeyError from df[...]

  /**
   * `load_data`: exactly the rows with an unreadable timestamp are dropped and
   * counted, and the others come back ascending by time. There is no minimum
   * number of rows.
   */
  function LoadData(raw: Table): (r: Result<Loaded, TrainError>)
    requires WellFormed(raw)
    ensures r.Failure? <==> "timestamp" !in raw.names
    ensures r.Failure? ==> r.error == MissingTimestampColumn
    ensures r.Success? ==>
              var j := StampIndex(raw);
              var rows := r.value.table.rows;
              && WellFormed(r.value.table) && r.value.table.names == raw.names
              && r.value.numBad == InvalidCount(raw.rows, j)
              && |rows| + r.value.numBad == |raw.rows|
              && AllStamped(rows, j) && SortedByTime(rows, j)
              && forall row :: multiset(rows)[row] == if HasStamp(row, j) then multiset(raw.rows)[row] else 0
  {
    if "timestamp" !in raw.names then Failure(MissingTimestampColumn) else Success(CleanSorted(raw))
  }

  /** X and y. */
  datatype TrainingSet = TrainingSet(x: Table, y: seq<Cell>)

  /** `X = df[[...]]` and `y = df["page_views"]` on the rows that survived `dropna`. */
  function TrainingData(df: Table): (r: Result<TrainingSet, TrainError>)
    requires WellFormed(df) && "page_views" in df.names
    ensures r.Failure? <==> exists c :: c in TrainingColumns && c !in df.names
    ensures r.Failure? ==> r.error == MissingColumns(Missing(df.names, TrainingColumns))
    ensures r.Success? ==>
              && WellFormed(r.value.x) && r.value.x.names == TrainingColumns
              && |r.value.x.rows| == |r.value.y| == |df.rows|
              && (forall c :: c in TrainingColumns ==> Column(r.value.x, c) == Column(df, c))
              && r.value.y == Column(df, "page_views")
  {
    var missing := Missing(df.names, TrainingColumns);
    if missing != [] then
      assert missing[0] in missing;
      Failure(MissingColumns(missing))
    else
      TrainingColumnsDistinct();
      Success(TrainingSet(Select(df, TrainingColumns), Column(df, "page_views")))
  }

  lemma TrainingColumnsDistinct()
    ensures Distinct(TrainingColumns)
  {
  }

  /** Row `i` of X and entry `i` of y come from the same row `i` of the table. */
  lemma {:induction false} XYAligned(df: Table)
    requires WellFormed(df) && "page_views" in df.names && TrainingData(df).Success?
    ensures var s := TrainingData(df).value;
            forall i, k :: 0 <= i < |s.y| && 0 <= k < |TrainingColumns| ==>
              s.x.rows[i][k] == df.rows[i][IndexOf(df.names, TrainingColumns[k])]
              && s.y[i] == df.rows[i][IndexOf(df.names, "page_views")]
  {
    var s := TrainingData(df).value;
    TrainingColumnsDistinct();
    forall i, k | 0 <= i < |s.y| && 0 <= k < |TrainingColumns|
      ensures s.x.rows[i][k] == df.rows[i][IndexOf(df.names, TrainingColumns[k])]
    {
      IndexOfUnique(TrainingColumns, k);
      assert Column(s.x, TrainingColumns[k])[i] == Column(df, TrainingColumns[k])[i];
    }
  }

  /**
   * `build_training_features`: the six columns are written into the caller's
   * frame; X and y are taken from that frame without its incomplete rows.
   */
  method BuildTrainingFeatures(df: Frame) returns (r: Result<TrainingSet, TrainError>)
    requires df.Valid() && Derivable(df.Value())
    modifies df
    ensures df.Valid() && df.Value() == DerivedColumns(old(df.Value()))
    ensures r == TrainingData(DropNA(df.Value()))
  {
    ghost var t := df.Value();
    var pv := Column(t, "page_views");
    var ts := Column(t, "timestamp");
    df.SetColumn("lag_1", Shift(df.Get("page_views"), 1));
    assert df.Get("page_views") == pv;
    df.SetColumn("lag_2", Shift(df.Get("page_views"), 2));
    assert df.Value() == WithLags(t);
    assert df.Get("timestamp") == ts;
    df.SetColumn("hour", HourCells(df.Get("timestamp")));
    assert df.Get("timestamp") == ts;
    df.SetColumn("day_of_week", DayOfWeekCells(df.Get("timestamp")));
    assert df.Get("timestamp") == ts;
    df.SetColumn("month", MonthCells(df.Get("timestamp")));
    assert df.Get("day_of_week") == DayOfWeekCells(ts);
    df.SetColumn("is_weekend", WeekendCells(df.Get("day_of_week")));
    var complete := df.DropNulls();
    var missing := Missing(complete.names, TrainingColumns);
    if missing != [] {
      return Failure(MissingColumns(missing));
    }
    TrainingColumnsDistinct();
    var x := complete.SelectColumns(TrainingColumns);
    var y := complete.Get("page_views");
    r := Success(TrainingSet(x.Value(), y));
  }

  /**
   * `train_model` up to the fit: load, derive, select. It succeeds exactly
   * when the stored data has `timestamp`, `page_views` and `is_festival`,
   * however few rows it has.
   */
  function Training(raw: Table): (r: Result<TrainingSet, TrainError>)
    requires WellFormed(raw)
    ensures "timestamp" !in raw.names ==> r == Failure(MissingTimestampColumn)
    ensures "timestamp" in raw.names && "page_views" !in raw.names ==> r == Failure(MissingColumns(["page_views"]))
    ensures "timestamp" in raw.names && "page_views" in raw.names && "is_festival" !in raw.names ==>
              && r.Failure? && r.error.MissingColumns?
              && forall c :: c in r.error.names <==> c == "is_festival"
    ensures r.Success? <==> "timestamp" in raw.names && "page_views" in raw.names && "is_festival" in raw.names
    ensures r.Success? ==>
              && LoadData(raw).Success?
              && var t := LoadData(raw).value.table;
                 && Derivable(t)
                 && r == TrainingData(DropNA(DerivedColumns(t)))
  {
    match LoadData(raw)
    case Failure(e) => Failure(e)
    case Success(loaded) =>
      var t := loaded.table;
      if "page_views" !in t.names then Failure(MissingColumns(["page_views"]))
      else
        TrainingSucceeds(t);
        TrainingData(DropNA(DerivedColumns(t)))
  }

  /** Selecting X and y from the derived history fails exactly when the data had no `is_festival`. */
  lemma {:induction false} TrainingSucceeds(t: Table)
    requires Derivable(t)
    ensures "page_views" in DropNA(DerivedColumns(t)).names
    ensures TrainingData(DropNA(DerivedColumns(t))).Success? <==> "is_festival" in t.names
    ensures TrainingData(DropNA(DerivedColumns(t))).Failure? ==>
              && TrainingData(DropNA(DerivedColumns(t))).error.MissingColumns?
              && forall c :: c in TrainingData(DropNA(DerivedColumns(t))).error.names <==> c == "is_festival"
  {
    var d := DerivedColumns(t);
    FestivalNotDerived();
    assert "is_festival" in d.names <==> "is_festival" in t.names;
    SelectionSucceeds(DropNA(d));
  }

  /** Of a table holding the six derived columns, X can lack only `is_festival`. */
  lemma {:induction false} SelectionSucceeds(df: Table)
    requires WellFormed(df) && "page_views" in df.names
    requires "lag_1" in df.names && "lag_2" in df.names && "hour" in df.names
    requires "day_of_week" in df.names && "month" in df.names && "is_weekend" in df.names
    ensures TrainingData(df).Success? <==> "is_festival" in df.names
    ensures TrainingData(df).Failure? ==> forall c :: c in TrainingData(df).error.names <==> c == "is_festival"
  {
    if "is_festival" !in df.names {
      assert "is_festival" in TrainingColumns;
    }
  }

  /**
   * With no nulls in the stored data, every loaded row but the first two
   * becomes a training row: n valid rows give n - 2 rows of X, and fewer than
   * two give none, with no error.
   */
  lemma {:induction false} TrainingLosesTwoRows(raw: Table)
    requires WellFormed(raw) && Training(raw).Success? && NoNulls(LoadData(raw).value.table)
    ensures var n := |raw.rows| - InvalidCount(raw.rows, StampIndex(raw));
            |Training(raw).value.x.rows| == if n >= 2 then n - 2 else 0
  {
    var t := LoadData(raw).value.table;
    var d := DerivedColumns(t);
    assert StampIndex(t) == StampIndex(raw);
    DerivedColumnsSpec(t);
    DropsFirstTwo(t, d);
  }

  /** `train_model` step by step; the frame it builds is the one the features are written into. */
  method TrainModel(raw: Table) returns (r: Result<TrainingSet, TrainError>)
    requires WellFormed(raw)
    ensures r == Training(raw)
  {
    var loaded := LoadData(raw);
    if loaded.Failure? {
      return Failure(loaded.error);
    }
    var t := loaded.value.table;
    if "page_views" !in t.names {
      return Failure(MissingColumns(["page_views"]));
    }
    var df := new Frame(t);
    r := BuildTrainingFeatures(df);
  }

  /** Three observations, the last on a festival day, as loaded. */
  function ExampleTable(t1: Timestamp, t2: Timestamp, t3: Timestamp): Table {
    Table(["timestamp", "page_views", "is_festival"],
          [[Time(t1), Num(100.0), Num(0.0)], [Time(t2), Num(110.0), Num(0.0)], [Time(t3), Num(90.0), Num(1.0)]])
  }

  lemma {:induction false} ExampleInput(t1: Timestamp, t2: Timestamp, t3: Timestamp)
    ensures var t := ExampleTable(t1, t2, t3);
            && Derivable(t) && NoNulls(t) && AllStamped(t.rows, StampIndex(t)) && |t.rows| == 3
            && Column(t, "page_views") == [Num(100.0), Num(110.0), Num(90.0)]
            && Column(t, "is_festival") == [Num(0.0), Num(0.0), Num(1.0)]
  {
    var t := ExampleTable(t1, t2, t3);
    assert StampIndex(t) == 0;
    assert Null !in t.rows[0] && Null !in t.rows[1] && Null !in t.rows[2];
  }

  /** What survives `dropna` from three such rows, for any table `d` the six assignments may produce. */
  lemma {:induction false} ThreeRowSurvivor(t: Table, d: Table)
    requires Derivable(t) && NoNulls(t) && AllStamped(t.rows, StampIndex(t)) && |t.rows| == 3
    requires "is_festival" in t.names && DerivedFrom(d, t)
    ensures "page_views" in DropNA(d).names && "is_festival" in DropNA(d).names && |DropNA(d).rows| == 1
    ensures Column(DropNA(d), "lag_1")[0] == Column(t, "page_views")[1]
    ensures Column(DropNA(d), "lag_2")[0] == Column(t, "page_views")[0]
    ensures Column(DropNA(d), "page_views")[0] == Column(t, "page_views")[2]
    ensures Column(DropNA(d), "is_festival")[0] == Column(t, "is_festival")[2]
  {
    SurvivorLags(t, d);
    SurvivorKeeps(t, d, "is_festival");
  }

  /**
   * Three observations 100, 110 and 90, the last on a festival day, through
   * the six assignments (any table `d` they may produce; `DerivedColumnsSpec`
   * shows `DerivedColumns` is one), `dropna` and the selection: the first two
   * rows are dropped and the only training row has lags 110 and 100,
   * festival flag 1 and target 90.
   */
  lemma {:induction false} ThreeObservations(t1: Timestamp, t2: Timestamp, t3: Timestamp, d: Table)
    requires Derivable(ExampleTable(t1, t2, t3)) && DerivedFrom(d, ExampleTable(t1, t2, t3))
    ensures "page_views" in DropNA(d).names && TrainingData(DropNA(d)).Success?
    ensures var s := TrainingData(DropNA(d)).value;
            && |s.x.rows| == 1
            && Column(s.x, "lag_1") == [Num(110.0)] && Column(s.x, "lag_2") == [Num(100.0)]
            && Column(s.x, "is_festival") == [Num(1.0)] && s.y == [Num(90.0)]
  {
    var t := ExampleTable(t1, t2, t3);
    ExampleInput(t1, t2, t3);
    ThreeRowSurvivor(t, d);
    assert forall c :: c in TrainingColumns ==> c in DropNA(d).names;
    SingleTrainingRow(DropNA(d));
  }

  /** A one-row table gives one training row whose columns are that row's cells. */
  lemma {:induction false} SingleTrainingRow(df: Table)
    requires WellFormed(df) && "page_views" in df.names && |df.rows| == 1
    requires forall c :: c in TrainingColumns ==> c in df.names
    ensures TrainingData(df).Success?
    ensures var s := TrainingData(df).value;
            && |s.x.rows| == 1 && s.y == [Column(df, "page_views")[0]]
            && forall c :: c in TrainingColumns ==> Column(s.x, c) == [Column(df, c)[0]]
  {
    var s := TrainingData(df).value;
    forall c | c in TrainingColumns ensures Column(s.x, c) == [Column(df, c)[0]] {
      assert Column(s.x, c) == Column(df, c);
    }
  }
}
