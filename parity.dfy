/**
 * Train/serve parity: the row app/features.py builds for one request and the
 * row scripts/retrain.py and scripts/check_drift.py derive from the stored
 * history agree column for column, and the serving row reaches the model
 * with its lags imputed as app/model_utils.py does.
 */
module Parity {
  import opened Wrappers
  import opened Calendar
  import opened Tables
  import opened History
  import Features
  import ModelUtils
  import CheckDrift
  import Retrain

  /** The serving row, the model's canonical list, the drift check's features and X name the same columns in the same order. */
  lemma ColumnListsAgree()
    ensures Features.RowColumns == ModelUtils.FeatureCols
    ensures CheckDrift.FeatureColumns == ModelUtils.FeatureCols
    ensures Retrain.TrainingColumns == ModelUtils.FeatureCols
  {
  }

  /** The calendar cells derived from one stored timestamp are the ones `make_features` computes for it. */
  lemma CalendarCellsAgree(c: Cell, ts: Timestamp, arg: Features.TimestampArg,
                           lag1: Option<real>, lag2: Option<real>, festival: Option<int>)
    requires c == Time(ts) && Features.ParseTimestamp(arg) == Success(ts)
    ensures var row := Features.MakeFeatures(arg, lag1, lag2, festival).value.rows[0];
            && HourOf(c) == row[2] && DayOfWeekOf(c) == row[3] && MonthOf(c) == row[4]
            && WeekendOf(DayOfWeekOf(c)) == row[5]
  {
  }

  /** In every row of the derived history, the calendar columns equal the serving row's for that row's timestamp. */
  lemma {:induction false} CalendarParity(t: Table, d: Table, i: nat, ts: Timestamp, arg: Features.TimestampArg,
                                          lag1: Option<real>, lag2: Option<real>, festival: Option<int>)
    requires Derivable(t) && DerivedFrom(d, t) && i < |t.rows|
    requires Column(t, "timestamp")[i] == Time(ts) && Features.ParseTimestamp(arg) == Success(ts)
    ensures var row := Features.MakeFeatures(arg, lag1, lag2, festival).value.rows[0];
            && Column(d, "hour")[i] == row[2] && Column(d, "day_of_week")[i] == row[3]
            && Column(d, "month")[i] == row[4] && Column(d, "is_weekend")[i] == row[5]
  {
    var ts := Column(t, "timestamp");
    CalendarCellsAgree(ts[i], ts[i].t, arg, lag1, lag2, festival);
    assert Column(d, "hour")[i] == HourOf(ts[i]);
    assert Column(d, "day_of_week")[i] == DayOfWeekOf(ts[i]);
    assert Column(d, "month")[i] == MonthOf(ts[i]);
    assert Column(d, "is_weekend")[i] == WeekendOf(DayOfWeekCells(ts)[i]);
  }

  /** Of n >= 2 rows without nulls, surviving row `i` of any column is row `i + 2` of the derived table. */
  lemma {:induction false} SurvivorCell(t: Table, d: Table, c: string, i: nat)
    requires Derivable(t) && NoNulls(t) && AllStamped(t.rows, StampIndex(t)) && DerivedFrom(d, t)
    requires c in d.names && i + 2 < |t.rows|
    ensures |DropNA(d).rows| == |t.rows| - 2
    ensures Column(DropNA(d), c)[i] == Column(d, c)[i + 2]
  {
    var r := Table(d.names, d.rows[2..]);
    DropsFirstTwo(t, d);
    assert DropNA(d) == r;
    ColumnOfSuffix(d, 2, c);
    assert Column(r, c)[i] == Column(d, c)[i + 2];
  }

  /** The lags of surviving row `i` are the `page_views` of stored rows `i + 1` and `i`. */
  lemma {:induction false} SurvivorLagValues(t: Table, d: Table, i: nat, a: real, b: real)
    requires Derivable(t) && NoNulls(t) && AllStamped(t.rows, StampIndex(t)) && DerivedFrom(d, t)
    requires i + 2 < |t.rows|
    requires Column(t, "page_views")[i + 1] == Num(a) && Column(t, "page_views")[i] == Num(b)
    ensures |DropNA(d).rows| == |t.rows| - 2
    ensures Column(DropNA(d), "lag_1")[i] == Num(a) && Column(DropNA(d), "lag_2")[i] == Num(b)
  {
    SurvivorLags(t, d);
  }

  /** The calendar cells of surviving row `i` come from stored row `i + 2`'s timestamp. */
  lemma {:induction false} SurvivorCalendarValues(t: Table, d: Table, i: nat, ts: Timestamp)
    requires Derivable(t) && NoNulls(t) && AllStamped(t.rows, StampIndex(t)) && DerivedFrom(d, t)
    requires i + 2 < |t.rows| && Column(t, "timestamp")[i + 2] == Time(ts)
    ensures |DropNA(d).rows| == |t.rows| - 2
    ensures var s := DropNA(d);
            && Column(s, "hour")[i] == Num(ts.hour as real)
            && Column(s, "day_of_week")[i] == Num(DayOfWeek(ts) as real)
            && Column(s, "month")[i] == Num(ts.month as real)
            && Column(s, "is_weekend")[i] == Num(if DayOfWeek(ts) >= 5 then 1.0 else 0.0)
  {
    SurvivorCell(t, d, "hour", i);
    SurvivorCell(t, d, "day_of_week", i);
    SurvivorCell(t, d, "month", i);
    SurvivorCell(t, d, "is_weekend", i);
    var cells := Column(t, "timestamp");
    assert Column(d, "hour")[i + 2] == HourOf(cells[i + 2]);
    assert Column(d, "day_of_week")[i + 2] == DayOfWeekOf(cells[i + 2]);
    assert Column(d, "month")[i + 2] == MonthOf(cells[i + 2]);
    assert Column(d, "is_weekend")[i + 2] == WeekendOf(DayOfWeekCells(cells)[i + 2]);
  }

  /** `is_festival` is not derived, so surviving row `i` carries stored row `i + 2`'s flag. */
  lemma {:induction false} SurvivorFestival(t: Table, d: Table, i: nat, k: int)
    requires Derivable(t) && NoNulls(t) && AllStamped(t.rows, StampIndex(t)) && DerivedFrom(d, t)
    requires "is_festival" in t.names && i + 2 < |t.rows| && Column(t, "is_festival")[i + 2] == Num(k as real)
    ensures "is_festival" in DropNA(d).names && |DropNA(d).rows| == |t.rows| - 2
    ensures Column(DropNA(d), "is_festival")[i] == Num(k as real)
  {
    FestivalNotDerived();
    SurvivorKeeps(t, d, "is_festival");
    assert Column(DropNA(d), "is_festival")[i] == Column(t, "is_festival")[i + 2];
  }

  /**
   * A surviving row of the derived history, column by column, is the row
   * `make_features` builds from that row's timestamp, the two previous
   * `page_views` as lags and the row's own festival flag.
   */
  lemma {:induction false} SurvivorRowParity(t: Table, d: Table, i: nat, ts: Timestamp, arg: Features.TimestampArg,
                                             a: real, b: real, k: int)
    requires Derivable(t) && NoNulls(t) && AllStamped(t.rows, StampIndex(t)) && DerivedFrom(d, t)
    requires "is_festival" in t.names && i + 2 < |t.rows|
    requires Column(t, "timestamp")[i + 2] == Time(ts) && Features.ParseTimestamp(arg) == Success(ts)
    requires Column(t, "page_views")[i + 1] == Num(a) && Column(t, "page_views")[i] == Num(b)
    requires Column(t, "is_festival")[i + 2] == Num(k as real)
    ensures i < |DropNA(d).rows| && "is_festival" in DropNA(d).names
    ensures var s := DropNA(d);
            var row := Features.MakeFeatures(arg, Some(a), Some(b), Some(k)).value.rows[0];
            && Column(s, "lag_1")[i] == row[0] && Column(s, "lag_2")[i] == row[1]
            && Column(s, "hour")[i] == row[2] && Column(s, "day_of_week")[i] == row[3]
            && Column(s, "month")[i] == row[4] && Column(s, "is_weekend")[i] == row[5]
            && Column(s, "is_festival")[i] == row[6]
  {
    SurvivorLagValues(t, d, i, a, b);
    SurvivorCalendarValues(t, d, i, ts);
    SurvivorFestival(t, d, i, k);
    ServingRowValues(arg, ts, a, b, k);
  }

  /** The serving row for a parsed timestamp and two present lags, written out cell by cell. */
  lemma ServingRowValues(arg: Features.TimestampArg, ts: Timestamp, a: real, b: real, k: int)
    requires Features.ParseTimestamp(arg) == Success(ts)
    ensures Features.MakeFeatures(arg, Some(a), Some(b), Some(k)).Success?
    ensures Features.MakeFeatures(arg, Some(a), Some(b), Some(k)).value.rows[0]
         == [Num(a), Num(b), Num(ts.hour as real), Num(DayOfWeek(ts) as real), Num(ts.month as real),
             Num(if DayOfWeek(ts) >= 5 then 1.0 else 0.0), Num(k as real)]
  {
  }

  /** Two rows of seven cells that agree cell by cell are the same row. */
  lemma SevenCells(r: seq<Cell>, row: seq<Cell>)
    requires |r| == 7 && |row| == 7
    requires r[0] == row[0] && r[1] == row[1] && r[2] == row[2] && r[3] == row[3]
    requires r[4] == row[4] && r[5] == row[5] && r[6] == row[6]
    ensures r == row
  {
    forall k | 0 <= k < 7 ensures r[k] == row[k] {
      if k == 0 {} else if k == 1 {} else if k == 2 {} else if k == 3 {}
      else if k == 4 {} else if k == 5 {} else {}
    }
  }

  /** Cell `k` of row `i` is what column `k` reads in row `i`. */
  lemma ColumnAt(x: Table, k: nat, i: nat)
    requires WellFormed(x) && k < |x.names| && i < |x.rows|
    ensures Column(x, x.names[k])[i] == x.rows[i][k]
  {
    IndexOfUnique(x.names, k);
  }

  /**
   * Train/serve parity: row `i` of X, as `build_training_features` selects it,
   * is exactly the row `make_features` returns for stored row `i + 2`'s
   * timestamp, with stored rows `i + 1` and `i` supplying `lag_1` and `lag_2`.
   */
  lemma {:induction false} TrainingRowParity(t: Table, d: Table, i: nat, ts: Timestamp, arg: Features.TimestampArg,
                                             a: real, b: real, k: int)
    requires Derivable(t) && NoNulls(t) && AllStamped(t.rows, StampIndex(t)) && DerivedFrom(d, t)
    requires "is_festival" in t.names && i + 2 < |t.rows|
    requires Column(t, "timestamp")[i + 2] == Time(ts) && Features.ParseTimestamp(arg) == Success(ts)
    requires Column(t, "page_views")[i + 1] == Num(a) && Column(t, "page_views")[i] == Num(b)
    requires Column(t, "is_festival")[i + 2] == Num(k as real)
    ensures Retrain.TrainingData(DropNA(d)).Success?
    ensures var x := Retrain.TrainingData(DropNA(d)).value.x;
            i < |x.rows| && x.rows[i] == Features.MakeFeatures(arg, Some(a), Some(b), Some(k)).value.rows[0]
  {
    SurvivorRowParity(t, d, i, ts, arg, a, b, k);
    ServingRowValues(arg, ts, a, b, k);
    assert "page_views" in d.names;
    SelectedRow(DropNA(d), i, Features.MakeFeatures(arg, Some(a), Some(b), Some(k)).value.rows[0]);
  }

  /** When every training column of row `i` reads as `row`, X's row `i` is `row`. */
  lemma {:induction false} SelectedRow(s: Table, i: nat, row: seq<Cell>)
    requires WellFormed(s) && "page_views" in s.names && i < |s.rows| && |row| == 7
    requires "lag_1" in s.names && "lag_2" in s.names && "hour" in s.names && "day_of_week" in s.names
    requires "month" in s.names && "is_weekend" in s.names && "is_festival" in s.names
    requires && Column(s, "lag_1")[i] == row[0] && Column(s, "lag_2")[i] == row[1]
             && Column(s, "hour")[i] == row[2] && Column(s, "day_of_week")[i] == row[3]
             && Column(s, "month")[i] == row[4] && Column(s, "is_weekend")[i] == row[5]
             && Column(s, "is_festival")[i] == row[6]
    ensures Retrain.TrainingData(s).Success?
    ensures i < |Retrain.TrainingData(s).value.x.rows| && Retrain.TrainingData(s).value.x.rows[i] == row
  {
    assert forall c :: c in Retrain.TrainingColumns ==> c in s.names;
    CanonicalRow(s, Retrain.TrainingData(s).value.x, i, row);
  }

  /** A row of a table in canonical column order whose columns are those of `s`, read back from its seven columns. */
  lemma {:induction false} CanonicalRow(s: Table, x: Table, i: nat, row: seq<Cell>)
    requires WellFormed(s) && WellFormed(x) && x.names == Retrain.TrainingColumns && i < |x.rows| == |s.rows| && |row| == 7
    requires "lag_1" in s.names && "lag_2" in s.names && "hour" in s.names && "day_of_week" in s.names
    requires "month" in s.names && "is_weekend" in s.names && "is_festival" in s.names
    requires forall c :: c in Retrain.TrainingColumns && c in s.names ==> Column(x, c) == Column(s, c)
    requires && Column(s, "lag_1")[i] == row[0] && Column(s, "lag_2")[i] == row[1]
             && Column(s, "hour")[i] == row[2] && Column(s, "day_of_week")[i] == row[3]
             && Column(s, "month")[i] == row[4] && Column(s, "is_weekend")[i] == row[5]
             && Column(s, "is_festival")[i] == row[6]
    ensures x.rows[i] == row
  {
    ColumnAt(x, 0, i);
    ColumnAt(x, 1, i);
    ColumnAt(x, 2, i);
    ColumnAt(x, 3, i);
    ColumnAt(x, 4, i);
    ColumnAt(x, 5, i);
    ColumnAt(x, 6, i);
    SevenCells(x.rows[i], row);
  }

  /**
   * The serving row as the model sees it after `predict_from_df`'s preparation:
   * the columns stay in order, a given lag passes through, an absent lag
   * becomes 0.0 (the batch is one row, so the mean has nothing to average),
   * and the other five cells are those `make_features` built.
   */
  lemma {:induction false} ServingRowPrepared(arg: Features.TimestampArg, lag1: Option<real>, lag2: Option<real>, festival: Option<int>)
    requires Features.MakeFeatures(arg, lag1, lag2, festival).Success?
    ensures var m := Features.MakeFeatures(arg, lag1, lag2, festival).value;
            && NoTimes(Column(m, "lag_1")) && NoTimes(Column(m, "lag_2"))
            && var p := ModelUtils.Prepared(m);
            && p.names == ModelUtils.FeatureCols && |p.rows| == 1
            && Column(p, "lag_1") == [Num(if lag1.Some? then lag1.value else 0.0)]
            && Column(p, "lag_2") == [Num(if lag2.Some? then lag2.value else 0.0)]
            && forall c :: c in ModelUtils.FeatureCols && !ModelUtils.IsLag(c) ==> Column(p, c) == Column(m, c)
  {
    ServingLagColumns(arg, lag1, lag2, festival);
    PreparedOneRow(Features.MakeFeatures(arg, lag1, lag2, festival).value, lag1, lag2);
  }

  /** Preparing a canonical one-row batch whose lags are the given optional values. */
  lemma {:induction false} PreparedOneRow(m: Table, lag1: Option<real>, lag2: Option<real>)
    requires WellFormed(m) && m.names == ModelUtils.FeatureCols && |m.rows| == 1
    requires Column(m, "lag_1") == [Features.LagCell(lag1)] && Column(m, "lag_2") == [Features.LagCell(lag2)]
    ensures NoTimes(Column(m, "lag_1")) && NoTimes(Column(m, "lag_2"))
    ensures var p := ModelUtils.Prepared(m);
            && p.names == ModelUtils.FeatureCols && |p.rows| == 1
            && Column(p, "lag_1") == [Num(if lag1.Some? then lag1.value else 0.0)]
            && Column(p, "lag_2") == [Num(if lag2.Some? then lag2.value else 0.0)]
            && forall c :: c in ModelUtils.FeatureCols && !ModelUtils.IsLag(c) ==> Column(p, c) == Column(m, c)
  {
    LagCellsNoTimes(lag1, lag2);
    PreparedCanonical(m);
    var p := ModelUtils.ImputedLags(m);
    ServingLagImputed(lag1);
    ServingLagImputed(lag2);
    assert Column(p, "lag_1") == ModelUtils.ImputeColumn(Column(m, "lag_1"));
    assert Column(p, "lag_2") == ModelUtils.ImputeColumn(Column(m, "lag_2"));
  }

  lemma LagCellsNoTimes(lag1: Option<real>, lag2: Option<real>)
    ensures NoTimes([Features.LagCell(lag1)]) && NoTimes([Features.LagCell(lag2)])
  {
  }

  /** A table already in canonical order goes straight to imputation. */
  lemma PreparedCanonical(m: Table)
    requires WellFormed(m) && m.names == ModelUtils.FeatureCols
    requires NoTimes(Column(m, "lag_1")) && NoTimes(Column(m, "lag_2"))
    ensures ModelUtils.Prepared(m) == ModelUtils.ImputedLags(m)
  {
    ModelUtils.EnsuredColumnsIdempotent(m);
  }

  /** The serving row's lag columns, read as one-cell columns. */
  lemma ServingLagColumns(arg: Features.TimestampArg, lag1: Option<real>, lag2: Option<real>, festival: Option<int>)
    requires Features.MakeFeatures(arg, lag1, lag2, festival).Success?
    ensures var m := Features.MakeFeatures(arg, lag1, lag2, festival).value;
            && Column(m, "lag_1") == [Features.LagCell(lag1)] && Column(m, "lag_2") == [Features.LagCell(lag2)]
  {
    var m := Features.MakeFeatures(arg, lag1, lag2, festival).value;
    assert IndexOf(m.names, "lag_1") == 0 && IndexOf(m.names, "lag_2") == 1;
  }

  /** One serving lag on its own: a value stays, an absent one imputes to 0.0. */
  lemma ServingLagImputed(lag: Option<real>)
    ensures ModelUtils.ImputeColumn([Features.LagCell(lag)]) == [Num(if lag.Some? then lag.value else 0.0)]
  {
    if lag.Some? {
      ModelUtils.ImputeColumnWithoutNulls([Features.LagCell(lag)]);
    } else {
      ModelUtils.ImputeSingleNull();
    }
  }
}
