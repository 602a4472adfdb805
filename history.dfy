/**
 * What scripts/check_drift.py and scripts/retrain.py both do to the stored
 * observations: drop rows whose timestamp did not parse, sort by time, and
 * derive the lag and calendar columns before `dropna`.
 */
module History {
  import opened Calendar
  import opened Tables

  /** Rows kept after loading, and how many were dropped for an unreadable timestamp. */
  datatype Loaded = Loaded(table: Table, numBad: nat)

  /** Column `j` of the row holds a parsed timestamp (not NaT). */
  predicate HasStamp(row: seq<Cell>, j: nat) {
    j < |row| && row[j].Time?
  }

  predicate AllStamped(rows: seq<seq<Cell>>, j: nat) {
    forall i :: 0 <= i < |rows| ==> HasStamp(rows[i], j)
  }

  /** `df["timestamp"].isna().sum()` */
  function InvalidCount(rows: seq<seq<Cell>>, j: nat): (n: nat)
    ensures n <= |rows|
    ensures n == 0 <==> AllStamped(rows, j)
  {
    if rows == [] then 0
    else
      assert AllStamped(rows, j) <==> HasStamp(rows[0], j) && AllStamped(rows[1..], j) by {
        if HasStamp(rows[0], j) && AllStamped(rows[1..], j) {
          forall i | 0 <= i < |rows| ensures HasStamp(rows[i], j) {
            if i > 0 { assert rows[i] == rows[1..][i - 1]; }
          }
        }
      }
      (if HasStamp(rows[0], j) then 0 else 1) + InvalidCount(rows[1..], j)
  }

  /** `df.dropna(subset=["timestamp"])`: the rows with a parsed timestamp, in their order. */
  function ValidRows(rows: seq<seq<Cell>>, j: nat): (r: seq<seq<Cell>>)
    ensures AllStamped(r, j)
    ensures |r| + InvalidCount(rows, j) == |rows|
    ensures forall row :: multiset(r)[row] == if HasStamp(row, j) then multiset(rows)[row] else 0
  {
    if rows == [] then []
    else
      assert rows == [rows[0]] + rows[1..];
      if HasStamp(rows[0], j) then [rows[0]] + ValidRows(rows[1..], j) else ValidRows(rows[1..], j)
  }

  function Key(row: seq<Cell>, j: nat): int
    requires HasStamp(row, j)
  {
    Instant(row[j].t)
  }

  /** Ascending by timestamp. */
  predicate SortedByTime(rows: seq<seq<Cell>>, j: nat)
    requires AllStamped(rows, j)
  {
    forall a, b :: 0 <= a < b < |rows| ==> Key(rows[a], j) <= Key(rows[b], j)
  }

  /** Every row of `rows` is stamped no earlier than `k`. */
  predicate AllFrom(rows: seq<seq<Cell>>, j: nat, k: int) {
    forall x :: x in rows ==> HasStamp(x, j) && k <= Key(x, j)
  }

  lemma {:induction false} HeadIsLeast(sorted: seq<seq<Cell>>, j: nat)
    requires |sorted| > 0 && AllStamped(sorted, j) && SortedByTime(sorted, j)
    ensures AllFrom(sorted[1..], j, Key(sorted[0], j))
  {
    forall x | x in sorted[1..] ensures HasStamp(x, j) && Key(sorted[0], j) <= Key(x, j) {
      var m :| 0 <= m < |sorted[1..]| && sorted[1..][m] == x;
      assert sorted[m + 1] == x;
    }
  }

  lemma {:induction false} ConsSorted(x: seq<Cell>, rest: seq<seq<Cell>>, j: nat)
    requires HasStamp(x, j) && AllStamped(rest, j) && SortedByTime(rest, j)
    requires AllFrom(rest, j, Key(x, j))
    ensures AllStamped([x] + rest, j) && SortedByTime([x] + rest, j)
  {
    var r := [x] + rest;
    forall a, b | 0 <= a < b < |r| ensures Key(r[a], j) <= Key(r[b], j) {
      assert r[b] == rest[b - 1];
      if a > 0 {
        assert r[a] == rest[a - 1];
      } else {
        assert rest[b - 1] in rest;
      }
    }
  }

  function Insert(row: seq<Cell>, sorted: seq<seq<Cell>>, j: nat): (r: seq<seq<Cell>>)
    requires HasStamp(row, j) && AllStamped(sorted, j) && SortedByTime(sorted, j)
    ensures AllStamped(r, j) && SortedByTime(r, j)
    ensures multiset(r) == multiset(sorted) + multiset{row}
  {
    if sorted == [] then [row]
    else if Key(row, j) <= Key(sorted[0], j) then
      HeadIsLeast(sorted, j);
      assert sorted == [sorted[0]] + sorted[1..];
      ConsSorted(row, sorted, j);
      [row] + sorted
    else
      TailSorted(sorted, j);
      var rest := Insert(row, sorted[1..], j);
      InsertAfterHead(row, sorted, rest, j);
      [sorted[0]] + rest
  }

  lemma {:induction false} TailSorted(sorted: seq<seq<Cell>>, j: nat)
    requires |sorted| > 0 && AllStamped(sorted, j) && SortedByTime(sorted, j)
    ensures AllStamped(sorted[1..], j) && SortedByTime(sorted[1..], j)
  {
    forall a, b | 0 <= a < b < |sorted[1..]| ensures Key(sorted[1..][a], j) <= Key(sorted[1..][b], j) {
      assert sorted[1..][a] == sorted[a + 1] && sorted[1..][b] == sorted[b + 1];
    }
  }

  /** The head stays in front when the row goes into the tail: it is no later than either. */
  lemma {:induction false} InsertAfterHead(row: seq<Cell>, sorted: seq<seq<Cell>>, rest: seq<seq<Cell>>, j: nat)
    requires HasStamp(row, j) && |sorted| > 0 && AllStamped(sorted, j) && SortedByTime(sorted, j)
    requires Key(sorted[0], j) < Key(row, j)
    requires AllStamped(rest, j) && SortedByTime(rest, j)
    requires multiset(rest) == multiset(sorted[1..]) + multiset{row}
    ensures AllStamped([sorted[0]] + rest, j) && SortedByTime([sorted[0]] + rest, j)
    ensures multiset([sorted[0]] + rest) == multiset(sorted) + multiset{row}
  {
    HeadIsLeast(sorted, j);
    RestFrom(row, sorted[1..], rest, j, Key(sorted[0], j));
    ConsSorted(sorted[0], rest, j);
    assert sorted == [sorted[0]] + sorted[1..];
    assert multiset([sorted[0]] + rest) == multiset{sorted[0]} + multiset(rest);
    assert multiset(sorted) == multiset{sorted[0]} + multiset(sorted[1..]);
  }

  /** A bound shared by `row` and by every row of `tail` holds for every row of their merge. */
  lemma {:induction false} RestFrom(row: seq<Cell>, tail: seq<seq<Cell>>, rest: seq<seq<Cell>>, j: nat, k: int)
    requires HasStamp(row, j) && k <= Key(row, j) && AllFrom(tail, j, k)
    requires multiset(rest) == multiset(tail) + multiset{row}
    ensures AllFrom(rest, j, k)
  {
    forall x | x in rest ensures HasStamp(x, j) && k <= Key(x, j) {
      assert x in multiset(rest);
      if x != row {
        assert x in multiset(tail);
      }
    }
  }

  /**
   * `sort_values("timestamp")`: ascending and a permutation. pandas' default
   * sort is not stable, so the order among equal timestamps is not specified;
   * this insertion sort is one of the orders it may produce.
   */
  function SortByTime(rows: seq<seq<Cell>>, j: nat): (r: seq<seq<Cell>>)
    requires AllStamped(rows, j)
    ensures AllStamped(r, j) && SortedByTime(r, j)
    ensures multiset(r) == multiset(rows)
  {
    if rows == [] then []
    else
      assert rows == [rows[0]] + rows[1..];
      Insert(rows[0], SortByTime(rows[1..], j), j)
  }

  /** Sorting by the full timestamp also puts the calendar days in order: a later row is never on an earlier day. */
  lemma SortedDaysAscend(rows: seq<seq<Cell>>, j: nat, a: nat, b: nat)
    requires AllStamped(rows, j) && SortedByTime(rows, j) && a < b < |rows|
    ensures DayNumber(rows[a][j].t) <= DayNumber(rows[b][j].t)
  {
  }

  function StampIndex(t: Table): nat
    requires WellFormed(t) && "timestamp" in t.names
  {
    IndexOf(t.names, "timestamp")
  }

  /**
   * The filter, count and sort both loaders run: exactly the rows with an
   * unreadable timestamp are dropped and counted, and the rest come back
   * ascending by timestamp.
   */
  function CleanSorted(t: Table): (r: Loaded)
    requires WellFormed(t) && "timestamp" in t.names
    ensures WellFormed(r.table) && r.table.names == t.names
    ensures AllStamped(r.table.rows, StampIndex(t)) && SortedByTime(r.table.rows, StampIndex(t))
    ensures r.numBad == InvalidCount(t.rows, StampIndex(t))
    ensures |r.table.rows| + r.numBad == |t.rows|
    ensures forall row :: multiset(r.table.rows)[row] == if HasStamp(row, StampIndex(t)) then multiset(t.rows)[row] else 0
  {
    var j := StampIndex(t);
    var valid := ValidRows(t.rows, j);
    var sorted := SortByTime(valid, j);
    var r := Loaded(Table(t.names, sorted), InvalidCount(t.rows, j));
    forall i | 0 <= i < |sorted| ensures |sorted[i]| == |t.names| {
      assert sorted[i] in multiset(sorted);
      assert multiset(t.rows)[sorted[i]] > 0;
    }
    r
  }

  /** `shift(k)`: each cell moves `k` rows down; the first `k` become null. */
  function Shift(cells: seq<Cell>, k: nat): (r: seq<Cell>)
    ensures |r| == |cells|
    ensures forall i :: 0 <= i < |r| ==> r[i] == if i >= k then cells[i - k] else Null
  {
    seq(|cells|, i requires 0 <= i < |cells| => if i >= k then cells[i - k] else Null)
  }

  /** `.dt.hour` of one cell: NaT gives NaN. */
  function HourOf(c: Cell): Cell {
    if c.Time? then Num(c.t.hour as real) else Null
  }

  /** `.dt.dayofweek` of one cell. */
  function DayOfWeekOf(c: Cell): Cell {
    if c.Time? then Num(DayOfWeek(c.t) as real) else Null
  }

  /** `.dt.month` of one cell. */
  function MonthOf(c: Cell): Cell {
    if c.Time? then Num(c.t.month as real) else Null
  }

  /** `day_of_week >= 5` as 0 or 1: a comparison with NaN is false. */
  function WeekendOf(dow: Cell): Cell {
    if dow.Num? && dow.x >= 5.0 then Num(1.0) else Num(0.0)
  }

  function HourCells(ts: seq<Cell>): (r: seq<Cell>)
    ensures |r| == |ts| && forall i :: 0 <= i < |ts| ==> r[i] == HourOf(ts[i])
  {
    seq(|ts|, i requires 0 <= i < |ts| => HourOf(ts[i]))
  }

  function DayOfWeekCells(ts: seq<Cell>): (r: seq<Cell>)
    ensures |r| == |ts| && forall i :: 0 <= i < |ts| ==> r[i] == DayOfWeekOf(ts[i])
  {
    seq(|ts|, i requires 0 <= i < |ts| => DayOfWeekOf(ts[i]))
  }

  function MonthCells(ts: seq<Cell>): (r: seq<Cell>)
    ensures |r| == |ts| && forall i :: 0 <= i < |ts| ==> r[i] == MonthOf(ts[i])
  {
    seq(|ts|, i requires 0 <= i < |ts| => MonthOf(ts[i]))
  }

  function WeekendCells(dow: seq<Cell>): (r: seq<Cell>)
    ensures |r| == |dow| && forall i :: 0 <= i < |dow| ==> r[i] == WeekendOf(dow[i])
  {
    seq(|dow|, i requires 0 <= i < |dow| => WeekendOf(dow[i]))
  }

  /** The six names the derivation assigns. */
  predicate IsDerivedName(c: string) {
    c == "lag_1" || c == "lag_2" || IsCalendarName(c)
  }

  /** `is_festival` comes from the stored data; the derivation never assigns it. */
  lemma FestivalNotDerived()
    ensures !IsDerivedName("is_festival")
  {
  }

  predicate Derivable(t: Table) {
    WellFormed(t) && "page_views" in t.names && "timestamp" in t.names
  }

  /** `df["lag_1"] = df["page_views"].shift(1)` and `df["lag_2"] = df["page_views"].shift(2)` */
  function WithLags(t: Table): (r: Table)
    requires Derivable(t)
    ensures Derivable(r) && |r.rows| == |t.rows|
    ensures forall c :: c in r.names <==> c in t.names || c == "lag_1" || c == "lag_2"
    ensures Column(r, "lag_1") == Shift(Column(t, "page_views"), 1)
    ensures Column(r, "lag_2") == Shift(Column(t, "page_views"), 2)
    ensures forall c :: c in t.names && c != "lag_1" && c != "lag_2" ==> Column(r, c) == Column(t, c)
  {
    var pv := Column(t, "page_views");
    var t1 := Assign(t, "lag_1", Shift(pv, 1));
    assert Column(t1, "page_views") == pv;
    Assign(t1, "lag_2", Shift(pv, 2))
  }

  predicate IsCalendarName(c: string) {
    c == "hour" || c == "day_of_week" || c == "month" || c == "is_weekend"
  }

  /** The `hour`, `day_of_week`, `month` and `is_weekend` assignments. */
  function WithCalendar(t: Table): (r: Table)
    requires Derivable(t)
    ensures Derivable(r) && |r.rows| == |t.rows|
    ensures forall c :: c in t.names ==> c in r.names
    ensures forall c :: c in r.names ==> c in t.names || IsCalendarName(c)
    ensures "hour" in r.names && "day_of_week" in r.names && "month" in r.names && "is_weekend" in r.names
    ensures Column(r, "hour") == HourCells(Column(t, "timestamp"))
    ensures Column(r, "day_of_week") == DayOfWeekCells(Column(t, "timestamp"))
    ensures Column(r, "month") == MonthCells(Column(t, "timestamp"))
    ensures Column(r, "is_weekend") == WeekendCells(DayOfWeekCells(Column(t, "timestamp")))
    ensures forall c :: c in t.names && !IsCalendarName(c) ==> Column(r, c) == Column(t, c)
  {
    var ts := Column(t, "timestamp");
    var t3 := Assign(t, "hour", HourCells(ts));
    assert Column(t3, "timestamp") == ts;
    var t4 := Assign(t3, "day_of_week", DayOfWeekCells(ts));
    assert Column(t4, "timestamp") == ts;
    var t5 := Assign(t4, "month", MonthCells(ts));
    assert Column(t5, "day_of_week") == DayOfWeekCells(ts);
    var r := Assign(t5, "is_weekend", WeekendCells(DayOfWeekCells(ts)));
    assert Column(r, "hour") == Column(t5, "hour") == Column(t4, "hour") == HourCells(ts);
    assert Column(r, "day_of_week") == DayOfWeekCells(ts);
    assert Column(r, "month") == MonthCells(ts);
    r
  }

  /**
   * The six column assignments of `build_features` / `build_training_features`,
   * before `dropna`: the six derived names are added and no other name is.
   * What each column then holds is stated by `DerivedLags`, `DerivedCalendar`
   * and `DerivedKeepsOthers`.
   */
  function DerivedColumns(t: Table): (r: Table)
    requires Derivable(t)
    ensures Derivable(r) && |r.rows| == |t.rows|
    ensures forall c :: c in t.names ==> c in r.names
    ensures forall c :: c in r.names ==> c in t.names || IsDerivedName(c)
    ensures "lag_1" in r.names && "lag_2" in r.names && "hour" in r.names
    ensures "day_of_week" in r.names && "month" in r.names && "is_weekend" in r.names
  {
    WithCalendar(WithLags(t))
  }

  /** The lags are `page_views` shifted down by one and by two rows, in row order. */
  lemma DerivedLags(t: Table)
    requires Derivable(t)
    ensures Column(DerivedColumns(t), "lag_1") == Shift(Column(t, "page_views"), 1)
    ensures Column(DerivedColumns(t), "lag_2") == Shift(Column(t, "page_views"), 2)
  {
    var lagged := WithLags(t);
    assert !IsCalendarName("lag_1") && !IsCalendarName("lag_2");
    assert Column(DerivedColumns(t), "lag_1") == Column(lagged, "lag_1");
    assert Column(DerivedColumns(t), "lag_2") == Column(lagged, "lag_2");
  }

  /** The calendar columns come from each row's own timestamp. */
  lemma DerivedCalendar(t: Table)
    requires Derivable(t)
    ensures Column(DerivedColumns(t), "hour") == HourCells(Column(t, "timestamp"))
    ensures Column(DerivedColumns(t), "day_of_week") == DayOfWeekCells(Column(t, "timestamp"))
    ensures Column(DerivedColumns(t), "month") == MonthCells(Column(t, "timestamp"))
    ensures Column(DerivedColumns(t), "is_weekend") == WeekendCells(DayOfWeekCells(Column(t, "timestamp")))
  {
    assert Column(WithLags(t), "timestamp") == Column(t, "timestamp");
  }

  /** Every column that is not derived, `page_views` and `timestamp` included, is left as it was. */
  lemma DerivedKeepsOthers(t: Table)
    requires Derivable(t)
    ensures forall c :: c in t.names && !IsDerivedName(c) ==> Column(DerivedColumns(t), c) == Column(t, c)
  {
    var lagged := WithLags(t);
    forall c | c in t.names && !IsDerivedName(c) ensures Column(DerivedColumns(t), c) == Column(t, c) {
      assert c in lagged.names && Column(lagged, c) == Column(t, c);
    }
  }

  /**
   * What the six assignments promise, as a relation between the table before
   * (`t`) and after (`d`); `DerivedColumns` satisfies it (`DerivedColumnsSpec`).
   */
  predicate DerivedFrom(d: Table, t: Table)
    requires Derivable(t)
  {
    && Derivable(d) && |d.rows| == |t.rows|
    && (forall c :: c in t.names ==> c in d.names)
    && (forall c :: c in d.names ==> c in t.names || IsDerivedName(c))
    && "lag_1" in d.names && "lag_2" in d.names && "hour" in d.names
    && "day_of_week" in d.names && "month" in d.names && "is_weekend" in d.names
    && Column(d, "lag_1") == Shift(Column(t, "page_views"), 1)
    && Column(d, "lag_2") == Shift(Column(t, "page_views"), 2)
    && Column(d, "hour") == HourCells(Column(t, "timestamp"))
    && Column(d, "day_of_week") == DayOfWeekCells(Column(t, "timestamp"))
    && Column(d, "month") == MonthCells(Column(t, "timestamp"))
    && Column(d, "is_weekend") == WeekendCells(DayOfWeekCells(Column(t, "timestamp")))
    && (forall c :: c in t.names && !IsDerivedName(c) ==> Column(d, c) == Column(t, c))
  }

  lemma DerivedColumnsSpec(t: Table)
    requires Derivable(t)
    ensures DerivedFrom(DerivedColumns(t), t)
  {
    DerivedLags(t);
    DerivedCalendar(t);
    DerivedKeepsOthers(t);
  }

  /** No cell of the table is null. */
  predicate NoNulls(t: Table) {
    forall i :: 0 <= i < |t.rows| ==> Null !in t.rows[i]
  }

  /** Row 0 has no `lag_1` and rows 0 and 1 have no `lag_2`, so both are null there. */
  lemma {:induction false} FirstTwoHaveNull(t: Table, d: Table, i: nat)
    requires Derivable(t) && DerivedFrom(d, t) && i < 2 && i < |t.rows|
    ensures Null in d.rows[i]
  {
    assert Column(d, "lag_2")[i] == Null;
  }

  /** A row has no null when no column has a null in it. */
  lemma {:induction false} RowWithoutNulls(d: Table, i: nat)
    requires WellFormed(d) && i < |d.rows|
    requires forall c :: c in d.names ==> Column(d, c)[i] != Null
    ensures Null !in d.rows[i]
  {
    forall k | 0 <= k < |d.names| ensures d.rows[i][k] != Null {
      IndexOfUnique(d.names, k);
      assert Column(d, d.names[k])[i] != Null;
    }
  }

  /** A row with a parsed timestamp gets a value in each calendar column. */
  lemma {:induction false} CalendarCellPresent(t: Table, d: Table, i: nat, c: string)
    requires Derivable(t) && AllStamped(t.rows, StampIndex(t))
    requires DerivedFrom(d, t) && i < |t.rows| && IsCalendarName(c)
    ensures Column(d, c)[i] != Null
  {
    var ts := Column(t, "timestamp");
    assert ts[i].Time?;
    if c == "hour" {
      assert Column(d, c)[i] == HourCells(ts)[i];
    } else if c == "day_of_week" {
      assert Column(d, c)[i] == DayOfWeekCells(ts)[i];
    } else if c == "month" {
      assert Column(d, c)[i] == MonthCells(ts)[i];
    } else {
      assert Column(d, c)[i] == WeekendCells(DayOfWeekCells(ts))[i];
    }
  }

  /** In row `i` >= 2 of a table without nulls, every derived column holds a value. */
  lemma {:induction false} LaterCellPresent(t: Table, d: Table, i: nat, c: string)
    requires Derivable(t) && NoNulls(t) && AllStamped(t.rows, StampIndex(t))
    requires DerivedFrom(d, t) && 2 <= i < |t.rows| && c in d.names
    ensures Column(d, c)[i] != Null
  {
    if c == "lag_1" || c == "lag_2" {
      LagCellsPresent(t, d, i);
    } else if IsCalendarName(c) {
      CalendarCellPresent(t, d, i, c);
    } else {
      KeptCellPresent(t, d, i, c);
    }
  }

  /** Both lags of row `i` >= 2 are `page_views` of earlier rows, which are not null. */
  lemma {:induction false} LagCellsPresent(t: Table, d: Table, i: nat)
    requires Derivable(t) && NoNulls(t) && DerivedFrom(d, t) && 2 <= i < |t.rows|
    ensures Column(d, "lag_1")[i] != Null && Column(d, "lag_2")[i] != Null
  {
    assert Null !in t.rows[i - 1] && Null !in t.rows[i - 2];
    assert Column(t, "page_views")[i - 1] != Null && Column(t, "page_views")[i - 2] != Null;
  }

  /** A column the derivation does not assign keeps the input's cell, which is not null. */
  lemma {:induction false} KeptCellPresent(t: Table, d: Table, i: nat, c: string)
    requires Derivable(t) && NoNulls(t) && DerivedFrom(d, t) && i < |t.rows|
    requires c in d.names && !IsDerivedName(c)
    ensures Column(d, c)[i] != Null
  {
    assert c in t.names;
    assert Null !in t.rows[i];
    assert Column(t, c)[i] == t.rows[i][IndexOf(t.names, c)];
  }

  /** From the third row on, a table without nulls derives rows without nulls. */
  lemma {:induction false} LaterRowsComplete(t: Table, d: Table, i: nat)
    requires Derivable(t) && NoNulls(t) && AllStamped(t.rows, StampIndex(t))
    requires DerivedFrom(d, t) && 2 <= i < |t.rows|
    ensures Null !in d.rows[i]
  {
    forall c | c in d.names ensures Column(d, c)[i] != Null {
      LaterCellPresent(t, d, i, c);
    }
    RowWithoutNulls(d, i);
  }

  /** `dropna` over rows whose first `m` each hold a null keeps only rows from `m` on. */
  lemma {:induction false} LeadingNullRowsDropped(rows: seq<seq<Cell>>, m: nat)
    requires forall i :: 0 <= i < m && i < |rows| ==> Null in rows[i]
    ensures forall row :: row in RowsWithoutNulls(rows) ==> exists i :: m <= i < |rows| && rows[i] == row
  {
    forall row | row in RowsWithoutNulls(rows) ensures exists i :: m <= i < |rows| && rows[i] == row {
      var i :| 0 <= i < |rows| && rows[i] == row;
    }
  }

  /** `dropna` over two rows with a null followed by rows without one keeps exactly the latter. */
  lemma {:induction false} TwoNullRowsDropped(rows: seq<seq<Cell>>)
    requires |rows| >= 2 && Null in rows[0] && Null in rows[1]
    requires forall i :: 2 <= i < |rows| ==> Null !in rows[i]
    ensures RowsWithoutNulls(rows) == rows[2..]
  {
    assert rows[1..][1..] == rows[2..];
    assert RowsWithoutNulls(rows) == RowsWithoutNulls(rows[1..]);
    assert RowsWithoutNulls(rows[1..]) == RowsWithoutNulls(rows[2..]);
    assert forall i :: 0 <= i < |rows[2..]| ==> Null !in rows[2..][i];
  }

  /** `dropna` never keeps one of the first two derived rows: only rows 2 onwards can survive. */
  lemma {:induction false} OnlyLaterRowsSurvive(t: Table, d: Table)
    requires Derivable(t) && DerivedFrom(d, t)
    ensures forall row :: row in DropNA(d).rows ==> exists i :: 2 <= i < |d.rows| && d.rows[i] == row
  {
    forall i | 0 <= i < 2 && i < |d.rows| ensures Null in d.rows[i] {
      FirstTwoHaveNull(t, d, i);
    }
    LeadingNullRowsDropped(d.rows, 2);
  }

  /** n rows without nulls yield exactly their derived rows 2 .. n-1: n - 2 rows, or none when n < 2. */
  lemma {:induction false} DropsFirstTwo(t: Table, d: Table)
    requires Derivable(t) && NoNulls(t) && AllStamped(t.rows, StampIndex(t)) && DerivedFrom(d, t)
    ensures DropNA(d).rows == if |t.rows| >= 2 then d.rows[2..] else []
    ensures |DropNA(d).rows| == if |t.rows| >= 2 then |t.rows| - 2 else 0
  {
    if |d.rows| == 0 {
    } else if |d.rows| == 1 {
      FirstTwoHaveNull(t, d, 0);
      assert d.rows[1..] == [];
    } else {
      FirstTwoHaveNull(t, d, 0);
      FirstTwoHaveNull(t, d, 1);
      forall i | 2 <= i < |d.rows| ensures Null !in d.rows[i] {
        LaterRowsComplete(t, d, i);
      }
      TwoNullRowsDropped(d.rows);
    }
  }

  /**
   * What `read_csv` produces: only the `timestamp` column can hold a parsed
   * timestamp; every other cell is a number or null.
   */
  predicate CsvShaped(t: Table) {
    && WellFormed(t)
    && forall row: seq<Cell>, k: int :: row in t.rows && 0 <= k < |row| && k < |t.names| && t.names[k] != "timestamp" ==> !row[k].Time?
  }

  /** In a CSV-shaped table, every column but `timestamp` holds numbers and nulls. */
  lemma {:induction false} CsvColumn(t: Table, c: string)
    requires CsvShaped(t) && c in t.names && c != "timestamp"
    ensures NoTimes(Column(t, c))
  {
    forall i | 0 <= i < |t.rows| ensures !Column(t, c)[i].Time? {
      assert t.rows[i] in t.rows;
    }
  }

  /** A table whose columns other than `timestamp` hold numbers and nulls is CSV-shaped. */
  lemma {:induction false} CsvFromColumns(t: Table)
    requires WellFormed(t)
    requires forall c :: c in t.names && c != "timestamp" ==> NoTimes(Column(t, c))
    ensures CsvShaped(t)
  {
    forall row: seq<Cell>, k: int | row in t.rows && 0 <= k < |row| && k < |t.names| && t.names[k] != "timestamp"
      ensures !row[k].Time?
    {
      var i :| 0 <= i < |t.rows| && t.rows[i] == row;
      IndexOfUnique(t.names, k);
      assert Column(t, t.names[k])[i] == row[k];
    }
  }

  /** Keeping some of the rows of a CSV-shaped table keeps it CSV-shaped. */
  lemma {:induction false} CsvSubRows(t: Table, rows: seq<seq<Cell>>)
    requires CsvShaped(t) && forall row :: row in rows ==> row in t.rows
    requires forall i :: 0 <= i < |rows| ==> |rows[i]| == |t.names|
    ensures CsvShaped(Table(t.names, rows))
  {
  }

  /** Loading keeps the table CSV-shaped. */
  lemma {:induction false} CsvCleanSorted(t: Table)
    requires CsvShaped(t) && "timestamp" in t.names
    ensures CsvShaped(CleanSorted(t).table)
  {
    var r := CleanSorted(t).table;
    forall row | row in r.rows ensures row in t.rows {
      assert multiset(r.rows)[row] > 0;
    }
    CsvSubRows(t, r.rows);
  }

  /** The derived columns hold numbers and nulls only, so derivation keeps a table CSV-shaped. */
  lemma {:induction false} CsvDerived(t: Table, d: Table)
    requires Derivable(t) && CsvShaped(t) && DerivedFrom(d, t)
    ensures CsvShaped(d)
  {
    forall c | c in d.names && c != "timestamp" ensures NoTimes(Column(d, c)) {
      DerivedNoTimes(t, d, c);
    }
    CsvFromColumns(d);
  }

  lemma {:induction false} DerivedNoTimes(t: Table, d: Table, c: string)
    requires Derivable(t) && CsvShaped(t) && DerivedFrom(d, t)
    requires c in d.names && c != "timestamp"
    ensures NoTimes(Column(d, c))
  {
    var ts := Column(t, "timestamp");
    CalendarNoTimes(ts);
    if c == "lag_1" || c == "lag_2" {
      CsvColumn(t, "page_views");
    } else if IsCalendarName(c) {
    } else {
      CsvColumn(t, c);
    }
  }

  /** Calendar cells are numbers or nulls, never timestamps. */
  lemma CalendarNoTimes(ts: seq<Cell>)
    ensures NoTimes(HourCells(ts)) && NoTimes(DayOfWeekCells(ts)) && NoTimes(MonthCells(ts))
    ensures NoTimes(WeekendCells(DayOfWeekCells(ts)))
  {
  }

  /**
   * After `dropna` on a CSV-shaped table, every cell outside `timestamp` is a
   * number: no nulls remain and no other column could hold a timestamp.
   */
  lemma {:induction false} NumericAfterDropNA(t: Table, c: string)
    requires CsvShaped(t) && c in t.names && c != "timestamp"
    ensures forall i :: 0 <= i < |DropNA(t).rows| ==> Column(DropNA(t), c)[i].Num?
  {
    var r := DropNA(t);
    CsvSubRows(t, r.rows);
    CsvColumn(r, c);
    forall i | 0 <= i < |r.rows| ensures Column(r, c)[i].Num? {
      assert Null !in r.rows[i];
      assert Column(r, c)[i] == r.rows[i][IndexOf(r.names, c)];
    }
  }

  /** The last rows of a sorted table are still sorted. */
  lemma {:induction false} SortedSuffix(rows: seq<seq<Cell>>, j: nat, m: nat)
    requires AllStamped(rows, j) && SortedByTime(rows, j) && m <= |rows|
    ensures AllStamped(rows[m..], j) && SortedByTime(rows[m..], j)
  {
    forall a, b | 0 <= a < b < |rows[m..]| ensures Key(rows[m..][a], j) <= Key(rows[m..][b], j) {
      assert rows[m..][a] == rows[a + m] && rows[m..][b] == rows[b + m];
    }
  }

  /** Dropping the first `m` rows shifts every column up by `m`. */
  lemma {:induction false} ColumnOfSuffix(d: Table, m: nat, c: string)
    requires WellFormed(d) && m <= |d.rows| && c in d.names
    ensures WellFormed(Table(d.names, d.rows[m..]))
    ensures forall i :: 0 <= i < |d.rows| - m ==> Column(Table(d.names, d.rows[m..]), c)[i] == Column(d, c)[i + m]
  {
    var r := Table(d.names, d.rows[m..]);
    assert forall i :: 0 <= i < |r.rows| ==> r.rows[i] == d.rows[i + m];
  }

  /**
   * Of n >= 2 rows without nulls, the surviving row `i` is row `i + 2` of the
   * input, with the `page_views` of input rows `i + 1` and `i` as its lags: the
   * lags never reach outside the rows given.
   */
  lemma {:induction false} SurvivorLags(t: Table, d: Table)
    requires Derivable(t) && NoNulls(t) && AllStamped(t.rows, StampIndex(t)) && DerivedFrom(d, t)
    requires |t.rows| >= 2
    ensures |DropNA(d).rows| == |t.rows| - 2
    ensures forall i :: 0 <= i < |t.rows| - 2 ==>
              && Column(DropNA(d), "lag_1")[i] == Column(t, "page_views")[i + 1]
              && Column(DropNA(d), "lag_2")[i] == Column(t, "page_views")[i]
              && Column(DropNA(d), "page_views")[i] == Column(t, "page_views")[i + 2]
  {
    DropsFirstTwo(t, d);
    assert DropNA(d) == Table(d.names, d.rows[2..]);
    PageViewsKept(t, d);
    ShiftedSurvivors(d, Column(t, "page_views"));
  }

  /** `page_views` is not one of the assigned columns, so the derivation leaves it as it was. */
  lemma PageViewsKept(t: Table, d: Table)
    requires Derivable(t) && DerivedFrom(d, t)
    ensures Column(d, "page_views") == Column(t, "page_views")
  {
    assert !IsDerivedName("page_views");
  }

  /** Rows 2 onwards of a table whose lags are shifts of `pv`, with the lags read back against `pv`. */
  lemma {:induction false} ShiftedSurvivors(d: Table, pv: seq<Cell>)
    requires WellFormed(d) && |d.rows| >= 2
    requires "lag_1" in d.names && "lag_2" in d.names && "page_views" in d.names
    requires Column(d, "lag_1") == Shift(pv, 1) && Column(d, "lag_2") == Shift(pv, 2) && Column(d, "page_views") == pv
    ensures WellFormed(Table(d.names, d.rows[2..]))
    ensures forall i :: 0 <= i < |d.rows| - 2 ==>
              && Column(Table(d.names, d.rows[2..]), "lag_1")[i] == pv[i + 1]
              && Column(Table(d.names, d.rows[2..]), "lag_2")[i] == pv[i]
              && Column(Table(d.names, d.rows[2..]), "page_views")[i] == pv[i + 2]
  {
    var r := Table(d.names, d.rows[2..]);
    ColumnOfSuffix(d, 2, "lag_1");
    ColumnOfSuffix(d, 2, "lag_2");
    ColumnOfSuffix(d, 2, "page_views");
    forall i | 0 <= i < |d.rows| - 2
      ensures Column(r, "lag_1")[i] == pv[i + 1] && Column(r, "lag_2")[i] == pv[i]
      ensures Column(r, "page_views")[i] == pv[i + 2]
    {
      assert Column(r, "lag_1")[i] == Shift(pv, 1)[i + 2];
      assert Column(r, "lag_2")[i] == Shift(pv, 2)[i + 2];
    }
  }

  /** Of n >= 2 rows without nulls, a column that is not derived reads, in surviving row `i`, input row `i + 2`. */
  lemma {:induction false} SurvivorKeeps(t: Table, d: Table, c: string)
    requires Derivable(t) && NoNulls(t) && AllStamped(t.rows, StampIndex(t)) && DerivedFrom(d, t)
    requires |t.rows| >= 2 && c in t.names && !IsDerivedName(c)
    ensures c in DropNA(d).names && |DropNA(d).rows| == |t.rows| - 2
    ensures forall i :: 0 <= i < |t.rows| - 2 ==> Column(DropNA(d), c)[i] == Column(t, c)[i + 2]
  {
    DropsFirstTwo(t, d);
    assert DropNA(d) == Table(d.names, d.rows[2..]);
    assert Column(d, c) == Column(t, c);
    ColumnOfSuffix(d, 2, c);
  }
}
