/**
 * Serving-side feature building (app/features.py): from one timestamp, two
 * optional lag values and a festival flag to the one-row table the model reads.
 */
module Features {
  import opened Wrappers
  import opened Calendar
  import opened Tables

  /** The columns of the row `make_features` returns, in order. */
  const RowColumns: seq<string> := ["lag_1", "lag_2", "hour", "day_of_week", "month", "is_weekend", "is_festival"]

  /**
   * The `timestamp` argument. `AlreadyParsed` is a `pd.Timestamp`; a plain
   * `datetime.datetime` is not one, and the flexible date parser, which reads
   * only text, raises on it. Text is represented by what the parser reads
   * from it: `None` when the parser raises.
   */
  datatype TimestampArg =
    | NoTimestamp
    | AlreadyParsed(stamp: Timestamp)
    | PlainDateTime(value: Timestamp)
    | Text(parsed: Option<Timestamp>)

  /** The two `ValueError`s of `_parse_timestamp`. */
  datatype FeatureError = TimestampRequired | InvalidTimestampFormat

  /** `_parse_timestamp`: a missing timestamp and unreadable text are errors; a parsed timestamp passes through. */
  function ParseTimestamp(ts: TimestampArg): (r: Result<Timestamp, FeatureError>)
    ensures r == Failure(TimestampRequired) <==> ts == NoTimestamp
    ensures r == Failure(InvalidTimestampFormat) <==> ts == Text(None) || ts.PlainDateTime?
    ensures r.Success? <==> ts.AlreadyParsed? || (ts.Text? && ts.parsed.Some?)
    ensures r.Success? ==> ts == AlreadyParsed(r.value) || ts == Text(Some(r.value))
  {
    match ts
    case NoTimestamp => Failure(TimestampRequired)
    case AlreadyParsed(t) => Success(t)
    case PlainDateTime(_) => Failure(InvalidTimestampFormat)
    case Text(p) => if p.Some? then Success(p.value) else Failure(InvalidTimestampFormat)
  }

  /** The calendar columns of the serving row. */
  datatype CalendarFields = CalendarFields(hour: int, dayOfWeek: int, month: int, isWeekend: int)

  function CalendarOf(ts: Timestamp): (c: CalendarFields)
    ensures 0 <= c.hour <= 23 && 0 <= c.dayOfWeek <= 6 && 1 <= c.month <= 12
    ensures c.hour == ts.hour && c.month == ts.month && c.dayOfWeek == DayOfWeek(ts)
    ensures c.isWeekend == 0 || c.isWeekend == 1
    ensures c.isWeekend == 1 <==> c.dayOfWeek == 5 || c.dayOfWeek == 6
  {
    var dayOfWeek := DayOfWeek(ts);
    CalendarFields(ts.hour, dayOfWeek, ts.month, if dayOfWeek >= 5 then 1 else 0)
  }

  /** A present lag as a number, an absent one as null. */
  function LagCell(lag: Option<real>): (c: Cell)
    ensures c == Null <==> lag == None
    ensures lag.Some? ==> c == Num(lag.value)
  {
    if lag.Some? then Num(lag.value) else Null
  }

  /** `make_features`: one row with the seven model columns in their fixed order. */
  function MakeFeatures(timestamp: TimestampArg, lag1: Option<real>, lag2: Option<real>, isFestival: Option<int>): (r: Result<Table, FeatureError>)
    ensures r.Failure? <==> ParseTimestamp(timestamp).Failure?
    ensures r.Failure? ==> r.error == ParseTimestamp(timestamp).error
    ensures r.Success? ==> WellFormed(r.value) && r.value.names == RowColumns && |r.value.rows| == 1
    ensures r.Success? ==>
              var ts := ParseTimestamp(timestamp).value;
              var row := r.value.rows[0];
              && row[0] == LagCell(lag1)
              && row[1] == LagCell(lag2)
              && row[2] == Num(ts.hour as real)
              && row[3] == Num(DayOfWeek(ts) as real)
              && row[4] == Num(ts.month as real)
              && row[5] == Num(if DayOfWeek(ts) >= 5 then 1.0 else 0.0)
              && row[6] == Num(if isFestival.Some? then isFestival.value as real else 0.0)
  {
    match ParseTimestamp(timestamp)
    case Failure(e) => Failure(e)
    case Success(ts) =>
      var c := CalendarOf(ts);
      var festival := if isFestival.Some? then isFestival.value else 0;
      var row := [LagCell(lag1), LagCell(lag2), Num(c.hour as real), Num(c.dayOfWeek as real),
                  Num(c.month as real), Num(c.isWeekend as real), Num(festival as real)];
      Success(Table(RowColumns, [row]))
  }

  /** A missing timestamp is rejected whatever the other arguments are. */
  lemma MissingTimestampRejected(lag1: Option<real>, lag2: Option<real>, isFestival: Option<int>)
    ensures MakeFeatures(NoTimestamp, lag1, lag2, isFestival) == Failure(TimestampRequired)
  {
  }

  /** A plain `datetime.datetime` is not a `pd.Timestamp` and is not text: it is rejected as an invalid format. */
  lemma PlainDateTimeRejected(t: Timestamp, lag1: Option<real>, lag2: Option<real>, isFestival: Option<int>)
    ensures MakeFeatures(PlainDateTime(t), lag1, lag2, isFestival) == Failure(InvalidTimestampFormat)
  {
  }

  /** "2025-12-07T15:00:00" with lags 120 and 100 on a festival day. */
  lemma SundayAfternoonExample()
    ensures MakeFeatures(Text(Some(DateTime(2025, 12, 7, 15, 0, 0))), Some(120.0), Some(100.0), Some(1))
         == Success(Table(RowColumns, [[Num(120.0), Num(100.0), Num(15.0), Num(6.0), Num(12.0), Num(1.0), Num(1.0)]]))
  {
    December7th2025IsSunday();
  }
}
