/**
 * The CSV feeder's windows over the loaded rows: the latest rows that
 * still leave a prediction horizon behind them, the tail, the rows up to a
 * time, and the coverage check.
 */
module CsvFeeder {
  import opened Wrappers
  import opened CsvData
  import PySlice

  datatype Feeder = Feeder(data: seq<Row>, horizonPeriods: int)

  /** A config as read with `.get`; `None` is a missing key. */
  datatype Config = Config(csvFile: Option<string>, horizonPeriods: Option<int>)

  const DefaultHorizonPeriods := 48

  /** The constructor: a blank `csv_file` is a ValueError, a missing file a FileNotFoundError; the horizon defaults to 48. */
  function Init(config: Config, load: Loader): (r: Result<Feeder, InitError>)
    ensures Blank(config.csvFile) ==> r == Failure(ValueError("csv_file is required"))
    ensures !Blank(config.csvFile) && load(config.csvFile.value).None? ==>
      r == Failure(FileNotFoundError("CSV file not found: " + config.csvFile.value))
    ensures r.Success? <==> !Blank(config.csvFile) && load(config.csvFile.value).Some?
    ensures r.Success? ==>
      r.value.data == load(config.csvFile.value).value && r.value.horizonPeriods == config.horizonPeriods.GetOr(48)
  {
    match LoadCsv(config.csvFile, load)
    case Failure(e) => Failure(e)
    case Success(rows) => Success(Feeder(rows, config.horizonPeriods.GetOr(DefaultHorizonPeriods)))
  }

  /** Where the usable rows end: `horizon_periods` rows before the end, or the end when that leaves none. */
  function UsableEnd(f: Feeder): (u: int)
    ensures u > 0 || |f.data| == 0
    ensures 0 < |f.data| - f.horizonPeriods ==> u == |f.data| - f.horizonPeriods
    ensures |f.data| - f.horizonPeriods <= 0 ==> u == |f.data|
  {
    var u := |f.data| - f.horizonPeriods;
    if u <= 0 then |f.data| else u
  }

  function Max(a: int, b: int): int {
    if a < b then b else a
  }

  /**
   * `get_latest_data`: at most `periods` rows ending where the usable rows
   * end. With a non-negative horizon and periods the window is contiguous,
   * ends at the usable end and holds `min(periods, usable end)` rows.
   */
  function GetLatestData(f: Feeder, periods: int := 24): (r: seq<Row>)
    ensures |r| <= Max(periods, 0)
    ensures f.horizonPeriods >= 0 && periods >= 0 ==>
      var u := UsableEnd(f);
      && u <= |f.data|
      && |r| == (if periods <= u then periods else u)
      && r == f.data[u - |r|..u]
    ensures 0 <= f.horizonPeriods < |f.data| && periods >= 0 ==>
      forall i :: 0 <= i < |r| ==> r[i] == f.data[UsableEnd(f) - |r| + i] && UsableEnd(f) - |r| + i < |f.data| - f.horizonPeriods
  {
    var u := UsableEnd(f);
    var start := Max(0, u - periods);
    PySlice.Slice(f.data, start, u)
  }

  /**
   * `get_data`: every row when `periods` is missing or at least the row
   * count; otherwise `iloc[-periods:]`, which is the last `periods` rows for
   * a positive count, every row for 0, and drops the first `-periods` rows
   * for a negative one.
   */
  function GetData(f: Feeder, periods: Option<int>): (r: seq<Row>)
    ensures periods.None? || periods.value >= |f.data| ==> r == f.data
    ensures periods.Some? && 0 < periods.value < |f.data| ==> r == f.data[|f.data| - periods.value..]
    ensures periods == Some(0) ==> r == f.data
    ensures periods.Some? && periods.value < 0 ==>
      r == f.data[if -periods.value <= |f.data| then -periods.value else |f.data|..]
  {
    if periods.None? || periods.value >= |f.data| then f.data
    else
      PySlice.LastItems(f.data, periods.value);
      PySlice.From(f.data, -periods.value)
  }

  /**
   * `get_data_at_time`: the rows ending at and including the nearest row
   * `idx`, at most `periods` of them; none when there is no data or
   * `periods` is not positive.
   */
  function GetDataAtTime(f: Feeder, idx: int, periods: int := 24): (r: seq<Row>)
    requires NearestIndex(f.data, idx)
    ensures |r| == (if periods <= 0 || idx < 0 then 0 else if periods <= idx + 1 then periods else idx + 1)
    ensures |r| > 0 ==> r == f.data[idx + 1 - |r|..idx + 1] && r[|r| - 1] == f.data[idx]
  {
    var start := Max(0, idx - periods + 1);
    PySlice.Slice(f.data, start, idx + 1)
  }

  /** `validate_data_availability`: the first row is no later than `start` and the last no earlier than `end`. */
  function ValidateDataAvailability(f: Feeder, start: real, end: real): (r: bool)
    ensures |f.data| == 0 ==> !r
    ensures |f.data| > 0 ==> (r <==> f.data[0].time <= start && f.data[|f.data| - 1].time >= end)
  {
    |f.data| > 0 && f.data[0].time <= start && f.data[|f.data| - 1].time >= end
  }

  /**
   * On rows in time order the check means: some row is at or before
   * `start` and some row is at or after `end`.
   */
  lemma AvailabilityMeansCoverage(f: Feeder, start: real, end: real)
    requires Sorted(f.data)
    ensures ValidateDataAvailability(f, start, end) <==>
      (exists i :: 0 <= i < |f.data| && f.data[i].time <= start) && (exists j :: 0 <= j < |f.data| && f.data[j].time >= end)
  {
    if (exists i :: 0 <= i < |f.data| && f.data[i].time <= start) && (exists j :: 0 <= j < |f.data| && f.data[j].time >= end) {
      var i :| 0 <= i < |f.data| && f.data[i].time <= start;
      var j :| 0 <= j < |f.data| && f.data[j].time >= end;
      assert f.data[0].time <= f.data[i].time;
      assert f.data[j].time <= f.data[|f.data| - 1].time;
    }
  }
}
