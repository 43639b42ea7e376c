/**
 * The time-indexed OHLC rows the CSV plugins load, and the errors their
 * constructors raise. Loading and sorting the file are outside the model:
 * a loader maps a path to its rows in index order, or to `None` when the
 * path does not exist.
 */
module CsvData {
  import opened Wrappers

  /** One row: its timestamp (seconds) and its close. */
  datatype Row = Row(time: real, close: real)

  /** The file system as the plugins see it. */
  type Loader = string -> Option<seq<Row>>

  datatype InitError = ValueError(message: string) | FileNotFoundError(message: string)

  ghost predicate Sorted(rows: seq<Row>) {
    forall i, j :: 0 <= i <= j < |rows| ==> rows[i].time <= rows[j].time
  }

  ghost predicate StrictlySorted(rows: seq<Row>) {
    forall i, j :: 0 <= i < j < |rows| ==> rows[i].time < rows[j].time
  }

  /** Python's `not x` on an optional string: missing or empty. */
  predicate Blank(s: Option<string>) {
    s.None? || s.value == ""
  }

  /** The shared constructor step: a blank path is a ValueError, a missing file a FileNotFoundError. */
  function LoadCsv(csvFile: Option<string>, load: Loader): (r: Result<seq<Row>, InitError>)
    ensures Blank(csvFile) ==> r == Failure(ValueError("csv_file is required"))
    ensures !Blank(csvFile) && load(csvFile.value).None? ==> r == Failure(FileNotFoundError("CSV file not found: " + csvFile.value))
    ensures !Blank(csvFile) && load(csvFile.value).Some? ==> r == Success(load(csvFile.value).value)
  {
    if Blank(csvFile) then Failure(ValueError("csv_file is required"))
    else match load(csvFile.value)
      case None => Failure(FileNotFoundError("CSV file not found: " + csvFile.value))
      case Some(rows) => Success(rows)
  }

  /**
   * What a nearest-timestamp lookup may return: an index of the rows, or
   * -1 when there are none.
   */
  predicate NearestIndex(rows: seq<Row>, idx: int) {
    if |rows| == 0 then idx == -1 else 0 <= idx < |rows|
  }
}
