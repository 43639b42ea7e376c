/**
 * The look-ahead CSV predictor: for each configured horizon it reads the
 * close that many hourly rows ahead of the row nearest the requested time
 * and reports the relative change as a perfect prediction.
 */
module CsvPredictor {
  import opened Wrappers
  import opened CsvData

  /** The horizon table: the number of hourly rows each horizon string looks ahead. */
  function Periods(h: string): (r: Option<nat>)
    ensures r.Some? <==> h in {"1h", "2h", "6h", "12h", "1d", "1w"}
    ensures r.Some? ==> r.value >= 1
  {
    match h
    case "1h" => Some(1)
    case "2h" => Some(2)
    case "6h" => Some(6)
    case "12h" => Some(12)
    case "1d" => Some(24)
    case "1w" => Some(168)
    case _ => None
  }

  /** `_horizon_to_periods`: the table entry, or a ValueError naming the horizon. */
  function HorizonToPeriods(h: string): (r: Result<nat, string>)
    ensures r.Success? <==> Periods(h).Some?
    ensures r.Success? ==> r.value == Periods(h).value
    ensures r.Failure? ==> r.error == "Unknown horizon: " + h
  {
    match Periods(h)
    case None => Failure("Unknown horizon: " + h)
    case Some(n) => Success(n)
  }

  lemma HorizonTable()
    ensures Periods("1h") == Some(1) && Periods("2h") == Some(2) && Periods("6h") == Some(6)
    ensures Periods("12h") == Some(12) && Periods("1d") == Some(24) && Periods("1w") == Some(168)
    ensures Periods("3h").None? && Periods("").None?
  {
  }

  datatype Predictor = Predictor(horizons: seq<string>, data: seq<Row>)

  /** A config as read with `.get`; `None` is a missing key. */
  datatype Config = Config(csvFile: Option<string>, predictionHorizons: Option<seq<string>>)

  /**
   * The constructor: a blank `csv_file`, then an empty horizon list, are
   * ValueErrors; a missing file is a FileNotFoundError.
   */
  function Init(config: Config, load: Loader): (r: Result<Predictor, InitError>)
    ensures Blank(config.csvFile) ==> r == Failure(ValueError("csv_file is required"))
    ensures !Blank(config.csvFile) && config.predictionHorizons.GetOr([]) == [] ==>
      r == Failure(ValueError("prediction_horizons must be a non-empty list"))
    ensures r.Success? <==>
      !Blank(config.csvFile) && config.predictionHorizons.GetOr([]) != [] && load(config.csvFile.value).Some?
    ensures r.Success? ==>
      r.value.horizons == config.predictionHorizons.value && r.value.data == load(config.csvFile.value).value
  {
    if Blank(config.csvFile) then Failure(ValueError("csv_file is required"))
    else if config.predictionHorizons.GetOr([]) == [] then Failure(ValueError("prediction_horizons must be a non-empty list"))
    else match LoadCsv(config.csvFile, load)
      case Failure(e) => Failure(e)
      case Success(rows) => Success(Predictor(config.predictionHorizons.value, rows))
  }

  datatype Prediction = Prediction(
    horizon: string, prediction: real, timestamp: real, futureTimestamp: real, currentClose: real, futureClose: real)

  /** The entry for a horizon `n` rows ahead of row `idx`. */
  function Entry(data: seq<Row>, idx: nat, h: string, n: nat): (e: Prediction)
    requires idx + n < |data| && data[idx].close != 0.0
    ensures e.horizon == h && e.currentClose == data[idx].close && e.futureClose == data[idx + n].close
    ensures e.timestamp == data[idx].time && e.futureTimestamp == data[idx + n].time
    ensures e.currentClose * (1.0 + e.prediction) == e.futureClose
  {
    var c := data[idx].close;
    var f := data[idx + n].close;
    var e := Prediction(h, (f - c) / c, data[idx].time, data[idx + n].time, c, f);
    assert c * (1.0 + (f - c) / c) == c + c * ((f - c) / c) == f;
    e
  }

  /** The first unknown horizon of a list, if any. */
  function FirstUnknown(horizons: seq<string>): (r: Option<string>)
    ensures r.None? <==> forall i :: 0 <= i < |horizons| ==> Periods(horizons[i]).Some?
    ensures r.Some? ==> r.value in horizons && Periods(r.value).None?
    ensures r.Some? ==>
      exists k :: 0 <= k < |horizons| && horizons[k] == r.value && forall j :: 0 <= j < k ==> Periods(horizons[j]).Some?
  {
    if horizons == [] then None
    else if Periods(horizons[0]).None? then Some(horizons[0])
    else
      var r := FirstUnknown(horizons[1..]);
      assert forall i :: 1 <= i < |horizons| ==> horizons[1..][i - 1] == horizons[i];
      r
  }

  /** The horizons, in order, whose look-ahead row exists. */
  function Reachable(horizons: seq<string>, idx: nat, len: nat): (r: seq<string>)
    requires forall i :: 0 <= i < |horizons| ==> Periods(horizons[i]).Some?
    ensures forall h :: h in r <==> h in horizons && idx + Periods(h).value < len
    ensures |r| <= |horizons|
  {
    if horizons == [] then []
    else
      assert forall i :: 1 <= i < |horizons| ==> horizons[1..][i - 1] == horizons[i];
      var rest := Reachable(horizons[1..], idx, len);
      assert forall h :: h in horizons <==> h == horizons[0] || h in horizons[1..];
      if idx + Periods(horizons[0]).value < len then [horizons[0]] + rest else rest
  }

  /** The prediction loop over horizons from the `k`-th on. */
  function Emit(horizons: seq<string>, data: seq<Row>, idx: nat): (r: Result<seq<Prediction>, string>)
    requires idx < |data| && data[idx].close != 0.0
    ensures r.Success? <==> FirstUnknown(horizons).None?
    ensures r.Failure? ==> r.error == "Unknown horizon: " + FirstUnknown(horizons).value
    ensures r.Success? ==>
      && |r.value| == |Reachable(horizons, idx, |data|)|
      && forall i :: 0 <= i < |r.value| ==>
           var h := Reachable(horizons, idx, |data|)[i];
           idx + Periods(h).value < |data| && r.value[i] == Entry(data, idx, h, Periods(h).value)
  {
    if horizons == [] then Success([])
    else match HorizonToPeriods(horizons[0])
      case Failure(e) => Failure(e)
      case Success(n) =>
        assert forall i :: 1 <= i < |horizons| ==> horizons[1..][i - 1] == horizons[i];
        match Emit(horizons[1..], data, idx)
        case Failure(e) => Failure(e)
        case Success(rest) =>
          if idx + n < |data| then Success([Entry(data, idx, horizons[0], n)] + rest) else Success(rest)
  }

  datatype PredictReply = PredictReply(predictions: seq<Prediction>, status: string)

  const IndexError := "single positional indexer is out-of-bounds"

  /**
   * `predict` at the row `idx` nearest the requested time: on empty data the
   * lookup fails; an unknown horizon raises; otherwise one entry per
   * reachable horizon, in configured order, and status "success" even when
   * there are none. A zero current close is excluded (it yields IEEE
   * infinities).
   */
  function Predict(pr: Predictor, idx: int): (r: Result<PredictReply, string>)
    requires NearestIndex(pr.data, idx)
    requires idx >= 0 ==> pr.data[idx].close != 0.0
    ensures |pr.data| == 0 ==> r == Failure(IndexError)
    ensures |pr.data| > 0 ==> (r.Success? <==> FirstUnknown(pr.horizons).None?)
    ensures r.Success? ==> r.value.status == "success"
    ensures r.Success? ==>
      |r.value.predictions| == |Reachable(pr.horizons, idx, |pr.data|)|
      && forall i :: 0 <= i < |r.value.predictions| ==>
           r.value.predictions[i].horizon == Reachable(pr.horizons, idx, |pr.data|)[i]
  {
    if |pr.data| == 0 then Failure(IndexError)
    else match Emit(pr.horizons, pr.data, idx)
      case Failure(e) => Failure(e)
      case Success(ps) => Success(PredictReply(ps, "success"))
  }

  /** On strictly increasing timestamps every prediction looks into the future, and reports a relative change. */
  lemma PredictionsLookAhead(pr: Predictor, idx: int)
    requires NearestIndex(pr.data, idx)
    requires idx >= 0 ==> pr.data[idx].close != 0.0
    requires StrictlySorted(pr.data)
    ensures Predict(pr, idx).Success? ==>
      var ps := Predict(pr, idx).value.predictions;
      forall i :: 0 <= i < |ps| ==> ps[i].futureTimestamp > ps[i].timestamp
  {
    if Predict(pr, idx).Success? {
      var ps := Predict(pr, idx).value.predictions;
      var hs := Reachable(pr.horizons, idx, |pr.data|);
      assert ps == Emit(pr.horizons, pr.data, idx).value;
      forall i | 0 <= i < |ps| ensures ps[i].futureTimestamp > ps[i].timestamp {
        var n := Periods(hs[i]).value;
        var e := Entry(pr.data, idx, hs[i], n);
        assert ps[i] == e;
        assert pr.data[idx].time < pr.data[idx + n].time;
      }
    }
  }

  /**
   * `validate_prediction_capability`: one flag per configured horizon,
   * true exactly when its look-ahead row exists; an unknown horizon raises.
   */
  function ValidatePredictionCapability(pr: Predictor, idx: int): (r: Result<map<string, bool>, string>)
    requires NearestIndex(pr.data, idx)
    ensures r.Success? <==> FirstUnknown(pr.horizons).None?
    ensures r.Failure? ==> r.error == "Unknown horizon: " + FirstUnknown(pr.horizons).value
    ensures r.Success? ==>
      && r.value.Keys == set h | h in pr.horizons
      && forall h :: h in r.value ==> Periods(h).Some? && (r.value[h] <==> idx + Periods(h).value < |pr.data|)
  {
    match FirstUnknown(pr.horizons)
    case Some(h) => Failure("Unknown horizon: " + h)
    case None => Success(map h | h in pr.horizons :: idx + Periods(h).value < |pr.data|)
  }

  /** The capability check agrees with `predict`: a horizon is flagged exactly when `predict` emits it. */
  lemma CapabilityMatchesPredict(pr: Predictor, idx: int, h: string)
    requires NearestIndex(pr.data, idx) && |pr.data| > 0
    requires pr.data[idx].close != 0.0
    ensures Predict(pr, idx).Success? <==> ValidatePredictionCapability(pr, idx).Success?
    ensures Predict(pr, idx).Success? && h in pr.horizons ==>
      (ValidatePredictionCapability(pr, idx).value[h] <==>
         exists i :: 0 <= i < |Predict(pr, idx).value.predictions| && Predict(pr, idx).value.predictions[i].horizon == h)
  {
    if Predict(pr, idx).Success? && h in pr.horizons {
      var ps := Predict(pr, idx).value.predictions;
      var hs := Reachable(pr.horizons, idx, |pr.data|);
      if idx + Periods(h).value < |pr.data| {
        assert h in hs;
        var i :| 0 <= i < |hs| && hs[i] == h;
        assert ps[i].horizon == h;
      }
    }
  }
}
