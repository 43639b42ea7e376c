/**
 * The prediction client: request dispatch between the CSV test mode and
 * the prediction API, the six-step short and long horizons read ahead in
 * the CSV rows, the historical window, the partial-failure status and the
 * uncertainties derived from a finished API prediction.
 */
module PredictionClient {
  import opened Wrappers
  import opened CsvData
  import Sums

  const ShortTerm := "short_term"
  const LongTerm := "long_term"
  const DefaultTypes := [ShortTerm, LongTerm]

  /** Rows per step: an hour for the short horizon, a day of hourly rows for the long one. */
  const ShortStride := 1
  const LongStride := 24
  const Steps := 6
  const HistoryWindow := 1000

  /**
   * The client's CSV state: whether test mode is on and the loaded rows
   * (`None` when nothing was loaded). Look-ahead predictions are assumed.
   */
  datatype Client = Client(csvTestMode: bool, csvData: Option<seq<Row>>)

  // ------------------------------------------------------------------
  // CSV look-ahead horizons
  // ------------------------------------------------------------------

  /**
   * The first `n` steps of a horizon read `stride` rows apart ahead of row
   * `idx`: an existing row gives its close with the in-range uncertainty;
   * past the end the previous prediction (or the current close for the
   * first step) is repeated with the fallback uncertainty.
   */
  /** The row `j` steps of `stride` rows ahead of `idx`. */
  function Ahead(idx: nat, j: nat, stride: nat): nat {
    idx + j * stride
  }

  function Horizon(data: seq<Row>, idx: nat, stride: nat, n: nat, inRange: real, fallback: real): (r: (seq<real>, seq<real>))
    requires idx < |data|
    ensures |r.0| == n && |r.1| == n
  {
    if n == 0 then ([], [])
    else
      var (ps, us) := Horizon(data, idx, stride, n - 1, inRange, fallback);
      var fi := Ahead(idx, n, stride);
      if fi < |data| then (ps + [data[fi].close], us + [inRange])
      else if |ps| > 0 then (ps + [ps[|ps| - 1]], us + [fallback])
      else (ps + [data[idx].close], us + [fallback])
  }

  /** Later steps never change earlier ones. */
  lemma {:induction false} HorizonPrefix(data: seq<Row>, idx: nat, stride: nat, n: nat, inRange: real, fallback: real, k: nat)
    requires idx < |data| && k < n
    ensures Horizon(data, idx, stride, n, inRange, fallback).0[k] == Horizon(data, idx, stride, k + 1, inRange, fallback).0[k]
    ensures Horizon(data, idx, stride, n, inRange, fallback).1[k] == Horizon(data, idx, stride, k + 1, inRange, fallback).1[k]
    decreases n
  {
    if n > k + 1 {
      HorizonPrefix(data, idx, stride, n - 1, inRange, fallback, k);
    }
  }

  /**
   * Step `k` of a horizon: an existing row gives its close with the
   * in-range uncertainty; past the end the previous prediction (or the
   * current close for the first step) is repeated with the fallback one.
   */
  lemma HorizonStep(data: seq<Row>, idx: nat, stride: nat, n: nat, inRange: real, fallback: real, k: nat)
    requires idx < |data| && k < n
    ensures var r := Horizon(data, idx, stride, n, inRange, fallback);
      && (Ahead(idx, k + 1, stride) < |data| ==> r.0[k] == data[Ahead(idx, k + 1, stride)].close && r.1[k] == inRange)
      && (Ahead(idx, k + 1, stride) >= |data| ==> r.1[k] == fallback && r.0[k] == (if k == 0 then data[idx].close else r.0[k - 1]))
  {
    HorizonPrefix(data, idx, stride, n, inRange, fallback, k);
    if k > 0 {
      HorizonPrefix(data, idx, stride, n, inRange, fallback, k - 1);
      HorizonPrefix(data, idx, stride, k + 1, inRange, fallback, k - 1);
    }
  }

  /** How many of the first `t` steps land on an existing row (steps move forward, so they form a prefix). */
  function Reach(idx: nat, len: nat, stride: nat, t: nat): (j: nat)
    requires idx < len
    ensures j <= t && Ahead(idx, j, stride) < len
  {
    if t == 0 then 0 else if Ahead(idx, t, stride) < len then t else Reach(idx, len, stride, t - 1)
  }

  /** Every step's prediction is the close of the last row the horizon could still reach. */
  lemma {:induction false} HorizonRepeatsLastReached(data: seq<Row>, idx: nat, stride: nat, n: nat, inRange: real, fallback: real, k: nat)
    requires idx < |data| && k < n
    ensures Horizon(data, idx, stride, n, inRange, fallback).0[k] == data[Ahead(idx, Reach(idx, |data|, stride, k + 1), stride)].close
    decreases k
  {
    var r := Horizon(data, idx, stride, n, inRange, fallback);
    HorizonStep(data, idx, stride, n, inRange, fallback, k);
    if Ahead(idx, k + 1, stride) < |data| {
      assert Reach(idx, |data|, stride, k + 1) == k + 1;
    } else if k == 0 {
      assert Reach(idx, |data|, stride, 1) == 0;
      assert Ahead(idx, 0, stride) == idx;
    } else {
      assert Reach(idx, |data|, stride, k + 1) == Reach(idx, |data|, stride, k);
      assert r.0[k] == r.0[k - 1];
      HorizonRepeatsLastReached(data, idx, stride, n, inRange, fallback, k - 1);
    }
  }

  /** The historical window: up to 1000 rows before the nearest row, and that row. */
  function History(data: seq<Row>, idx: int): (h: seq<Row>)
    requires NearestIndex(data, idx)
    ensures |h| == (if idx < 0 then 0 else idx + 1 - (if idx - HistoryWindow > 0 then idx - HistoryWindow else 0))
    ensures |h| <= HistoryWindow + 1
    ensures idx >= 0 ==> |h| >= 1 && h[|h| - 1] == data[idx]
    ensures idx >= 0 ==> h == data[idx + 1 - |h|..idx + 1]
  {
    if idx < 0 then []
    else data[if idx - HistoryWindow > 0 then idx - HistoryWindow else 0..idx + 1]
  }

  datatype CsvReply = CsvReply(
    predictions: map<string, seq<real>>, uncertainties: map<string, seq<real>>, status: string, source: string,
    history: seq<Row>)

  const NotLoaded := "CSV data not loaded for test mode"
  const IndexError := "single positional indexer is out-of-bounds"

  /**
   * `_get_csv_predictions` in look-ahead mode at the nearest row `idx`:
   * every requested type gets six predictions and six uncertainties, other
   * types are absent; reading the current close of empty data fails.
   */
  function CsvPredictions(c: Client, types: seq<string>, idx: int): (r: Result<CsvReply, string>)
    requires c.csvData.Some? ==> NearestIndex(c.csvData.value, idx)
    ensures c.csvData.None? ==> r == Failure(NotLoaded)
    ensures c.csvData.Some? && |c.csvData.value| == 0 ==>
      (r.Failure? <==> ShortTerm in types || LongTerm in types)
    ensures r.Success? ==>
      && r.value.status == "success" && r.value.source == "csv_test_mode"
      && (ShortTerm in r.value.predictions <==> ShortTerm in types)
      && (LongTerm in r.value.predictions <==> LongTerm in types)
      && r.value.predictions.Keys == r.value.uncertainties.Keys <= {ShortTerm, LongTerm}
      && (forall t :: t in r.value.predictions ==> |r.value.predictions[t]| == Steps && |r.value.uncertainties[t]| == Steps)
      && r.value.history == History(c.csvData.value, idx)
    ensures r.Success? && ShortTerm in types ==>
      (r.value.predictions[ShortTerm], r.value.uncertainties[ShortTerm])
        == Horizon(c.csvData.value, idx, ShortStride, Steps, 0.001, 0.01)
    ensures r.Success? && LongTerm in types ==>
      (r.value.predictions[LongTerm], r.value.uncertainties[LongTerm])
        == Horizon(c.csvData.value, idx, LongStride, Steps, 0.002, 0.02)
  {
    match c.csvData
    case None => Failure(NotLoaded)
    case Some(data) =>
      if idx < 0 then
        if ShortTerm in types || LongTerm in types then Failure(IndexError)
        else Success(CsvReply(map[], map[], "success", "csv_test_mode", []))
      else
        var short := Horizon(data, idx, ShortStride, Steps, 0.001, 0.01);
        var long := Horizon(data, idx, LongStride, Steps, 0.002, 0.02);
        var ps := (if ShortTerm in types then map[ShortTerm := short.0] else map[])
                  + (if LongTerm in types then map[LongTerm := long.0] else map[]);
        var us := (if ShortTerm in types then map[ShortTerm := short.1] else map[])
                  + (if LongTerm in types then map[LongTerm := long.1] else map[]);
        Success(CsvReply(ps, us, "success", "csv_test_mode", History(data, idx)))
  }

  // ------------------------------------------------------------------
  // API mode
  // ------------------------------------------------------------------

  /** A finished request's payload; `None` is a missing key. */
  datatype ApiData = ApiData(predictions: Option<seq<real>>, uncertainties: Option<seq<real>>)

  /** What one request for a prediction type does: its payload, or the exception text. */
  type Requester = string -> Result<ApiData, string>

  datatype ApiReply = ApiReply(predictions: map<string, seq<real>>, uncertainties: map<string, seq<real>>, status: string)

  /** The lists stored for a type: the payload's (empty when missing), or empty ones after a failure. */
  function Stored(request: Requester, t: string): (seq<real>, seq<real>) {
    match request(t)
    case Success(d) => (d.predictions.GetOr([]), d.uncertainties.GetOr([]))
    case Failure(_) => ([], [])
  }

  /** One type's request: its lists stored, and a failure marking the reply a partial failure. */
  function ApiStep(acc: ApiReply, t: string, request: Requester): ApiReply {
    ApiReply(acc.predictions[t := Stored(request, t).0], acc.uncertainties[t := Stored(request, t).1],
             if request(t).Failure? then "partial_failure" else acc.status)
  }

  /** The loop over the requested types, in order. */
  function ApiLoop(types: seq<string>, request: Requester, acc: ApiReply): ApiReply
    decreases |types|
  {
    if types == [] then acc else ApiLoop(types[1..], request, ApiStep(acc, types[0], request))
  }

  /** Every requested type gets its stored lists; other entries are untouched. */
  lemma {:induction false} ApiLoopEntries(types: seq<string>, request: Requester, acc: ApiReply)
    ensures var r := ApiLoop(types, request, acc);
      && (forall t :: t in r.predictions <==> t in acc.predictions || t in types)
      && (forall t :: t in r.uncertainties <==> t in acc.uncertainties || t in types)
      && (forall t :: t in types ==> r.predictions[t] == Stored(request, t).0 && r.uncertainties[t] == Stored(request, t).1)
      && (forall t :: t in acc.predictions && t !in types ==> r.predictions[t] == acc.predictions[t])
      && (forall t :: t in acc.uncertainties && t !in types ==> r.uncertainties[t] == acc.uncertainties[t])
    decreases |types|
  {
    if types != [] {
      ApiLoopEntries(types[1..], request, ApiStep(acc, types[0], request));
      assert forall u :: u in types <==> u == types[0] || u in types[1..];
    }
  }

  /** The status stays "success" exactly when it was and every request succeeded; otherwise it is "partial_failure". */
  lemma {:induction false} ApiLoopStatus(types: seq<string>, request: Requester, acc: ApiReply)
    requires acc.status == "success" || acc.status == "partial_failure"
    ensures var r := ApiLoop(types, request, acc);
      && (r.status == "success" <==> acc.status == "success" && forall t :: t in types ==> request(t).Success?)
      && (r.status == "success" || r.status == "partial_failure")
    decreases |types|
  {
    if types != [] {
      ApiLoopStatus(types[1..], request, ApiStep(acc, types[0], request));
      assert forall u :: u in types <==> u == types[0] || u in types[1..];
    }
  }

  /**
   * `_get_api_predictions`: one entry per requested type; the status stays
   * "success" exactly when every request succeeded.
   */
  function ApiPredictions(types: seq<string>, request: Requester): (r: ApiReply)
    ensures r.predictions.Keys == r.uncertainties.Keys == set t | t in types
    ensures r.status == "success" <==> forall t :: t in types ==> request(t).Success?
    ensures r.status != "success" ==> r.status == "partial_failure"
    ensures forall t :: t in types ==> (r.predictions[t], r.uncertainties[t]) == Stored(request, t)
    ensures forall t :: t in types && request(t).Failure? ==> r.predictions[t] == [] && r.uncertainties[t] == []
  {
    ApiLoopEntries(types, request, ApiReply(map[], map[], "success"));
    ApiLoopStatus(types, request, ApiReply(map[], map[], "success"));
    ApiLoop(types, request, ApiReply(map[], map[], "success"))
  }

  datatype Reply = CsvResult(csv: Result<CsvReply, string>) | ApiResult(api: ApiReply)

  /** `get_predictions`: both types by default, answered from the CSV rows in test mode and from the API otherwise. */
  function GetPredictions(c: Client, types: Option<seq<string>>, idx: int, request: Requester): (r: Reply)
    requires c.csvData.Some? ==> NearestIndex(c.csvData.value, idx)
    ensures r.CsvResult? <==> c.csvTestMode
    ensures r.CsvResult? ==> r.csv == CsvPredictions(c, types.GetOr(DefaultTypes), idx)
    ensures r.ApiResult? ==> r.api == ApiPredictions(types.GetOr(DefaultTypes), request)
    ensures types.None? && r.ApiResult? ==> r.api.predictions.Keys == {ShortTerm, LongTerm}
  {
    var ts := types.GetOr(DefaultTypes);
    if c.csvTestMode then CsvResult(CsvPredictions(c, ts, idx)) else ApiResult(ApiPredictions(ts, request))
  }

  // ------------------------------------------------------------------
  // Uncertainties of a finished prediction
  // ------------------------------------------------------------------

  /** The `prediction` field of a finished result: absent/null, one number, or a list. */
  datatype RawPrediction = Null | Scalar(x: real) | Listed(xs: seq<real>)

  function Id(x: real): real { x }

  function Mean(ps: seq<real>): real
    requires |ps| > 0
  {
    Sums.Sum(ps, Id) / |ps| as real
  }

  function Abs(x: real): real {
    if x < 0.0 then -x else x
  }

  /**
   * The predictions as a list (a scalar wrapped, null as empty) and one
   * uncertainty per prediction: a tenth of its distance from the mean.
   */
  function DeriveUncertainties(raw: RawPrediction): (r: (seq<real>, seq<real>))
    ensures raw.Null? ==> r == ([], [])
    ensures raw.Scalar? ==> r.0 == [raw.x]
    ensures raw.Listed? ==> r.0 == raw.xs
    ensures |r.1| == |r.0|
    ensures forall i :: 0 <= i < |r.1| ==> r.1[i] >= 0.0 && r.1[i] == Abs(r.0[i] - Mean(r.0)) * 0.1
  {
    var ps := match raw
      case Null => []
      case Scalar(x) => [x]
      case Listed(xs) => xs;
    if ps == [] then (ps, [])
    else (ps, seq(|ps|, i requires 0 <= i < |ps| => Abs(ps[i] - Mean(ps)) * 0.1))
  }

  lemma {:induction false} SumConstant(ps: seq<real>, c: real)
    requires forall i :: 0 <= i < |ps| ==> ps[i] == c
    ensures Sums.Sum(ps, Id) == |ps| as real * c
    decreases |ps|
  {
    if |ps| > 0 {
      SumConstant(ps[..|ps| - 1], c);
    }
  }

  /** Equal predictions have no spread: every uncertainty is zero. */
  lemma ConstantHasNoUncertainty(raw: RawPrediction)
    ensures var (ps, us) := DeriveUncertainties(raw);
      (forall i, j :: 0 <= i < j < |ps| ==> ps[i] == ps[j]) ==> forall i :: 0 <= i < |us| ==> us[i] == 0.0
  {
    var (ps, us) := DeriveUncertainties(raw);
    if |ps| > 0 && forall i, j :: 0 <= i < j < |ps| ==> ps[i] == ps[j] {
      forall i | 0 <= i < |ps| ensures ps[i] == ps[0] {
        if i > 0 { assert ps[0] == ps[i]; }
      }
      MeanOfConstant(ps, ps[0]);
    }
  }

  lemma MeanOfConstant(ps: seq<real>, c: real)
    requires |ps| > 0 && forall i :: 0 <= i < |ps| ==> ps[i] == c
    ensures Mean(ps) == c
  {
    SumConstant(ps, c);
    var n := |ps| as real;
    assert Mean(ps) == (n * c) / n;
    assert (n * c) / n == c;
  }

  /** Zero uncertainties everywhere mean every prediction sits on the mean, so they are all equal. */
  lemma NoUncertaintyMeansConstant(raw: RawPrediction)
    ensures var (ps, us) := DeriveUncertainties(raw);
      (forall i :: 0 <= i < |us| ==> us[i] == 0.0) ==> forall i, j :: 0 <= i < j < |ps| ==> ps[i] == ps[j]
  {
    var (ps, us) := DeriveUncertainties(raw);
    if |ps| > 0 && forall i :: 0 <= i < |us| ==> us[i] == 0.0 {
      var m := Mean(ps);
      forall i | 0 <= i < |ps| ensures ps[i] == m {
        assert us[i] == Abs(ps[i] - m) * 0.1 == 0.0;
      }
    }
  }
}
