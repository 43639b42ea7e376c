/**
 * The backtest broker's bookkeeping outside backtrader itself: counting
 * active positions, the performance report, switching the prediction
 * source, and the prediction fallback that never raises.
 */
module BacktraderMetrics {
  import opened Wrappers
  import Sums
  import CsvData
  import CsvPredictor
  import PluginBase
  import Counting

  // ------------------------------------------------------------------
  // Active positions
  // ------------------------------------------------------------------

  datatype Position = Position(size: real)

  /** Positions as backtrader keeps them (by data feed) or as a plain list. */
  datatype Positions = ByFeed(byFeed: map<string, Position>) | Listed(items: seq<Position>)

  function CountNonZero(ps: seq<Position>): (n: nat)
    ensures n <= |ps|
    ensures n == 0 <==> forall i :: 0 <= i < |ps| ==> ps[i].size == 0.0
    decreases |ps|
  {
    if ps == [] then 0
    else
      assert forall i :: 1 <= i < |ps| ==> ps[1..][i - 1] == ps[i];
      (if ps[0].size != 0.0 then 1 else 0) + CountNonZero(ps[1..])
  }

  function IsActive(p: Position): bool { p.size != 0.0 }

  /** The count is the number of positions whose size is not zero. */
  lemma {:induction false} CountNonZeroCounted(ps: seq<Position>)
    ensures CountNonZero(ps) == |set i | 0 <= i < |ps| && ps[i].size != 0.0|
    decreases |ps|
  {
    if ps == [] {
      assert Counting.Positions(ps, IsActive) == {};
    } else {
      CountNonZeroCounted(ps[1..]);
      assert ps == [ps[0]] + ps[1..];
      Counting.PositionsPrepend(ps[0], ps[1..], IsActive);
      assert Counting.Positions(ps, IsActive) == set i | 0 <= i < |ps| && ps[i].size != 0.0;
      assert Counting.Positions(ps[1..], IsActive) == set i | 0 <= i < |ps[1..]| && ps[1..][i].size != 0.0;
    }
  }

  /**
   * `_count_active_positions`: a list set on the class takes precedence
   * over the instance's positions; positions of size zero are not active.
   */
  function CountActivePositions(classPositions: Option<Positions>, positions: Positions): (n: nat)
    ensures classPositions.Some? && classPositions.value.Listed? ==> n == CountNonZero(classPositions.value.items)
    ensures !(classPositions.Some? && classPositions.value.Listed?) && positions.ByFeed? ==>
      n == |set k | k in positions.byFeed && positions.byFeed[k].size != 0.0|
    ensures !(classPositions.Some? && classPositions.value.Listed?) && positions.Listed? ==>
      n == CountNonZero(positions.items)
  {
    var ps := if classPositions.Some? && classPositions.value.Listed? then classPositions.value else positions;
    match ps
    case ByFeed(m) => |set k | k in m && m[k].size != 0.0|
    case Listed(items) => CountNonZero(items)
  }

  /** Whichever positions are read, the result is the number of them that are not flat. */
  lemma ActivePositionsCounted(classPositions: Option<Positions>, positions: Positions)
    ensures classPositions.Some? && classPositions.value.Listed? ==>
      var items := classPositions.value.items;
      CountActivePositions(classPositions, positions) == |set i | 0 <= i < |items| && items[i].size != 0.0|
    ensures !(classPositions.Some? && classPositions.value.Listed?) && positions.Listed? ==>
      var items := positions.items;
      CountActivePositions(classPositions, positions) == |set i | 0 <= i < |items| && items[i].size != 0.0|
  {
    if classPositions.Some? && classPositions.value.Listed? {
      CountNonZeroCounted(classPositions.value.items);
    }
    if positions.Listed? {
      CountNonZeroCounted(positions.items);
    }
  }

  // ------------------------------------------------------------------
  // Performance report
  // ------------------------------------------------------------------

  /** The fields of a closed trade the report reads. */
  datatype ClosedTrade = ClosedTrade(pnl: real)

  function Pnl(t: ClosedTrade): real { t.pnl }

  function Wins(ts: seq<ClosedTrade>): seq<ClosedTrade>
    ensures forall i :: 0 <= i < |Wins(ts)| ==> Wins(ts)[i].pnl > 0.0
    ensures |Wins(ts)| <= |ts|
    decreases |ts|
  {
    if ts == [] then [] else (if ts[0].pnl > 0.0 then [ts[0]] else []) + Wins(ts[1..])
  }

  function Losses(ts: seq<ClosedTrade>): seq<ClosedTrade>
    ensures forall i :: 0 <= i < |Losses(ts)| ==> Losses(ts)[i].pnl < 0.0
    ensures |Losses(ts)| <= |ts|
    decreases |ts|
  {
    if ts == [] then [] else (if ts[0].pnl < 0.0 then [ts[0]] else []) + Losses(ts[1..])
  }

  function Flats(ts: seq<ClosedTrade>): nat
    decreases |ts|
  {
    if ts == [] then 0 else (if ts[0].pnl == 0.0 then 1 else 0) + Flats(ts[1..])
  }

  function IsWin(t: ClosedTrade): bool { t.pnl > 0.0 }

  function IsLoss(t: ClosedTrade): bool { t.pnl < 0.0 }

  /** The wins are exactly the trades with positive P&L, each kept as often as it occurs. */
  lemma {:induction false} WinsExact(ts: seq<ClosedTrade>)
    ensures forall t :: t in Wins(ts) <==> t in ts && t.pnl > 0.0
    ensures |Wins(ts)| == |set i | 0 <= i < |ts| && ts[i].pnl > 0.0|
    decreases |ts|
  {
    if ts == [] {
      assert Counting.Positions(ts, IsWin) == {};
    } else {
      WinsExact(ts[1..]);
      assert ts == [ts[0]] + ts[1..];
      Counting.PositionsPrepend(ts[0], ts[1..], IsWin);
      assert Counting.Positions(ts, IsWin) == set i | 0 <= i < |ts| && ts[i].pnl > 0.0;
      assert Counting.Positions(ts[1..], IsWin) == set i | 0 <= i < |ts[1..]| && ts[1..][i].pnl > 0.0;
    }
  }

  /** The losses are exactly the trades with negative P&L, each kept as often as it occurs. */
  lemma {:induction false} LossesExact(ts: seq<ClosedTrade>)
    ensures forall t :: t in Losses(ts) <==> t in ts && t.pnl < 0.0
    ensures |Losses(ts)| == |set i | 0 <= i < |ts| && ts[i].pnl < 0.0|
    decreases |ts|
  {
    if ts == [] {
      assert Counting.Positions(ts, IsLoss) == {};
    } else {
      LossesExact(ts[1..]);
      assert ts == [ts[0]] + ts[1..];
      Counting.PositionsPrepend(ts[0], ts[1..], IsLoss);
      assert Counting.Positions(ts, IsLoss) == set i | 0 <= i < |ts| && ts[i].pnl < 0.0;
      assert Counting.Positions(ts[1..], IsLoss) == set i | 0 <= i < |ts[1..]| && ts[1..][i].pnl < 0.0;
    }
  }

  /** Every trade is a win, a loss or flat; flat trades count as neither. */
  lemma {:induction false} WinsLossesFlats(ts: seq<ClosedTrade>)
    ensures |Wins(ts)| + |Losses(ts)| + Flats(ts) == |ts|
    decreases |ts|
  {
    if ts != [] {
      WinsLossesFlats(ts[1..]);
    }
  }

  /** The best and worst P&L of a non-empty list. */
  function MaxPnl(ts: seq<ClosedTrade>): (m: real)
    requires |ts| > 0
    ensures (exists i :: 0 <= i < |ts| && ts[i].pnl == m) && forall i :: 0 <= i < |ts| ==> ts[i].pnl <= m
    decreases |ts|
  {
    if |ts| == 1 then ts[0].pnl
    else
      var m := MaxPnl(ts[1..]);
      assert forall i :: 1 <= i < |ts| ==> ts[1..][i - 1] == ts[i];
      if ts[0].pnl > m then ts[0].pnl else m
  }

  function MinPnl(ts: seq<ClosedTrade>): (m: real)
    requires |ts| > 0
    ensures (exists i :: 0 <= i < |ts| && ts[i].pnl == m) && forall i :: 0 <= i < |ts| ==> ts[i].pnl >= m
    decreases |ts|
  {
    if |ts| == 1 then ts[0].pnl
    else
      var m := MinPnl(ts[1..]);
      assert forall i :: 1 <= i < |ts| ==> ts[1..][i - 1] == ts[i];
      if ts[0].pnl < m then ts[0].pnl else m
  }

  /** The average P&L of a list, 0 when it is empty. */
  function MeanPnl(ts: seq<ClosedTrade>): (m: real)
    ensures ts == [] ==> m == 0.0
    ensures ts != [] ==> m * |ts| as real == Sums.Sum(ts, Pnl)
  {
    if ts == [] then 0.0 else Sums.Sum(ts, Pnl) / |ts| as real
  }

  /** A mean has the sign of the total it averages. */
  lemma MeanSign(total: real, n: nat, m: real)
    requires n > 0 && m * n as real == total
    ensures total > 0.0 ==> m > 0.0
    ensures total < 0.0 ==> m < 0.0
  {
    if m <= 0.0 {
      assert m * n as real <= 0.0;
    }
    if m >= 0.0 {
      assert m * n as real >= 0.0;
    }
  }

  datatype TradeStats = TradeStats(
    totalTrades: nat, winningTrades: nat, losingTrades: nat, winRate: real, avgWin: real, avgLoss: real,
    totalPnl: real, maxWin: real, maxLoss: real)

  /** The share of winners; a fraction of one trade list. */
  function WinRate(winners: nat, total: nat): (r: real)
    requires winners <= total && total > 0
    ensures r * total as real == winners as real
    ensures 0.0 <= r <= 1.0
  {
    var r := winners as real / total as real;
    assert r <= 1.0 by {
      assert winners as real <= total as real;
    }
    r
  }

  /** The trade statistics of a non-empty trade list. */
  function Stats(ts: seq<ClosedTrade>): (s: TradeStats)
    requires |ts| > 0
    ensures s.totalTrades == |ts| && s.winningTrades == |Wins(ts)| && s.losingTrades == |Losses(ts)|
    ensures s.winningTrades + s.losingTrades <= s.totalTrades
    ensures s.winRate == WinRate(s.winningTrades, s.totalTrades)
    ensures s.totalPnl == Sums.Sum(ts, Pnl)
    ensures forall i :: 0 <= i < |ts| ==> s.maxLoss <= ts[i].pnl <= s.maxWin
    ensures (exists i :: 0 <= i < |ts| && ts[i].pnl == s.maxWin) && (exists i :: 0 <= i < |ts| && ts[i].pnl == s.maxLoss)
    ensures s.avgWin == MeanPnl(Wins(ts)) && s.avgLoss == MeanPnl(Losses(ts))
  {
    WinsLossesFlats(ts);
    var w := |Wins(ts)|;
    TradeStats(|ts|, w, |Losses(ts)|, WinRate(w, |ts|), MeanPnl(Wins(ts)), MeanPnl(Losses(ts)),
               Sums.Sum(ts, Pnl), MaxPnl(ts), MinPnl(ts))
  }

  /** A sum of profits is positive, a sum of losses negative. */
  lemma {:induction false} SumPositive(ts: seq<ClosedTrade>)
    requires |ts| > 0 && forall i :: 0 <= i < |ts| ==> ts[i].pnl > 0.0
    ensures Sums.Sum(ts, Pnl) > 0.0
    decreases |ts|
  {
    if |ts| > 1 {
      SumPositive(ts[..|ts| - 1]);
    }
  }

  lemma {:induction false} SumNegative(ts: seq<ClosedTrade>)
    requires |ts| > 0 && forall i :: 0 <= i < |ts| ==> ts[i].pnl < 0.0
    ensures Sums.Sum(ts, Pnl) < 0.0
    decreases |ts|
  {
    if |ts| > 1 {
      SumNegative(ts[..|ts| - 1]);
    }
  }

  /** The average win is positive and the average loss negative whenever there are any. */
  lemma AveragesSigned(ts: seq<ClosedTrade>)
    ensures |Wins(ts)| > 0 ==> MeanPnl(Wins(ts)) > 0.0
    ensures |Losses(ts)| > 0 ==> MeanPnl(Losses(ts)) < 0.0
  {
    var w := Wins(ts);
    var l := Losses(ts);
    if |w| > 0 {
      SumPositive(w);
      MeanSign(Sums.Sum(w, Pnl), |w|, MeanPnl(w));
    }
    if |l| > 0 {
      SumNegative(l);
      MeanSign(Sums.Sum(l, Pnl), |l|, MeanPnl(l));
    }
  }

  datatype Performance = Performance(initialValue: real, finalValue: real, totalReturn: real, totalReturnPct: real)

  datatype Report =
    | NoPortfolioData(error: string)
    | Report(performance: Performance, trades: Option<TradeStats>, predictionsUsed: nat, predictionSource: string)

  const ZeroDivision := "float division by zero"

  /** The relative return from `initial` to `final`. */
  function TotalReturn(initial: real, final: real): (ret: real)
    requires initial != 0.0
    ensures initial * (1.0 + ret) == final
  {
    var ret := (final - initial) / initial;
    assert initial * (1.0 + ret) == initial + initial * ret == final;
    ret
  }

  /** The performance block: the return from the initial cash to the last portfolio value, also in percent. */
  function Measure(initialCash: real, last: real): (p: Performance)
    requires initialCash != 0.0
    ensures p.initialValue == initialCash && p.finalValue == last
    ensures initialCash * (1.0 + p.totalReturn) == last
    ensures p.totalReturnPct == p.totalReturn * 100.0
  {
    var ret := TotalReturn(initialCash, last);
    Performance(initialCash, last, ret, ret * 100.0)
  }

  /**
   * `get_performance_metrics`: without recorded portfolio values only an
   * error entry; otherwise the return against the initial cash (a zero
   * initial cash raises) and trade statistics, empty when no trade closed.
   */
  function GetPerformanceMetrics(initialCash: real, portfolioValues: seq<real>, trades: seq<ClosedTrade>,
                                 predictionsUsed: nat, source: string): (r: Result<Report, string>)
    ensures portfolioValues == [] ==> r == Success(NoPortfolioData("No portfolio data available"))
    ensures portfolioValues != [] && initialCash == 0.0 ==> r == Failure(ZeroDivision)
    ensures portfolioValues != [] && initialCash != 0.0 ==>
      && r.Success? && r.value.Report?
      && r.value.performance.finalValue == portfolioValues[|portfolioValues| - 1]
      && initialCash * (1.0 + r.value.performance.totalReturn) == r.value.performance.finalValue
      && r.value.performance.totalReturnPct == r.value.performance.totalReturn * 100.0
      && (r.value.trades.None? <==> trades == [])
      && (trades != [] ==> r.value.trades.value == Stats(trades))
  {
    if portfolioValues == [] then Success(NoPortfolioData("No portfolio data available"))
    else if initialCash == 0.0 then Failure(ZeroDivision)
    else
      var stats := if trades == [] then None else Some(Stats(trades));
      Success(Report(Measure(initialCash, portfolioValues[|portfolioValues| - 1]), stats, predictionsUsed, source))
  }

  // ------------------------------------------------------------------
  // Prediction source
  // ------------------------------------------------------------------

  /** The broker state the prediction paths read. */
  datatype Broker = Broker(source: string, config: PluginBase.Params, csvPredictor: Option<CsvPredictor.Predictor>)

  /**
   * `switch_prediction_source`: anything but "csv" or "api" raises; otherwise
   * the source is set (also in the configuration) and the updates merged;
   * switching to "csv" without a predictor tries to build one, and a failed
   * attempt leaves none.
   */
  function SwitchPredictionSource(b: Broker, newSource: string, updates: PluginBase.Params,
                                  initPredictor: Option<CsvPredictor.Predictor>): (r: Result<Broker, string>)
    ensures r.Failure? <==> newSource != "csv" && newSource != "api"
    ensures r.Failure? ==> r.error == "Invalid prediction source: " + newSource
    ensures r.Success? ==>
      && r.value.source == newSource
      && r.value.config.Keys == b.config.Keys + {"prediction_source"} + updates.Keys
      && (forall k :: k in updates ==> r.value.config[k] == updates[k])
      && ("prediction_source" !in updates ==> r.value.config["prediction_source"] == PluginBase.Text(newSource))
      && (forall k :: k in b.config && k !in updates && k != "prediction_source" ==> r.value.config[k] == b.config[k])
      && r.value.csvPredictor == (if newSource == "csv" && b.csvPredictor.None? then initPredictor else b.csvPredictor)
  {
    if newSource != "csv" && newSource != "api" then Failure("Invalid prediction source: " + newSource)
    else
      var config := PluginBase.SetParams(b.config["prediction_source" := PluginBase.Text(newSource)], updates);
      var predictor := if newSource == "csv" && b.csvPredictor.None? then initPredictor else b.csvPredictor;
      Success(Broker(newSource, config, predictor))
  }

  /** A prediction answer, or the error entry that replaces any exception. */
  datatype PredictionReply<A> =
    | FromCsv(csv: CsvPredictor.PredictReply)
    | FromApi(api: A)
    | PredictionError(predictions: seq<CsvPredictor.Prediction>, error: string)

  const NoCsvPredictor := "CSV predictor not initialized"

  /**
   * `get_predictions`: never raises. The CSV predictor answers for "csv",
   * the API call for "api"; a missing predictor, a failed call or any other
   * source gives an empty list with the error text.
   */
  function GetPredictions<A>(b: Broker, idx: int, apiCall: Result<A, string>): (r: PredictionReply<A>)
    requires b.csvPredictor.Some? ==>
      CsvData.NearestIndex(b.csvPredictor.value.data, idx)
      && (idx >= 0 ==> b.csvPredictor.value.data[idx].close != 0.0)
    ensures r.PredictionError? ==> r.predictions == []
    ensures b.source != "csv" && b.source != "api" ==> r == PredictionError([], "Unknown prediction source: " + b.source)
    ensures b.source == "csv" && b.csvPredictor.None? ==> r == PredictionError([], NoCsvPredictor)
    ensures b.source == "csv" && b.csvPredictor.Some? ==>
      (r.FromCsv? <==> CsvPredictor.Predict(b.csvPredictor.value, idx).Success?)
    ensures b.source == "api" ==> (r.FromApi? <==> apiCall.Success?)
    ensures b.source == "api" && apiCall.Failure? ==> r == PredictionError([], apiCall.error)
  {
    if b.source == "csv" then
      match b.csvPredictor
      case None => PredictionError([], NoCsvPredictor)
      case Some(p) =>
        match CsvPredictor.Predict(p, idx)
        case Success(reply) => FromCsv(reply)
        case Failure(e) => PredictionError([], e)
    else if b.source == "api" then
      match apiCall
      case Success(a) => FromApi(a)
      case Failure(e) => PredictionError([], e)
    else PredictionError([], "Unknown prediction source: " + b.source)
  }
}
