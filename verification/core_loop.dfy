/**
 * The core plugin's trading loop: a latency gate per portfolio, capital
 * allocation, one strategy/broker round per asset, and the order and
 * position rows saved from each broker result.
 */
module CoreLoop {
  import opened Wrappers
  import Pipeline

  type Plugins = Pipeline.Plugins

  // ------------------------------------------------------------------
  // Stored rows
  // ------------------------------------------------------------------

  datatype OrderRow = OrderRow(
    id: nat, assetId: nat, orderType: string, side: Option<string>, quantity: Option<real>, price: Option<real>,
    stopLoss: Option<real>, takeProfit: Option<real>, status: string, brokerOrderId: Option<string>,
    brokerResponse: string)

  datatype PositionRow = PositionRow(
    id: nat, assetId: nat, orderId: nat, side: Option<string>, quantity: Option<real>, entryPrice: Option<real>,
    currentPrice: Option<real>, unrealizedPnl: real, realizedPnl: real, status: string,
    brokerPositionId: Option<string>)

  /** The order and position tables; row ids are assigned 1, 2, 3, ... in insertion order. */
  datatype Ledger = Ledger(orders: seq<OrderRow>, positions: seq<PositionRow>)

  ghost predicate Numbered(l: Ledger) {
    && (forall i :: 0 <= i < |l.orders| ==> l.orders[i].id == i + 1)
    && (forall i :: 0 <= i < |l.positions| ==> l.positions[i].id == i + 1)
  }

  /** `q` is `p` closed: only the status, current price and realized P&L differ. */
  predicate ClosedFrom(p: PositionRow, q: PositionRow) {
    && q.status == "closed"
    && q.id == p.id && q.assetId == p.assetId && q.orderId == p.orderId && q.side == p.side
    && q.quantity == p.quantity && q.entryPrice == p.entryPrice && q.unrealizedPnl == p.unrealizedPnl
    && q.brokerPositionId == p.brokerPositionId
  }

  /**
   * How the tables may change: orders are only appended, positions are
   * appended or closed in place, never removed.
   */
  ghost predicate Evolves(before: Ledger, after: Ledger) {
    && |before.orders| <= |after.orders| && after.orders[..|before.orders|] == before.orders
    && |before.positions| <= |after.positions|
    && (forall i :: 0 <= i < |before.positions| ==>
          after.positions[i] == before.positions[i] || ClosedFrom(before.positions[i], after.positions[i]))
  }

  lemma EvolvesTransitive(a: Ledger, b: Ledger, c: Ledger)
    requires Evolves(a, b) && Evolves(b, c)
    ensures Evolves(a, c)
  {
    assert c.orders[..|a.orders|] == c.orders[..|b.orders|][..|a.orders|];
    forall i | 0 <= i < |a.positions|
      ensures c.positions[i] == a.positions[i] || ClosedFrom(a.positions[i], c.positions[i])
    {
      ClosedFromTransitive(a.positions[i], b.positions[i], c.positions[i]);
    }
  }

  lemma ClosedFromTransitive(p: PositionRow, q: PositionRow, r: PositionRow)
    requires q == p || ClosedFrom(p, q)
    requires r == q || ClosedFrom(q, r)
    ensures r == p || ClosedFrom(p, r)
  {
  }

  // ------------------------------------------------------------------
  // Saving a broker result
  // ------------------------------------------------------------------

  /** The strategy's trade parameters, read with `.get`; `None` is a missing key. */
  datatype TradeParams = TradeParams(
    orderType: Option<string>, side: Option<string>, quantity: Option<real>, stopLoss: Option<real>,
    takeProfit: Option<real>, positionId: Option<nat>)

  /** The broker result's keys; `None` is a missing key. */
  datatype BrokerResult = BrokerResult(
    success: bool, executionPrice: Option<real>, brokerOrderId: Option<string>, brokerPositionId: Option<string>,
    brokerResponse: Option<string>, closePrice: Option<real>)

  /** Realized P&L of closing `qty` at `close`: the price gain for a buy, the price drop otherwise. */
  function Realized(side: Option<string>, entry: real, close: real, qty: real): (pnl: real)
    ensures side == Some("buy") ==> pnl == (close - entry) * qty
    ensures side != Some("buy") ==> pnl == -((close - entry) * qty)
  {
    if side == Some("buy") then (close - entry) * qty else (entry - close) * qty
  }

  /** A closing position earns exactly when the price moved its way (for a positive quantity). */
  lemma RealizedSign(side: Option<string>, entry: real, close: real, qty: real)
    requires qty > 0.0
    ensures side == Some("buy") ==> (Realized(side, entry, close, qty) > 0.0 <==> close > entry)
    ensures side != Some("buy") ==> (Realized(side, entry, close, qty) > 0.0 <==> close < entry)
  {
    var up := (close - entry) * qty;
    var down := (entry - close) * qty;
    assert down == -up;
    if close > entry {
      assert up > 0.0;
    } else if close < entry {
      assert down > 0.0;
    } else {
      assert up == 0.0;
    }
  }

  /** The close can go through: a non-zero id of a stored position, and every operand of the P&L present. */
  predicate Closable(l: Ledger, params: TradeParams, broker: BrokerResult) {
    && params.positionId.Some? && params.positionId.value != 0 && params.positionId.value <= |l.positions|
    && broker.closePrice.Some?
    && l.positions[params.positionId.value - 1].entryPrice.Some?
    && l.positions[params.positionId.value - 1].quantity.Some?
  }

  /**
   * `_save_trading_result`: a successful open stores a filled order and an
   * open position at the execution price; a successful close marks the
   * named position closed with its realized P&L. Any exception on the way
   * (missing broker response, missing price operand) rolls everything back.
   */
  function SaveTradingResult(l: Ledger, assetId: nat, action: string, params: TradeParams, broker: BrokerResult): (r: Ledger)
    requires Numbered(l)
    ensures Numbered(r) && Evolves(l, r)
    ensures action == "open" && broker.success && broker.brokerResponse.Some? ==>
      var oid := |l.orders| + 1;
      && r.orders == l.orders + [OrderRow(oid, assetId, params.orderType.GetOr("market"), params.side, params.quantity,
                                         broker.executionPrice, params.stopLoss, params.takeProfit, "filled",
                                         broker.brokerOrderId, broker.brokerResponse.value)]
      && |r.positions| == |l.positions| + 1
      && var pos := r.positions[|l.positions|];
         && pos.orderId == oid && pos.assetId == assetId && pos.status == "open"
         && pos.entryPrice == pos.currentPrice == broker.executionPrice
         && pos.unrealizedPnl == 0.0 && pos.realizedPnl == 0.0
         && pos.side == params.side && pos.quantity == params.quantity
    ensures action == "close" && broker.success && Closable(l, params, broker) ==>
      var k := params.positionId.value - 1;
      var p := l.positions[k];
      && r.orders == l.orders && |r.positions| == |l.positions|
      && ClosedFrom(p, r.positions[k])
      && r.positions[k].currentPrice == broker.closePrice
      && r.positions[k].realizedPnl == Realized(p.side, p.entryPrice.value, broker.closePrice.value, p.quantity.value)
      && (forall j :: 0 <= j < |l.positions| && j != k ==> r.positions[j] == l.positions[j])
    ensures (!(action == "open" && broker.success && broker.brokerResponse.Some?)
             && !(action == "close" && broker.success && Closable(l, params, broker))) ==> r == l
  {
    if action == "open" && broker.success then
      match broker.brokerResponse
      case None => l
      case Some(response) =>
        var oid := |l.orders| + 1;
        var order := OrderRow(oid, assetId, params.orderType.GetOr("market"), params.side, params.quantity,
                              broker.executionPrice, params.stopLoss, params.takeProfit, "filled",
                              broker.brokerOrderId, response);
        var pos := PositionRow(|l.positions| + 1, assetId, oid, params.side, params.quantity, broker.executionPrice,
                               broker.executionPrice, 0.0, 0.0, "open", broker.brokerPositionId);
        var r := Ledger(l.orders + [order], l.positions + [pos]);
        assert r.orders[..|l.orders|] == l.orders;
        r
    else if action == "close" && broker.success && Closable(l, params, broker) then
      var k := params.positionId.value - 1;
      var p := l.positions[k];
      var pnl := Realized(p.side, p.entryPrice.value, broker.closePrice.value, p.quantity.value);
      var closed := p.(status := "closed", currentPrice := broker.closePrice, realizedPnl := pnl);
      var r := l.(positions := l.positions[k := closed]);
      assert r.orders[..|l.orders|] == l.orders;
      r
    else l
  }

  // ------------------------------------------------------------------
  // One asset
  // ------------------------------------------------------------------

  /** The strategy's answer; `None` is a missing key. */
  datatype StrategyResult = StrategyResult(action: Option<string>, parameters: Option<TradeParams>)

  /** What the environment decides for one asset: each plugin call may raise. */
  datatype AssetRun = AssetRun(strategy: Result<StrategyResult, string>, broker: Result<BrokerResult, string>)

  /** The broker is asked to execute: both plugins present, and a strategy answer that is not "none" with parameters. */
  predicate CallsBroker(plugins: Plugins, run: AssetRun) {
    && plugins.strategy && plugins.broker
    && run.strategy.Success?
    && run.strategy.value.action.Some? && run.strategy.value.action.value != "none"
    && run.strategy.value.parameters.Some?
  }

  /**
   * `_process_asset`: returns whether the broker was called and the tables
   * after saving its result; every exception leaves the tables as they were.
   */
  function ProcessAsset(l: Ledger, plugins: Plugins, assetId: nat, run: AssetRun): (r: (bool, Ledger))
    requires Numbered(l)
    ensures Numbered(r.1) && Evolves(l, r.1)
    ensures r.0 <==> CallsBroker(plugins, run)
    ensures !CallsBroker(plugins, run) || run.broker.Failure? ==> r.1 == l
    ensures CallsBroker(plugins, run) && run.broker.Success? ==>
      r.1 == SaveTradingResult(l, assetId, run.strategy.value.action.value, run.strategy.value.parameters.value,
                               run.broker.value)
  {
    if !CallsBroker(plugins, run) then (false, l)
    else
      var s := run.strategy.value;
      match run.broker
      case Failure(_) => (true, l)
      case Success(b) => (true, SaveTradingResult(l, assetId, s.action.value, s.parameters.value, b))
  }

  // ------------------------------------------------------------------
  // One portfolio
  // ------------------------------------------------------------------

  datatype Portfolio = Portfolio(id: nat, lastExecution: Option<real>, latencyMinutes: real)

  datatype AssetRow = AssetRow(id: nat, symbol: string, allocatedCapital: Option<real>)

  datatype ActiveAsset = ActiveAsset(row: AssetRow, run: AssetRun)

  /** A portfolio's work for one loop: its active assets and what allocation returns. */
  datatype PortfolioJob = PortfolioJob(portfolio: Portfolio, assets: seq<ActiveAsset>, allocation: Result<map<nat, real>, string>)

  datatype Outcome = Skipped | NoPortfolioPlugin | NoActiveAssets | Processed

  /** Skip rule: already run and fewer minutes elapsed than the latency; equality runs. */
  predicate TooSoon(p: Portfolio, now: real) {
    p.lastExecution.Some? && (now - p.lastExecution.value) / 60.0 < p.latencyMinutes
  }

  /** Stores the allocated capital of every asset the allocation names. */
  function Allocate(assets: seq<ActiveAsset>, allocation: map<nat, real>): (r: seq<ActiveAsset>)
    ensures |r| == |assets|
    ensures forall i :: 0 <= i < |assets| ==>
      r[i] == (if assets[i].row.id in allocation
               then assets[i].(row := assets[i].row.(allocatedCapital := Some(allocation[assets[i].row.id])))
               else assets[i])
  {
    seq(|assets|, i requires 0 <= i < |assets| =>
      if assets[i].row.id in allocation
      then assets[i].(row := assets[i].row.(allocatedCapital := Some(allocation[assets[i].row.id])))
      else assets[i])
  }

  /** The asset loop: each asset is processed in turn against the tables left by the previous one. */
  function ProcessAssets(l: Ledger, plugins: Plugins, assets: seq<ActiveAsset>): (r: Ledger)
    requires Numbered(l)
    ensures Numbered(r) && Evolves(l, r)
    ensures (forall i :: 0 <= i < |assets| ==> !CallsBroker(plugins, assets[i].run)) ==> r == l
    decreases |assets|
  {
    if assets == [] then l
    else
      var l1 := ProcessAsset(l, plugins, assets[0].row.id, assets[0].run).1;
      assert forall i :: 1 <= i < |assets| ==> assets[1..][i - 1] == assets[i];
      var l2 := ProcessAssets(l1, plugins, assets[1..]);
      EvolvesTransitive(l, l1, l2);
      l2
  }

  /** The loop runs assets in turn: a split list runs its first part, then its second from where the first left the tables. */
  lemma {:induction false} ProcessAssetsSplit(l: Ledger, plugins: Plugins, a: seq<ActiveAsset>, b: seq<ActiveAsset>)
    requires Numbered(l)
    ensures ProcessAssets(l, plugins, a + b) == ProcessAssets(ProcessAssets(l, plugins, a), plugins, b)
    decreases |a|
  {
    if a == [] {
      assert a + b == b;
    } else {
      assert (a + b)[0] == a[0];
      assert (a + b)[1..] == a[1..] + b;
      var l1 := ProcessAsset(l, plugins, a[0].row.id, a[0].run).1;
      ProcessAssetsSplit(l1, plugins, a[1..], b);
    }
  }

  /** A single asset is processed exactly as `_process_asset` processes it. */
  lemma ProcessAssetsSingle(l: Ledger, plugins: Plugins, x: ActiveAsset)
    requires Numbered(l)
    ensures ProcessAssets(l, plugins, [x]) == ProcessAsset(l, plugins, x.row.id, x.run).1
  {
    assert [x][1..] == [];
  }

  /**
   * One asset's failure does not stop the loop: an asset that does not reach
   * the broker, or whose broker call raises, leaves the tables to the next asset untouched.
   */
  lemma ProcessAssetsSkips(l: Ledger, plugins: Plugins, x: ActiveAsset, rest: seq<ActiveAsset>)
    requires Numbered(l)
    requires !CallsBroker(plugins, x.run) || x.run.broker.Failure?
    ensures ProcessAssets(l, plugins, [x] + rest) == ProcessAssets(l, plugins, rest)
  {
    assert ([x] + rest)[0] == x;
    assert ([x] + rest)[1..] == rest;
  }

  datatype PortfolioState = PortfolioState(portfolio: Portfolio, assets: seq<ActiveAsset>, ledger: Ledger, outcome: Outcome)

  /**
   * `_process_portfolio`: skipped when too soon; stops without advancing the
   * clock when the portfolio plugin or the active assets are missing; an
   * allocation error is swallowed; otherwise every asset is processed and
   * `last_execution` becomes `now`.
   */
  function ProcessPortfolio(l: Ledger, plugins: Plugins, job: PortfolioJob, now: real): (r: PortfolioState)
    requires Numbered(l)
    ensures Numbered(r.ledger) && Evolves(l, r.ledger)
    ensures r.outcome == Skipped <==> TooSoon(job.portfolio, now)
    ensures r.outcome != Processed ==> r == PortfolioState(job.portfolio, job.assets, l, r.outcome)
    ensures r.outcome == NoPortfolioPlugin <==> !TooSoon(job.portfolio, now) && !plugins.portfolio
    ensures r.outcome == NoActiveAssets <==> !TooSoon(job.portfolio, now) && plugins.portfolio && job.assets == []
    ensures r.outcome == Processed ==>
      && r.portfolio == job.portfolio.(lastExecution := Some(now))
      && r.assets == (if job.allocation.Success? then Allocate(job.assets, job.allocation.value) else job.assets)
      && r.ledger == ProcessAssets(l, plugins, r.assets)
  {
    if TooSoon(job.portfolio, now) then PortfolioState(job.portfolio, job.assets, l, Skipped)
    else if !plugins.portfolio then PortfolioState(job.portfolio, job.assets, l, NoPortfolioPlugin)
    else if job.assets == [] then PortfolioState(job.portfolio, job.assets, l, NoActiveAssets)
    else
      var assets := match job.allocation
                    case Success(m) => Allocate(job.assets, m)
                    case Failure(_) => job.assets;
      PortfolioState(job.portfolio.(lastExecution := Some(now)), assets, ProcessAssets(l, plugins, assets), Processed)
  }

  /** An allocation touches only capital: ids, symbols and strategy runs stay as they were. */
  lemma AllocationOnlySetsCapital(assets: seq<ActiveAsset>, allocation: map<nat, real>, i: nat)
    requires i < |assets|
    ensures Allocate(assets, allocation)[i].run == assets[i].run
    ensures Allocate(assets, allocation)[i].row.(allocatedCapital := assets[i].row.allocatedCapital) == assets[i].row
  {
  }

  // ------------------------------------------------------------------
  // The loop
  // ------------------------------------------------------------------

  /** `execute_trading_loop`'s fold over the portfolios, threading the tables. */
  function RunPortfolios(l: Ledger, plugins: Plugins, jobs: seq<PortfolioJob>, now: real): (r: (seq<PortfolioState>, Ledger))
    requires Numbered(l)
    ensures |r.0| == |jobs|
    ensures Numbered(r.1) && Evolves(l, r.1)
    ensures forall i :: 0 <= i < |jobs| ==>
      (r.0[i].outcome == Skipped <==> TooSoon(jobs[i].portfolio, now))
      && (r.0[i].outcome == Processed ==> r.0[i].portfolio.lastExecution == Some(now))
      && (r.0[i].outcome != Processed ==> r.0[i].portfolio == jobs[i].portfolio)
    decreases |jobs|
  {
    if jobs == [] then ([], l)
    else
      var s := ProcessPortfolio(l, plugins, jobs[0], now);
      var (rest, l2) := RunPortfolios(s.ledger, plugins, jobs[1..], now);
      assert forall i :: 1 <= i < |jobs| ==> jobs[1..][i - 1] == jobs[i];
      EvolvesTransitive(l, s.ledger, l2);
      ([s] + rest, l2)
  }

  /** `execute_trading_loop`: a failure listing the portfolios changes nothing. */
  function ExecuteTradingLoop(l: Ledger, plugins: Plugins, listing: Result<seq<PortfolioJob>, string>, now: real): (r: (seq<PortfolioState>, Ledger))
    requires Numbered(l)
    ensures Numbered(r.1) && Evolves(l, r.1)
    ensures listing.Failure? ==> r == ([], l)
    ensures listing.Success? ==> r == RunPortfolios(l, plugins, listing.value, now)
  {
    match listing
    case Failure(_) => ([], l)
    case Success(jobs) => RunPortfolios(l, plugins, jobs, now)
  }
}
