/**
 * The pipeline plugin's scheduling cycle: a latency gate per portfolio,
 * per-portfolio and per-asset error containment, at most one order per
 * asset, and the cycle statistics.
 */
module Pipeline {
  import opened Wrappers
  import Decimal
  import Counting

  /** Which plugins the pipeline was given. */
  datatype Plugins = Plugins(portfolio: bool, strategy: bool, broker: bool)

  datatype Portfolio = Portfolio(id: nat, lastExecution: Option<real>, latencyMinutes: Option<real>)

  /** The latency that applies: the portfolio's own unless it is missing or zero. */
  function EffectiveLatency(p: Portfolio, globalLatency: real): (l: real)
    ensures p.latencyMinutes.Some? && p.latencyMinutes.value != 0.0 ==> l == p.latencyMinutes.value
    ensures p.latencyMinutes.None? || p.latencyMinutes.value == 0.0 ==> l == globalLatency
  {
    match p.latencyMinutes
    case Some(m) => if m != 0.0 then m else globalLatency
    case None => globalLatency
  }

  /**
   * `_should_execute_portfolio`: never run before means due; otherwise due
   * once at least the latency (in minutes) has elapsed, equality included.
   */
  function ShouldExecute(p: Portfolio, globalLatency: real, now: real): (due: bool)
    ensures p.lastExecution.None? ==> due
    ensures p.lastExecution.Some? ==> (due <==> now - p.lastExecution.value >= EffectiveLatency(p, globalLatency) * 60.0)
  {
    match p.lastExecution
    case None => true
    case Some(last) => now - last >= EffectiveLatency(p, globalLatency) * 60.0
  }

  /** Once due, a portfolio stays due as time passes. */
  lemma DueStaysDue(p: Portfolio, globalLatency: real, now: real, later: real)
    requires now <= later && ShouldExecute(p, globalLatency, now)
    ensures ShouldExecute(p, globalLatency, later)
  {
  }

  /** Just after it ran, a portfolio with a positive latency is not due. */
  lemma JustRunNotDue(p: Portfolio, globalLatency: real, now: real)
    requires EffectiveLatency(p, globalLatency) > 0.0
    ensures !ShouldExecute(p.(lastExecution := Some(now)), globalLatency, now)
  {
  }

  // ------------------------------------------------------------------
  // One asset
  // ------------------------------------------------------------------

  /** The parts of a strategy decision the pipeline reads; `None` is a missing key. */
  datatype Decision = Decision(action: Option<string>, quantity: Option<real>, price: Option<real>, orderType: Option<string>)

  /** The broker's answer to `open_order`. */
  datatype BrokerReply = BrokerReply(success: bool, orderId: Option<string>)

  /** Everything the environment decides for one asset in one cycle. */
  datatype AssetInput = AssetInput(
    id: nat,
    symbol: string,
    decision: Result<Decision, string>,
    hasOpenOrder: bool,
    broker: Result<BrokerReply, string>)

  datatype OrderRow = OrderRow(assetId: nat, portfolioId: nat, symbol: string, action: string, quantity: real,
                               price: real, orderType: string, status: string, brokerOrderId: Option<string>)

  datatype AssetResult = AssetResult(ordersCreated: nat, action: string, error: Option<string>, order: Option<OrderRow>)

  /** The placeholder market price the pipeline hands the strategy. */
  const DummyPrice: real := 1.0

  /** The asset would receive an order: a buy or sell decision, no open order, broker success. */
  predicate PlacesOrder(plugins: Plugins, a: AssetInput) {
    && plugins.strategy && plugins.broker
    && a.decision.Success?
    && a.decision.value.action.Some? && a.decision.value.action.value in ["buy", "sell"]
    && !a.hasOpenOrder
    && a.broker.Success? && a.broker.value.success
  }

  /**
   * `_execute_asset`: never raises; creates at most one order, and only for
   * a buy or sell decision on an asset without an open order that the
   * broker accepts.
   */
  function ExecuteAsset(plugins: Plugins, portfolioId: nat, a: AssetInput): (r: AssetResult)
    ensures !plugins.strategy ==> r == AssetResult(0, "none", Some("Strategy plugin not available"), None)
    ensures plugins.strategy && !plugins.broker ==> r == AssetResult(0, "none", Some("Broker plugin not available"), None)
    ensures r.ordersCreated <= 1
    ensures r.ordersCreated == 1 <==> PlacesOrder(plugins, a)
    ensures r.order.Some? <==> r.ordersCreated == 1
    ensures r.ordersCreated == 1 ==>
      var d := a.decision.value;
      && r.action == d.action.value
      && r.order == Some(OrderRow(a.id, portfolioId, a.symbol, d.action.value, d.quantity.GetOr(1.0),
                                  d.price.GetOr(DummyPrice), d.orderType.GetOr("market"), "open", a.broker.value.orderId))
  {
    if !plugins.strategy then AssetResult(0, "none", Some("Strategy plugin not available"), None)
    else if !plugins.broker then AssetResult(0, "none", Some("Broker plugin not available"), None)
    else
      match a.decision
      case Failure(e) => AssetResult(0, "none", Some(e), None)
      case Success(d) =>
        if d.action == Some("none") || a.hasOpenOrder || d.action.None? || d.action.value !in ["buy", "sell"] then
          AssetResult(0, "none", None, None)
        else
          match a.broker
          case Failure(e) => AssetResult(0, "none", Some(e), None)
          case Success(reply) =>
            if !reply.success then AssetResult(0, "none", None, None)
            else
              var order := OrderRow(a.id, portfolioId, a.symbol, d.action.value, d.quantity.GetOr(1.0),
                                    d.price.GetOr(DummyPrice), d.orderType.GetOr("market"), "open", reply.orderId);
              AssetResult(1, d.action.value, None, Some(order))
  }

  // ------------------------------------------------------------------
  // One portfolio
  // ------------------------------------------------------------------

  datatype PortfolioResult = PortfolioResult(
    ordersCreated: nat,
    assetsProcessed: nat,
    errors: seq<string>,
    error: Option<string>,
    orders: seq<OrderRow>)

  /** The asset loop: each asset is processed and its order, if any, collected. */
  function ExecuteAssets(plugins: Plugins, portfolioId: nat, assets: seq<AssetInput>): (r: PortfolioResult)
    ensures r.assetsProcessed == |assets|
    ensures r.ordersCreated == |r.orders| <= |assets|
    ensures r.errors == [] && r.error.None?
    ensures forall i :: 0 <= i < |assets| && PlacesOrder(plugins, assets[i]) ==>
      ExecuteAsset(plugins, portfolioId, assets[i]).order.value in r.orders
    ensures (forall i :: 0 <= i < |assets| ==> !PlacesOrder(plugins, assets[i])) ==> r.orders == []
  {
    if assets == [] then PortfolioResult(0, 0, [], None, [])
    else
      var rest := ExecuteAssets(plugins, portfolioId, assets[1..]);
      assert forall i :: 1 <= i < |assets| ==> assets[i] == assets[1..][i - 1];
      var head := ExecuteAsset(plugins, portfolioId, assets[0]);
      var mine := if head.order.Some? then [head.order.value] else [];
      PortfolioResult(head.ordersCreated + rest.ordersCreated, rest.assetsProcessed + 1, [], None, mine + rest.orders)
  }

  /** Every collected order is the order of an asset that places one. */
  lemma {:induction false} OrdersFromPlacingAssets(plugins: Plugins, portfolioId: nat, assets: seq<AssetInput>)
    ensures forall o :: o in ExecuteAssets(plugins, portfolioId, assets).orders ==>
      exists i :: 0 <= i < |assets| && PlacesOrder(plugins, assets[i]) && ExecuteAsset(plugins, portfolioId, assets[i]).order == Some(o)
  {
    if assets != [] {
      OrdersFromPlacingAssets(plugins, portfolioId, assets[1..]);
      var head := ExecuteAsset(plugins, portfolioId, assets[0]);
      var rest := ExecuteAssets(plugins, portfolioId, assets[1..]);
      var mine := if head.order.Some? then [head.order.value] else [];
      assert ExecuteAssets(plugins, portfolioId, assets).orders == mine + rest.orders;
      forall o | o in mine + rest.orders
        ensures exists i :: 0 <= i < |assets| && PlacesOrder(plugins, assets[i]) && ExecuteAsset(plugins, portfolioId, assets[i]).order == Some(o)
      {
        if o in mine {
          assert ExecuteAsset(plugins, portfolioId, assets[0]).order == Some(o);
        } else {
          var j :| 0 <= j < |assets[1..]| && PlacesOrder(plugins, assets[1..][j])
                   && ExecuteAsset(plugins, portfolioId, assets[1..][j]).order == Some(o);
          assert assets[1..][j] == assets[j + 1];
        }
      }
    }
  }

  lemma OrdersPrepend(plugins: Plugins, portfolioId: nat, assets: seq<AssetInput>)
    requires assets != []
    ensures |ExecuteAssets(plugins, portfolioId, assets).orders|
      == (if PlacesOrder(plugins, assets[0]) then 1 else 0) + |ExecuteAssets(plugins, portfolioId, assets[1..]).orders|
  {
    var head := ExecuteAsset(plugins, portfolioId, assets[0]);
    var rest := ExecuteAssets(plugins, portfolioId, assets[1..]);
    assert |ExecuteAssets(plugins, portfolioId, assets).orders| == head.ordersCreated + |rest.orders|;
  }

  /** Counting the assets that place an order, one asset at a time. */
  lemma PlacingPrepend(plugins: Plugins, assets: seq<AssetInput>)
    requires assets != []
    ensures |set i | 0 <= i < |assets| && PlacesOrder(plugins, assets[i])|
      == (if PlacesOrder(plugins, assets[0]) then 1 else 0)
         + |set i | 0 <= i < |assets[1..]| && PlacesOrder(plugins, assets[1..][i])|
  {
    var places := (a: AssetInput) => PlacesOrder(plugins, a);
    assert assets == [assets[0]] + assets[1..];
    Counting.PositionsPrepend(assets[0], assets[1..], places);
    assert Counting.Positions(assets, places) == set i | 0 <= i < |assets| && PlacesOrder(plugins, assets[i]);
    assert Counting.Positions(assets[1..], places) == set i | 0 <= i < |assets[1..]| && PlacesOrder(plugins, assets[1..][i]);
  }

  /** The number of orders is the number of assets that place one. */
  lemma {:induction false} ExecuteAssetsCounted(plugins: Plugins, portfolioId: nat, assets: seq<AssetInput>)
    ensures |ExecuteAssets(plugins, portfolioId, assets).orders| == |set i | 0 <= i < |assets| && PlacesOrder(plugins, assets[i])|
  {
    if assets != [] {
      ExecuteAssetsCounted(plugins, portfolioId, assets[1..]);
      OrdersPrepend(plugins, portfolioId, assets);
      PlacingPrepend(plugins, assets);
    }
  }


  /**
   * `_execute_portfolio`: without the portfolio plugin one error and nothing
   * processed; if listing or allocation raises, the error and nothing
   * processed; otherwise every asset is processed.
   */
  function ExecutePortfolio(plugins: Plugins, portfolioId: nat, allocation: Result<(), string>,
                            assets: seq<AssetInput>): (r: PortfolioResult)
    ensures !plugins.portfolio ==> r == PortfolioResult(0, 0, ["Portfolio plugin not available"], None, [])
    ensures plugins.portfolio && allocation.Failure? ==> r == PortfolioResult(0, 0, [], Some(allocation.error), [])
    ensures plugins.portfolio && allocation.Success? ==>
      r.assetsProcessed == |assets| && r.errors == [] && r.error.None?
    ensures r.ordersCreated == |r.orders| <= r.assetsProcessed
  {
    if !plugins.portfolio then PortfolioResult(0, 0, ["Portfolio plugin not available"], None, [])
    else
      match allocation
      case Failure(e) => PortfolioResult(0, 0, [], Some(e), [])
      case Success(_) => ExecuteAssets(plugins, portfolioId, assets)
  }

  // ------------------------------------------------------------------
  // The cycle
  // ------------------------------------------------------------------

  /** Where handling a portfolio may raise inside the cycle: before it runs, or in the final commit. */
  datatype Fault = NoFault | CheckRaises(msg: string) | CommitRaises(msg: string)

  datatype PortfolioInput = PortfolioInput(
    portfolio: Portfolio,
    fault: Fault,
    allocation: Result<(), string>,
    assets: seq<AssetInput>)

  /** `run`'s portfolio filter: a missing or zero id selects every portfolio. */
  predicate Selected(p: Portfolio, portfolioId: Option<nat>) {
    portfolioId.None? || portfolioId.value == 0 || p.id == portfolioId.value
  }

  /** The portfolio is selected, its check does not raise, and it is due. */
  predicate Executes(pi: PortfolioInput, portfolioId: Option<nat>, globalLatency: real, now: real) {
    Selected(pi.portfolio, portfolioId) && !pi.fault.CheckRaises? && ShouldExecute(pi.portfolio, globalLatency, now)
  }

  /** The portfolio's handling ends in an exception the loop catches. */
  predicate Raises(pi: PortfolioInput, portfolioId: Option<nat>, globalLatency: real, now: real) {
    Selected(pi.portfolio, portfolioId)
    && (pi.fault.CheckRaises? || (pi.fault.CommitRaises? && ShouldExecute(pi.portfolio, globalLatency, now)))
  }

  function PortfolioError(id: nat, msg: string): string {
    "Error executing portfolio " + Decimal.NatToString(id) + ": " + msg
  }

  datatype RunResult = RunResult(
    executed: nat,
    totalOrders: nat,
    errors: seq<string>,
    portfolios: seq<Portfolio>,
    stats: seq<(string, real)>,
    critical: Option<string>)

  /**
   * One iteration of `run`'s portfolio loop. A portfolio that executes is
   * counted and its orders added; its `last_execution` advances unless the
   * commit raises. Each exception becomes one error line.
   */
  function Step(pi: PortfolioInput, plugins: Plugins, portfolioId: Option<nat>, globalLatency: real, now: real): (r: RunResult)
    ensures r.stats == [] && r.critical.None?
    ensures r.portfolios == [if Executes(pi, portfolioId, globalLatency, now) && !pi.fault.CommitRaises?
                             then pi.portfolio.(lastExecution := Some(now)) else pi.portfolio]
    ensures r.errors == [] <==> !Raises(pi, portfolioId, globalLatency, now)
    ensures Raises(pi, portfolioId, globalLatency, now) ==> r.errors == [PortfolioError(pi.portfolio.id, pi.fault.msg)]
    ensures r.executed == (if Executes(pi, portfolioId, globalLatency, now) then 1 else 0)
    ensures !Executes(pi, portfolioId, globalLatency, now) ==> r.totalOrders == 0
    ensures Executes(pi, portfolioId, globalLatency, now) ==>
      r.totalOrders == ExecutePortfolio(plugins, pi.portfolio.id, pi.allocation, pi.assets).ordersCreated
  {
    var p := pi.portfolio;
    if !Selected(p, portfolioId) then RunResult(0, 0, [], [p], [], None)
    else
      match pi.fault
      case CheckRaises(msg) => RunResult(0, 0, [PortfolioError(p.id, msg)], [p], [], None)
      case NoFault =>
        if !ShouldExecute(p, globalLatency, now) then RunResult(0, 0, [], [p], [], None)
        else
          var res := ExecutePortfolio(plugins, p.id, pi.allocation, pi.assets);
          RunResult(1, res.ordersCreated, [], [p.(lastExecution := Some(now))], [], None)
      case CommitRaises(msg) =>
        if !ShouldExecute(p, globalLatency, now) then RunResult(0, 0, [], [p], [], None)
        else
          var res := ExecutePortfolio(plugins, p.id, pi.allocation, pi.assets);
          RunResult(1, res.ordersCreated, [PortfolioError(p.id, msg)], [p], [], None)
  }

  function Combine(x: RunResult, y: RunResult): RunResult {
    RunResult(x.executed + y.executed, x.totalOrders + y.totalOrders, x.errors + y.errors,
              x.portfolios + y.portfolios, [], None)
  }

  lemma CombineAssociates(x: RunResult, y: RunResult, z: RunResult)
    ensures Combine(x, Combine(y, z)) == Combine(Combine(x, y), z)
  {
    assert x.errors + (y.errors + z.errors) == (x.errors + y.errors) + z.errors;
    assert x.portfolios + (y.portfolios + z.portfolios) == (x.portfolios + y.portfolios) + z.portfolios;
  }

  /** The portfolio loop of `run`, in order. */
  function RunLoop(ps: seq<PortfolioInput>, plugins: Plugins, portfolioId: Option<nat>, globalLatency: real,
                   now: real): (r: RunResult)
    ensures |r.portfolios| == |ps|
    ensures r.executed <= |ps| && |r.errors| <= |ps|
    ensures r.stats == [] && r.critical.None?
  {
    if ps == [] then RunResult(0, 0, [], [], [], None)
    else Combine(Step(ps[0], plugins, portfolioId, globalLatency, now), RunLoop(ps[1..], plugins, portfolioId, globalLatency, now))
  }

  /** Each portfolio's record advances exactly when it executed and its commit went through. */
  lemma {:induction false} RunLoopAdvances(ps: seq<PortfolioInput>, plugins: Plugins, portfolioId: Option<nat>,
                                           globalLatency: real, now: real)
    ensures forall i :: 0 <= i < |ps| ==>
      RunLoop(ps, plugins, portfolioId, globalLatency, now).portfolios[i]
        == (if Executes(ps[i], portfolioId, globalLatency, now) && !ps[i].fault.CommitRaises?
            then ps[i].portfolio.(lastExecution := Some(now)) else ps[i].portfolio)
  {
    if ps != [] {
      RunLoopAdvances(ps[1..], plugins, portfolioId, globalLatency, now);
      assert forall i :: 1 <= i < |ps| ==> ps[i] == ps[1..][i - 1];
    }
  }

  /** The cycle reports no error exactly when no portfolio's handling raised. */
  lemma {:induction false} RunLoopErrors(ps: seq<PortfolioInput>, plugins: Plugins, portfolioId: Option<nat>,
                                         globalLatency: real, now: real)
    ensures RunLoop(ps, plugins, portfolioId, globalLatency, now).errors == []
      <==> forall i :: 0 <= i < |ps| ==> !Raises(ps[i], portfolioId, globalLatency, now)
  {
    if ps != [] {
      RunLoopErrors(ps[1..], plugins, portfolioId, globalLatency, now);
      assert forall i :: 1 <= i < |ps| ==> ps[i] == ps[1..][i - 1];
    }
  }

  /** When nothing is due, nothing is executed and no order is counted. */
  lemma {:induction false} RunLoopIdle(ps: seq<PortfolioInput>, plugins: Plugins, portfolioId: Option<nat>,
                                       globalLatency: real, now: real)
    requires forall i :: 0 <= i < |ps| ==> !Executes(ps[i], portfolioId, globalLatency, now)
    ensures RunLoop(ps, plugins, portfolioId, globalLatency, now).executed == 0
    ensures RunLoop(ps, plugins, portfolioId, globalLatency, now).totalOrders == 0
  {
    if ps != [] {
      assert forall i :: 1 <= i < |ps[1..]| ==> ps[1..][i] == ps[i + 1];
      RunLoopIdle(ps[1..], plugins, portfolioId, globalLatency, now);
    }
  }

  /**
   * Portfolios do not influence each other: the loop over a concatenation
   * is the loops over the parts, added up.
   */
  lemma {:induction false} RunLoopSplits(a: seq<PortfolioInput>, b: seq<PortfolioInput>, plugins: Plugins,
                                         portfolioId: Option<nat>, globalLatency: real, now: real)
    ensures RunLoop(a + b, plugins, portfolioId, globalLatency, now)
      == Combine(RunLoop(a, plugins, portfolioId, globalLatency, now), RunLoop(b, plugins, portfolioId, globalLatency, now))
  {
    if a == [] {
      assert a + b == b;
    } else {
      assert (a + b)[1..] == a[1..] + b;
      assert (a + b)[0] == a[0];
      RunLoopSplits(a[1..], b, plugins, portfolioId, globalLatency, now);
      var h := Step(a[0], plugins, portfolioId, globalLatency, now);
      var rest := RunLoop(a[1..], plugins, portfolioId, globalLatency, now);
      var rb := RunLoop(b, plugins, portfolioId, globalLatency, now);
      assert RunLoop(a + b, plugins, portfolioId, globalLatency, now) == Combine(h, RunLoop(a[1..] + b, plugins, portfolioId, globalLatency, now));
      assert RunLoop(a, plugins, portfolioId, globalLatency, now) == Combine(h, rest);
      CombineAssociates(h, rest, rb);
    }
  }

  /** `_record_statistics`: exactly three entries, in this order. */
  function RecordStatistics(executed: nat, totalOrders: nat, errors: seq<string>): (stats: seq<(string, real)>)
    ensures |stats| == 3
    ensures stats[0] == ("portfolios_executed", executed as real)
    ensures stats[1] == ("total_orders", totalOrders as real)
    ensures stats[2] == ("errors_count", |errors| as real)
  {
    [("portfolios_executed", executed as real), ("total_orders", totalOrders as real), ("errors_count", |errors| as real)]
  }

  /**
   * `run`: a failure listing the portfolios is reported on its own;
   * otherwise the loop runs and, when enabled, the statistics are recorded.
   */
  function Run(listing: Result<seq<PortfolioInput>, string>, plugins: Plugins, portfolioId: Option<nat>,
               globalLatency: real, statisticsEnabled: bool, now: real): (r: RunResult)
    ensures listing.Failure? ==> r == RunResult(0, 0, [], [], [], Some(listing.error))
    ensures listing.Success? ==>
      && r.critical.None?
      && |r.portfolios| == |listing.value|
      && (statisticsEnabled ==> r.stats == RecordStatistics(r.executed, r.totalOrders, r.errors))
      && (!statisticsEnabled ==> r.stats == [])
      && (forall i :: 0 <= i < |listing.value| && !Selected(listing.value[i].portfolio, portfolioId) ==>
            r.portfolios[i] == listing.value[i].portfolio)
    ensures listing.Success? ==>
      var loop := RunLoop(listing.value, plugins, portfolioId, globalLatency, now);
      r.executed == loop.executed && r.totalOrders == loop.totalOrders && r.errors == loop.errors
        && r.portfolios == loop.portfolios
  {
    match listing
    case Failure(e) => RunResult(0, 0, [], [], [], Some(e))
    case Success(ps) =>
      var loop := RunLoop(ps, plugins, portfolioId, globalLatency, now);
      RunLoopAdvances(ps, plugins, portfolioId, globalLatency, now);
      if statisticsEnabled then loop.(stats := RecordStatistics(loop.executed, loop.totalOrders, loop.errors))
      else loop
  }
}
