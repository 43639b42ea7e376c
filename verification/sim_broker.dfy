/**
 * The stand-alone simulation broker: cost model, order execution against a
 * preloaded bar series, stop-loss / take-profit checks and the full run.
 *
 * All prices and amounts are exact reals; time stamps are seconds.
 */
module SimBroker {
  import opened Wrappers
  import opened Sums
  import opened SimLedger
  import Decimal
  import PySlice

  const SecondsPerDay: real := 86400.0

  /** The broker's plugin parameters that drive the simulation. */
  datatype Params = Params(
    initialCash: real,
    leverage: real,
    spreadPips: real,
    commissionPerLot: real,
    slippagePips: real,
    swapPerLotDay: real,
    pipValue: real,
    lotSize: real,
    instrument: string)

  const DefaultParams: Params := Params(10000.0, 100.0, 2.0, 7.0, 1.0, 10.0, 0.0001, 100000.0, "EUR_USD")

  /** One OHLC bar; `time` is the bar's time stamp in seconds. */
  datatype Bar = Bar(time: real, open: real, high: real, low: real, close: real)

  /** The broker's whole state. */
  datatype Broker = Broker(
    params: Params,
    cash: real,
    equity: real,
    history: seq<ClosedTrade>,
    open: seq<Trade>,
    nextId: nat,
    bars: seq<Bar>,
    barIdx: nat)

  /**
   * The states the broker can reach: a non-zero pip value (the close path
   * divides by it), distinct open-trade ids, and every open id spelled from
   * a counter value already handed out.
   */
  ghost predicate Valid(b: Broker) {
    && b.params.pipValue != 0.0
    && DistinctIds(b.open)
    && (forall i :: 0 <= i < |b.open| ==> Decimal.StringToNat(b.open[i].id) < b.nextId)
  }

  function OpenCommission(t: Trade): real { t.commission }
  function ClosedCommission(c: ClosedTrade): real { c.trade.commission }
  function NetPnl(c: ClosedTrade): real { c.netPnl }
  function Swap(c: ClosedTrade): real { c.swap }

  /**
   * Cash accounting: the balance is the starting cash, less every commission
   * paid on opening (closed or still open trades), plus every realized net P&L.
   */
  ghost predicate Books(b: Broker) {
    b.cash == b.params.initialCash - Sum(b.history, ClosedCommission) - Sum(b.open, OpenCommission) + Sum(b.history, NetPnl)
  }

  /** A freshly constructed broker with `bars` loaded. */
  function Init(params: Params, bars: seq<Bar>): (b: Broker)
    requires params.pipValue != 0.0
    ensures Valid(b) && Books(b)
    ensures b.cash == b.equity == params.initialCash
    ensures b.open == [] && b.history == [] && b.nextId == 1 && b.barIdx == 0
  {
    Broker(params, params.initialCash, params.initialCash, [], [], 1, bars, 0)
  }

  // ------------------------------------------------------------------
  // Cost helpers
  // ------------------------------------------------------------------

  /** Spread in price units: the spread in pips converted at the pip value; the volume argument is accepted and ignored. */
  function SpreadCost(p: Params, volumeLots: real): (c: real)
    ensures p.pipValue != 0.0 ==> c / p.pipValue == p.spreadPips
    ensures c == 0.0 <==> p.spreadPips == 0.0 || p.pipValue == 0.0
  {
    p.spreadPips * p.pipValue
  }

  /** Slippage in price units: the slippage in pips converted at the pip value. */
  function SlippageCost(p: Params): (c: real)
    ensures p.pipValue != 0.0 ==> c / p.pipValue == p.slippagePips
    ensures c == 0.0 <==> p.slippagePips == 0.0 || p.pipValue == 0.0
  {
    p.slippagePips * p.pipValue
  }

  /** Commission: the per-lot rate for every lot traded. */
  function Commission(p: Params, volumeLots: real): (c: real)
    ensures volumeLots != 0.0 ==> c / volumeLots == p.commissionPerLot
    ensures c == 0.0 <==> p.commissionPerLot == 0.0 || volumeLots == 0.0
  {
    p.commissionPerLot * volumeLots
  }

  /** Swap: the per-lot daily rate for every lot and every day held. */
  function SwapCost(p: Params, volumeLots: real, days: real): (c: real)
    ensures volumeLots * days != 0.0 ==> c / (volumeLots * days) == p.swapPerLotDay
    ensures c == 0.0 <==> p.swapPerLotDay == 0.0 || volumeLots == 0.0 || days == 0.0
  {
    p.swapPerLotDay * volumeLots * days
  }

  /** The spread does not depend on the volume traded. */
  lemma SpreadIgnoresVolume(p: Params, v1: real, v2: real)
    ensures SpreadCost(p, v1) == SpreadCost(p, v2)
  {
  }

  /** The per-lot charges grow linearly: commission in lots, swap in lots and in days held. */
  lemma CostsAreLinear(p: Params, v1: real, v2: real, d1: real, d2: real)
    ensures Commission(p, v1 + v2) == Commission(p, v1) + Commission(p, v2)
    ensures SwapCost(p, v1 + v2, d1) == SwapCost(p, v1, d1) + SwapCost(p, v2, d1)
    ensures SwapCost(p, v1, d1 + d2) == SwapCost(p, v1, d1) + SwapCost(p, v1, d2)
    ensures SwapCost(p, v1, 0.0) == 0.0 && Commission(p, 0.0) == 0.0
  {
  }

  /** Price distance added to a buy and taken off a sell on entry. */
  function EntryCost(p: Params, volumeLots: real): real {
    SpreadCost(p, volumeLots) + SlippageCost(p)
  }

  /** Entry fill: a buy pays the costs above the mark, anything else receives the mark less the costs. */
  function FillPrice(p: Params, direction: string, volumeLots: real, mark: real): (e: real)
    ensures direction == "buy" ==> e - mark == EntryCost(p, volumeLots)
    ensures direction != "buy" ==> mark - e == EntryCost(p, volumeLots)
    ensures EntryCost(p, volumeLots) > 0.0 ==> (e > mark <==> direction == "buy")
    ensures EntryCost(p, volumeLots) > 0.0 ==> (e < mark <==> direction != "buy")
  {
    var slip := SpreadCost(p, volumeLots) + SlippageCost(p);
    if direction == "buy" then mark + slip else mark - slip
  }

  function Max0(x: real): real {
    if x >= 0.0 then x else 0.0
  }

  // ------------------------------------------------------------------
  // Clock helpers
  // ------------------------------------------------------------------

  function CurrentBar(b: Broker): Option<Bar> {
    if b.barIdx < |b.bars| then Some(b.bars[b.barIdx]) else None
  }

  /** The given price, else the current bar's close. */
  function MarkOr(b: Broker, price: Option<real>): Option<real> {
    match price
    case Some(x) => Some(x)
    case None =>
      match CurrentBar(b)
      case Some(bar) => Some(bar.close)
      case None => None
  }

  /** The given time stamp, else the current bar's time, else the clock. */
  function StampOr(b: Broker, timestamp: Option<real>, now: real): real {
    match timestamp
    case Some(t) => t
    case None =>
      match CurrentBar(b)
      case Some(bar) => bar.time
      case None => now
  }

  function TradeId(n: nat): string {
    Decimal.NatToString(n)
  }

  // ------------------------------------------------------------------
  // Equity
  // ------------------------------------------------------------------

  /** Mark-to-market P&L of one open trade at `price`. */
  function TradeMark(t: Trade, price: real, lotSize: real): real {
    if t.direction == "buy" then (price - t.entryPrice) * (t.volume * lotSize)
    else (t.entryPrice - price) * (t.volume * lotSize)
  }

  /** Total mark-to-market P&L of `open` at `price`. */
  function MarkToMarket(open: seq<Trade>, price: real, lotSize: real): real {
    if open == [] then 0.0
    else MarkToMarket(open[..|open| - 1], price, lotSize) + TradeMark(open[|open| - 1], price, lotSize)
  }

  /** Unrealized P&L of all open trades at the current bar's close, zero without a bar. */
  function Unrealized(b: Broker): real {
    match CurrentBar(b)
    case Some(bar) => MarkToMarket(b.open, bar.close, b.params.lotSize)
    case None => 0.0
  }

  /** `_update_equity`: equity is cash plus unrealized P&L; nothing else changes. */
  function UpdateEquity(b: Broker): (r: Broker)
    ensures r.(equity := b.equity) == b
    ensures r.equity - r.cash == Unrealized(b)
    ensures b.open == [] ==> r.equity == r.cash
  {
    b.(equity := b.cash + Unrealized(b))
  }

  // ------------------------------------------------------------------
  // Orders
  // ------------------------------------------------------------------

  datatype OpenReply = Opened(orderId: string, entryPrice: real) | OpenRejected(error: string)

  /**
   * `open_order`: fills at the mark adjusted by spread and slippage, charges
   * the commission at once, and files the trade under the next counter value.
   */
  function OpenOrder(b: Broker, instrument: string, direction: string, volume: real,
                     tp: Option<real>, sl: Option<real>, price: Option<real>,
                     timestamp: Option<real>, now: real): (r: (OpenReply, Broker))
    requires Valid(b)
    ensures Valid(r.1)
    ensures MarkOr(b, price).None? ==> r == (OpenRejected("No price available"), b)
    ensures MarkOr(b, price).Some? ==>
      var id := TradeId(b.nextId);
      var mark := MarkOr(b, price).value;
      var entry := FillPrice(b.params, direction, volume, mark);
      && r.0 == Opened(id, entry)
      && Find(b.open, id).None?
      && r.1.open == b.open + [Trade(id, instrument, direction, volume, entry, mark, tp, sl,
                                     StampOr(b, timestamp, now), b.params.commissionPerLot * volume)]
      && r.1.cash == b.cash - b.params.commissionPerLot * volume
      && r.1.nextId == b.nextId + 1
      && r.1.(cash := b.cash, open := b.open, nextId := b.nextId) == b
    ensures Books(b) ==> Books(r.1)
  {
    match MarkOr(b, price)
    case None => (OpenRejected("No price available"), b)
    case Some(mark) =>
      var entry := FillPrice(b.params, direction, volume, mark);
      var comm := Commission(b.params, volume);
      var id := TradeId(b.nextId);
      var trade := Trade(id, instrument, direction, volume, entry, mark, tp, sl, StampOr(b, timestamp, now), comm);
      var b' := b.(cash := b.cash - comm, open := Put(b.open, trade), nextId := b.nextId + 1);
      Admitted(b, trade, b');
      assert MarkOr(b, price).value == mark;
      assert comm == b.params.commissionPerLot * volume;
      assert b'.open == b.open + [trade];
      (Opened(id, entry), b')
  }

  /** The next counter value spells an id that no open trade has. */
  lemma FreshId(b: Broker)
    requires Valid(b)
    ensures Find(b.open, TradeId(b.nextId)).None?
    ensures forall i :: 0 <= i < |b.open| ==> b.open[i].id != TradeId(b.nextId)
  {
    Decimal.StringToNatOfNatToString(b.nextId);
  }

  /** Filing a trade under the fresh id appends it and keeps the invariants. */
  lemma Admitted(b: Broker, t: Trade, b': Broker)
    requires Valid(b) && t.id == TradeId(b.nextId)
    requires b' == b.(cash := b.cash - t.commission, open := Put(b.open, t), nextId := b.nextId + 1)
    ensures b'.open == b.open + [t]
    ensures Valid(b')
    ensures Books(b) ==> Books(b')
  {
    FreshId(b);
    Decimal.StringToNatOfNatToString(b.nextId);
    assert b'.open == b.open + [t];
    assert DistinctIds(b'.open);
    SumAppend(b.open, t, OpenCommission);
  }

  /** The ledger record of a trade closed at `price`. */
  function Settle(p: Params, t: Trade, price: real, closeTime: real, reason: string): (c: ClosedTrade)
    requires p.pipValue != 0.0
    ensures c.trade == t && c.closePrice == price && c.closeTime == closeTime && c.reason == reason
    ensures c.pnlUsd == (if t.direction == "buy" then price - t.entryPrice else t.entryPrice - price) * t.volume * p.lotSize
    ensures c.swap == p.swapPerLotDay * t.volume * Max0((closeTime - t.openTime) / SecondsPerDay)
    ensures c.netPnl == c.pnlUsd - c.swap
  {
    var move := if t.direction == "buy" then price - t.entryPrice else t.entryPrice - price;
    var pnlPips := move / p.pipValue;
    var units := t.volume * p.lotSize;
    var pnlUsd := pnlPips * p.pipValue * units;
    assert pnlPips * p.pipValue == move;
    var swap := SwapCost(p, t.volume, Max0((closeTime - t.openTime) / SecondsPerDay));
    ClosedTrade(t, price, closeTime, reason, pnlPips, pnlUsd, swap, pnlUsd - swap)
  }

  datatype CloseReply = ClosedOk(closed: ClosedTrade) | CloseRejected(error: string)

  /**
   * `close_order`: pops the trade first, then looks for a price; a close that
   * finds no price has still dropped the trade.
   */
  function CloseOrder(b: Broker, orderId: string, price: Option<real>, reason: string,
                      timestamp: Option<real>, now: real): (r: (CloseReply, Broker))
    requires Valid(b)
    ensures Valid(r.1)
    ensures r.1.bars == b.bars && r.1.barIdx == b.barIdx && r.1.nextId == b.nextId && r.1.params == b.params
    ensures Find(b.open, orderId).None? ==> r == (CloseRejected("Trade " + orderId + " not found"), b)
    ensures Find(b.open, orderId).Some? ==> r.1.open == Remove(b.open, orderId)
    ensures Find(b.open, orderId).Some? && MarkOr(b, price).None? ==>
      r == (CloseRejected("No price available"), b.(open := Remove(b.open, orderId)))
    ensures Find(b.open, orderId).Some? && MarkOr(b, price).Some? ==>
      && r.0 == ClosedOk(Settle(b.params, Find(b.open, orderId).value, MarkOr(b, price).value,
                                StampOr(b, timestamp, now), reason))
      && r.1.history == b.history + [r.0.closed]
      && r.1.cash == b.cash + r.0.closed.netPnl
      && r.1.equity == r.1.cash + Unrealized(r.1)
    ensures MarkOr(b, price).Some? && Books(b) ==> Books(r.1)
  {
    match IndexOf(b.open, orderId)
    case None => (CloseRejected("Trade " + orderId + " not found"), b)
    case Some(k) =>
      var t := b.open[k];
      var rest := Remove(b.open, orderId);
      assert rest == b.open[..k] + b.open[k + 1..];
      match MarkOr(b, price)
      case None => (CloseRejected("No price available"), b.(open := rest))
      case Some(mark) =>
        var c := Settle(b.params, t, mark, StampOr(b, timestamp, now), reason);
        var b' := b.(open := rest, cash := b.cash + c.netPnl, history := b.history + [c]);
        SumRemoveAt(b.open, k, OpenCommission);
        SumAppend(b.history, c, ClosedCommission);
        SumAppend(b.history, c, NetPnl);
        (ClosedOk(c), UpdateEquity(b'))
  }

  datatype ModifyReply = Modified | ModifyRejected(error: string)

  /** `modify_order`: replaces only the levels that are given. */
  function ModifyOrder(b: Broker, orderId: string, tp: Option<real>, sl: Option<real>): (r: (ModifyReply, Broker))
    requires Valid(b)
    ensures Valid(r.1)
    ensures Find(b.open, orderId).None? ==> r == (ModifyRejected("Trade " + orderId + " not found"), b)
    ensures Find(b.open, orderId).Some? ==>
      var t := Find(b.open, orderId).value;
      && r.0 == Modified
      && Find(r.1.open, orderId) == Some(t.(tp := if tp.Some? then tp else t.tp,
                                            sl := if sl.Some? then sl else t.sl))
      && (forall k :: k != orderId ==> Find(r.1.open, k) == Find(b.open, k))
      && Keys(r.1.open) == Keys(b.open)
      && r.1.(open := b.open) == b
    ensures Books(b) ==> Books(r.1)
  {
    match IndexOf(b.open, orderId)
    case None => (ModifyRejected("Trade " + orderId + " not found"), b)
    case Some(k) =>
      var t := b.open[k];
      var t' := t.(tp := if tp.Some? then tp else t.tp, sl := if sl.Some? then sl else t.sl);
      var open' := Put(b.open, t');
      assert open' == b.open[k := t'];
      assert forall i :: 0 <= i < |open'| ==> open'[i].id == b.open[i].id;
      SumReplaceAt(b.open, k, t', OpenCommission);
      (Modified, b.(open := open'))
  }

  datatype Quote = Quote(bid: real, ask: real, spread: real, instrument: string)

  /** `get_current_price`: a quote centred on the current close, one spread wide. */
  function GetCurrentPrice(b: Broker, instrument: Option<string>): (r: Result<Quote, string>)
    ensures CurrentBar(b).None? <==> r == Failure("No data")
    ensures r.Success? ==>
      && r.value.ask - r.value.bid == r.value.spread == b.params.spreadPips * b.params.pipValue
      && (r.value.bid + r.value.ask) / 2.0 == b.bars[b.barIdx].close
      && r.value.instrument == (if instrument.Some? && instrument.value != "" then instrument.value else b.params.instrument)
  {
    match CurrentBar(b)
    case None => Failure("No data")
    case Some(bar) =>
      var half := b.params.spreadPips * b.params.pipValue / 2.0;
      var name := if instrument.Some? && instrument.value != "" then instrument.value else b.params.instrument;
      Success(Quote(bar.close - half, bar.close + half, b.params.spreadPips * b.params.pipValue, name))
  }

  datatype AccountSummary = AccountSummary(balance: real, equity: real, margin: real, unrealizedPnl: real)

  /** `get_account_summary`: refreshes equity first; margin is always zero. */
  function GetAccountSummary(b: Broker): (r: (AccountSummary, Broker))
    ensures r.1.(equity := b.equity) == b
    ensures r.0.balance == b.cash && r.0.equity == r.1.equity && r.0.margin == 0.0
    ensures r.0.unrealizedPnl == Unrealized(b)
    ensures r.0.equity == r.0.balance + r.0.unrealizedPnl
  {
    var b' := UpdateEquity(b);
    (AccountSummary(b'.cash, b'.equity, 0.0, b'.equity - b'.cash), b')
  }

  /**
   * `get_trade_history(count)`, i.e. `history[-count:]`: the last `count`
   * closed trades for positive `count`, all of them for zero, and all but
   * the first `-count` for negative `count`.
   */
  function GetTradeHistory(b: Broker, count: int): (r: seq<ClosedTrade>)
    ensures count > 0 ==> r == b.history[|b.history| - (if count <= |b.history| then count else |b.history|)..]
    ensures count == 0 ==> r == b.history
    ensures count < 0 ==> r == b.history[(if -count <= |b.history| then -count else |b.history|)..]
  {
    PySlice.LastItems(b.history, count);
    PySlice.From(b.history, -count)
  }

  /** The keys of an `execute_order` parameter dict; `None` is a missing key. */
  datatype OrderRequest = OrderRequest(
    symbol: Option<string>,
    side: Option<string>,
    quantity: Option<real>,
    takeProfit: Option<real>,
    stopLoss: Option<real>,
    price: Option<real>,
    brokerOrderId: Option<string>,
    orderId: Option<string>,
    reason: Option<string>)

  datatype ExecReply = OpenResult(openReply: OpenReply) | CloseResult(closeReply: CloseReply) | UnknownAction(error: string)

  /** The trade a close request names: a non-empty broker order id, else the order id, else "". */
  function CloseTarget(req: OrderRequest): (id: string)
    ensures req.brokerOrderId.Some? && req.brokerOrderId.value != "" ==> id == req.brokerOrderId.value
    ensures (req.brokerOrderId.None? || req.brokerOrderId.value == "") && req.orderId.Some? ==> id == req.orderId.value
    ensures (req.brokerOrderId.None? || req.brokerOrderId.value == "") && req.orderId.None? ==> id == ""
  {
    match req.brokerOrderId
    case Some(x) => if x != "" then x else req.orderId.GetOr("")
    case None => req.orderId.GetOr("")
  }

  /**
   * `execute_order`: "open" opens with defaults (configured instrument,
   * "buy", 0.1 lots), "close" closes at the current bar with reason
   * "manual" by default, anything else is refused and changes nothing.
   */
  function ExecuteOrder(b: Broker, action: string, req: OrderRequest, now: real): (r: (ExecReply, Broker))
    requires Valid(b)
    ensures Valid(r.1)
    ensures action != "open" && action != "close" ==> r == (UnknownAction("Unknown action: " + action), b)
    ensures action == "open" ==>
      var o := OpenOrder(b, req.symbol.GetOr(b.params.instrument), req.side.GetOr("buy"), req.quantity.GetOr(0.1),
                         req.takeProfit, req.stopLoss, req.price, None, now);
      r == (OpenResult(o.0), o.1)
    ensures action == "close" ==>
      var c := CloseOrder(b, CloseTarget(req), None, req.reason.GetOr("manual"), None, now);
      r == (CloseResult(c.0), c.1)
    ensures Books(b) && (action != "close" || CurrentBar(b).Some?) ==> Books(r.1)
  {
    if action == "open" then
      var o := OpenOrder(b, req.symbol.GetOr(b.params.instrument), req.side.GetOr("buy"), req.quantity.GetOr(0.1),
                         req.takeProfit, req.stopLoss, req.price, None, now);
      (OpenResult(o.0), o.1)
    else if action == "close" then
      var c := CloseOrder(b, CloseTarget(req), None, req.reason.GetOr("manual"), None, now);
      (CloseResult(c.0), c.1)
    else
      (UnknownAction("Unknown action: " + action), b)
  }
}
