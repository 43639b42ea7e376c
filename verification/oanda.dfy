/**
 * The live OANDA broker's deterministic parts: the retry/backoff loop
 * around every request, the order body, the modification check, the
 * open-trade mapping and the action dispatch. Each request's outcome per
 * attempt is a parameter.
 */
module Oanda {
  import opened Wrappers

  /** The plugin parameters the requests read. */
  datatype Params = Params(instrument: string, maxRetries: int, retryBackoff: real)

  const DefaultParams := Params("EUR_USD", 3, 1.0)

  // ------------------------------------------------------------------
  // Retry loop
  // ------------------------------------------------------------------

  /** One attempt at a request: the endpoint's response, or the exception text. */
  datatype Attempt<T> = Responded(response: T) | Raised(error: string)

  /** What a request did: its result, how many attempts it made, and the sleeps between them. */
  datatype Trace<T> = Trace(result: Result<T, string>, attempts: nat, sleeps: seq<real>)

  /** Re-raising the initial `None` when no attempt was made is itself a TypeError. */
  const RaiseNoneError := "exceptions must derive from BaseException"

  function Pow2(n: nat): (r: nat)
    ensures r >= 1
  {
    if n == 0 then 1 else 2 * Pow2(n - 1)
  }

  /** The sleep after failed attempt `k`. */
  function Backoff(backoff: real, k: nat): real {
    backoff * Pow2(k) as real
  }

  /**
   * Attempts `k`, `k+1`, ... up to `limit`: the first response wins; after a
   * failure the loop sleeps unless that was the final attempt; when every
   * attempt failed, the last error is raised.
   */
  function Attempts<T>(outcome: nat -> Attempt<T>, k: nat, limit: nat, backoff: real, lastErr: string): (r: Trace<T>)
    requires k <= limit
    ensures k <= r.attempts <= limit
    ensures r.result.Failure? ==> r.attempts == limit
    ensures |r.sleeps| == (if r.attempts == k then 0 else r.attempts - 1 - k)
    decreases limit - k
  {
    if k == limit then Trace(Failure(lastErr), k, [])
    else
      match outcome(k)
      case Responded(v) => Trace(Success(v), k + 1, [])
      case Raised(e) =>
        var rest := Attempts(outcome, k + 1, limit, backoff, e);
        var pause := if k < limit - 1 then [Backoff(backoff, k)] else [];
        Trace(rest.result, rest.attempts, pause + rest.sleeps)
  }

  /** What `Attempts` returns: the first response, or the last error when every attempt raised. */
  lemma {:induction false} AttemptsFacts<T>(outcome: nat -> Attempt<T>, k: nat, limit: nat, backoff: real, lastErr: string)
    requires k <= limit
    ensures var r := Attempts(outcome, k, limit, backoff, lastErr);
      && (r.result.Success? <==> exists j :: k <= j < limit && outcome(j).Responded?)
      && (r.result.Success? ==>
            k < r.attempts && outcome(r.attempts - 1) == Responded(r.result.value)
            && forall j :: k <= j < r.attempts - 1 ==> outcome(j).Raised?)
      && (r.result.Failure? && k < limit ==> r.result.error == outcome(limit - 1).error)
      && (r.result.Failure? && k == limit ==> r.result.error == lastErr)
    decreases limit - k
  {
    if k < limit {
      match outcome(k)
      case Responded(v) =>
      case Raised(e) =>
        AttemptsFacts(outcome, k + 1, limit, backoff, e);
        var r := Attempts(outcome, k, limit, backoff, lastErr);
        var rest := Attempts(outcome, k + 1, limit, backoff, e);
        if r.result.Success? {
          forall j | k <= j < r.attempts - 1 ensures outcome(j).Raised? {
            if j > k { assert k + 1 <= j < rest.attempts - 1; }
          }
        } else {
          forall j | k <= j < limit ensures !outcome(j).Responded? {
            if j > k { assert k + 1 <= j < limit; }
          }
        }
    }
  }

  /** Sleep `i` lasts `backoff * 2^(k + i)` seconds. */
  predicate Doubling(sleeps: seq<real>, backoff: real, k: nat) {
    forall i :: 0 <= i < |sleeps| ==> sleeps[i] == Backoff(backoff, k + i)
  }

  /** The sleeps of `Attempts`: attempt `k + i`'s failure is followed by `backoff * 2^(k + i)` seconds. */
  lemma {:induction false} AttemptsSleeps<T>(outcome: nat -> Attempt<T>, k: nat, limit: nat, backoff: real, lastErr: string)
    requires k <= limit
    ensures Doubling(Attempts(outcome, k, limit, backoff, lastErr).sleeps, backoff, k)
    decreases limit - k
  {
    if k < limit {
      match outcome(k)
      case Responded(v) =>
      case Raised(e) =>
        AttemptsSleeps(outcome, k + 1, limit, backoff, e);
        var r := Attempts(outcome, k, limit, backoff, lastErr);
        var rest := Attempts(outcome, k + 1, limit, backoff, e);
        assert Doubling(rest.sleeps, backoff, k + 1);
        if k < limit - 1 {
          assert r.sleeps == [Backoff(backoff, k)] + rest.sleeps;
          forall i | 1 <= i < |r.sleeps| ensures r.sleeps[i] == Backoff(backoff, k + i) {
            assert r.sleeps[i] == rest.sleeps[i - 1];
            assert rest.sleeps[i - 1] == Backoff(backoff, (k + 1) + (i - 1));
          }
        } else {
          assert rest.attempts == k + 1;
          assert r.sleeps == rest.sleeps == [];
        }
    }
  }

  /** The attempt limit: the `retries` override when given, else `max_retries`. */
  function Limit(p: Params, retries: Option<int>): int {
    if retries.Some? then retries.value else p.maxRetries
  }

  /**
   * `_request`: at most `limit` attempts, the first success returned at
   * once, `retry_backoff * 2^n` seconds of sleep after failed attempt `n`
   * except the last, and the last error raised when all fail.
   */
  function Request<T>(p: Params, retries: Option<int>, outcome: nat -> Attempt<T>): (r: Trace<T>)
    ensures r.attempts <= if Limit(p, retries) > 0 then Limit(p, retries) else 0
    ensures r.result.Success? <==> exists j :: 0 <= j < Limit(p, retries) && outcome(j).Responded?
    ensures r.result.Success? ==>
      r.attempts >= 1 && outcome(r.attempts - 1) == Responded(r.result.value)
      && forall j :: 0 <= j < r.attempts - 1 ==> outcome(j).Raised?
    ensures r.result.Failure? && Limit(p, retries) > 0 ==>
      r.attempts == Limit(p, retries) && r.result.error == outcome(Limit(p, retries) - 1).error
    ensures Limit(p, retries) <= 0 ==> r == Trace(Failure(RaiseNoneError), 0, [])
    ensures |r.sleeps| == (if r.attempts == 0 then 0 else r.attempts - 1)
    ensures forall i :: 0 <= i < |r.sleeps| ==> r.sleeps[i] == Backoff(p.retryBackoff, i)
  {
    var limit := Limit(p, retries);
    if limit <= 0 then Trace(Failure(RaiseNoneError), 0, [])
    else
      AttemptsFacts(outcome, 0, limit, p.retryBackoff, RaiseNoneError);
      AttemptsSleeps(outcome, 0, limit, p.retryBackoff, RaiseNoneError);
      Attempts(outcome, 0, limit, p.retryBackoff, RaiseNoneError)
  }

  /** One failed attempt unfolds `Attempts` by one step. */
  lemma AttemptsStep<T>(outcome: nat -> Attempt<T>, k: nat, limit: nat, backoff: real, lastErr: string)
    requires k < limit && outcome(k).Raised?
    ensures var rest := Attempts(outcome, k + 1, limit, backoff, outcome(k).error);
      Attempts(outcome, k, limit, backoff, lastErr)
        == Trace(rest.result, rest.attempts, (if k < limit - 1 then [Backoff(backoff, k)] else []) + rest.sleeps)
  {
  }

  /** The retry loop written as the source writes it, computing the same trace as `Request`. */
  method RequestLoop<T>(p: Params, retries: Option<int>, outcome: nat -> Attempt<T>) returns (r: Trace<T>)
    ensures r == Request(p, retries, outcome)
  {
    var limit := Limit(p, retries);
    if limit <= 0 {
      return Trace(Failure(RaiseNoneError), 0, []);
    }
    ghost var goal := Attempts(outcome, 0, limit, p.retryBackoff, RaiseNoneError);
    var lastErr := RaiseNoneError;
    var sleeps: seq<real> := [];
    var attempt: nat := 0;
    while attempt < limit
      invariant attempt <= limit
      invariant var rest := Attempts(outcome, attempt, limit, p.retryBackoff, lastErr);
        goal == Trace(rest.result, rest.attempts, sleeps + rest.sleeps)
      decreases limit - attempt
    {
      match outcome(attempt)
      case Responded(v) =>
        assert sleeps + [] == sleeps;
        return Trace(Success(v), attempt + 1, sleeps);
      case Raised(e) =>
        AttemptsStep(outcome, attempt, limit, p.retryBackoff, lastErr);
        var pause := if attempt < limit - 1 then [Backoff(p.retryBackoff, attempt)] else [];
        ghost var rest := Attempts(outcome, attempt + 1, limit, p.retryBackoff, e);
        assert sleeps + (pause + rest.sleeps) == (sleeps + pause) + rest.sleeps;
        lastErr := e;
        sleeps := sleeps + pause;
        attempt := attempt + 1;
    }
    assert sleeps + [] == sleeps;
    r := Trace(Failure(lastErr), limit, sleeps);
  }

  // ------------------------------------------------------------------
  // Orders
  // ------------------------------------------------------------------

  /** Python's `int()` on a float: truncation toward zero. */
  function Trunc(x: real): (n: int)
    ensures x >= 0.0 ==> 0.0 <= n as real <= x < n as real + 1.0
    ensures x < 0.0 ==> n as real - 1.0 < x <= n as real <= 0.0
  {
    if x >= 0.0 then x.Floor else -((-x).Floor)
  }

  /** The signed units sent: positive for a buy, negated for every other direction. */
  function Units(direction: string, volume: real): (u: int)
    ensures direction == "buy" ==> u == Trunc(volume)
    ensures direction != "buy" ==> u == -Trunc(volume)
    ensures volume >= 1.0 ==> (direction == "buy" <==> u > 0)
    ensures -1.0 < volume < 1.0 ==> u == 0
  {
    if direction == "buy" then Trunc(volume) else -Trunc(volume)
  }

  /** A market order body; a level is `None` exactly when its key is absent. */
  datatype OrderBody = OrderBody(instrument: string, units: int, takeProfit: Option<real>, stopLoss: Option<real>)

  /** The fields read from an order-create response; `None` is a missing key. */
  datatype OpenResponse = OpenResponse(
    fillOrderId: Option<string>, fillTradeId: Option<string>, fillPrice: Option<string>, createId: Option<string>)

  datatype OpenFill = OpenFill(orderId: Option<string>, tradeId: Option<string>, fillPrice: Option<string>, response: OpenResponse)

  /** `a or b` on optional strings: `a` unless it is missing or empty. */
  function OrElse(a: Option<string>, b: Option<string>): (r: Option<string>)
    ensures a.Some? && a.value != "" ==> r == a
    ensures a.None? || a.value == "" ==> r == b
  {
    if a.Some? && a.value != "" then a else b
  }

  /**
   * `open_order`: the body carries the signed units and exactly the levels
   * given; the order id comes from the fill transaction, falling back to the
   * create transaction; any failure of the request becomes an error reply.
   */
  function OpenOrder(p: Params, instrument: string, direction: string, volume: real, tp: Option<real>, sl: Option<real>,
                     outcome: nat -> Attempt<OpenResponse>): (r: (OrderBody, Result<OpenFill, string>))
    ensures r.0.units == Units(direction, volume) && r.0.instrument == instrument
    ensures r.0.takeProfit.Some? <==> tp.Some?
    ensures r.0.stopLoss.Some? <==> sl.Some?
    ensures r.0.takeProfit.Some? ==> r.0.takeProfit == tp
    ensures r.0.stopLoss.Some? ==> r.0.stopLoss == sl
    ensures r.1.Failure? <==> Request(p, None, outcome).result.Failure?
    ensures r.1.Failure? ==> r.1.error == Request(p, None, outcome).result.error
    ensures r.1.Success? ==>
      var resp := Request(p, None, outcome).result.value;
      && r.1.value.response == resp
      && r.1.value.orderId == OrElse(resp.fillOrderId, resp.createId)
      && r.1.value.tradeId == resp.fillTradeId && r.1.value.fillPrice == resp.fillPrice
  {
    var body := OrderBody(instrument, Units(direction, volume), tp, sl);
    match Request(p, None, outcome).result
    case Failure(e) => (body, Failure(e))
    case Success(resp) => (body, Success(OpenFill(OrElse(resp.fillOrderId, resp.createId), resp.fillTradeId, resp.fillPrice, resp)))
  }

  /** `close_order`: the trade close request, its failure turned into an error reply. */
  function CloseOrder<T>(p: Params, orderId: string, outcome: nat -> Attempt<T>): (r: Result<T, string>)
    ensures r.Success? <==> exists j :: 0 <= j < p.maxRetries && outcome(j).Responded?
  {
    Request(p, None, outcome).result
  }

  datatype ModifyBody = ModifyBody(takeProfit: Option<real>, stopLoss: Option<real>)

  const NoModifications := "No modifications specified"

  /**
   * `modify_order`: with neither level there is no request at all and the
   * reply is "No modifications specified"; otherwise the body carries the
   * levels given.
   */
  function ModifyOrder<T>(p: Params, orderId: string, tp: Option<real>, sl: Option<real>, outcome: nat -> Attempt<T>): (r: (Option<ModifyBody>, nat, Result<T, string>))
    ensures r.0.None? <==> tp.None? && sl.None?
    ensures r.0.None? ==> r.1 == 0 && r.2 == Failure(NoModifications)
    ensures r.0.Some? ==>
      r.0.value == ModifyBody(tp, sl) && r.1 == Request(p, None, outcome).attempts && r.2 == Request(p, None, outcome).result
  {
    if tp.None? && sl.None? then (None, 0, Failure(NoModifications))
    else
      var t := Request(p, None, outcome);
      (Some(ModifyBody(tp, sl)), t.attempts, t.result)
  }

  // ------------------------------------------------------------------
  // Open trades
  // ------------------------------------------------------------------

  /** A trade as the endpoint lists it, numbers already parsed; `None` is a missing key. */
  datatype RawTrade = RawTrade(
    id: Option<string>, instrument: Option<string>, currentUnits: Option<real>, price: Option<real>,
    unrealizedPl: Option<real>, openTime: Option<string>)

  datatype OpenTrade = OpenTrade(
    tradeId: Option<string>, instrument: Option<string>, direction: string, units: real, openPrice: real,
    unrealizedPnl: real, openTime: Option<string>)

  function Abs(x: real): real {
    if x < 0.0 then -x else x
  }

  function ToOpenTrade(t: RawTrade): (o: OpenTrade)
    ensures o.direction == "buy" <==> t.currentUnits.GetOr(0.0) > 0.0
    ensures o.direction == "buy" || o.direction == "sell"
    ensures o.units >= 0.0 && (o.units == t.currentUnits.GetOr(0.0) || o.units == -t.currentUnits.GetOr(0.0))
  {
    var u := t.currentUnits.GetOr(0.0);
    OpenTrade(t.id, t.instrument, if u > 0.0 then "buy" else "sell", Abs(u), t.price.GetOr(0.0),
              t.unrealizedPl.GetOr(0.0), t.openTime)
  }

  /**
   * `get_open_trades`: one entry per listed trade, in order, with the
   * direction read off the sign of the units; any failure gives `[]`.
   * `trades` is `None` when the response has no "trades" key.
   */
  function GetOpenTrades(p: Params, outcome: nat -> Attempt<Option<seq<RawTrade>>>): (r: seq<OpenTrade>)
    ensures Request(p, None, outcome).result.Failure? ==> r == []
    ensures Request(p, None, outcome).result.Success? ==>
      var trades := Request(p, None, outcome).result.value.GetOr([]);
      && |r| == |trades|
      && forall i :: 0 <= i < |trades| ==>
           r[i].tradeId == trades[i].id
           && (r[i].direction == "buy" <==> trades[i].currentUnits.GetOr(0.0) > 0.0)
           && r[i].units == Abs(trades[i].currentUnits.GetOr(0.0))
           && r[i].openPrice == trades[i].price.GetOr(0.0)
  {
    match Request(p, None, outcome).result
    case Failure(_) => []
    case Success(listed) =>
      var trades := listed.GetOr([]);
      seq(|trades|, i requires 0 <= i < |trades| => ToOpenTrade(trades[i]))
  }

  // ------------------------------------------------------------------
  // Dispatch
  // ------------------------------------------------------------------

  /** The order parameters `execute_order` reads; `None` is a missing key. */
  datatype OrderRequest = OrderRequest(
    symbol: Option<string>, side: Option<string>, quantity: Option<real>, takeProfit: Option<real>,
    stopLoss: Option<real>, brokerOrderId: Option<string>, positionId: Option<string>)

  datatype ExecCall<C> =
    | OpenCall(body: OrderBody, openReply: Result<OpenFill, string>)
    | CloseCall(tradeId: string, closeReply: Result<C, string>)
    | UnknownAction(error: string)

  /** The trade to close: the broker order id unless missing or empty, else the position id, else "". */
  function CloseId(req: OrderRequest): (id: string)
    ensures req.brokerOrderId.Some? && req.brokerOrderId.value != "" ==> id == req.brokerOrderId.value
    ensures (req.brokerOrderId.None? || req.brokerOrderId.value == "") ==> id == req.positionId.GetOr("")
  {
    OrElse(req.brokerOrderId, Some(req.positionId.GetOr(""))).GetOr("")
  }

  /**
   * `execute_order`: "open" goes to `open_order` with the configured
   * instrument, side "buy" and quantity 1 as defaults; "close" goes to
   * `close_order`; anything else is an "Unknown action" error.
   */
  function ExecuteOrder<C>(p: Params, action: string, req: OrderRequest, openOutcome: nat -> Attempt<OpenResponse>,
                           closeOutcome: nat -> Attempt<C>): (r: ExecCall<C>)
    ensures action == "open" <==> r.OpenCall?
    ensures action == "close" <==> r.CloseCall?
    ensures r.OpenCall? ==>
      (r.body, r.openReply) == OpenOrder(p, req.symbol.GetOr(p.instrument), req.side.GetOr("buy"), req.quantity.GetOr(1.0),
                                        req.takeProfit, req.stopLoss, openOutcome)
    ensures r.CloseCall? ==> r.tradeId == CloseId(req) && r.closeReply == CloseOrder(p, CloseId(req), closeOutcome)
    ensures r.UnknownAction? ==> r.error == "Unknown action: " + action
  {
    if action == "open" then
      var (body, reply) := OpenOrder(p, req.symbol.GetOr(p.instrument), req.side.GetOr("buy"), req.quantity.GetOr(1.0),
                                     req.takeProfit, req.stopLoss, openOutcome);
      OpenCall(body, reply)
    else if action == "close" then
      CloseCall(CloseId(req), CloseOrder(p, CloseId(req), closeOutcome))
    else UnknownAction("Unknown action: " + action)
  }
}
