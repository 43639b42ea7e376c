/**
 * One heartbeat cycle: for every active portfolio and asset, fetch
 * predictions, derive the heuristic signal and record an order for
 * every entry; failures are contained per asset and per portfolio.
 */
module Heartbeat {
  import opened Wrappers
  import opened Heuristic
  import Decimal

  /** The parts of a prediction-service answer the heartbeat reads. */
  datatype PredictionReply = PredictionReply(
    status: string,
    shortTerm: seq<real>,
    longTerm: seq<Option<real>>,
    historyCloses: seq<Option<real>>)

  /** Balance `compute_signal` sizes against when the caller gives none. */
  const DefaultBalance: real := 10000.0

  /**
   * The price a signal is computed at: the last historical close, else the
   * first short-term prediction, else none.
   */
  function ReferencePrice(reply: PredictionReply): (r: Option<real>)
    ensures |reply.historyCloses| > 0 && reply.historyCloses[|reply.historyCloses| - 1].Some? ==>
      r == reply.historyCloses[|reply.historyCloses| - 1]
    ensures (|reply.historyCloses| == 0 || reply.historyCloses[|reply.historyCloses| - 1].None?) ==>
      r == (if |reply.shortTerm| > 0 then Some(reply.shortTerm[0]) else None)
  {
    var fromHistory := if |reply.historyCloses| > 0 then reply.historyCloses[|reply.historyCloses| - 1] else None;
    match fromHistory
    case Some(c) => Some(c)
    case None => if |reply.shortTerm| > 0 then Some(reply.shortTerm[0]) else None
  }

  /**
   * `_compute_heuristic_signal`: long-term predictions are the daily input,
   * the asset's own configuration overrides the defaults.
   */
  function ComputeHeuristicSignal(config: map<string, real>, reply: PredictionReply): (r: Result<Signal, string>)
    ensures ReferencePrice(reply).None? ==> r == Success(Hold(NoPriceData))
    ensures ReferencePrice(reply).Some? ==>
      r == ComputeSignal(ReferencePrice(reply).value, reply.longTerm, Resolve(config), DefaultBalance)
  {
    match ReferencePrice(reply)
    case None => Success(Hold(NoPriceData))
    case Some(price) => ComputeSignal(price, reply.longTerm, Resolve(config), DefaultBalance)
  }

  /**
   * Short-term predictions matter only as the fallback price: two replies
   * that agree on the price and the long-term predictions give the same signal.
   */
  lemma OnlyLongTermDrivesSignal(config: map<string, real>, r1: PredictionReply, r2: PredictionReply)
    requires ReferencePrice(r1) == ReferencePrice(r2) && r1.longTerm == r2.longTerm
    ensures ComputeHeuristicSignal(config, r1) == ComputeHeuristicSignal(config, r2)
  {
  }

  /** The outcome of asking the prediction service, which may raise. */
  datatype Fetch = FetchRaised(error: string) | Fetched(reply: PredictionReply)

  datatype AssetFeed = AssetFeed(id: nat, symbol: string, config: map<string, real>, fetch: Fetch)

  datatype OrderRecord = OrderRecord(assetId: nat, symbol: string, side: Side, status: string,
                                     quantity: real, price: real, stopPrice: real)

  /** The signal an asset yields, if the fetch and the computation both succeed with status "success". */
  function AssetSignal(a: AssetFeed): Option<Signal> {
    match a.fetch
    case FetchRaised(_) => None
    case Fetched(reply) =>
      if reply.status != "success" then None
      else
        match ComputeHeuristicSignal(a.config, reply)
        case Failure(_) => None
        case Success(s) => Some(s)
  }

  /** The filled order recorded for an entry signal. */
  function OrderFor(a: AssetFeed, s: Signal): OrderRecord
    requires s.Enter?
  {
    OrderRecord(a.id, a.symbol, s.side, "filled", s.volume, s.entryPrice, s.sl)
  }

  /** What one portfolio contributes: signals counted and orders recorded. */
  datatype Tally = Tally(signals: nat, orders: seq<OrderRecord>)

  /** One asset's contribution: a signal if it yields one, and a filled order if that signal enters. */
  function AssetTally(a: AssetFeed): (t: Tally)
    ensures AssetSignal(a).None? ==> t == Tally(0, [])
    ensures AssetSignal(a).Some? ==> t.signals == 1
    ensures |t.orders| <= t.signals
    ensures t.orders != [] <==> AssetSignal(a).Some? && AssetSignal(a).value.Enter?
    ensures t.orders != [] ==>
      var s := AssetSignal(a).value;
      t.orders == [OrderRecord(a.id, a.symbol, s.side, "filled", s.volume, s.entryPrice, s.sl)]
  {
    match AssetSignal(a)
    case None => Tally(0, [])
    case Some(s) => if s.Enter? then Tally(1, [OrderFor(a, s)]) else Tally(1, [])
  }

  function Add(x: Tally, y: Tally): Tally {
    Tally(x.signals + y.signals, x.orders + y.orders)
  }

  /**
   * `_process_portfolio`: an asset whose fetch raises, whose status is not
   * "success" or whose signal computation raises adds nothing; every other
   * asset adds a signal, and an order when it enters.
   */
  function ProcessPortfolio(assets: seq<AssetFeed>): (t: Tally)
    ensures |t.orders| <= t.signals <= |assets|
  {
    if assets == [] then Tally(0, [])
    else Add(AssetTally(assets[0]), ProcessPortfolio(assets[1..]))
  }

  /** A portfolio none of whose assets yields a signal tallies nothing. */
  lemma {:induction false} QuietPortfolio(assets: seq<AssetFeed>)
    requires forall i :: 0 <= i < |assets| ==> AssetTally(assets[i]) == Tally(0, [])
    ensures ProcessPortfolio(assets) == Tally(0, [])
  {
    if assets != [] {
      assert forall i :: 1 <= i < |assets| ==> assets[i] == assets[1..][i - 1];
      QuietPortfolio(assets[1..]);
    }
  }

  /** Every recorded order comes from one of the portfolio's assets. */
  lemma {:induction false} OrdersFromAssets(assets: seq<AssetFeed>)
    ensures forall o :: o in ProcessPortfolio(assets).orders ==>
      exists i :: 0 <= i < |assets| && o in AssetTally(assets[i]).orders
  {
    if assets != [] {
      var head := AssetTally(assets[0]);
      var rest := ProcessPortfolio(assets[1..]);
      assert ProcessPortfolio(assets).orders == head.orders + rest.orders;
      OrdersFromAssets(assets[1..]);
      forall o | o in head.orders + rest.orders
        ensures exists i :: 0 <= i < |assets| && o in AssetTally(assets[i]).orders
      {
        if o in head.orders {
          assert 0 <= 0 < |assets| && o in AssetTally(assets[0]).orders;
        } else {
          var j :| 0 <= j < |assets[1..]| && o in AssetTally(assets[1..][j]).orders;
          assert assets[1..][j] == assets[j + 1];
          assert 0 <= j + 1 < |assets| && o in AssetTally(assets[j + 1]).orders;
        }
      }
    }
  }

  /** Every order an asset yields is recorded. */
  lemma {:induction false} AssetOrdersRecorded(assets: seq<AssetFeed>)
    ensures forall i, o :: 0 <= i < |assets| && o in AssetTally(assets[i]).orders ==>
      o in ProcessPortfolio(assets).orders
  {
    if assets != [] {
      AssetOrdersRecorded(assets[1..]);
      assert forall i :: 1 <= i < |assets| ==> assets[i] == assets[1..][i - 1];
    }
  }

  /** Assets are independent: the tally of a list is the sum of the tallies of its parts. */
  lemma {:induction false} TallyAdds(a: seq<AssetFeed>, b: seq<AssetFeed>)
    ensures ProcessPortfolio(a + b) == Add(ProcessPortfolio(a), ProcessPortfolio(b))
  {
    if a == [] {
      assert a + b == b;
    } else {
      assert (a + b)[1..] == a[1..] + b;
      assert (a + b)[0] == a[0];
      TallyAdds(a[1..], b);
      var h := AssetTally(a[0]);
      assert h.orders + (ProcessPortfolio(a[1..]).orders + ProcessPortfolio(b).orders)
          == (h.orders + ProcessPortfolio(a[1..]).orders) + ProcessPortfolio(b).orders;
    }
  }

  /** A portfolio as the cycle sees it: listing its assets may raise. */
  datatype PortfolioFeed = PortfolioFeed(id: nat, assets: Result<seq<AssetFeed>, string>)

  datatype CycleResult = CycleResult(
    processed: nat,
    signals: nat,
    orders: seq<OrderRecord>,
    errors: seq<string>,
    status: Option<string>)

  function PortfolioError(id: nat, msg: string): string {
    "Portfolio " + Decimal.NatToString(id) + " error: " + msg
  }

  /** The portfolio loop: failures become error lines, the rest are counted. */
  function RunPortfolios(ps: seq<PortfolioFeed>): (r: CycleResult)
    ensures r.processed + |r.errors| == |ps|
    ensures |r.orders| <= r.signals
    ensures r.status.None?
  {
    if ps == [] then CycleResult(0, 0, [], [], None)
    else Prepend(ps[0], RunPortfolios(ps[1..]))
  }

  /** One portfolio ahead of the rest of the loop: a failure adds its error line, a success its tally. */
  function Prepend(p: PortfolioFeed, rest: CycleResult): CycleResult {
    match p.assets
    case Failure(msg) => rest.(errors := [PortfolioError(p.id, msg)] + rest.errors)
    case Success(assets) =>
      var t := ProcessPortfolio(assets);
      rest.(processed := rest.processed + 1, signals := rest.signals + t.signals, orders := t.orders + rest.orders)
  }

  /** Two stretches of the portfolio loop, one after the other: counts add up, orders and errors are concatenated. */
  function Merge(x: CycleResult, y: CycleResult): CycleResult {
    CycleResult(x.processed + y.processed, x.signals + y.signals, x.orders + y.orders, x.errors + y.errors, None)
  }

  /**
   * A single portfolio: one whose assets cannot be listed leaves only its
   * error line; any other is processed once and contributes its tally.
   */
  lemma RunOnePortfolio(p: PortfolioFeed)
    ensures p.assets.Failure? ==> RunPortfolios([p]) == CycleResult(0, 0, [], [PortfolioError(p.id, p.assets.error)], None)
    ensures p.assets.Success? ==>
      var t := ProcessPortfolio(p.assets.value);
      RunPortfolios([p]) == CycleResult(1, t.signals, t.orders, [], None)
  {
    assert [p][1..] == [];
  }

  /** Portfolios are independent: the loop over a list is the merge of the loops over its parts. */
  lemma {:induction false} RunPortfoliosSplit(a: seq<PortfolioFeed>, b: seq<PortfolioFeed>)
    ensures RunPortfolios(a + b) == Merge(RunPortfolios(a), RunPortfolios(b))
  {
    if a == [] {
      assert a + b == b;
    } else {
      assert (a + b)[0] == a[0];
      assert (a + b)[1..] == a[1..] + b;
      RunPortfoliosSplit(a[1..], b);
      PrependMerges(a[0], RunPortfolios(a[1..]), RunPortfolios(b));
    }
  }

  lemma PrependMerges(p: PortfolioFeed, x: CycleResult, y: CycleResult)
    ensures Prepend(p, Merge(x, y)) == Merge(Prepend(p, x), y)
  {
    match p.assets
    case Failure(msg) =>
      var e := [PortfolioError(p.id, msg)];
      assert e + (x.errors + y.errors) == (e + x.errors) + y.errors;
    case Success(assets) =>
      var t := ProcessPortfolio(assets);
      assert t.orders + (x.orders + y.orders) == (t.orders + x.orders) + y.orders;
  }

  /** Every failed portfolio leaves its error line, and only failures leave lines. */
  lemma {:induction false} PortfolioErrors(ps: seq<PortfolioFeed>)
    ensures RunPortfolios(ps).errors == [] <==> forall i :: 0 <= i < |ps| ==> ps[i].assets.Success?
    ensures forall i :: 0 <= i < |ps| && ps[i].assets.Failure? ==>
      PortfolioError(ps[i].id, ps[i].assets.error) in RunPortfolios(ps).errors
  {
    if ps != [] {
      PortfolioErrors(ps[1..]);
      var r := RunPortfolios(ps);
      var rest := RunPortfolios(ps[1..]);
      assert r == Prepend(ps[0], rest);
      assert forall i :: 1 <= i < |ps| ==> ps[i] == ps[1..][i - 1];
      if ps[0].assets.Failure? {
        assert r.errors == [PortfolioError(ps[0].id, ps[0].assets.error)] + rest.errors;
      } else {
        assert r.errors == rest.errors;
      }
    }
  }

  /**
   * `run_heartbeat_cycle`: a failure before the portfolios are listed is
   * the single critical error and no status is stored; otherwise the status
   * stored is "ok" exactly when no portfolio failed.
   */
  function RunHeartbeatCycle(listing: Result<seq<PortfolioFeed>, string>): (r: CycleResult)
    ensures listing.Failure? ==> r == CycleResult(0, 0, [], ["Critical: " + listing.error], None)
    ensures listing.Success? ==>
      && r.processed + |r.errors| == |listing.value|
      && |r.orders| <= r.signals
      && r.status.Some?
      && (r.status == Some("ok") <==> r.errors == [])
      && (r.status == Some("ok") <==> forall i :: 0 <= i < |listing.value| ==> listing.value[i].assets.Success?)
      && (r.status.value == "ok" || r.status.value == "errors")
  {
    match listing
    case Failure(msg) => CycleResult(0, 0, [], ["Critical: " + msg], None)
    case Success(ps) =>
      var r := RunPortfolios(ps);
      PortfolioErrors(ps);
      r.(status := Some(if r.errors == [] then "ok" else "errors"))
  }
}
