/**
 * Driving the simulation broker bar by bar: stop-loss / take-profit checks,
 * the strategy callback, the end-of-data liquidation and the run summary.
 */
module SimRun {
  import opened Wrappers
  import opened Sums
  import opened SimLedger
  import opened SimBroker
  import opened Counting

  /** Where and why a trade leaves the book on a bar. */
  datatype Exit = Exit(price: real, reason: string)

  /** The bar reaches the trade's stop: a buy's low at or below it, a sell's high at or above it. */
  predicate StopTouched(t: Trade, bar: Bar) {
    t.sl.Some? && ((t.direction == "buy" && bar.low <= t.sl.value) || (t.direction == "sell" && bar.high >= t.sl.value))
  }

  /** The bar reaches the trade's target: a buy's high at or above it, a sell's low at or below it. */
  predicate TargetTouched(t: Trade, bar: Bar) {
    t.tp.Some? && ((t.direction == "buy" && bar.high >= t.tp.value) || (t.direction == "sell" && bar.low <= t.tp.value))
  }

  /**
   * The exit a bar triggers for one trade. The stop is checked first, so a bar
   * that spans both levels closes at the stop; exits fill exactly at the level.
   */
  function ExitFor(t: Trade, bar: Bar): (e: Option<Exit>)
    ensures StopTouched(t, bar) ==> e == Some(Exit(t.sl.value, "stop_loss"))
    ensures !StopTouched(t, bar) && TargetTouched(t, bar) ==> e == Some(Exit(t.tp.value, "take_profit"))
    ensures e.None? <==> !StopTouched(t, bar) && !TargetTouched(t, bar)
  {
    if t.sl.Some? && t.direction == "buy" && bar.low <= t.sl.value then Some(Exit(t.sl.value, "stop_loss"))
    else if t.sl.Some? && t.direction == "sell" && bar.high >= t.sl.value then Some(Exit(t.sl.value, "stop_loss"))
    else if t.tp.Some? && t.direction == "buy" && bar.high >= t.tp.value then Some(Exit(t.tp.value, "take_profit"))
    else if t.tp.Some? && t.direction == "sell" && bar.low <= t.tp.value then Some(Exit(t.tp.value, "take_profit"))
    else None
  }

  /** A trade whose direction is neither "buy" nor "sell" never exits on a bar. */
  lemma UnknownDirectionNeverExits(t: Trade, bar: Bar)
    requires t.direction != "buy" && t.direction != "sell"
    ensures ExitFor(t, bar).None?
  {
  }

  /** The per-trade loop of `tick`, over a snapshot of the ids. */
  function TickTrades(b: Broker, ids: seq<string>, bar: Bar): (r: (seq<ClosedTrade>, Broker))
    requires Valid(b)
    ensures Valid(r.1)
    ensures r.1.bars == b.bars && r.1.barIdx == b.barIdx && r.1.nextId == b.nextId && r.1.params == b.params
    ensures r.1.history == b.history + r.0
    ensures r.1.cash == b.cash + Sum(r.0, NetPnl)
    ensures Books(b) ==> Books(r.1)
    decreases |ids|
  {
    if ids == [] then ([], b)
    else
      match TickStep(b, ids[0], bar)
      case None => TickTrades(b, ids[1..], bar)
      case Some((c, b1)) =>
        var (rest, b2) := TickTrades(b1, ids[1..], bar);
        SumPrepend(c, rest, NetPnl);
        ([c] + rest, b2)
  }

  /** One trade on one bar: the close it triggers, if any, and the broker after it. */
  function TickStep(b: Broker, id: string, bar: Bar): (r: Option<(ClosedTrade, Broker)>)
    requires Valid(b)
    ensures r.None? <==> Find(b.open, id).None? || ExitFor(Find(b.open, id).value, bar).None?
    ensures r.Some? ==>
      var (c, b1) := r.value;
      && Valid(b1)
      && b1.bars == b.bars && b1.barIdx == b.barIdx && b1.nextId == b.nextId && b1.params == b.params
      && b1.open == Remove(b.open, id)
      && b1.history == b.history + [c]
      && b1.cash == b.cash + c.netPnl
      && (Books(b) ==> Books(b1))
      && Find(b.open, id) == Some(c.trade)
      && ExitFor(c.trade, bar) == Some(Exit(c.closePrice, c.reason))
      && c.closeTime == bar.time
  {
    match Find(b.open, id)
    case None => None
    case Some(t) =>
      match ExitFor(t, bar)
      case None => None
      case Some(e) =>
        var (reply, b1) := CloseOrder(b, id, Some(e.price), e.reason, Some(bar.time), bar.time);
        Some((reply.closed, b1))
  }

  /** Which trades the per-trade loop removes: those in the snapshot whose exit the bar triggers. */
  lemma {:induction false} TickTradesRemoves(b: Broker, ids: seq<string>, bar: Bar)
    requires Valid(b)
    ensures var r := TickTrades(b, ids, bar);
      && (forall k :: Find(b.open, k).None? ==> Find(r.1.open, k).None?)
      && (forall k :: k !in ids ==> Find(r.1.open, k) == Find(b.open, k))
      && (forall k :: k in ids && Find(b.open, k).Some? ==>
            if ExitFor(Find(b.open, k).value, bar).Some? then Find(r.1.open, k).None?
            else Find(r.1.open, k) == Find(b.open, k))
    decreases |ids|
  {
    if ids != [] {
      match TickStep(b, ids[0], bar)
      case None =>
        TickTradesRemoves(b, ids[1..], bar);
        SnapshotHead(ids);
      case Some((c, b1)) =>
        TickTradesRemoves(b1, ids[1..], bar);
        SnapshotHead(ids);
    }
  }

  lemma SnapshotHead(ids: seq<string>)
    requires ids != []
    ensures forall k :: k in ids <==> k == ids[0] || k in ids[1..]
  {
    assert ids == [ids[0]] + ids[1..];
  }

  /** Every trade the per-trade loop closes was open, and left at the level the bar triggered. */
  lemma {:induction false} TickTradesCloses(b: Broker, ids: seq<string>, bar: Bar)
    requires Valid(b)
    ensures forall c :: c in TickTrades(b, ids, bar).0 ==>
      && Find(b.open, c.trade.id) == Some(c.trade)
      && ExitFor(c.trade, bar) == Some(Exit(c.closePrice, c.reason))
      && c.closeTime == bar.time
    decreases |ids|
  {
    if ids != [] {
      match TickStep(b, ids[0], bar)
      case None =>
        TickTradesCloses(b, ids[1..], bar);
      case Some((c, b1)) =>
        TickTradesCloses(b1, ids[1..], bar);
    }
  }

  /** Every close the per-trade loop makes is of a trade named in the snapshot. */
  lemma {:induction false} TickTradesFromSnapshot(b: Broker, ids: seq<string>, bar: Bar)
    requires Valid(b)
    ensures forall c :: c in TickTrades(b, ids, bar).0 ==> c.trade.id in ids
    decreases |ids|
  {
    if ids != [] {
      SnapshotHead(ids);
      match TickStep(b, ids[0], bar)
      case None =>
        TickTradesFromSnapshot(b, ids[1..], bar);
      case Some((c, b1)) =>
        TickTradesFromSnapshot(b1, ids[1..], bar);
    }
  }

  /** Every trade in the snapshot that is open and whose exit the bar triggers is closed. */
  lemma {:induction false} TickTradesCovers(b: Broker, ids: seq<string>, bar: Bar)
    requires Valid(b)
    ensures forall k :: k in ids && Find(b.open, k).Some? && ExitFor(Find(b.open, k).value, bar).Some? ==>
      exists c :: c in TickTrades(b, ids, bar).0 && c.trade.id == k
    decreases |ids|
  {
    if ids != [] {
      SnapshotHead(ids);
      match TickStep(b, ids[0], bar)
      case None =>
        TickTradesCovers(b, ids[1..], bar);
      case Some((c, b1)) =>
        TickTradesCovers(b1, ids[1..], bar);
        var rest := TickTrades(b1, ids[1..], bar).0;
        assert TickTrades(b, ids, bar).0 == [c] + rest;
        forall k | k in ids && Find(b.open, k).Some? && ExitFor(Find(b.open, k).value, bar).Some?
          ensures exists c' :: c' in [c] + rest && c'.trade.id == k
        {
          if k == ids[0] {
            assert c in [c] + rest && c.trade.id == k;
          } else {
            assert Find(b1.open, k) == Find(b.open, k);
            var c' :| c' in rest && c'.trade.id == k;
            assert c' in [c] + rest;
          }
        }
    }
  }

  /** No trade is closed twice in one bar. */
  predicate DistinctCloses(cs: seq<ClosedTrade>) {
    forall i, j :: 0 <= i < j < |cs| ==> cs[i].trade.id != cs[j].trade.id
  }

  /** Key `x` occurs in the snapshot before key `y`. */
  predicate Precedes(ids: seq<string>, x: string, y: string) {
    exists p, q :: 0 <= p < q < |ids| && ids[p] == x && ids[q] == y
  }

  /** The closes follow the snapshot's order: an earlier close names an earlier key. */
  predicate InSnapshotOrder(cs: seq<ClosedTrade>, ids: seq<string>) {
    forall i, j :: 0 <= i < j < |cs| ==> Precedes(ids, cs[i].trade.id, cs[j].trade.id)
  }

  /** Putting a close for a new trade in front keeps the closes distinct. */
  lemma DistinctConsed(c: ClosedTrade, rest: seq<ClosedTrade>)
    requires DistinctCloses(rest)
    requires forall c' :: c' in rest ==> c'.trade.id != c.trade.id
    ensures DistinctCloses([c] + rest)
  {
    var cs := [c] + rest;
    forall i, j | 0 <= i < j < |cs| ensures cs[i].trade.id != cs[j].trade.id {
      assert cs[j] == rest[j - 1];
      if i == 0 {
        assert rest[j - 1] in rest;
      } else {
        assert cs[i] == rest[i - 1];
      }
    }
  }

  /** Order in a snapshot's tail is order in the snapshot. */
  lemma OrderShifted(cs: seq<ClosedTrade>, ids: seq<string>)
    requires ids != [] && InSnapshotOrder(cs, ids[1..])
    ensures InSnapshotOrder(cs, ids)
  {
    var tail := ids[1..];
    forall i, j | 0 <= i < j < |cs| ensures Precedes(ids, cs[i].trade.id, cs[j].trade.id) {
      assert Precedes(tail, cs[i].trade.id, cs[j].trade.id);
      var p, q :| 0 <= p < q < |tail| && tail[p] == cs[i].trade.id && tail[q] == cs[j].trade.id;
      assert ids[p + 1] == cs[i].trade.id && ids[q + 1] == cs[j].trade.id;
    }
  }

  /** A close of the snapshot's first key, put before closes of later keys, keeps snapshot order. */
  lemma OrderConsed(c: ClosedTrade, rest: seq<ClosedTrade>, ids: seq<string>)
    requires ids != [] && c.trade.id == ids[0]
    requires InSnapshotOrder(rest, ids[1..])
    requires forall c' :: c' in rest ==> c'.trade.id in ids[1..]
    ensures InSnapshotOrder([c] + rest, ids)
  {
    var tail := ids[1..];
    var cs := [c] + rest;
    forall i, j | 0 <= i < j < |cs| ensures Precedes(ids, cs[i].trade.id, cs[j].trade.id) {
      assert cs[j] == rest[j - 1];
      if i == 0 {
        assert rest[j - 1] in rest;
        var q :| 0 <= q < |tail| && tail[q] == rest[j - 1].trade.id;
        assert ids[0] == cs[0].trade.id && ids[q + 1] == cs[j].trade.id;
      } else {
        assert cs[i] == rest[i - 1];
        assert Precedes(tail, rest[i - 1].trade.id, rest[j - 1].trade.id);
        var p, q :| 0 <= p < q < |tail| && tail[p] == rest[i - 1].trade.id && tail[q] == rest[j - 1].trade.id;
        assert ids[p + 1] == cs[i].trade.id && ids[q + 1] == cs[j].trade.id;
      }
    }
  }

  /** The per-trade loop closes each trade at most once. */
  lemma {:induction false} TickTradesDistinct(b: Broker, ids: seq<string>, bar: Bar)
    requires Valid(b)
    ensures DistinctCloses(TickTrades(b, ids, bar).0)
    decreases |ids|
  {
    if ids != [] {
      match TickStep(b, ids[0], bar)
      case None =>
        TickTradesDistinct(b, ids[1..], bar);
      case Some((c, b1)) =>
        TickTradesDistinct(b1, ids[1..], bar);
        TickTradesCloses(b1, ids[1..], bar);
        assert Find(b1.open, c.trade.id).None?;
        DistinctConsed(c, TickTrades(b1, ids[1..], bar).0);
    }
  }

  /** The per-trade loop closes trades in the order of the snapshot. */
  lemma {:induction false} TickTradesOrdered(b: Broker, ids: seq<string>, bar: Bar)
    requires Valid(b)
    ensures InSnapshotOrder(TickTrades(b, ids, bar).0, ids)
    decreases |ids|
  {
    if ids != [] {
      match TickStep(b, ids[0], bar)
      case None =>
        TickTradesOrdered(b, ids[1..], bar);
        OrderShifted(TickTrades(b, ids[1..], bar).0, ids);
      case Some((c, b1)) =>
        TickTradesOrdered(b1, ids[1..], bar);
        TickTradesFromSnapshot(b1, ids[1..], bar);
        OrderConsed(c, TickTrades(b1, ids[1..], bar).0, ids);
    }
  }

  /**
   * `tick`: move to the given bar (or the next one); past the end nothing
   * else happens, otherwise every open trade whose exit the bar triggers is
   * closed, in insertion order, and equity is marked to the bar's close.
   * Which trades close is stated by `TickSettles` and `TickClosesTriggered`.
   */
  function Tick(b: Broker, barIndex: Option<nat>): (r: (seq<ClosedTrade>, Broker))
    requires Valid(b)
    ensures Valid(r.1)
    ensures r.1.barIdx == (if barIndex.Some? then barIndex.value else b.barIdx + 1)
    ensures r.1.bars == b.bars && r.1.nextId == b.nextId && r.1.params == b.params
    ensures r.1.barIdx >= |b.bars| ==> r == ([], b.(barIdx := r.1.barIdx))
    ensures r.1.barIdx < |b.bars| ==>
      && r.1.history == b.history + r.0
      && r.1.cash == b.cash + Sum(r.0, NetPnl)
      && r.1.equity == r.1.cash + Unrealized(r.1)
    ensures Books(b) ==> Books(r.1)
  {
    var idx := if barIndex.Some? then barIndex.value else b.barIdx + 1;
    var b1 := b.(barIdx := idx);
    if idx >= |b.bars| then ([], b1)
    else
      var step := TickTrades(b1, Keys(b1.open), b.bars[idx]);
      (step.0, UpdateEquity(step.1))
  }

  /** On a bar inside the data, `tick` is the per-trade loop over a snapshot of the open keys, then the equity mark. */
  lemma TickRunsSnapshot(b: Broker, barIndex: Option<nat>, idx: nat)
    requires Valid(b)
    requires idx == (if barIndex.Some? then barIndex.value else b.barIdx + 1) && idx < |b.bars|
    ensures Valid(b.(barIdx := idx))
    ensures var step := TickTrades(b.(barIdx := idx), Keys(b.open), b.bars[idx]);
      Tick(b, barIndex).0 == step.0 && Tick(b, barIndex).1.open == step.1.open
  {
    var b1 := b.(barIdx := idx);
    assert Valid(b1) by {
      assert b1.open == b.open && b1.nextId == b.nextId && b1.params == b.params;
    }
    var step := TickTrades(b1, Keys(b.open), b.bars[idx]);
    assert Tick(b, barIndex) == (step.0, UpdateEquity(step.1)) by {
      assert b1.open == b.open;
    }
    assert UpdateEquity(step.1).open == step.1.open;
  }

  /**
   * On a bar inside the data, a trade leaves the book exactly when its exit
   * triggers, every other trade stays as it was, and every close is of an
   * open trade at the level the bar triggered.
   */
  lemma TickSettles(b: Broker, barIndex: Option<nat>)
    requires Valid(b)
    ensures var r := Tick(b, barIndex);
      r.1.barIdx < |b.bars| ==>
        var bar := b.bars[r.1.barIdx];
        && (forall k :: Find(b.open, k).None? ==> Find(r.1.open, k).None?)
        && (forall k :: Find(b.open, k).Some? ==>
              if ExitFor(Find(b.open, k).value, bar).Some? then Find(r.1.open, k).None?
              else Find(r.1.open, k) == Find(b.open, k))
        && (forall c :: c in r.0 ==>
              && Find(b.open, c.trade.id) == Some(c.trade)
              && ExitFor(c.trade, bar) == Some(Exit(c.closePrice, c.reason))
              && c.closeTime == bar.time)
  {
    var idx := if barIndex.Some? then barIndex.value else b.barIdx + 1;
    if idx < |b.bars| {
      TickRunsSnapshot(b, barIndex, idx);
      var b1 := b.(barIdx := idx);
      var ids := Keys(b.open);
      var bar := b.bars[idx];
      var step := TickTrades(b1, ids, bar);
      assert Tick(b, barIndex).1.barIdx == idx;
      forall k ensures k in ids <==> Find(b.open, k).Some? {
        KeysListed(b.open, k);
      }
      assert forall k :: Find(b.open, k).Some? ==>
        if ExitFor(Find(b.open, k).value, bar).Some? then Find(step.1.open, k).None?
        else Find(step.1.open, k) == Find(b.open, k) by {
        TickTradesRemoves(b1, ids, bar);
      }
      assert forall k :: Find(b.open, k).None? ==> Find(step.1.open, k).None? by {
        TickTradesRemoves(b1, ids, bar);
      }
      assert forall c :: c in step.0 ==>
        && Find(b.open, c.trade.id) == Some(c.trade)
        && ExitFor(c.trade, bar) == Some(Exit(c.closePrice, c.reason))
        && c.closeTime == bar.time by {
        TickTradesCloses(b1, ids, bar);
      }
    }
  }

  /**
   * On a bar inside the data, `tick` closes every open trade whose exit the
   * bar triggers, each once, in the order the trades were opened.
   */
  lemma TickClosesTriggered(b: Broker, barIndex: Option<nat>)
    requires Valid(b)
    ensures var r := Tick(b, barIndex);
      r.1.barIdx < |b.bars| ==>
        && (forall k :: Find(b.open, k).Some? && ExitFor(Find(b.open, k).value, b.bars[r.1.barIdx]).Some? ==>
              exists c :: c in r.0 && c.trade.id == k)
        && DistinctCloses(r.0)
        && InSnapshotOrder(r.0, Keys(b.open))
  {
    var idx := if barIndex.Some? then barIndex.value else b.barIdx + 1;
    if idx < |b.bars| {
      TickRunsSnapshot(b, barIndex, idx);
      var b1 := b.(barIdx := idx);
      var ids := Keys(b.open);
      var bar := b.bars[idx];
      var step := TickTrades(b1, ids, bar);
      assert Tick(b, barIndex).1.barIdx == idx;
      forall k ensures k in ids <==> Find(b.open, k).Some? {
        KeysListed(b.open, k);
      }
      assert forall k :: Find(b.open, k).Some? && ExitFor(Find(b.open, k).value, bar).Some? ==>
        exists c :: c in step.0 && c.trade.id == k by {
        TickTradesCovers(b1, ids, bar);
      }
      assert DistinctCloses(step.0) by {
        TickTradesDistinct(b1, ids, bar);
      }
      assert InSnapshotOrder(step.0, ids) by {
        TickTradesOrdered(b1, ids, bar);
      }
    }
  }

  /** What a strategy callback may do to the broker during a run. */
  datatype StrategyCall =
    | PlaceOrder(instrument: string, direction: string, volume: real, tp: Option<real>, sl: Option<real>,
                 price: Option<real>, timestamp: Option<real>)
    | CloseTrade(orderId: string, price: Option<real>, reason: string, timestamp: Option<real>)
    | AmendOrder(orderId: string, tp: Option<real>, sl: Option<real>)

  /** A strategy sees the broker, the bar index and the bar, and answers with calls. */
  type Strategy = (Broker, nat, Bar) -> seq<StrategyCall>

  function Apply(b: Broker, call: StrategyCall, now: real): (r: Broker)
    requires Valid(b)
    ensures Valid(r)
    ensures r.bars == b.bars && r.barIdx == b.barIdx && r.params == b.params
    ensures CurrentBar(b).Some? && Books(b) ==> Books(r)
  {
    match call
    case PlaceOrder(instrument, direction, volume, tp, sl, price, timestamp) =>
      OpenOrder(b, instrument, direction, volume, tp, sl, price, timestamp, now).1
    case CloseTrade(orderId, price, reason, timestamp) =>
      CloseOrder(b, orderId, price, reason, timestamp, now).1
    case AmendOrder(orderId, tp, sl) =>
      ModifyOrder(b, orderId, tp, sl).1
  }

  function ApplyAll(b: Broker, calls: seq<StrategyCall>, now: real): (r: Broker)
    requires Valid(b)
    ensures Valid(r)
    ensures r.bars == b.bars && r.barIdx == b.barIdx && r.params == b.params
    ensures CurrentBar(b).Some? && Books(b) ==> Books(r)
    decreases |calls|
  {
    if calls == [] then b else ApplyAll(Apply(b, calls[0], now), calls[1..], now)
  }

  /** The bar loop of `run_simulation`, from bar `i` on: the strategy acts, then the bar is ticked. */
  function RunBars(b: Broker, strategy: Strategy, i: nat, now: real): (r: Broker)
    requires Valid(b) && i <= |b.bars|
    ensures Valid(r)
    ensures r.bars == b.bars && r.params == b.params
    ensures i < |b.bars| ==> r.barIdx == |b.bars| - 1
    ensures i == |b.bars| ==> r == b
    ensures Books(b) ==> Books(r)
    decreases |b.bars| - i
  {
    if i == |b.bars| then b
    else
      var b1 := b.(barIdx := i);
      var b2 := ApplyAll(b1, strategy(b1, i, b.bars[i]), now);
      var b3 := Tick(b2, Some(i)).1;
      RunBars(b3, strategy, i + 1, now)
  }

  /** The end-of-data liquidation: every listed trade is closed at the current bar. */
  function ForceClose(b: Broker, ids: seq<string>, stamp: real, now: real): (r: (seq<ClosedTrade>, Broker))
    requires Valid(b)
    ensures Valid(r.1)
    ensures r.1.bars == b.bars && r.1.barIdx == b.barIdx && r.1.params == b.params
    ensures forall k :: k in ids ==> Find(r.1.open, k).None?
    ensures forall k :: k !in ids ==> Find(r.1.open, k) == Find(b.open, k)
    ensures CurrentBar(b).Some? ==>
      && r.1.history == b.history + r.0
      && forall c :: c in r.0 ==>
           && c.reason == "end_of_data" && c.closeTime == stamp
           && c.closePrice == b.bars[b.barIdx].close
           && Find(b.open, c.trade.id) == Some(c.trade)
    ensures CurrentBar(b).Some? && Books(b) ==> Books(r.1)
    decreases |ids|
  {
    if ids == [] then ([], b)
    else
      var (reply, b1) := CloseOrder(b, ids[0], None, "end_of_data", Some(stamp), now);
      var (rest, b2) := ForceClose(b1, ids[1..], stamp, now);
      SnapshotHead(ids);
      if reply.ClosedOk? then ([reply.closed] + rest, b2) else (rest, b2)
  }

  /** The counters and totals `run_simulation` reports. */
  datatype Summary = Summary(
    initialCash: real,
    finalCash: real,
    totalReturnPct: real,
    totalTrades: nat,
    winners: nat,
    losers: nat,
    winRate: real,
    totalPnl: real,
    totalCommission: real,
    totalSwap: real,
    trades: seq<ClosedTrade>,
    closeReasons: map<string, nat>)

  /** A closed trade counts as a winner when its net P&L is strictly positive. */
  predicate IsWinner(c: ClosedTrade) {
    c.netPnl > 0.0
  }

  /** A closed trade counts as a loser when its net P&L is zero or negative. */
  predicate IsLoser(c: ClosedTrade) {
    c.netPnl <= 0.0
  }

  /** The number of closed trades that won. */
  function Winners(h: seq<ClosedTrade>): (n: nat)
    ensures n <= |h|
  {
    if h == [] then 0 else Winners(h[1..]) + (if h[0].netPnl > 0.0 then 1 else 0)
  }

  /** The number of closed trades that lost. */
  function Losers(h: seq<ClosedTrade>): (n: nat)
    ensures n <= |h|
  {
    if h == [] then 0 else Losers(h[1..]) + (if h[0].netPnl <= 0.0 then 1 else 0)
  }

  /** The winners are exactly the trades whose net P&L is strictly positive. */
  lemma {:induction false} WinnersCounted(h: seq<ClosedTrade>)
    ensures Winners(h) == |set i | 0 <= i < |h| && h[i].netPnl > 0.0|
  {
    if h == [] {
      assert Positions(h, IsWinner) == {};
    } else {
      WinnersCounted(h[1..]);
      assert h == [h[0]] + h[1..];
      PositionsPrepend(h[0], h[1..], IsWinner);
      assert Positions(h, IsWinner) == set i | 0 <= i < |h| && h[i].netPnl > 0.0;
      assert Positions(h[1..], IsWinner) == set i | 0 <= i < |h[1..]| && h[1..][i].netPnl > 0.0;
    }
  }

  /** The losers are exactly the trades whose net P&L is zero or negative. */
  lemma {:induction false} LosersCounted(h: seq<ClosedTrade>)
    ensures Losers(h) == |set i | 0 <= i < |h| && h[i].netPnl <= 0.0|
  {
    if h == [] {
      assert Positions(h, IsLoser) == {};
    } else {
      LosersCounted(h[1..]);
      assert h == [h[0]] + h[1..];
      PositionsPrepend(h[0], h[1..], IsLoser);
      assert Positions(h, IsLoser) == set i | 0 <= i < |h| && h[i].netPnl <= 0.0;
      assert Positions(h[1..], IsLoser) == set i | 0 <= i < |h[1..]| && h[1..][i].netPnl <= 0.0;
    }
  }

  /** A trade is a winner or a loser, never both: break-even counts as a loss. */
  lemma {:induction false} WinnersAndLosers(h: seq<ClosedTrade>)
    ensures Winners(h) + Losers(h) == |h|
  {
    if h != [] {
      WinnersAndLosers(h[1..]);
    }
  }

  /** How many closed trades carry `reason`; positive exactly when one does. */
  function CountReason(h: seq<ClosedTrade>, reason: string): (n: nat)
    ensures n <= |h|
    ensures n > 0 <==> exists i :: 0 <= i < |h| && h[i].reason == reason
  {
    if h == [] then 0
    else
      var n := CountReason(h[1..], reason);
      assert forall i :: 1 <= i < |h| ==> h[i] == h[1..][i - 1];
      n + (if h[0].reason == reason then 1 else 0)
  }

  /** Percentage gain over the starting cash; compounding it back gives the final cash. */
  function ReturnPct(initial: real, final: real): (pct: real)
    requires initial != 0.0
    ensures initial * (1.0 + pct / 100.0) == final
    ensures pct > 0.0 <==> (final - initial) / initial > 0.0
  {
    var pct := ((final - initial) / initial) * 100.0;
    assert pct / 100.0 == (final - initial) / initial;
    assert initial * ((final - initial) / initial) == final - initial;
    pct
  }

  /** Share of winners among `total` trades, zero for no trades. */
  function WinRate(winners: nat, total: nat): (rate: real)
    requires winners <= total
    ensures total == 0 ==> rate == 0.0
    ensures total > 0 ==> rate * (total as real) == winners as real
    ensures 0.0 <= rate <= 1.0
  {
    if total > 0 then (winners as real) / (total as real) else 0.0
  }

  /** Close reason to the number of closed trades carrying it, for the reasons that occur. */
  function CloseReasons(h: seq<ClosedTrade>): (m: map<string, nat>)
    ensures forall reason :: reason in m <==> exists i :: 0 <= i < |h| && h[i].reason == reason
    ensures forall reason :: reason in m ==> 1 <= m[reason] <= |h| && m[reason] == CountReason(h, reason)
  {
    var reasons := set i | 0 <= i < |h| :: h[i].reason;
    map reason | reason in reasons :: CountReason(h, reason)
  }

  /** `_summary`. */
  function Summarize(b: Broker): (s: Summary)
    requires b.params.initialCash != 0.0
    ensures s.initialCash == b.params.initialCash && s.finalCash == b.cash && s.trades == b.history
    ensures s.totalTrades == |b.history| == s.winners + s.losers
    ensures s.totalTrades == 0 ==> s.winRate == 0.0
    ensures s.totalTrades > 0 ==> s.winRate * (s.totalTrades as real) == s.winners as real
    ensures 0.0 <= s.winRate <= 1.0
    ensures s.initialCash * (1.0 + s.totalReturnPct / 100.0) == s.finalCash
    ensures s.totalPnl == Sum(b.history, NetPnl) && s.totalCommission == Sum(b.history, ClosedCommission)
    ensures s.totalSwap == Sum(b.history, Swap)
    ensures forall reason :: reason in s.closeReasons <==> exists i :: 0 <= i < |b.history| && b.history[i].reason == reason
    ensures forall reason :: reason in s.closeReasons ==> 1 <= s.closeReasons[reason] <= s.totalTrades
  {
    var h := b.history;
    WinnersAndLosers(h);
    Summary(b.params.initialCash, b.cash, ReturnPct(b.params.initialCash, b.cash), |h|, Winners(h), Losers(h),
            WinRate(Winners(h), |h|), Sum(h, NetPnl), Sum(h, ClosedCommission), Sum(h, Swap), h,
            CloseReasons(h))
  }

  /**
   * The summary's winners are the trades with positive net P&L, its losers
   * all the others, and each close reason maps to the number of trades closed for it.
   */
  lemma SummaryCounts(b: Broker)
    requires b.params.initialCash != 0.0
    ensures forall reason :: reason in Summarize(b).closeReasons ==>
      Summarize(b).closeReasons[reason] == CountReason(b.history, reason)
    ensures Summarize(b).winners == |set i | 0 <= i < |b.history| && b.history[i].netPnl > 0.0|
    ensures Summarize(b).losers == |set i | 0 <= i < |b.history| && b.history[i].netPnl <= 0.0|
  {
    WinnersCounted(b.history);
    LosersCounted(b.history);
  }

  /** Start-of-run reset: cash, trade history, open trades and the bar pointer. */
  function Reset(b: Broker): (r: Broker)
    requires Valid(b)
    ensures Valid(r) && Books(r)
    ensures r.open == [] && r.history == [] && r.cash == b.params.initialCash && r.barIdx == 0
    ensures r.(cash := b.cash, history := b.history, open := b.open, barIdx := b.barIdx) == b
  {
    b.(cash := b.params.initialCash, history := [], open := [], barIdx := 0)
  }

  /**
   * `run_simulation`: refuses an empty series; otherwise plays every bar,
   * liquidates what is still open at the last close and summarizes.
   */
  function RunSimulation(b: Broker, strategy: Strategy, now: real): (r: Result<(Summary, Broker), string>)
    requires Valid(b) && b.params.initialCash != 0.0
    ensures |b.bars| == 0 <==> r.Failure?
    ensures r.Failure? ==> r.error == "No data loaded. Call load_csv() first."
    ensures r.Success? ==>
      var (s, after) := r.value;
      var played := RunBars(Reset(b), strategy, 0, now);
      && Valid(after) && after.open == []
      && after.bars == b.bars && after.params == b.params && after.barIdx == |b.bars| - 1
      && s == Summarize(after)
      && s.finalCash == s.initialCash - s.totalCommission + s.totalPnl
      && |played.history| <= |after.history|
      && after.history[..|played.history|] == played.history
      && (forall c :: c in after.history[|played.history|..] ==>
            && c.reason == "end_of_data"
            && c.closeTime == b.bars[|b.bars| - 1].time
            && c.closePrice == b.bars[|b.bars| - 1].close)
  {
    if |b.bars| == 0 then Failure("No data loaded. Call load_csv() first.")
    else
      var played := RunBars(Reset(b), strategy, 0, now);
      var ids := Keys(played.open);
      var (forced, after) := ForceClose(played, ids, b.bars[|b.bars| - 1].time, now);
      forall k ensures Find(after.open, k).None? {
        KeysListed(played.open, k);
      }
      NothingFiled(after.open);
      assert after.history[..|played.history|] == played.history;
      assert after.history[|played.history|..] == forced;
      Success((Summarize(after), after))
  }
}
