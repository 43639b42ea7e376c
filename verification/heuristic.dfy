/**
 * The heuristic long/short strategy: entry signal with take-profit and
 * stop-loss from daily predictions, risk/reward-interpolated sizing, and
 * the early-exit variants A to G.
 */
module Heuristic {
  import opened Wrappers

  /** The numeric strategy parameters `compute_signal` and `_compute_size` read. */
  datatype Params = Params(
    pipCost: real,
    relVolume: real,
    minOrderVolume: real,
    maxOrderVolume: real,
    leverage: real,
    profitThreshold: real,
    minDrawdownPips: real,
    tpMultiplier: real,
    slMultiplier: real,
    lowerRr: real,
    upperRr: real)

  const Defaults: Params := Params(0.00001, 0.02, 10000.0, 1000000.0, 100.0, 5.0, 10.0, 0.9, 2.0, 0.5, 2.0)

  const ParamKeys: seq<string> := [
    "pip_cost", "rel_volume", "min_order_volume", "max_order_volume", "leverage", "profit_threshold",
    "min_drawdown_pips", "tp_multiplier", "sl_multiplier", "lower_rr_threshold", "upper_rr_threshold"]

  /** The parameter stored under a configuration key. */
  function Field(p: Params, key: string): real
    requires key in ParamKeys
  {
    if key == "pip_cost" then p.pipCost
    else if key == "rel_volume" then p.relVolume
    else if key == "min_order_volume" then p.minOrderVolume
    else if key == "max_order_volume" then p.maxOrderVolume
    else if key == "leverage" then p.leverage
    else if key == "profit_threshold" then p.profitThreshold
    else if key == "min_drawdown_pips" then p.minDrawdownPips
    else if key == "tp_multiplier" then p.tpMultiplier
    else if key == "sl_multiplier" then p.slMultiplier
    else if key == "lower_rr_threshold" then p.lowerRr
    else p.upperRr
  }

  function Pick(overrides: map<string, real>, key: string): real
    requires key in ParamKeys
  {
    if key in overrides then overrides[key] else Field(Defaults, key)
  }

  /** `{**DEFAULT_PARAMS, **config}`. */
  function Resolve(overrides: map<string, real>): (p: Params)
    ensures overrides == map[] ==> p == Defaults
  {
    Params(Pick(overrides, "pip_cost"), Pick(overrides, "rel_volume"), Pick(overrides, "min_order_volume"),
           Pick(overrides, "max_order_volume"), Pick(overrides, "leverage"), Pick(overrides, "profit_threshold"),
           Pick(overrides, "min_drawdown_pips"), Pick(overrides, "tp_multiplier"), Pick(overrides, "sl_multiplier"),
           Pick(overrides, "lower_rr_threshold"), Pick(overrides, "upper_rr_threshold"))
  }

  /** Every known key takes the override when there is one and the default otherwise. */
  lemma ResolveMerges(overrides: map<string, real>, key: string)
    requires key in ParamKeys
    ensures Field(Resolve(overrides), key) == (if key in overrides then overrides[key] else Field(Defaults, key))
  {
  }

  // ------------------------------------------------------------------
  // Sequence helpers
  // ------------------------------------------------------------------

  function SeqMax(s: seq<real>): (m: real)
    requires |s| > 0
    ensures exists i :: 0 <= i < |s| && s[i] == m
    ensures forall i :: 0 <= i < |s| ==> s[i] <= m
  {
    if |s| == 1 then s[0]
    else
      var m := SeqMax(s[1..]);
      assert forall i :: 1 <= i < |s| ==> s[i] == s[1..][i - 1];
      if s[0] >= m then s[0] else m
  }

  function SeqMin(s: seq<real>): (m: real)
    requires |s| > 0
    ensures exists i :: 0 <= i < |s| && s[i] == m
    ensures forall i :: 0 <= i < |s| ==> m <= s[i]
  {
    if |s| == 1 then s[0]
    else
      var m := SeqMin(s[1..]);
      assert forall i :: 1 <= i < |s| ==> s[i] == s[1..][i - 1];
      if s[0] <= m then s[0] else m
  }

  /** Some prediction lies strictly below `t`. */
  predicate Below(s: seq<real>, t: real) {
    exists i :: 0 <= i < |s| && s[i] < t
  }

  /** Some prediction lies strictly above `t`. */
  predicate Above(s: seq<real>, t: real) {
    exists i :: 0 <= i < |s| && s[i] > t
  }

  /** The non-missing predictions, in order. */
  function Present(s: seq<Option<real>>): (r: seq<real>)
    ensures |r| <= |s|
    ensures r == [] <==> forall i :: 0 <= i < |s| ==> s[i].None?
    ensures forall x :: x in r <==> Some(x) in s
  {
    if s == [] then []
    else
      var rest := Present(s[1..]);
      assert forall i :: 1 <= i < |s| ==> s[i] == s[1..][i - 1];
      assert s == [s[0]] + s[1..];
      match s[0]
      case Some(x) => [x] + rest
      case None => rest
  }

  // ------------------------------------------------------------------
  // Entry signal
  // ------------------------------------------------------------------

  function RiskReward(profit: real, drawdown: real): (rr: real)
    ensures drawdown > 0.0 ==> rr * drawdown == profit
    ensures drawdown <= 0.0 ==> rr == 0.0
  {
    if drawdown > 0.0 then profit / drawdown else 0.0
  }

  function Max(a: real, b: real): real {
    if a >= b then a else b
  }

  /** One side of the analysis, as distances from the price: the target and stop offsets. */
  datatype Leg = Leg(profit: real, drawdown: real, rr: real, tpOffset: real, slOffset: real)

  /**
   * A side that stands to gain `gain` and lose `loss` (price distances):
   * profit in pips, drawdown in pips floored at the minimum, the target a
   * fixed share of the gain, the stop a multiple of the drawdown.
   */
  function SideLeg(gain: real, loss: real, p: Params): (l: Leg)
    requires p.pipCost != 0.0
    ensures l.profit == gain / p.pipCost && l.profit * p.pipCost == gain
    ensures l.drawdown == Max(loss / p.pipCost, p.minDrawdownPips)
    ensures l.rr == RiskReward(l.profit, l.drawdown)
    ensures l.tpOffset == p.tpMultiplier * gain
    ensures l.slOffset == p.slMultiplier * l.drawdown * p.pipCost
  {
    var profit := gain / p.pipCost;
    var drawdown := Max(loss / p.pipCost, p.minDrawdownPips);
    assert profit * p.pipCost == gain;
    assert p.tpMultiplier * profit * p.pipCost == p.tpMultiplier * gain;
    Leg(profit, drawdown, RiskReward(profit, drawdown), p.tpMultiplier * profit * p.pipCost,
        p.slMultiplier * drawdown * p.pipCost)
  }

  /** Both sides of the entry analysis. */
  datatype Analysis = Analysis(long: Leg, short: Leg)

  /**
   * The long side gains towards the highest prediction and risks the lowest;
   * the short side the reverse, so each side's drawdown is the other's
   * profit, floored at the minimum.
   */
  function Analyse(price: real, preds: seq<real>, p: Params): (a: Analysis)
    requires |preds| > 0 && p.pipCost != 0.0
    ensures a.long == SideLeg(SeqMax(preds) - price, price - SeqMin(preds), p)
    ensures a.short == SideLeg(price - SeqMin(preds), SeqMax(preds) - price, p)
    ensures a.long.drawdown == Max(a.short.profit, p.minDrawdownPips)
    ensures a.short.drawdown == Max(a.long.profit, p.minDrawdownPips)
  {
    var hi := SeqMax(preds);
    var lo := SeqMin(preds);
    Analysis(SideLeg(hi - price, price - lo, p), SideLeg(price - lo, hi - price, p))
  }

  /** With a positive pip cost, stop multiplier and drawdown floor, the stops bracket the price. */
  lemma StopsBracketPrice(price: real, preds: seq<real>, p: Params)
    requires |preds| > 0 && p.pipCost > 0.0 && p.slMultiplier > 0.0 && p.minDrawdownPips > 0.0
    ensures var a := Analyse(price, preds, p);
      price - a.long.slOffset < price < price + a.short.slOffset
  {
    var a := Analyse(price, preds, p);
    assert a.long.drawdown > 0.0 && a.short.drawdown > 0.0;
    assert p.slMultiplier * a.long.drawdown > 0.0;
    assert p.slMultiplier * a.long.drawdown * p.pipCost > 0.0;
    assert p.slMultiplier * a.short.drawdown > 0.0;
    assert p.slMultiplier * a.short.drawdown * p.pipCost > 0.0;
  }

  // ------------------------------------------------------------------
  // Position size
  // ------------------------------------------------------------------

  /** The size before the cash cap: the volume floor up to the lower threshold, the ceiling from the upper one, linear between. */
  function RawSize(rr: real, p: Params): (size: real)
    ensures rr >= p.upperRr ==> size == p.maxOrderVolume
    ensures rr < p.upperRr && rr <= p.lowerRr ==> size == p.minOrderVolume
    ensures p.lowerRr < rr < p.upperRr ==>
      (size - p.minOrderVolume) * (p.upperRr - p.lowerRr) == (rr - p.lowerRr) * (p.maxOrderVolume - p.minOrderVolume)
    ensures p.minOrderVolume <= p.maxOrderVolume ==> p.minOrderVolume <= size <= p.maxOrderVolume
  {
    if rr >= p.upperRr then p.maxOrderVolume
    else if rr <= p.lowerRr then p.minOrderVolume
    else
      var t := (rr - p.lowerRr) / (p.upperRr - p.lowerRr);
      ProperFraction(rr - p.lowerRr, p.upperRr - p.lowerRr);
      assert t * (p.upperRr - p.lowerRr) == rr - p.lowerRr;
      p.minOrderVolume + t * (p.maxOrderVolume - p.minOrderVolume)
  }

  lemma ProperFraction(a: real, b: real)
    requires 0.0 < a < b
    ensures 0.0 < a / b < 1.0
  {
    var c := b - a;
    assert c / b > 0.0;
    assert (a + c) / b == a / b + c / b;
    assert (a + c) / b == 1.0;
  }

  /** The most the account may commit: balance times relative volume times leverage. */
  function CashCap(p: Params, balance: real): real {
    balance * p.relVolume * p.leverage
  }

  /** `_compute_size`: the interpolated size, capped by the cash the account may commit. */
  function ComputeSize(rr: real, p: Params, balance: real): (size: real)
    ensures size <= CashCap(p, balance) && size <= RawSize(rr, p)
    ensures size == RawSize(rr, p) || size == CashCap(p, balance)
  {
    var size := RawSize(rr, p);
    var cap := CashCap(p, balance);
    if size <= cap then size else cap
  }

  /** A product with a positive factor has the sign of the other factor. */
  lemma SignOfProduct(x: real, w: real)
    requires w > 0.0
    ensures x * w >= 0.0 ==> x >= 0.0
    ensures x > 0.0 ==> x * w > 0.0
  {
    if x < 0.0 {
      assert x * w < 0.0;
    }
  }

  lemma RawSizeMonotone(rr1: real, rr2: real, p: Params)
    requires rr1 <= rr2 && p.minOrderVolume <= p.maxOrderVolume
    ensures RawSize(rr1, p) <= RawSize(rr2, p)
  {
    if p.lowerRr < rr1 < p.upperRr && p.lowerRr < rr2 < p.upperRr {
      var w := p.upperRr - p.lowerRr;
      var d := p.maxOrderVolume - p.minOrderVolume;
      var s1 := RawSize(rr1, p) - p.minOrderVolume;
      var s2 := RawSize(rr2, p) - p.minOrderVolume;
      assert s1 * w == (rr1 - p.lowerRr) * d;
      assert s2 * w == (rr2 - p.lowerRr) * d;
      assert (s2 - s1) * w == s2 * w - s1 * w;
      assert (rr2 - p.lowerRr) * d - (rr1 - p.lowerRr) * d == (rr2 - rr1) * d;
      SignOfProduct(rr2 - rr1, 1.0);
      assert (rr2 - rr1) * d >= 0.0 by {
        if d > 0.0 { SignOfProduct(d, rr2 - rr1 + 1.0); }
      }
      SignOfProduct(s2 - s1, w);
    }
  }

  /** A better risk/reward never buys a smaller position. */
  lemma SizeMonotone(rr1: real, rr2: real, p: Params, balance: real)
    requires rr1 <= rr2 && p.minOrderVolume <= p.maxOrderVolume
    ensures ComputeSize(rr1, p, balance) <= ComputeSize(rr2, p, balance)
  {
    RawSizeMonotone(rr1, rr2, p);
  }

  // ------------------------------------------------------------------
  // Signal
  // ------------------------------------------------------------------

  datatype Side = Buy | Sell

  datatype HoldReason = NoDailyPredictions | NoSignalMeetsThreshold | NonPositiveVolume | NoPriceData

  datatype Signal =
    | Hold(reason: HoldReason)
    | Enter(side: Side, tp: real, sl: real, volume: real, rr: real, entryPrice: real)

  /** The exception a zero pip cost raises in the pip arithmetic. */
  const ZeroDivision := "ZeroDivisionError: float division by zero"

  /**
   * `compute_signal`. The long side wins ties on risk/reward; a side needs
   * its predicted profit to reach the threshold, and a non-positive size
   * turns a chosen entry into a hold.
   */
  function ComputeSignal(price: real, daily: seq<Option<real>>, p: Params, balance: real): (r: Result<Signal, string>)
    ensures Present(daily) == [] ==> r == Success(Hold(NoDailyPredictions))
    ensures Present(daily) != [] && p.pipCost == 0.0 ==> r == Failure(ZeroDivision)
    ensures Present(daily) != [] && p.pipCost != 0.0 ==>
      var a := Analyse(price, Present(daily), p);
      var buy := a.long.profit >= p.profitThreshold && a.long.rr >= a.short.rr;
      var sell := a.short.profit >= p.profitThreshold && a.short.rr > a.long.rr;
      && r.Success?
      && (r.value == Hold(NoSignalMeetsThreshold) <==> !buy && !sell)
      && (r.value.Enter? && r.value.side == Buy <==> buy && ComputeSize(a.long.rr, p, balance) > 0.0)
      && (r.value.Enter? && r.value.side == Sell <==> sell && ComputeSize(a.short.rr, p, balance) > 0.0)
      && (r.value.Enter? ==>
            r.value.entryPrice == price && r.value.volume > 0.0 && r.value.volume == ComputeSize(r.value.rr, p, balance))
      && (r.value.Enter? && r.value.side == Buy ==>
            r.value.tp == price + a.long.tpOffset && r.value.sl == price - a.long.slOffset && r.value.rr == a.long.rr)
      && (r.value.Enter? && r.value.side == Sell ==>
            r.value.tp == price - a.short.tpOffset && r.value.sl == price + a.short.slOffset && r.value.rr == a.short.rr)
  {
    var preds := Present(daily);
    if preds == [] then Success(Hold(NoDailyPredictions))
    else if p.pipCost == 0.0 then Failure(ZeroDivision)
    else
      var a := Analyse(price, preds, p);
      var longSignal := a.long.profit >= p.profitThreshold;
      var shortSignal := a.short.profit >= p.profitThreshold;
      if longSignal && a.long.rr >= a.short.rr then
        var volume := ComputeSize(a.long.rr, p, balance);
        if volume <= 0.0 then Success(Hold(NonPositiveVolume))
        else Success(Enter(Buy, price + a.long.tpOffset, price - a.long.slOffset, volume, a.long.rr, price))
      else if shortSignal && a.short.rr > a.long.rr then
        var volume := ComputeSize(a.short.rr, p, balance);
        if volume <= 0.0 then Success(Hold(NonPositiveVolume))
        else Success(Enter(Sell, price - a.short.tpOffset, price + a.short.slOffset, volume, a.short.rr, price))
      else Success(Hold(NoSignalMeetsThreshold))
  }

  /** A leg whose profit reaches a positive threshold has a positive target offset. */
  lemma TargetOffsetPositive(gain: real, loss: real, p: Params)
    requires p.pipCost > 0.0 && p.tpMultiplier > 0.0 && p.profitThreshold > 0.0
    requires SideLeg(gain, loss, p).profit >= p.profitThreshold
    ensures SideLeg(gain, loss, p).tpOffset > 0.0
  {
    var l := SideLeg(gain, loss, p);
    SignOfProduct(l.profit, p.pipCost);
    assert gain > 0.0;
    SignOfProduct(gain, p.tpMultiplier);
    assert p.tpMultiplier * gain == gain * p.tpMultiplier;
  }

  /**
   * Under positive costs, multipliers, floor and threshold, an entry's
   * take-profit lies on the profitable side of the price and its stop on the other.
   */
  lemma EntryLevels(price: real, daily: seq<Option<real>>, p: Params, balance: real)
    requires p.pipCost > 0.0 && p.tpMultiplier > 0.0 && p.slMultiplier > 0.0
    requires p.minDrawdownPips > 0.0 && p.profitThreshold > 0.0
    ensures var r := ComputeSignal(price, daily, p, balance);
      && (r.Success? && r.value.Enter? && r.value.side == Buy ==> r.value.sl < price < r.value.tp)
      && (r.Success? && r.value.Enter? && r.value.side == Sell ==> r.value.tp < price < r.value.sl)
  {
    var preds := Present(daily);
    if preds != [] {
      var a := Analyse(price, preds, p);
      var hi := SeqMax(preds);
      var lo := SeqMin(preds);
      StopsBracketPrice(price, preds, p);
      if a.long.profit >= p.profitThreshold {
        TargetOffsetPositive(hi - price, price - lo, p);
      }
      if a.short.profit >= p.profitThreshold {
        TargetOffsetPositive(price - lo, hi - price, p);
      }
    }
  }


  // ------------------------------------------------------------------
  // Early exit
  // ------------------------------------------------------------------

  /** Variant F's extra margin on hourly predictions: half the stop distance, zero without a (non-zero) entry. */
  function Buffer(sl: real, entry: Option<real>): (buf: real)
    ensures buf >= 0.0
    ensures entry.None? || entry.value == 0.0 ==> buf == 0.0
    ensures entry.Some? && entry.value != 0.0 ==>
      2.0 * buf == (if sl >= entry.value then sl - entry.value else entry.value - sl)
  {
    if entry.Some? && entry.value != 0.0 then
      0.5 * (if sl - entry.value >= 0.0 then sl - entry.value else entry.value - sl)
    else 0.0
  }

  /** The lowest prediction is below `t` exactly when some prediction is. */
  lemma MinBelow(s: seq<real>, t: real)
    requires |s| > 0
    ensures SeqMin(s) < t <==> Below(s, t)
  {
  }

  lemma MaxAbove(s: seq<real>, t: real)
    requires |s| > 0
    ensures SeqMax(s) > t <==> Above(s, t)
  {
  }

  lemma BelowConcat(a: seq<real>, b: seq<real>, t: real)
    ensures Below(a + b, t) <==> Below(a, t) || Below(b, t)
  {
    if Below(a, t) {
      var i :| 0 <= i < |a| && a[i] < t;
      assert (a + b)[i] == a[i];
    }
    if Below(b, t) {
      var i :| 0 <= i < |b| && b[i] < t;
      assert (a + b)[|a| + i] == b[i];
    }
  }

  lemma AboveConcat(a: seq<real>, b: seq<real>, t: real)
    ensures Above(a + b, t) <==> Above(a, t) || Above(b, t)
  {
    if Above(a, t) {
      var i :| 0 <= i < |a| && a[i] > t;
      assert (a + b)[i] == a[i];
    }
    if Above(b, t) {
      var i :| 0 <= i < |b| && b[i] > t;
      assert (a + b)[|a| + i] == b[i];
    }
  }

  lemma LowFacts(h: seq<real>, d: seq<real>, sl: real, level: real)
    ensures h != [] ==> (SeqMin(h) < sl <==> Below(h, sl)) && (SeqMin(h) < level <==> Below(h, level))
    ensures d != [] ==> (SeqMin(d) < sl <==> Below(d, sl))
    ensures h + d != [] ==> (SeqMin(h + d) < sl <==> Below(h, sl) || Below(d, sl))
  {
    BelowConcat(h, d, sl);
  }

  lemma HighFacts(h: seq<real>, d: seq<real>, sl: real, level: real)
    ensures h != [] ==> (SeqMax(h) > sl <==> Above(h, sl)) && (SeqMax(h) > level <==> Above(h, level))
    ensures d != [] ==> (SeqMax(d) > sl <==> Above(d, sl))
    ensures h + d != [] ==> (SeqMax(h + d) > sl <==> Above(h, sl) || Above(d, sl))
  {
    AboveConcat(h, d, sl);
  }

  /** Variant E's blended level for a long: 60% of the hourly minimum plus 40% of the daily one. */
  function BlendLow(h: seq<real>, d: seq<real>): real
    requires |h| > 0 && |d| > 0
  {
    0.6 * SeqMin(h) + 0.4 * SeqMin(d)
  }

  function BlendHigh(h: seq<real>, d: seq<real>): real
    requires |h| > 0 && |d| > 0
  {
    0.6 * SeqMax(h) + 0.4 * SeqMax(d)
  }

  /** `should_early_close` for a long position. */
  function EarlyCloseLong(variant: string, h: seq<real>, d: seq<real>, sl: real, entry: Option<real>): (r: bool)
    ensures variant == "A" ==> (r <==> Below(h, sl) || Below(d, sl))
    ensures variant == "B" ==> (r <==> Below(d, sl))
    ensures variant == "C" ==> (r <==> Below(h, sl))
    ensures variant == "D" ==> (r <==> Below(h, sl) && Below(d, sl))
    ensures variant == "E" && h != [] && d != [] ==> (r <==> BlendLow(h, d) < sl)
    ensures variant == "E" && (h == [] || d == []) ==> (r <==> Below(h, sl) || Below(d, sl))
    ensures variant == "F" ==> (r <==> Below(h, sl - Buffer(sl, entry)) || Below(d, sl))
    ensures variant !in ["A", "B", "C", "D", "E", "F"] ==> !r
  {
    LowFacts(h, d, sl, sl - Buffer(sl, entry));
    if variant == "A" then
      var all := h + d;
      all != [] && SeqMin(all) < sl
    else if variant == "B" then d != [] && SeqMin(d) < sl
    else if variant == "C" then h != [] && SeqMin(h) < sl
    else if variant == "D" then
      (h != [] && SeqMin(h) < sl) && (d != [] && SeqMin(d) < sl)
    else if variant == "E" then
      if h != [] && d != [] then BlendLow(h, d) < sl
      else if h != [] then SeqMin(h) < sl
      else if d != [] then SeqMin(d) < sl
      else false
    else if variant == "F" then
      var buf := Buffer(sl, entry);
      (h != [] && SeqMin(h) < sl - buf) || (d != [] && SeqMin(d) < sl)
    else false
  }

  /** `should_early_close` for a short position: the mirror image, on maxima above the stop. */
  function EarlyCloseShort(variant: string, h: seq<real>, d: seq<real>, sl: real, entry: Option<real>): (r: bool)
    ensures variant == "A" ==> (r <==> Above(h, sl) || Above(d, sl))
    ensures variant == "B" ==> (r <==> Above(d, sl))
    ensures variant == "C" ==> (r <==> Above(h, sl))
    ensures variant == "D" ==> (r <==> Above(h, sl) && Above(d, sl))
    ensures variant == "E" && h != [] && d != [] ==> (r <==> BlendHigh(h, d) > sl)
    ensures variant == "E" && (h == [] || d == []) ==> (r <==> Above(h, sl) || Above(d, sl))
    ensures variant == "F" ==> (r <==> Above(h, sl + Buffer(sl, entry)) || Above(d, sl))
    ensures variant !in ["A", "B", "C", "D", "E", "F"] ==> !r
  {
    HighFacts(h, d, sl, sl + Buffer(sl, entry));
    if variant == "A" then
      var all := h + d;
      all != [] && SeqMax(all) > sl
    else if variant == "B" then d != [] && SeqMax(d) > sl
    else if variant == "C" then h != [] && SeqMax(h) > sl
    else if variant == "D" then
      (h != [] && SeqMax(h) > sl) && (d != [] && SeqMax(d) > sl)
    else if variant == "E" then
      if h != [] && d != [] then BlendHigh(h, d) > sl
      else if h != [] then SeqMax(h) > sl
      else if d != [] then SeqMax(d) > sl
      else false
    else if variant == "F" then
      var buf := Buffer(sl, entry);
      (h != [] && SeqMax(h) > sl + buf) || (d != [] && SeqMax(d) > sl)
    else false
  }

  /** `should_early_close`: "long" and "short" positions only; anything else never closes early. */
  function ShouldEarlyClose(direction: string, variant: string, h: seq<real>, d: seq<real>, sl: real, entry: Option<real>): (r: bool)
    ensures direction != "long" && direction != "short" ==> !r
    ensures variant == "G" ==> !r
    ensures variant == "E" && h == [] && d == [] ==> !r
    ensures direction == "long" ==> r == EarlyCloseLong(variant, h, d, sl, entry)
    ensures direction == "short" ==> r == EarlyCloseShort(variant, h, d, sl, entry)
  {
    if direction == "long" then EarlyCloseLong(variant, h, d, sl, entry)
    else if direction == "short" then EarlyCloseShort(variant, h, d, sl, entry)
    else false
  }

  /**
   * How the variants nest for either direction: D (both horizons) implies
   * E (blend) implies A (either horizon), D implies B and C, and F implies A.
   */
  lemma VariantsNest(direction: string, h: seq<real>, d: seq<real>, sl: real, entry: Option<real>)
    ensures ShouldEarlyClose(direction, "D", h, d, sl, entry) ==> ShouldEarlyClose(direction, "E", h, d, sl, entry)
    ensures ShouldEarlyClose(direction, "E", h, d, sl, entry) ==> ShouldEarlyClose(direction, "A", h, d, sl, entry)
    ensures ShouldEarlyClose(direction, "D", h, d, sl, entry) ==> ShouldEarlyClose(direction, "B", h, d, sl, entry)
    ensures ShouldEarlyClose(direction, "D", h, d, sl, entry) ==> ShouldEarlyClose(direction, "C", h, d, sl, entry)
    ensures ShouldEarlyClose(direction, "F", h, d, sl, entry) ==> ShouldEarlyClose(direction, "A", h, d, sl, entry)
  {
    if direction == "long" {
      LongVariantsNest(h, d, sl, entry);
    } else if direction == "short" {
      ShortVariantsNest(h, d, sl, entry);
    }
  }

  /** The nesting of the variants for a long position. */
  lemma LongVariantsNest(h: seq<real>, d: seq<real>, sl: real, entry: Option<real>)
    ensures EarlyCloseLong("D", h, d, sl, entry) ==> EarlyCloseLong("E", h, d, sl, entry)
    ensures EarlyCloseLong("E", h, d, sl, entry) ==> EarlyCloseLong("A", h, d, sl, entry)
    ensures EarlyCloseLong("D", h, d, sl, entry) ==> EarlyCloseLong("B", h, d, sl, entry)
    ensures EarlyCloseLong("D", h, d, sl, entry) ==> EarlyCloseLong("C", h, d, sl, entry)
    ensures EarlyCloseLong("F", h, d, sl, entry) ==> EarlyCloseLong("A", h, d, sl, entry)
  {
    if h != [] && d != [] {
      MinBelow(h, sl); MinBelow(d, sl);
      if BlendLow(h, d) < sl {
        assert SeqMin(h) < sl || SeqMin(d) < sl;
      }
    }
    if Below(h, sl - Buffer(sl, entry)) {
      var i :| 0 <= i < |h| && h[i] < sl - Buffer(sl, entry);
      assert h[i] < sl;
    }
  }

  /** The nesting of the variants for a short position. */
  lemma ShortVariantsNest(h: seq<real>, d: seq<real>, sl: real, entry: Option<real>)
    ensures EarlyCloseShort("D", h, d, sl, entry) ==> EarlyCloseShort("E", h, d, sl, entry)
    ensures EarlyCloseShort("E", h, d, sl, entry) ==> EarlyCloseShort("A", h, d, sl, entry)
    ensures EarlyCloseShort("D", h, d, sl, entry) ==> EarlyCloseShort("B", h, d, sl, entry)
    ensures EarlyCloseShort("D", h, d, sl, entry) ==> EarlyCloseShort("C", h, d, sl, entry)
    ensures EarlyCloseShort("F", h, d, sl, entry) ==> EarlyCloseShort("A", h, d, sl, entry)
  {
    if h != [] && d != [] {
      MaxAbove(h, sl); MaxAbove(d, sl);
      if BlendHigh(h, d) > sl {
        assert SeqMax(h) > sl || SeqMax(d) > sl;
      }
    }
    if Above(h, sl + Buffer(sl, entry)) {
      var i :| 0 <= i < |h| && h[i] > sl + Buffer(sl, entry);
      assert h[i] > sl;
    }
  }

  /** Without a (non-zero) entry price variant F has no buffer and agrees with A. */
  lemma NoEntryFIsA(direction: string, h: seq<real>, d: seq<real>, sl: real, entry: Option<real>)
    requires entry.None? || entry.value == 0.0
    ensures ShouldEarlyClose(direction, "F", h, d, sl, entry) == ShouldEarlyClose(direction, "A", h, d, sl, entry)
  {
  }
}
