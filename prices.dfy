/**
 * The price process (backend/price_simulator.py): one random-walk price
 * series per symbol.  The random draws are parameters, restricted to the
 * ranges the simulator draws them from.
 */
module Prices {
  import opened Wrappers

  /** The history keeps at most this many points, dropping the oldest first. */
  const MaxHistory: nat := 100
  /** Session high and low look at this many most recent points. */
  const SessionWindow: nat := 20
  /** The volatility a symbol first seen through a real quote gets. */
  const DefaultVolatility: real := 0.02

  /** The metrics `update_price` and `get_price_data` return. */
  datatype Quote = Quote(price: real, change: real, changePercent: real, volume: nat, high: real, low: real,
                         bid: real, ask: real, priceHistory: seq<real>)

  function Max2(a: real, b: real): real { if a >= b then a else b }
  function Min2(a: real, b: real): real { if a <= b then a else b }
  function Abs(x: real): real { if x < 0.0 then -x else x }

  /** Python's `max(s)`. */
  function Max(s: seq<real>): (m: real)
    requires |s| > 0
    ensures m in s && forall x :: x in s ==> x <= m
  {
    if |s| == 1 then s[0]
    else
      assert forall x :: x in s ==> x == s[0] || x in s[1..];
      Max2(s[0], Max(s[1..]))
  }

  /** Python's `min(s)`. */
  function Min(s: seq<real>): (m: real)
    requires |s| > 0
    ensures m in s && forall x :: x in s ==> m <= x
  {
    if |s| == 1 then s[0]
    else
      assert forall x :: x in s ==> x == s[0] || x in s[1..];
      Min2(s[0], Min(s[1..]))
  }

  /** `s[-20:]`: the last (up to) twenty points. */
  function Window(s: seq<real>): (w: seq<real>)
    ensures |w| == if |s| > SessionWindow then SessionWindow else |s|
  {
    if |s| > SessionWindow then s[|s| - SessionWindow..] else s
  }

  /** The window is the matching suffix of the series. */
  lemma WindowIsSuffix(s: seq<real>)
    ensures Window(s) == s[|s| - |Window(s)|..]
  {
  }

  /** The newest point is always in the window. */
  lemma LastInWindow(s: seq<real>)
    requires |s| > 0
    ensures s[|s| - 1] in Window(s)
  {
    var w := Window(s);
    assert w[|w| - 1] == s[|s| - 1];
  }

  /**
   * One step of the walk: the price moved by `drift + shock`, then held
   * within half and one and a half times the current price.
   */
  function Step(current: real, drift: real, shock: real): (r: real)
    ensures current >= 0.0 ==> 0.5 * current <= r <= 1.5 * current
    ensures current > 0.0 ==> r > 0.0
  {
    var move := drift + shock;
    var raw := current * (1.0 + move);
    Min2(Max2(raw, current * 0.5), current * 1.5)
  }

  /** Append `x` and evict the oldest point once the history exceeds its capacity. */
  function Pushed(h: seq<real>, x: real): (r: seq<real>)
    ensures |r| == if |h| + 1 > MaxHistory then |h| else |h| + 1
    ensures r[|r| - 1] == x
    ensures |h| <= MaxHistory ==> |r| <= MaxHistory
  {
    var a := h + [x];
    if |a| > MaxHistory then a[1..] else a
  }

  /**
   * The pushed history is the old one with `x` appended, less its oldest
   * point when that would exceed the capacity.
   */
  lemma PushedIsSuffix(h: seq<real>, x: real)
    ensures var r := Pushed(h, x); r == (h + [x])[|h| + 1 - |r|..]
  {
  }

  /** Bid and ask placed symmetrically around `price`, `spread` apart in proportion. */
  function BidAsk(price: real, spread: real): (r: (real, real))
    ensures price >= 0.0 && 0.0 <= spread <= 2.0 ==> 0.0 <= r.0 <= price <= r.1
    ensures r.1 - r.0 == price * spread && r.1 - price == price - r.0
  {
    (price * (1.0 - spread / 2.0), price * (1.0 + spread / 2.0))
  }

  /** Traded volume scaled by the drawn factor and by the size of the move, truncated to an integer. */
  function NextVolume(base: nat, factor: real, changePercent: real): (v: nat)
    requires factor >= 0.0
    ensures v as real <= base as real * factor * (1.0 + Abs(changePercent) / 10.0) < v as real + 1.0
  {
    var x := base as real * factor * (1.0 + Abs(changePercent) / 10.0);
    assert x >= 0.0 by { NonNegProduct(base as real * factor, 1.0 + Abs(changePercent) / 10.0); }
    x.Floor
  }

  lemma NonNegProduct(a: real, b: real)
    requires a >= 0.0 && b >= 0.0
    ensures a * b >= 0.0
  {
  }

  /** The lowest and highest of some points. */
  function Span(points: seq<real>): (r: (real, real))
    requires |points| > 0
    ensures r.0 in points && r.1 in points
    ensures forall x :: x in points ==> r.0 <= x <= r.1
  {
    (Min(points), Max(points))
  }

  /**
   * `update_price`'s session low and high: over the last twenty points once
   * there are two, else the new price.  They bracket the newest point.
   */
  function RecentRange(history: seq<real>, fallback: real): (r: (real, real))
    ensures |history| <= 1 ==> r == (fallback, fallback)
    ensures |history| > 0 && history[|history| - 1] == fallback ==> r.0 <= fallback <= r.1
  {
    if |history| > 1 then
      LastInWindow(history);
      Span(Window(history))
    else (fallback, fallback)
  }

  /**
   * Once there are two points the session low and high are points of the
   * last twenty, and every one of those lies between them.
   */
  lemma RecentRangeIsWindowSpan(history: seq<real>, fallback: real)
    requires |history| > 1
    ensures var r := RecentRange(history, fallback);
      && r.0 in Window(history) && r.1 in Window(history)
      && forall x :: x in Window(history) ==> r.0 <= x <= r.1
  {
  }

  /**
   * `get_price_data`'s low and high: over the whole history once there are
   * two points, else the current price.
   */
  function FullRange(history: seq<real>, fallback: real): (r: (real, real))
    ensures |history| <= 1 ==> r == (fallback, fallback)
    ensures |history| > 1 ==> r.0 in history && r.1 in history
    ensures |history| > 1 ==> forall x :: x in history ==> r.0 <= x <= r.1
    ensures |history| > 0 && history[|history| - 1] == fallback ==> r.0 <= fallback <= r.1
  {
    if |history| > 1 then
      assert history[|history| - 1] in history;
      Span(history)
    else (fallback, fallback)
  }

  /**
   * The metrics one step of `update_price` reports, from the symbol's
   * current price, history and volume and the step's draws.  The price is
   * the clamped walk step, the change is measured from the previous price,
   * the volume follows the size of the move, and the session high and low
   * and the bid and ask all bracket the new price.
   */
  function Tick(current: real, history: seq<real>, volume: nat, drift: real, shock: real,
                volumeFactor: real, spread: real): (q: Quote)
    requires current > 0.0 && volumeFactor >= 0.0 && 0.0 <= spread <= 2.0
    ensures q.price == Step(current, drift, shock)
    ensures 0.5 * current <= q.price <= 1.5 * current && q.price > 0.0
    ensures q.change == q.price - current
    ensures q.priceHistory == Window(Pushed(history, q.price))
    ensures q.low <= q.price <= q.high
    ensures 0.0 <= q.bid <= q.price <= q.ask
  {
    var next := Step(current, drift, shock);
    var change := next - current;
    var changePercent := change / current * 100.0;
    var pushed := Pushed(history, next);
    var range := RecentRange(pushed, next);
    var bidAsk := BidAsk(next, spread);
    Quote(next, change, changePercent, NextVolume(volume, volumeFactor, changePercent),
          range.1, range.0, bidAsk.0, bidAsk.1, Window(pushed))
  }

  /**
   * Every symbol with a current price has an entry in every other table,
   * its prices are positive and its history holds between one and
   * MaxHistory points.
   */
  ghost predicate Tables(basePrices: map<string, real>, currentPrices: map<string, real>,
                         priceHistory: map<string, seq<real>>, volatility: map<string, real>,
                         volumes: map<string, nat>, lastUpdate: map<string, real>)
  {
    forall s :: s in currentPrices ==>
      && s in basePrices && s in priceHistory && s in volatility && s in volumes && s in lastUpdate
      && currentPrices[s] > 0.0 && basePrices[s] > 0.0
      && 1 <= |priceHistory[s]| <= MaxHistory
  }

  /** Stepping one known symbol to a positive price and a bounded history keeps the tables consistent. */
  lemma StepKeepsTables(basePrices: map<string, real>, currentPrices: map<string, real>,
                        priceHistory: map<string, seq<real>>, volatility: map<string, real>,
                        volumes: map<string, nat>, lastUpdate: map<string, real>,
                        symbol: string, price: real, history: seq<real>, volume: nat)
    requires Tables(basePrices, currentPrices, priceHistory, volatility, volumes, lastUpdate)
    requires symbol in currentPrices && price > 0.0 && 1 <= |history| <= MaxHistory
    ensures Tables(basePrices, currentPrices[symbol := price], priceHistory[symbol := history],
                   volatility, volumes[symbol := volume], lastUpdate)
  {
  }

  /**
   * The simulator state: per symbol the reference price, the current price,
   * the history, the volatility, the simulated volume and the last update time.
   */
  class PriceSimulator {
    var basePrices: map<string, real>
    var currentPrices: map<string, real>
    var priceHistory: map<string, seq<real>>
    var volatility: map<string, real>
    var volumes: map<string, nat>
    var lastUpdate: map<string, real>

    /**
     * Every symbol with a current price appears in each of the other
     * tables, its prices are positive and its history holds between one and
     * MaxHistory points.
     */
    ghost predicate Valid()
      reads this
    {
      Tables(basePrices, currentPrices, priceHistory, volatility, volumes, lastUpdate)
    }

    /**
     * The three seeded instruments; `v1`, `v2`, `v3` are the drawn starting
     * volumes of AAPL, TSLA and IBM and `now` the clock reading.
     */
    constructor (v1: nat, v2: nat, v3: nat, now: real)
      requires 1000 <= v1 <= 10000 && 1000 <= v2 <= 10000 && 1000 <= v3 <= 10000
      ensures Valid()
      ensures basePrices == map["AAPL" := 260.0, "TSLA" := 430.0, "IBM" := 295.0]
      ensures currentPrices == basePrices
      ensures priceHistory == map["AAPL" := [260.0], "TSLA" := [430.0], "IBM" := [295.0]]
      ensures volatility == map["AAPL" := 0.02, "TSLA" := 0.04, "IBM" := 0.015]
      ensures volumes == map["AAPL" := v1, "TSLA" := v2, "IBM" := v3]
      ensures lastUpdate == map["AAPL" := now, "TSLA" := now, "IBM" := now]
    {
      basePrices := map["AAPL" := 260.0, "TSLA" := 430.0, "IBM" := 295.0];
      currentPrices := basePrices;
      priceHistory := map["AAPL" := [260.0], "TSLA" := [430.0], "IBM" := [295.0]];
      volatility := map["AAPL" := 0.02, "TSLA" := 0.04, "IBM" := 0.015];
      volumes := map["AAPL" := v1, "TSLA" := v2, "IBM" := v3];
      lastUpdate := map["AAPL" := now, "TSLA" := now, "IBM" := now];
    }

    /**
     * `initialize_from_api`.  A new symbol is seeded from the real price; a
     * known one is re-synchronised (reference and current price only) when
     * the draw `syncDraw` falls under one in ten.
     */
    method InitializeFromApi(symbol: string, realPrice: real, syncDraw: real, volumeDraw: nat, now: real)
      requires Valid() && realPrice > 0.0
      requires 0.0 <= syncDraw < 1.0 && 1000 <= volumeDraw <= 10000
      modifies this
      ensures Valid()
      ensures symbol !in old(currentPrices) ==>
        && basePrices == old(basePrices)[symbol := realPrice]
        && currentPrices == old(currentPrices)[symbol := realPrice]
        && priceHistory == old(priceHistory)[symbol := [realPrice]]
        && volatility == old(volatility)[symbol := DefaultVolatility]
        && volumes == old(volumes)[symbol := volumeDraw]
        && lastUpdate == old(lastUpdate)[symbol := now]
      ensures symbol in old(currentPrices) ==>
        && basePrices == (if syncDraw < 0.1 then old(basePrices)[symbol := realPrice] else old(basePrices))
        && currentPrices == (if syncDraw < 0.1 then old(currentPrices)[symbol := realPrice] else old(currentPrices))
        && priceHistory == old(priceHistory) && volatility == old(volatility)
        && volumes == old(volumes) && lastUpdate == old(lastUpdate)
    {
      if symbol !in currentPrices {
        basePrices := basePrices[symbol := realPrice];
        currentPrices := currentPrices[symbol := realPrice];
        priceHistory := priceHistory[symbol := [realPrice]];
        volatility := volatility[symbol := DefaultVolatility];
        volumes := volumes[symbol := volumeDraw];
        lastUpdate := lastUpdate[symbol := now];
      } else if syncDraw < 0.1 {
        basePrices := basePrices[symbol := realPrice];
        currentPrices := currentPrices[symbol := realPrice];
      }
    }

    /**
     * `update_price`: one step of the walk.  `drift` and `spread` are the
     * uniform draws, `shock` the Gaussian draw (any real) and `volumeFactor`
     * the uniform volume multiplier.  None for an unknown symbol, with
     * nothing changed.
     */
    method UpdatePrice(symbol: string, drift: real, shock: real, volumeFactor: real, spread: real)
      returns (r: Option<Quote>)
      requires Valid()
      requires -0.0001 <= drift <= 0.0003 && 0.7 <= volumeFactor <= 1.3 && 0.001 <= spread <= 0.005
      modifies this
      ensures Valid()
      ensures symbol !in old(currentPrices) ==> r.None? && unchanged(this)
      ensures symbol in old(currentPrices) ==>
        var q := Tick(old(currentPrices[symbol]), old(priceHistory[symbol]), old(volumes[symbol]),
                      drift, shock, volumeFactor, spread);
        && r == Some(q)
        && currentPrices == old(currentPrices)[symbol := q.price]
        && priceHistory == old(priceHistory)[symbol := Pushed(old(priceHistory[symbol]), q.price)]
        && volumes == old(volumes)[symbol := q.volume]
        && unchanged(this`basePrices, this`volatility, this`lastUpdate)
    {
      if symbol !in currentPrices {
        return None;
      }
      var currentPrice := currentPrices[symbol];
      var q := Tick(currentPrice, priceHistory[symbol], volumes[symbol], drift, shock, volumeFactor, spread);
      StepKeepsTables(basePrices, currentPrices, priceHistory, volatility, volumes, lastUpdate,
                      symbol, q.price, Pushed(priceHistory[symbol], q.price), q.volume);
      currentPrices := currentPrices[symbol := q.price];
      priceHistory := priceHistory[symbol := Pushed(priceHistory[symbol], q.price)];
      volumes := volumes[symbol := q.volume];
      r := Some(q);
    }

    /**
     * `get_price_data`: the current metrics without stepping.  The change is
     * measured from the reference price, high and low are taken over the
     * whole history, and `spread` is the uniform draw.
     */
    function GetPriceData(symbol: string, spread: real): (r: Option<Quote>)
      reads this
      requires Valid() && 0.001 <= spread <= 0.005
      ensures r.None? <==> symbol !in currentPrices
      ensures r.Some? ==>
        var current := currentPrices[symbol];
        && r.value.price == current && r.value.change == current - basePrices[symbol]
        && r.value.changePercent == (current - basePrices[symbol]) / basePrices[symbol] * 100.0
        && r.value.volume == volumes[symbol]
        && r.value.bid <= current <= r.value.ask
        && r.value.priceHistory == Window(priceHistory[symbol])
        && (|priceHistory[symbol]| > 1 ==> forall x :: x in priceHistory[symbol] ==> r.value.low <= x <= r.value.high)
        && (priceHistory[symbol][|priceHistory[symbol]| - 1] == current ==> r.value.low <= current <= r.value.high)
    {
      if symbol !in currentPrices then None
      else
        var current := currentPrices[symbol];
        var base := basePrices[symbol];
        var totalChange := current - base;
        var range := FullRange(priceHistory[symbol], current);
        var bidAsk := BidAsk(current, spread);
        Some(Quote(current, totalChange, totalChange / base * 100.0, volumes[symbol], range.1, range.0,
                   bidAsk.0, bidAsk.1, Window(priceHistory[symbol])))
    }
  }

  /**
   * After a re-synchronisation the current price need not lie in the history,
   * so the whole-history high and low `get_price_data` reports can miss it.
   */
  lemma RangeCanMissCurrent()
    ensures var r := FullRange([260.0, 262.0], 300.0); r.1 < 300.0
  {
    assert Max([262.0]) == 262.0;
  }
}
