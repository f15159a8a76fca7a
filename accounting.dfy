/**
 * The portfolio accountant of the backend (backend/main.py,
 * `process_executed_order` and the valuation in `get_portfolio`), stated on
 * values.  The class in module Backend performs these steps in place and is
 * proved to agree with the functions here.
 */
module Accounting {
  import opened Wrappers
  import opened Orders

  /** `db["portfolio"][symbol]`: shares held and their average cost. */
  datatype Position = Position(symbol: string, quantity: nat, avgPrice: real)

  /** One entry of `db["trades"]`; `pnl` is 0 for a BUY. */
  datatype Trade = Trade(id: string, symbol: string, qty: nat, price: real, side: Side, pnl: real, executedAt: string)

  /**
   * The accountant's part of the database: the positions, the order in which
   * their symbols were first seen (the iteration order of the Python dict),
   * the trade history (newest first) and `db["stats"]["total_pnl"]`.
   */
  datatype Ledger = Ledger(portfolio: map<string, Position>, symbols: seq<string>, trades: seq<Trade>, totalPnl: real)

  /** The outcome of applying one order; `rejected` is the oversized SELL. */
  datatype Applied = Applied(ledger: Ledger, rejected: bool)

  const EmptyLedger := Ledger(map[], [], [], 0.0)

  /** Shares held in `symbol`; a symbol never traded holds none. */
  function Held(l: Ledger, symbol: string): nat {
    if symbol in l.portfolio then l.portfolio[symbol].quantity else 0
  }

  /** Sum of the `pnl` of every trade in the history. */
  function TradePnl(ts: seq<Trade>): real {
    if ts == [] then 0.0 else ts[0].pnl + TradePnl(ts[1..])
  }

  /** Sum of the `pnl` of the SELL trades only. */
  function SellPnl(ts: seq<Trade>): real {
    if ts == [] then 0.0 else (if ts[0].side == Sell then ts[0].pnl else 0.0) + SellPnl(ts[1..])
  }

  predicate Distinct(s: seq<string>) {
    forall i, j :: 0 <= i < j < |s| ==> s[i] != s[j]
  }

  /**
   * The ledger invariants: positions sit under their own symbol, the symbol
   * order lists each position once, a position with no shares has zero cost,
   * a BUY trade realises nothing, and the running total equals the trades' sum.
   */
  ghost predicate LedgerInv(l: Ledger) {
    && Distinct(l.symbols)
    && (forall s :: s in l.symbols <==> s in l.portfolio)
    && (forall s :: s in l.portfolio ==> l.portfolio[s].symbol == s)
    && (forall s :: s in l.portfolio && l.portfolio[s].quantity == 0 ==> l.portfolio[s].avgPrice == 0.0)
    && (forall i :: 0 <= i < |l.trades| && l.trades[i].side == Buy ==> l.trades[i].pnl == 0.0)
    && l.totalPnl == TradePnl(l.trades)
  }

  /** A fresh `{"quantity": 0, "avgPrice": 0.0}` entry for an unseen symbol. */
  function Opened(l: Ledger, symbol: string): (r: Ledger)
    ensures symbol in r.portfolio && r.trades == l.trades && r.totalPnl == l.totalPnl
    ensures forall s :: s in l.portfolio ==> s in r.portfolio && r.portfolio[s] == l.portfolio[s]
    ensures r.portfolio.Keys == l.portfolio.Keys + {symbol}
    ensures symbol !in l.portfolio ==> r.portfolio[symbol] == Position(symbol, 0, 0.0)
    ensures r.portfolio[symbol].quantity == Held(l, symbol)
  {
    if symbol in l.portfolio then l
    else l.(portfolio := l.portfolio[symbol := Position(symbol, 0, 0.0)], symbols := l.symbols + [symbol])
  }

  /** A total cost spread evenly over `n` shares. */
  function Mean(total: real, n: nat): real
    requires n > 0
  {
    total / n as real
  }

  /** A BUY of `qty` at `price`: the shares add up and the average cost is re-weighted. */
  function BuyInto(p: Position, qty: Shares, price: real): (r: Position)
    ensures r.symbol == p.symbol && r.quantity == p.quantity + qty
  {
    var avg :=
      if p.quantity == 0 then price
      else Mean(p.quantity as real * p.avgPrice + qty as real * price, p.quantity + qty);
    p.(avgPrice := avg, quantity := p.quantity + qty)
  }

  /**
   * A BUY conserves the total cost basis, which determines the new average
   * cost since the position ends non-empty.
   */
  lemma BuyConservesCost(p: Position, qty: Shares, price: real)
    ensures var r := BuyInto(p, qty, price);
      r.quantity as real * r.avgPrice == p.quantity as real * p.avgPrice + qty as real * price
  {
    if p.quantity == 0 {
      assert p.quantity as real * p.avgPrice == 0.0;
    }
  }

  /** A weighted difference keeps the sign of what it weighs. */
  lemma ScaledSign(c: real, d: real, w: real, e: real)
    requires c > 0.0 && w >= 0.0 && c * d == w * e
    ensures e >= 0.0 ==> d >= 0.0
    ensures e <= 0.0 ==> d <= 0.0
  {
    if e >= 0.0 { assert w * e >= 0.0; } else { assert w * e <= 0.0; }
    if d < 0.0 { assert c * d < 0.0; } else if d > 0.0 { assert c * d > 0.0; }
  }

  /** With shares already held, the new average cost lies between the old one and the fill price. */
  lemma BuyAverageBetween(p: Position, qty: Shares, price: real)
    requires p.quantity > 0
    ensures var a := BuyInto(p, qty, price).avgPrice;
      (p.avgPrice <= price ==> p.avgPrice <= a <= price) && (price <= p.avgPrice ==> price <= a <= p.avgPrice)
  {
    var n, k := p.quantity as real, qty as real;
    var a := BuyInto(p, qty, price).avgPrice;
    BuyConservesCost(p, qty, price);
    assert (n + k) * a == n * p.avgPrice + k * price;
    assert (n + k) * (a - p.avgPrice) == k * (price - p.avgPrice);
    assert (n + k) * (price - a) == n * (price - p.avgPrice);
    ScaledSign(n + k, a - p.avgPrice, k, price - p.avgPrice);
    ScaledSign(n + k, price - a, n, price - p.avgPrice);
  }

  /** A BUY of a symbol with no shares starts the cost basis at the fill price. */
  lemma BuyIntoEmpty(p: Position, qty: Shares, price: real)
    requires p.quantity == 0
    ensures BuyInto(p, qty, price) == Position(p.symbol, qty, price)
  {
  }

  /**
   * `process_executed_order` on values.  Anything but an EXECUTED order is
   * ignored.  Otherwise a position entry is opened if missing and the order
   * is settled against it.
   */
  function ApplyExecution(l: Ledger, o: Order): Applied
    requires Recorded(o)
  {
    if o.status != Executed then Applied(l, false)
    else Settle(Opened(l, o.symbol), o)
  }

  /**
   * Settling an executed order against its (already open) position: a BUY
   * adds to it; a SELL of more than is held is rejected; a SELL realises
   * `(price - avgPrice) * qty` and resets the average cost when the last
   * share goes.  Each trade goes to the front.
   */
  function Settle(l: Ledger, o: Order): Applied
    requires Recorded(o) && o.status == Executed && o.symbol in l.portfolio
  {
    var p := l.portfolio[o.symbol];
    var price := o.executedPrice.value;
    if o.side == Buy then
      var t := Trade(o.orderId, o.symbol, o.quantity, price, o.side, 0.0, o.executedAt.value);
      Applied(l.(portfolio := l.portfolio[o.symbol := BuyInto(p, o.quantity, price)], trades := [t] + l.trades), false)
    else if p.quantity < o.quantity then
      Applied(l, true)
    else
      var pnl := (price - p.avgPrice) * o.quantity as real;
      var left: nat := p.quantity - o.quantity;
      var q := Position(p.symbol, left, if left == 0 then 0.0 else p.avgPrice);
      var t := Trade(o.orderId, o.symbol, o.quantity, price, o.side, pnl, o.executedAt.value);
      Applied(Ledger(l.portfolio[o.symbol := q], l.symbols, [t] + l.trades, l.totalPnl + pnl), false)
  }

  /** Anything but an EXECUTED order leaves the ledger as it was. */
  lemma IgnoredUnlessExecuted(l: Ledger, o: Order)
    requires Recorded(o) && o.status != Executed
    ensures ApplyExecution(l, o) == Applied(l, false)
  {
  }

  /**
   * An executed order is refused exactly when it sells more than is held,
   * and then the only trace it leaves is the opened zero entry.
   */
  lemma RejectedIffOversizedSell(l: Ledger, o: Order)
    requires Recorded(o) && o.status == Executed
    ensures var r := ApplyExecution(l, o);
      && (r.rejected <==> o.side.Sell? && Held(l, o.symbol) < o.quantity)
      && (r.rejected ==> r.ledger == Opened(l, o.symbol))
  {
  }

  /**
   * An accepted execution prepends exactly one trade carrying the order's id,
   * adds its P&L (zero for a BUY) to the total, and changes only the order's
   * own position: a BUY adds the shares and conserves total cost, a SELL
   * removes them and clears the cost when none remain.
   */
  lemma AcceptedEffect(l: Ledger, o: Order)
    requires Recorded(o) && o.status == Executed && !ApplyExecution(l, o).rejected
    ensures var r := ApplyExecution(l, o);
      var p := Opened(l, o.symbol).portfolio[o.symbol];
      var price := o.executedPrice.value;
      && o.symbol in r.ledger.portfolio
      && var q := r.ledger.portfolio[o.symbol];
      && r.ledger.portfolio == Opened(l, o.symbol).portfolio[o.symbol := q]
      && r.ledger.symbols == Opened(l, o.symbol).symbols
      && |r.ledger.trades| == |l.trades| + 1 && r.ledger.trades[1..] == l.trades
      && r.ledger.trades[0] == Trade(o.orderId, o.symbol, o.quantity, price, o.side,
                                      if o.side == Buy then 0.0 else (price - p.avgPrice) * o.quantity as real,
                                      o.executedAt.value)
      && r.ledger.totalPnl == l.totalPnl + r.ledger.trades[0].pnl
      && q.symbol == p.symbol
      && (o.side == Buy ==>
            (q.quantity == p.quantity + o.quantity
             && q.quantity as real * q.avgPrice == p.quantity as real * p.avgPrice + o.quantity as real * price))
      && (o.side == Sell ==>
            (q.quantity == p.quantity - o.quantity && q.avgPrice == if q.quantity == 0 then 0.0 else p.avgPrice))
  {
    if o.side == Buy {
      BuyConservesCost(Opened(l, o.symbol).portfolio[o.symbol], o.quantity, o.executedPrice.value);
    }
  }

  lemma OpenedPreservesInv(l: Ledger, symbol: string)
    requires LedgerInv(l)
    ensures LedgerInv(Opened(l, symbol))
  {
    if symbol !in l.portfolio {
      var r := Opened(l, symbol);
      forall i, j | 0 <= i < j < |r.symbols| ensures r.symbols[i] != r.symbols[j] {
        if j == |l.symbols| {
          assert r.symbols[i] == l.symbols[i];
          assert l.symbols[i] in l.portfolio;
        }
      }
    }
  }

  /** Applying one order keeps every ledger invariant. */
  lemma ApplyPreservesInv(l: Ledger, o: Order)
    requires LedgerInv(l) && Recorded(o)
    ensures LedgerInv(ApplyExecution(l, o).ledger)
  {
    if o.status == Executed {
      OpenedPreservesInv(l, o.symbol);
      var r := ApplyExecution(l, o);
      if !r.rejected {
        var ts := r.ledger.trades;
        assert ts == [ts[0]] + l.trades;
        assert TradePnl(ts) == ts[0].pnl + TradePnl(l.trades);
        forall i | 0 <= i < |ts| && ts[i].side == Buy ensures ts[i].pnl == 0.0 {
          if i > 0 { assert ts[i] == l.trades[i - 1]; }
        }
      }
    }
  }

  /** With BUY trades realising nothing, the total of all trades is the total of the SELL trades. */
  lemma {:induction false} TradePnlIsSellPnl(ts: seq<Trade>)
    requires forall i :: 0 <= i < |ts| && ts[i].side == Buy ==> ts[i].pnl == 0.0
    ensures TradePnl(ts) == SellPnl(ts)
  {
    if ts != [] {
      forall i | 0 <= i < |ts[1..]| && ts[1..][i].side == Buy ensures ts[1..][i].pnl == 0.0 {
        assert ts[1..][i] == ts[i + 1];
      }
      TradePnlIsSellPnl(ts[1..]);
    }
  }

  /** The accountant fed a sequence of orders, oldest first. */
  function ApplyAll(l: Ledger, os: seq<Order>): Ledger
    requires forall i :: 0 <= i < |os| ==> Recorded(os[i])
    decreases |os|
  {
    if os == [] then l else ApplyAll(ApplyExecution(l, os[0]).ledger, os[1..])
  }

  /**
   * Over any sequence of executions the invariants hold, and the realised
   * P&L is exactly the sum of the SELL contributions.
   */
  lemma {:induction false} ApplyAllPreservesInv(l: Ledger, os: seq<Order>)
    requires LedgerInv(l)
    requires forall i :: 0 <= i < |os| ==> Recorded(os[i])
    ensures LedgerInv(ApplyAll(l, os))
    ensures ApplyAll(l, os).totalPnl == SellPnl(ApplyAll(l, os).trades)
    decreases |os|
  {
    if os == [] {
      TradePnlIsSellPnl(l.trades);
    } else {
      ApplyPreservesInv(l, os[0]);
      assert forall i :: 0 <= i < |os[1..]| ==> os[1..][i] == os[i + 1];
      ApplyAllPreservesInv(ApplyExecution(l, os[0]).ledger, os[1..]);
    }
  }

  lemma EmptyLedgerInv()
    ensures LedgerInv(EmptyLedger)
  {
  }

  /** The price facts `get_portfolio` reads for a symbol (from a lookup outside this model). */
  datatype Mark = Mark(price: real, change: real, changePercent: real)

  /** One line of the `get_portfolio` response. */
  datatype Holding = Holding(symbol: string, quantity: nat, averagePrice: real, currentPrice: real,
                             currentValue: real, unrealizedPnl: real, change: real, changePercent: real)

  function Valuation(p: Position, m: Mark): Holding {
    Holding(p.symbol, p.quantity, p.avgPrice, m.price, p.quantity as real * m.price,
            (m.price - p.avgPrice) * p.quantity as real, m.change, m.changePercent)
  }

  /** Unrealised P&L is market value less cost basis. */
  lemma UnrealizedIsValueLessCost(p: Position, m: Mark)
    ensures var h := Valuation(p, m);
      h.currentValue == p.quantity as real * m.price
      && h.unrealizedPnl == h.currentValue - h.quantity as real * h.averagePrice
  {
  }

  /**
   * The `get_portfolio` listing over the symbols in `keys`, in that order:
   * exactly the positions holding shares, each valued at its mark.
   */
  function Holdings(portfolio: map<string, Position>, keys: seq<string>, mark: string -> Mark): (r: seq<Holding>)
    requires forall k :: k in keys ==> k in portfolio
    ensures |r| <= |keys|
    ensures forall h :: h in r ==> h.quantity > 0
    ensures forall h :: h in r ==> exists k :: k in keys && h == Valuation(portfolio[k], mark(portfolio[k].symbol))
    ensures forall k :: k in keys && portfolio[k].quantity > 0 ==> Valuation(portfolio[k], mark(portfolio[k].symbol)) in r
    decreases |keys|
  {
    if keys == [] then []
    else
      var rest := Holdings(portfolio, keys[..|keys| - 1], mark);
      var p := portfolio[keys[|keys| - 1]];
      if p.quantity > 0 then rest + [Valuation(p, mark(p.symbol))] else rest
  }
}
