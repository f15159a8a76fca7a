/**
 * The execution coordinator and portfolio accountant of the backend
 * (backend/main.py): the shared database `db` with its order table (held by
 * the OrderManager), positions, trade history and realised-P&L total, and
 * the request handlers that change it.
 */
module Backend {
  import opened Wrappers
  import opened Orders
  import opened Accounting

  /** The instruments `get_instruments` lists; only these can be ordered. */
  const Instruments: set<string> := {"AAPL", "TSLA", "IBM"}

  /** A request that passed the schema: side and style are already the enum values. */
  datatype OrderRequest = OrderRequest(symbol: string, quantity: Shares, side: Side, style: Style, price: Option<real>)

  /** The schema's remaining rules: a given price is positive, and a LIMIT order has one. */
  predicate ValidRequest(req: OrderRequest) {
    (req.price.Some? ==> req.price.value > 0.0) && (req.style == Limit ==> req.price.Some?)
  }

  /** The two HTTP 400 answers of `place_order`. */
  datatype PlaceError = InvalidSymbol(symbol: string) | InsufficientShares

  /** The 201 answer: the order's id and its status when the handler returns. */
  datatype PlaceReply = PlaceReply(orderId: string, status: OrderStatus)

  /** Storing under a key twice keeps only the second value. */
  lemma Overwrite<K, V>(m: map<K, V>, k: K, a: V, b: V)
    ensures m[k := a][k := b] == m[k := b]
  {
  }

  class TradingBackend {
    const om: OrderManager
    var portfolio: map<string, Position>
    var symbols: seq<string>
    var trades: seq<Trade>
    var totalPnl: real

    /** The accountant's state as a value. */
    function Book(): Ledger
      reads this
    {
      Ledger(portfolio, symbols, trades, totalPnl)
    }

    ghost predicate Valid()
      reads this, om
    {
      om.Valid() && LedgerInv(Book())
    }

    /** The database as the module loads: no orders, positions or trades, and a zero total. */
    constructor ()
      ensures Valid() && fresh(om)
      ensures om.orders == map[] && Book() == EmptyLedger
    {
      om := new OrderManager();
      portfolio, symbols, trades, totalPnl := map[], [], [], 0.0;
    }

    /**
     * `process_executed_order` on the stored order `orderId`, in place; the
     * new state is the one ApplyExecution describes.  An oversized SELL
     * returns false and overwrites the order's status with CANCELLED,
     * whatever it was.
     */
    method ProcessExecutedOrder(orderId: string) returns (ok: bool)
      requires Valid() && orderId in om.orders
      modifies this, om
      ensures Valid()
      ensures var a := ApplyExecution(old(Book()), old(om.orders[orderId]));
        && Book() == a.ledger && ok == !a.rejected
        && om.orders == if a.rejected then old(om.orders)[orderId := old(om.orders[orderId]).(status := Cancelled)]
                        else old(om.orders)
    {
      var order := om.orders[orderId];
      ghost var l0 := Book();
      ApplyPreservesInv(l0, order);
      if order.status != Executed {
        return true;
      }
      OpenPosition(order.symbol);
      var rejected := SettleExecuted(order);
      if rejected {
        om.orders := om.orders[orderId := order.(status := Cancelled)];
      }
      ok := !rejected;
    }

    /** Create the zero entry `process_executed_order` starts from when the symbol was never traded. */
    method OpenPosition(symbol: string)
      modifies this
      ensures Book() == Opened(old(Book()), symbol)
    {
      if symbol !in portfolio {
        portfolio := portfolio[symbol := Position(symbol, 0, 0.0)];
        symbols := symbols + [symbol];
      }
    }

    /**
     * The rest of `process_executed_order`, in place: the position is
     * updated, the P&L realised and the trade prepended, or, for an
     * oversized SELL, nothing changes and true is returned.
     */
    method SettleExecuted(order: Order) returns (rejected: bool)
      requires Recorded(order) && order.status == Executed && order.symbol in portfolio
      modifies this
      ensures var a := Settle(old(Book()), order); Book() == a.ledger && rejected == a.rejected
    {
      ghost var l1 := Book();
      var executedPrice := order.executedPrice.value;
      var symbol := order.symbol;
      var quantity := order.quantity;
      var p := portfolio[symbol];
      var pnl := 0.0;
      if order.side == Buy {
        ghost var bought := BuyInto(p, quantity, executedPrice);
        var avg := executedPrice;
        if p.quantity != 0 {
          var totalCost := p.quantity as real * p.avgPrice + quantity as real * executedPrice;
          avg := Mean(totalCost, p.quantity + quantity);
        }
        p := p.(avgPrice := avg, quantity := p.quantity + quantity);
        assert p == bought;
        assert Settle(l1, order).ledger.totalPnl == l1.totalPnl;
      } else {
        if p.quantity < quantity {
          return true;
        }
        pnl := (executedPrice - p.avgPrice) * quantity as real;
        totalPnl := totalPnl + pnl;
        p := p.(quantity := p.quantity - quantity);
        if p.quantity == 0 {
          p := p.(avgPrice := 0.0);
        }
        assert Settle(l1, order).ledger.totalPnl == l1.totalPnl + pnl;
      }
      portfolio := portfolio[symbol := p];
      trades := [Trade(order.orderId, symbol, quantity, executedPrice, order.side, pnl, order.executedAt.value)] + trades;
      rejected := false;
      assert portfolio == Settle(l1, order).ledger.portfolio;
      assert symbols == Settle(l1, order).ledger.symbols;
      assert totalPnl == Settle(l1, order).ledger.totalPnl;
      assert trades == Settle(l1, order).ledger.trades;
    }

    /**
     * `place_order`, with the live quote passed in.  An unknown symbol is
     * refused before any order exists.  A MARKET order executes at the quote;
     * a LIMIT order executes at its limit when the quote crosses it, and
     * otherwise is stored and left NEW.  An executed order then goes to the
     * accountant, whose oversized-SELL refusal becomes the handler's error.
     */
    method PlaceOrder(req: OrderRequest, orderId: string, createdAt: string, executedAt: string, livePrice: real)
      returns (r: Result<PlaceReply, PlaceError>)
      requires Valid() && ValidRequest(req)
      modifies this, om
      ensures Valid()
      ensures req.symbol !in Instruments ==>
        r == Failure(InvalidSymbol(req.symbol)) && om.orders == old(om.orders) && Book() == old(Book())
      ensures req.symbol in Instruments ==>
        var o := NewOrder(orderId, req.symbol, req.quantity, req.side, req.style, req.price, createdAt);
        if req.style == Limit && !CheckLimitExecution(req.side, livePrice, req.price.value) then
          r == Success(PlaceReply(orderId, New)) && om.orders == old(om.orders)[orderId := o] && Book() == old(Book())
        else
          var e := if req.style == Market then MarketFill(o, livePrice, executedAt)
                   else LimitFill(o, livePrice, executedAt, CheckLimitExecution);
          var a := ApplyExecution(old(Book()), e);
          && Book() == a.ledger
          && if a.rejected then
               r == Failure(InsufficientShares) && om.orders == old(om.orders)[orderId := e.(status := Cancelled)]
             else
               r == Success(PlaceReply(orderId, Executed)) && om.orders == old(om.orders)[orderId := e]
    {
      if req.symbol !in Instruments {
        return Failure(InvalidSymbol(req.symbol));
      }
      ghost var m0 := om.orders;
      var newOrder := om.CreateOrder(orderId, req.symbol, req.quantity, req.side, req.style, req.price, createdAt);
      var currentPrice := livePrice;
      if req.style == Market {
        var executed := om.ExecuteMarketOrder(orderId, currentPrice, executedAt);
        assert om.orders == m0[orderId := executed];
        Overwrite(m0, orderId, executed, executed.(status := Cancelled));
        r := BookExecuted(orderId);
      } else {
        var canExecute := CheckLimitExecution(req.side, currentPrice, req.price.value);
        if canExecute {
          var executed := om.ExecuteLimitOrder(orderId, currentPrice, CheckLimitExecution, executedAt);
          assert om.orders == m0[orderId := executed];
          Overwrite(m0, orderId, executed, executed.(status := Cancelled));
          r := BookExecuted(orderId);
        } else {
          r := Success(PlaceReply(orderId, om.orders[orderId].status));
        }
      }
    }

    /**
     * The tail of `place_order` for an order that executed: the accountant
     * books it, and its refusal of an oversized SELL becomes the handler's
     * error; otherwise the reply carries the order's EXECUTED status.
     */
    method BookExecuted(orderId: string) returns (r: Result<PlaceReply, PlaceError>)
      requires Valid() && orderId in om.orders && om.orders[orderId].status == Executed
      modifies this, om
      ensures Valid()
      ensures var a := ApplyExecution(old(Book()), old(om.orders[orderId]));
        && Book() == a.ledger
        && if a.rejected then
             r == Failure(InsufficientShares) && om.orders == old(om.orders)[orderId := old(om.orders[orderId]).(status := Cancelled)]
           else
             r == Success(PlaceReply(orderId, Executed)) && om.orders == old(om.orders)
    {
      var ok := ProcessExecutedOrder(orderId);
      if !ok {
        return Failure(InsufficientShares);
      }
      r := Success(PlaceReply(orderId, om.orders[orderId].status));
    }

    /** `get_portfolio`: the positions holding shares, in first-traded order, valued at `mark`. */
    method GetPortfolio(mark: string -> Mark) returns (items: seq<Holding>)
      requires Valid()
      ensures items == Holdings(portfolio, symbols, mark)
    {
      var positions, keys := portfolio, symbols;
      assert forall k :: k in keys ==> k in positions;
      items := [];
      for i := 0 to |keys|
        invariant items == Holdings(positions, keys[..i], mark)
      {
        var v := positions[keys[i]];
        if v.quantity > 0 {
          items := items + [Valuation(v, mark(v.symbol))];
        }
        assert keys[..i + 1][..i] == keys[..i];
      }
      assert keys[..|keys|] == keys;
    }

    /** `get_trades` and `get_stats`. */
    function Stats(): (r: (seq<Trade>, real))
      reads this, om
      requires Valid()
      ensures r.1 == SellPnl(r.0)
    {
      TradePnlIsSellPnl(trades);
      (trades, totalPnl)
    }
  }

  /** BUY 10 AAPL at p1, then SELL 5 at p2: five shares at cost p1 remain and (p2 - p1) * 5 is realised. */
  method BuyThenSellScenario(p1: real, p2: real) returns (b: TradingBackend, first: Result<PlaceReply, PlaceError>,
                                                          second: Result<PlaceReply, PlaceError>)
    ensures first == Success(PlaceReply("buy-1", Executed)) && second == Success(PlaceReply("sell-1", Executed))
    ensures "AAPL" in b.portfolio && b.portfolio["AAPL"] == Position("AAPL", 5, p1)
    ensures |b.trades| == 2 && b.trades[0].pnl == (p2 - p1) * 5.0 && b.trades[1].pnl == 0.0
    ensures b.totalPnl == (p2 - p1) * 5.0
  {
    b := new TradingBackend();
    first := b.PlaceOrder(OrderRequest("AAPL", 10, Buy, Market, None), "buy-1", "t0", "t1", p1);
    second := b.PlaceOrder(OrderRequest("AAPL", 5, Sell, Market, None), "sell-1", "t2", "t3", p2);
  }

  /** SELL 5 AAPL with nothing held: refused, the order ends CANCELLED, and no trade is recorded. */
  method OversizedSellScenario(p: real) returns (b: TradingBackend, r: Result<PlaceReply, PlaceError>)
    ensures r == Failure(InsufficientShares)
    ensures "sell-1" in b.om.orders && b.om.orders["sell-1"].status == Cancelled
    ensures b.trades == [] && b.totalPnl == 0.0
    ensures b.portfolio == map["AAPL" := Position("AAPL", 0, 0.0)]
  {
    b := new TradingBackend();
    r := b.PlaceOrder(OrderRequest("AAPL", 5, Sell, Market, None), "sell-1", "t0", "t1", p);
  }

  /** BUY 10 AAPL at `p` into an empty database: one position of ten shares at cost `p`. */
  method BuyTenScenario(p: real) returns (b: TradingBackend, r: Result<PlaceReply, PlaceError>)
    ensures fresh(b) && fresh(b.om)
    ensures b.Valid() && r == Success(PlaceReply("buy-1", Executed))
    ensures b.portfolio == map["AAPL" := Position("AAPL", 10, p)] && b.symbols == ["AAPL"]
    ensures |b.trades| == 1 && b.trades[0] == Trade("buy-1", "AAPL", 10, p, Buy, 0.0, "t1")
  {
    b := new TradingBackend();
    r := b.PlaceOrder(OrderRequest("AAPL", 10, Buy, Market, None), "buy-1", "t0", "t1", p);
  }

  /** An empty portfolio lists nothing; after BUY 10 AAPL it lists one holding of ten shares valued at the mark. */
  method PortfolioScenario(p: real, mark: string -> Mark) returns (before: seq<Holding>, after: seq<Holding>)
    ensures before == []
    ensures |after| == 1 && after[0] == Valuation(Position("AAPL", 10, p), mark("AAPL"))
    ensures after[0].quantity == 10 && after[0].currentValue == 10.0 * mark("AAPL").price
  {
    var empty := new TradingBackend();
    before := empty.GetPortfolio(mark);
    var b, r := BuyTenScenario(p);
    after := b.GetPortfolio(mark);
    assert ["AAPL"][..0] == [];
  }

  /**
   * Two SELLs of 10 AAPL, one after the other, against a position of 10:
   * the first empties it and resets its cost, the second is refused.
   */
  method TwoSellsScenario(p: real, q: real) returns (b: TradingBackend, first: Result<PlaceReply, PlaceError>,
                                                     second: Result<PlaceReply, PlaceError>)
    ensures first == Success(PlaceReply("sell-1", Executed)) && second == Failure(InsufficientShares)
    ensures "AAPL" in b.portfolio && b.portfolio["AAPL"] == Position("AAPL", 0, 0.0)
    ensures |b.trades| == 2 && b.trades[0].id == "sell-1"
    ensures "sell-2" in b.om.orders && b.om.orders["sell-2"].status == Cancelled
  {
    var bought;
    b, bought := BuyTenScenario(p);
    first := b.PlaceOrder(OrderRequest("AAPL", 10, Sell, Market, None), "sell-1", "t2", "t3", q);
    second := b.PlaceOrder(OrderRequest("AAPL", 10, Sell, Market, None), "sell-2", "t4", "t5", q);
  }

  /** LIMIT BUY TSLA at 400 against a quote of 420 stays NEW; at 450 it executes at 450, not 420. */
  method LimitScenario() returns (b: TradingBackend, low: Result<PlaceReply, PlaceError>,
                                  high: Result<PlaceReply, PlaceError>)
    ensures low == Success(PlaceReply("lim-400", New))
    ensures "lim-400" in b.om.orders && b.om.orders["lim-400"].status == New
    ensures high == Success(PlaceReply("lim-450", Executed))
    ensures "lim-450" in b.om.orders && b.om.orders["lim-450"].executedPrice == Some(450.0)
    ensures |b.trades| == 1 && b.trades[0].price == 450.0 && b.trades[0].id == "lim-450"
  {
    b := new TradingBackend();
    low := b.PlaceOrder(OrderRequest("TSLA", 5, Buy, Limit, Some(400.0)), "lim-400", "t0", "t1", 420.0);
    high := b.PlaceOrder(OrderRequest("TSLA", 5, Buy, Limit, Some(450.0)), "lim-450", "t2", "t3", 420.0);
  }
}
