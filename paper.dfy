/**
 * The legacy paper-trading ledger (main.py): a single in-memory database of
 * orders, trades and positions that every order executes against at once.
 * Side and style are the raw strings of the request: any side other than
 * "BUY" sells, and any style other than "MARKET" executes at the request's
 * own price.  A SELL larger than the holding empties it instead of being
 * refused, the average cost is never reset, and trades are appended.
 */
module Paper {
  import opened Wrappers
  import Orders
  import Accounting

  type Shares = Orders.Shares
  type Position = Accounting.Position

  /** One entry of `db["trades"]`; the price is whatever the order executed at, possibly none. */
  datatype PaperTrade = PaperTrade(id: string, symbol: string, qty: nat, price: Option<real>, side: string)

  /** The request body: `quantity > 0` is the schema's only rule. */
  datatype OrderRequest = OrderRequest(symbol: string, quantity: Shares, side: string, style: string, price: Option<real>)

  /** The stored order: the request, its id, the status and the price it executed at. */
  datatype OrderRecord = OrderRecord(symbol: string, quantity: Shares, side: string, style: string,
                                     price: Option<real>, id: string, status: string)

  /**
   * The database as a value: orders by id, trades oldest first, positions by
   * symbol, and the order in which the symbols were first traded (the
   * iteration order of the Python dict).
   */
  datatype Db = Db(orders: map<string, OrderRecord>, trades: seq<PaperTrade>,
                   portfolio: map<string, Position>, symbols: seq<string>)

  /** The state after `process_trade`; `crashed` is the TypeError of a BUY without a price. */
  datatype Traded = Traded(db: Db, crashed: bool)

  /** The two HTTP 400 answers of `place_order`, and the 500 of an exception escaping it. */
  datatype PlaceError = PriceUnavailable | LimitPriceRequired | InternalError

  /** The outcome of `place_order`: the new database and the answer. */
  datatype Placed = Placed(db: Db, reply: Result<OrderRecord, PlaceError>)

  const EmptyDb := Db(map[], [], map[], [])

  /** Python's `not order.price`: no price, or a price of zero. */
  predicate Falsy(price: Option<real>) {
    price.None? || price.value == 0.0
  }

  /**
   * The database invariant: positions sit under their own symbol and the
   * symbol order lists each position exactly once.
   */
  ghost predicate PaperInv(db: Db) {
    && Accounting.Distinct(db.symbols)
    && (forall s :: s in db.symbols <==> s in db.portfolio)
    && (forall s :: s in db.portfolio ==> db.portfolio[s].symbol == s)
  }

  /** A BUY of `qty` at `price`: the shares add up and the average is taken over the new quantity. */
  function Bought(p: Position, qty: Shares, price: real): (r: Position)
    ensures r.symbol == p.symbol && r.quantity == p.quantity + qty
  {
    var totalCost := p.quantity as real * p.avgPrice + qty as real * price;
    p.(quantity := p.quantity + qty, avgPrice := Accounting.Mean(totalCost, p.quantity + qty))
  }

  /** After a BUY the position's cost is the old cost plus what was paid. */
  lemma BoughtConservesCost(p: Position, qty: Shares, price: real)
    ensures var r := Bought(p, qty, price);
      r.quantity as real * r.avgPrice == p.quantity as real * p.avgPrice + qty as real * price
  {
  }

  /**
   * A BUY into an emptied position costs exactly the price paid: whatever
   * average an earlier SELL left behind carries no weight.
   */
  lemma BoughtIntoEmpty(p: Position, qty: Shares, price: real)
    requires p.quantity == 0
    ensures Bought(p, qty, price).avgPrice == price
  {
    assert p.quantity as real * p.avgPrice == 0.0;
  }

  /** A SELL of `qty`: the holding shrinks, never below zero, and the average cost stays. */
  function Sold(p: Position, qty: Shares): (r: Position)
    ensures r.symbol == p.symbol && r.avgPrice == p.avgPrice
    ensures r.quantity <= p.quantity
    ensures p.quantity >= qty ==> r.quantity + qty == p.quantity
    ensures p.quantity < qty ==> r.quantity == 0
  {
    p.(quantity := if p.quantity - qty > 0 then p.quantity - qty else 0)
  }

  /** A fresh `{"quantity": 0, "avgPrice": 0.0}` entry for a symbol never traded. */
  function Opened(db: Db, symbol: string): (r: Db)
    ensures symbol in r.portfolio && r.orders == db.orders && r.trades == db.trades
    ensures forall s :: s in db.portfolio ==> s in r.portfolio && r.portfolio[s] == db.portfolio[s]
    ensures r.portfolio.Keys == db.portfolio.Keys + {symbol}
    ensures symbol !in db.portfolio ==> r.portfolio[symbol] == Accounting.Position(symbol, 0, 0.0)
  {
    if symbol in db.portfolio then db
    else db.(portfolio := db.portfolio[symbol := Accounting.Position(symbol, 0, 0.0)], symbols := db.symbols + [symbol])
  }

  /**
   * `process_trade`: record the trade, open the position when needed and
   * apply the side.  A BUY without a price fails while computing the cost,
   * after the trade and the position entry were written.
   */
  function ProcessTradeSpec(db: Db, tradeId: string, symbol: string, qty: Shares, side: string,
                            price: Option<real>): Traded
  {
    var logged := db.(trades := db.trades + [PaperTrade(tradeId, symbol, qty, price, side)]);
    var entered := Opened(logged, symbol);
    var p := entered.portfolio[symbol];
    if side == "BUY" then
      if price.None? then Traded(entered, true)
      else Traded(entered.(portfolio := entered.portfolio[symbol := Bought(p, qty, price.value)]), false)
    else Traded(entered.(portfolio := entered.portfolio[symbol := Sold(p, qty)]), false)
  }

  /**
   * Every call, crashing or not, appends exactly one trade at the end and
   * leaves the orders and every other position as they were.
   */
  lemma TradeAppended(db: Db, tradeId: string, symbol: string, qty: Shares, side: string, price: Option<real>)
    ensures var r := ProcessTradeSpec(db, tradeId, symbol, qty, side, price).db;
      && r.trades == db.trades + [PaperTrade(tradeId, symbol, qty, price, side)]
      && r.orders == db.orders
      && symbol in r.portfolio && r.portfolio.Keys == db.portfolio.Keys + {symbol}
      && forall s :: s in db.portfolio && s != symbol ==> r.portfolio[s] == db.portfolio[s]
  {
  }

  /** Only a BUY without a price fails, and then the new entry holds nothing. */
  lemma CrashIffBuyWithoutPrice(db: Db, tradeId: string, symbol: string, qty: Shares, side: string,
                                price: Option<real>)
    ensures var t := ProcessTradeSpec(db, tradeId, symbol, qty, side, price);
      && (t.crashed <==> side == "BUY" && price.None?)
      && (t.crashed && symbol !in db.portfolio ==> t.db.portfolio[symbol] == Accounting.Position(symbol, 0, 0.0))
  {
  }

  /**
   * The effect on the traded position: a BUY adds the shares and re-weights
   * the cost over the new quantity; any other side takes the shares off,
   * empties the position rather than going negative, and keeps the average.
   * The first trade of a symbol starts from an empty position.
   */
  lemma TradeEffect(db: Db, tradeId: string, symbol: string, qty: Shares, side: string, price: Option<real>)
    ensures var t := ProcessTradeSpec(db, tradeId, symbol, qty, side, price);
      var before := if symbol in db.portfolio then db.portfolio[symbol] else Accounting.Position(symbol, 0, 0.0);
      var after := t.db.portfolio[symbol];
      && (side == "BUY" && price.Some? ==>
            && after.quantity == before.quantity + qty
            && after.avgPrice * after.quantity as real == before.quantity as real * before.avgPrice + qty as real * price.value)
      && (side != "BUY" ==>
            && after.quantity == (if before.quantity >= qty then before.quantity - qty else 0)
            && after.avgPrice == before.avgPrice)
  {
    var before := if symbol in db.portfolio then db.portfolio[symbol] else Accounting.Position(symbol, 0, 0.0);
    if side == "BUY" && price.Some? {
      BoughtConservesCost(before, qty, price.value);
    }
  }

  /** `process_trade` keeps the database invariant, whether or not it crashes. */
  lemma TradePreservesInv(db: Db, tradeId: string, symbol: string, qty: Shares, side: string, price: Option<real>)
    requires PaperInv(db)
    ensures PaperInv(ProcessTradeSpec(db, tradeId, symbol, qty, side, price).db)
  {
    var logged := db.(trades := db.trades + [PaperTrade(tradeId, symbol, qty, price, side)]);
    var entered := Opened(logged, symbol);
    if symbol !in db.portfolio {
      assert entered.symbols == db.symbols + [symbol];
      forall i, j | 0 <= i < j < |entered.symbols|
        ensures entered.symbols[i] != entered.symbols[j]
      {
        if j == |db.symbols| {
          assert entered.symbols[i] in db.symbols;
        }
      }
    }
  }

  /**
   * The positions `get_portfolio` lists: those holding shares, in the order
   * their symbols were first traded.
   */
  function Listed(portfolio: map<string, Position>, symbols: seq<string>): (r: seq<Position>)
    requires forall s :: s in symbols ==> s in portfolio
    ensures |r| <= |symbols|
    ensures forall p :: p in r ==> p.quantity > 0
    ensures forall p :: p in r ==> exists s :: s in symbols && p == portfolio[s]
    ensures forall s :: s in symbols && portfolio[s].quantity > 0 ==> portfolio[s] in r
    decreases |symbols|
  {
    if symbols == [] then []
    else
      var rest := Listed(portfolio, symbols[..|symbols| - 1]);
      var p := portfolio[symbols[|symbols| - 1]];
      if p.quantity > 0 then rest + [p] else rest
  }

  /**
   * The indices into `symbols` of the positions `Listed` returns: those of
   * the symbols holding shares, in first-traded order.
   */
  function ListedIndices(portfolio: map<string, Position>, symbols: seq<string>): seq<nat>
    requires forall s :: s in symbols ==> s in portfolio
    decreases |symbols|
  {
    if symbols == [] then []
    else
      var n := |symbols| - 1;
      var rest := ListedIndices(portfolio, symbols[..n]);
      if portfolio[symbols[n]].quantity > 0 then rest + [n] else rest
  }

  /** The i-th listed position is the position of the symbol at the i-th index. */
  lemma {:induction false} ListedAtIndices(portfolio: map<string, Position>, symbols: seq<string>)
    requires forall s :: s in symbols ==> s in portfolio
    ensures var idx := ListedIndices(portfolio, symbols);
      && |idx| == |Listed(portfolio, symbols)|
      && forall i :: 0 <= i < |idx| ==>
           idx[i] < |symbols| && Listed(portfolio, symbols)[i] == portfolio[symbols[idx[i]]]
    decreases |symbols|
  {
    if symbols != [] {
      var n := |symbols| - 1;
      var front := symbols[..n];
      ListedAtIndices(portfolio, front);
      var rest := ListedIndices(portfolio, front);
      var idx := ListedIndices(portfolio, symbols);
      var all := Listed(portfolio, symbols);
      var listed := Listed(portfolio, front);
      assert |idx| == |all|;
      forall i | 0 <= i < |idx|
        ensures idx[i] < |symbols| && all[i] == portfolio[symbols[idx[i]]]
      {
        if i < |rest| {
          assert idx[i] == rest[i] && all[i] == listed[i];
          assert front[rest[i]] == symbols[rest[i]];
        }
      }
    }
  }

  /** The indices increase strictly: the listing keeps the first-traded order and repeats no symbol. */
  lemma {:induction false} ListedIndicesIncrease(portfolio: map<string, Position>, symbols: seq<string>)
    requires forall s :: s in symbols ==> s in portfolio
    ensures forall i :: 0 <= i < |ListedIndices(portfolio, symbols)| ==> ListedIndices(portfolio, symbols)[i] < |symbols|
    ensures forall i, j :: 0 <= i < j < |ListedIndices(portfolio, symbols)| ==>
      ListedIndices(portfolio, symbols)[i] < ListedIndices(portfolio, symbols)[j]
    decreases |symbols|
  {
    if symbols != [] {
      var n := |symbols| - 1;
      var front := symbols[..n];
      ListedIndicesIncrease(portfolio, front);
      var rest := ListedIndices(portfolio, front);
      assert forall i :: 0 <= i < |rest| ==> rest[i] < n;
      if portfolio[symbols[n]].quantity > 0 {
        var idx := rest + [n];
        assert ListedIndices(portfolio, symbols) == idx;
        assert forall i :: 0 <= i < |idx| ==> idx[i] == if i < |rest| then rest[i] else n;
      } else {
        assert ListedIndices(portfolio, symbols) == rest;
      }
    }
  }

  /** Every symbol holding shares has its index listed. */
  lemma {:induction false} ListedIndicesComplete(portfolio: map<string, Position>, symbols: seq<string>)
    requires forall s :: s in symbols ==> s in portfolio
    ensures forall k :: 0 <= k < |symbols| && portfolio[symbols[k]].quantity > 0 ==>
      k in ListedIndices(portfolio, symbols)
    decreases |symbols|
  {
    if symbols != [] {
      var n := |symbols| - 1;
      var front := symbols[..n];
      ListedIndicesComplete(portfolio, front);
      forall k | 0 <= k < |symbols| && portfolio[symbols[k]].quantity > 0
        ensures k in ListedIndices(portfolio, symbols)
      {
        if k < n {
          assert front[k] == symbols[k];
        }
      }
    }
  }

  /** What the handler executes: the order writes its trade, then, unless that crashed, the order record. */
  function Execute(db: Db, req: OrderRequest, executionPrice: Option<real>, orderId: string, tradeId: string): (r: Placed)
  {
    var t := ProcessTradeSpec(db, tradeId, req.symbol, req.quantity, req.side, executionPrice);
    if t.crashed then Placed(t.db, Failure(InternalError))
    else
      var record := OrderRecord(req.symbol, req.quantity, req.side, req.style, executionPrice, orderId, "EXECUTED");
      Placed(t.db.(orders := t.db.orders[orderId := record]), Success(record))
  }

  /**
   * `place_order` as written, with the quote `marketPrice` passed in.  Only
   * the style "LIMIT" is checked for a price, yet every style other than
   * "MARKET" executes at the request's price.
   */
  function Place(db: Db, req: OrderRequest, marketPrice: Option<real>, orderId: string, tradeId: string): Placed {
    if marketPrice.None? then Placed(db, Failure(PriceUnavailable))
    else if req.style == "LIMIT" && Falsy(req.price) then Placed(db, Failure(LimitPriceRequired))
    else Execute(db, req, if req.style == "MARKET" then marketPrice else req.price, orderId, tradeId)
  }

  /**
   * `place_order` with the price check applied to every style that executes
   * at the request's price, which is what the choice of execution price
   * presumes.
   */
  function PlaceChecked(db: Db, req: OrderRequest, marketPrice: Option<real>, orderId: string, tradeId: string): Placed {
    if marketPrice.None? then Placed(db, Failure(PriceUnavailable))
    else if req.style != "MARKET" && Falsy(req.price) then Placed(db, Failure(LimitPriceRequired))
    else Execute(db, req, if req.style == "MARKET" then marketPrice else req.price, orderId, tradeId)
  }

  /**
   * As written: a missing quote and a LIMIT order without a price are refused
   * before anything is written; an accepted MARKET order executes at the
   * quote and a LIMIT order at its own price, and the order is stored as
   * EXECUTED with that price beside its one new trade.
   */
  lemma PlaceOutcome(db: Db, req: OrderRequest, marketPrice: Option<real>, orderId: string, tradeId: string)
    ensures var r := Place(db, req, marketPrice, orderId, tradeId);
      && (marketPrice.None? ==> r == Placed(db, Failure(PriceUnavailable)))
      && (marketPrice.Some? && req.style == "LIMIT" && Falsy(req.price) ==> r == Placed(db, Failure(LimitPriceRequired)))
      && (marketPrice.Some? && req.style == "MARKET" ==>
            && r.reply.Success?
            && r.reply.value == OrderRecord(req.symbol, req.quantity, req.side, req.style, marketPrice, orderId, "EXECUTED"))
      && (marketPrice.Some? && req.style == "LIMIT" && !Falsy(req.price) ==>
            && r.reply.Success? && r.reply.value.price == req.price)
      && (r.reply.Success? ==>
            && r.db.orders == db.orders[orderId := r.reply.value]
            && r.db.trades == db.trades + [PaperTrade(tradeId, req.symbol, req.quantity, r.reply.value.price, req.side)])
  {
  }

  /**
   * As written, a BUY whose style is neither "MARKET" nor "LIMIT" and that
   * names no price passes the checks, records a trade without a price and an
   * empty position, and then fails: the error leaves those writes behind.
   */
  lemma UncheckedStyleLeavesPartialWrite()
    ensures var req := OrderRequest("AAPL", 10, "BUY", "STOP", None);
      var r := Place(EmptyDb, req, Some(150.0), "o1", "t1");
      && r.reply == Failure(InternalError)
      && r.db.trades == [PaperTrade("t1", "AAPL", 10, None, "BUY")]
      && r.db.portfolio == map["AAPL" := Accounting.Position("AAPL", 0, 0.0)]
      && r.db.orders == map[]
  {
    var req := OrderRequest("AAPL", 10, "BUY", "STOP", None);
    assert !Falsy(Some(150.0)) && req.style != "LIMIT";
    assert Opened(EmptyDb.(trades := [PaperTrade("t1", "AAPL", 10, None, "BUY")]), "AAPL").portfolio
        == map["AAPL" := Accounting.Position("AAPL", 0, 0.0)];
  }

  /**
   * Corrected: a request is refused exactly when the quote is missing or it
   * would execute at a price it does not name; a refusal writes nothing, an
   * acceptance never fails half-way, and every recorded trade has a price.
   */
  lemma PlaceCheckedIsAtomic(db: Db, req: OrderRequest, marketPrice: Option<real>, orderId: string, tradeId: string)
    ensures var r := PlaceChecked(db, req, marketPrice, orderId, tradeId);
      && (r.reply.Failure? <==> marketPrice.None? || (req.style != "MARKET" && Falsy(req.price)))
      && (r.reply.Failure? ==> r.db == db && r.reply.error != InternalError)
      && (r.reply.Success? ==>
            && r.reply.value.price.Some?
            && r.reply.value.price == (if req.style == "MARKET" then marketPrice else req.price)
            && r.db.orders == db.orders[orderId := r.reply.value]
            && r.db.trades == db.trades + [PaperTrade(tradeId, req.symbol, req.quantity, r.reply.value.price, req.side)])
  {
  }

  /** Where the corrected handler accepts, it does what the original does. */
  lemma PlaceCheckedAgrees(db: Db, req: OrderRequest, marketPrice: Option<real>, orderId: string, tradeId: string)
    requires PlaceChecked(db, req, marketPrice, orderId, tradeId).reply.Success?
    ensures PlaceChecked(db, req, marketPrice, orderId, tradeId) == Place(db, req, marketPrice, orderId, tradeId)
  {
  }

  lemma EmptyDbInv()
    ensures PaperInv(EmptyDb) && Listed(EmptyDb.portfolio, EmptyDb.symbols) == []
  {
  }

  /** `db`, the module-level dictionary of main.py. */
  class PaperDb {
    var orders: map<string, OrderRecord>
    var trades: seq<PaperTrade>
    var portfolio: map<string, Position>
    var symbols: seq<string>

    function Snapshot(): Db
      reads this
    {
      Db(orders, trades, portfolio, symbols)
    }

    ghost predicate Valid()
      reads this
    {
      PaperInv(Snapshot())
    }

    /** The database as the module loads: empty. */
    constructor ()
      ensures Valid() && Snapshot() == EmptyDb
    {
      orders, trades, portfolio, symbols := map[], [], map[], [];
    }

    /**
     * `process_trade`, in place.  Returns false for the BUY without a price,
     * having made the writes that precede the failure.
     */
    method ProcessTrade(tradeId: string, symbol: string, qty: Shares, side: string, price: Option<real>)
      returns (ok: bool)
      requires Valid()
      modifies this
      ensures Valid()
      ensures var t := ProcessTradeSpec(old(Snapshot()), tradeId, symbol, qty, side, price);
        Snapshot() == t.db && ok == !t.crashed
    {
      ghost var d0 := Snapshot();
      TradePreservesInv(d0, tradeId, symbol, qty, side, price);
      trades := trades + [PaperTrade(tradeId, symbol, qty, price, side)];
      if symbol !in portfolio {
        portfolio := portfolio[symbol := Accounting.Position(symbol, 0, 0.0)];
        symbols := symbols + [symbol];
      }
      ghost var d1 := Opened(d0.(trades := d0.trades + [PaperTrade(tradeId, symbol, qty, price, side)]), symbol);
      assert Snapshot() == d1;
      var p := portfolio[symbol];
      if side == "BUY" {
        if price.None? {
          return false;
        }
        var totalCost := p.quantity as real * p.avgPrice + qty as real * price.value;
        var quantity := p.quantity + qty;
        p := p.(quantity := quantity, avgPrice := Accounting.Mean(totalCost, quantity));
        assert p == Bought(d1.portfolio[symbol], qty, price.value);
      } else {
        p := p.(quantity := if p.quantity - qty > 0 then p.quantity - qty else 0);
        assert p == Sold(d1.portfolio[symbol], qty);
      }
      portfolio := portfolio[symbol := p];
      ok := true;
    }

    /**
     * `place_order` as written, with the quote passed in and the order and
     * trade ids drawn by the caller.
     */
    method PlaceOrder(req: OrderRequest, marketPrice: Option<real>, orderId: string, tradeId: string)
      returns (r: Result<OrderRecord, PlaceError>)
      requires Valid()
      modifies this
      ensures Valid()
      ensures var p := Place(old(Snapshot()), req, marketPrice, orderId, tradeId);
        Snapshot() == p.db && r == p.reply
    {
      if marketPrice.None? {
        return Failure(PriceUnavailable);
      }
      if req.style == "LIMIT" && Falsy(req.price) {
        return Failure(LimitPriceRequired);
      }
      var executionPrice := if req.style == "MARKET" then marketPrice else req.price;
      r := Record(req, executionPrice, orderId, tradeId);
    }

    /** `place_order` with the corrected check: no request is left half-executed. */
    method PlaceOrderChecked(req: OrderRequest, marketPrice: Option<real>, orderId: string, tradeId: string)
      returns (r: Result<OrderRecord, PlaceError>)
      requires Valid()
      modifies this
      ensures Valid()
      ensures var p := PlaceChecked(old(Snapshot()), req, marketPrice, orderId, tradeId);
        Snapshot() == p.db && r == p.reply
    {
      if marketPrice.None? {
        return Failure(PriceUnavailable);
      }
      if req.style != "MARKET" && Falsy(req.price) {
        return Failure(LimitPriceRequired);
      }
      var executionPrice := if req.style == "MARKET" then marketPrice else req.price;
      r := Record(req, executionPrice, orderId, tradeId);
    }

    /** The handler's common tail: write the trade, then store the order as EXECUTED. */
    method Record(req: OrderRequest, executionPrice: Option<real>, orderId: string, tradeId: string)
      returns (r: Result<OrderRecord, PlaceError>)
      requires Valid()
      modifies this
      ensures Valid()
      ensures var p := Execute(old(Snapshot()), req, executionPrice, orderId, tradeId);
        Snapshot() == p.db && r == p.reply
    {
      var ok := ProcessTrade(tradeId, req.symbol, req.quantity, req.side, executionPrice);
      if !ok {
        return Failure(InternalError);
      }
      var record := OrderRecord(req.symbol, req.quantity, req.side, req.style, executionPrice, orderId, "EXECUTED");
      orders := orders[orderId := record];
      r := Success(record);
    }

    /** `get_portfolio`: the positions holding shares. */
    function GetPortfolio(): (r: seq<Position>)
      reads this
      requires Valid()
      ensures forall p :: p in r <==> p in portfolio.Values && p.quantity > 0
    {
      Listed(portfolio, symbols)
    }
  }
}
