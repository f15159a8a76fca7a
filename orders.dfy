/**
 * The order lifecycle manager of the backend (backend/order_manager.py):
 * an order table keyed by order id, and the operations that create, execute,
 * cancel and look up orders in it.
 */
module Orders {
  import opened Wrappers

  datatype OrderStatus = New | Placed | Executed | Cancelled
  datatype Side = Buy | Sell
  datatype Style = Market | Limit

  /** Order quantities are positive: the request schema refuses anything else. */
  type Shares = n: nat | n > 0 witness 1

  /**
   * One row of the order table.  Side and style are the upper-cased enum
   * values; timestamps and ids are opaque strings supplied by the caller.
   */
  datatype Order = Order(
    orderId: string,
    symbol: string,
    quantity: Shares,
    side: Side,
    style: Style,
    price: Option<real>,
    status: OrderStatus,
    createdAt: string,
    executedPrice: Option<real>,
    executedAt: Option<string>)

  predicate IsTerminal(s: OrderStatus) {
    s == Executed || s == Cancelled
  }

  /** The fields fixed when the order is created; no operation changes them. */
  predicate SameTerms(a: Order, b: Order) {
    && a.orderId == b.orderId && a.symbol == b.symbol && a.quantity == b.quantity
    && a.side == b.side && a.style == b.style && a.price == b.price && a.createdAt == b.createdAt
  }

  /** An executed order always records where and when it was executed. */
  predicate Recorded(o: Order) {
    o.status == Executed ==> o.executedPrice.Some? && o.executedAt.Some?
  }

  /** The record that `create_order` stores. */
  function NewOrder(orderId: string, symbol: string, quantity: Shares, side: Side, style: Style,
                    price: Option<real>, createdAt: string): Order
  {
    Order(orderId, symbol, quantity, side, style, price, New, createdAt, None, None)
  }

  /**
   * The limit-crossing test: a BUY limit fills when the market is at or
   * below the limit, a SELL limit when it is at or above it.
   */
  function CheckLimitExecution(side: Side, currentPrice: real, limitPrice: real): (r: bool)
    ensures r <==> (side.Buy? && currentPrice <= limitPrice) || (side.Sell? && currentPrice >= limitPrice)
  {
    if side == Buy then currentPrice <= limitPrice else currentPrice >= limitPrice
  }

  /** A crossed limit stays crossed when the market moves further in the holder's direction. */
  lemma CrossingIsMonotone(side: Side, p: real, q: real, limitPrice: real)
    requires CheckLimitExecution(side, p, limitPrice)
    requires side == Buy ==> q <= p
    requires side == Sell ==> q >= p
    ensures CheckLimitExecution(side, q, limitPrice)
  {
  }

  /**
   * Filling at the limit price is never better for the holder than the
   * market quote: a buyer pays at least the quote, a seller receives at most it.
   */
  lemma LimitFillNoBetterThanQuote(side: Side, currentPrice: real, limitPrice: real)
    requires CheckLimitExecution(side, currentPrice, limitPrice)
    ensures side == Buy ==> limitPrice >= currentPrice
    ensures side == Sell ==> limitPrice <= currentPrice
  {
  }

  /** The order after `execute_market_order`: executed at the quoted price, whatever its prior status. */
  function MarketFill(o: Order, currentPrice: real, at: string): (r: Order)
    ensures SameTerms(o, r) && Recorded(r)
    ensures r.status == Executed && r.executedPrice == Some(currentPrice) && r.executedAt == Some(at)
  {
    o.(status := Executed, executedPrice := Some(currentPrice), executedAt := Some(at))
  }

  /**
   * The order after `execute_limit_order`: PLACED, and then EXECUTED at the
   * limit price exactly when `check` accepts the quote; otherwise it keeps
   * its execution fields.
   */
  function LimitFill(o: Order, currentPrice: real, at: string, check: (Side, real, real) -> bool): (r: Order)
    requires o.price.Some?
    ensures SameTerms(o, r)
    ensures check(o.side, currentPrice, o.price.value) ==>
              r.status == Executed && r.executedPrice == Some(o.price.value) && r.executedAt == Some(at)
    ensures !check(o.side, currentPrice, o.price.value) ==>
              r.status == Placed && r.executedPrice == o.executedPrice && r.executedAt == o.executedAt
  {
    var placed := o.(status := Placed);
    if check(o.side, currentPrice, o.price.value) then
      placed.(status := Executed, executedPrice := o.price, executedAt := Some(at))
    else
      placed
  }

  /** The order table, `db["orders"]`, with the operations of the OrderManager class. */
  class OrderManager {
    var orders: map<string, Order>

    /** Every row sits under its own id and records its execution when executed. */
    ghost predicate Valid()
      reads this
    {
      forall id :: id in orders ==> orders[id].orderId == id && Recorded(orders[id])
    }

    constructor ()
      ensures Valid() && orders == map[]
    {
      orders := map[];
    }

    /** `create_order`: stores one NEW row under `orderId` (replacing any row there) and returns it. */
    method CreateOrder(orderId: string, symbol: string, quantity: Shares, side: Side, style: Style,
                       price: Option<real>, createdAt: string) returns (o: Order)
      requires Valid()
      modifies this
      ensures Valid()
      ensures o == NewOrder(orderId, symbol, quantity, side, style, price, createdAt)
      ensures o.status == New && o.executedPrice.None? && o.executedAt.None?
      ensures orders == old(orders)[orderId := o]
    {
      o := Order(orderId, symbol, quantity, side, style, price, New, createdAt, None, None);
      orders := orders[orderId := o];
    }

    /** `execute_market_order`: the prior status is not checked. */
    method ExecuteMarketOrder(orderId: string, currentPrice: real, at: string) returns (o: Order)
      requires Valid() && orderId in orders
      modifies this
      ensures Valid()
      ensures o == MarketFill(old(orders[orderId]), currentPrice, at)
      ensures orders == old(orders)[orderId := o]
    {
      o := orders[orderId];
      o := o.(status := Placed);
      orders := orders[orderId := o];
      o := o.(status := Executed, executedPrice := Some(currentPrice), executedAt := Some(at));
      orders := orders[orderId := o];
    }

    /**
     * `execute_limit_order`: the order must carry its limit price, which the
     * source compares without a check; the prior status is not checked.
     */
    method ExecuteLimitOrder(orderId: string, currentPrice: real, check: (Side, real, real) -> bool, at: string)
      returns (o: Order)
      requires Valid() && orderId in orders && orders[orderId].price.Some?
      modifies this
      ensures Valid()
      ensures o == LimitFill(old(orders[orderId]), currentPrice, at, check)
      ensures orders == old(orders)[orderId := o]
    {
      o := orders[orderId];
      o := o.(status := Placed);
      orders := orders[orderId := o];
      var limitPrice := o.price.value;
      if check(o.side, currentPrice, limitPrice) {
        o := o.(status := Executed, executedPrice := Some(limitPrice), executedAt := Some(at));
        orders := orders[orderId := o];
      }
    }

    /**
     * `cancel_order`: None for an unknown id and for an EXECUTED or CANCELLED
     * order, which stay as they were; otherwise only that order's status
     * becomes CANCELLED and the updated order is returned.
     */
    method CancelOrder(orderId: string) returns (r: Option<Order>)
      requires Valid()
      modifies this
      ensures Valid()
      ensures orderId !in old(orders) ==> r.None? && orders == old(orders)
      ensures orderId in old(orders) && IsTerminal(old(orders[orderId].status)) ==>
                r.None? && orders == old(orders)
      ensures orderId in old(orders) && !IsTerminal(old(orders[orderId].status)) ==>
                r == Some(old(orders[orderId]).(status := Cancelled)) && orders == old(orders)[orderId := r.value]
    {
      if orderId !in orders {
        return None;
      }
      var o := orders[orderId];
      if o.status == Executed || o.status == Cancelled {
        return None;
      }
      o := o.(status := Cancelled);
      orders := orders[orderId := o];
      r := Some(o);
    }

    /** `get_order`: the stored row, or None for an unknown id. */
    function GetOrder(orderId: string): (r: Option<Order>)
      reads this
      ensures r.Some? <==> orderId in orders
      ensures r.Some? ==> r.value == orders[orderId]
    {
      if orderId in orders then Some(orders[orderId]) else None
    }
  }

  /** Cancelling twice: the second call reports failure and changes nothing. */
  method CancelTwice(m: OrderManager, orderId: string) returns (first: Option<Order>, second: Option<Order>)
    requires m.Valid() && orderId in m.orders && !IsTerminal(m.orders[orderId].status)
    modifies m
    ensures first.Some? && first.value.status == Cancelled
    ensures second.None? && m.orders == old(m.orders)[orderId := first.value]
  {
    first := m.CancelOrder(orderId);
    second := m.CancelOrder(orderId);
  }
}
