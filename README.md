# BajajTrade trading core in Dafny

This project models the core of a simulated stock-trading backend and proves
properties of the model. The backend is a paper-trading service. Orders are
created, executed at once against a simulated quote (MARKET), or executed at
their limit when the quote crosses it (LIMIT). Each execution updates a
per-symbol position, realises profit and loss on sales and records a trade. A
random-walk price simulator supplies the quotes. An older single-file variant
of the service (the legacy `main.py`) keeps a simpler ledger with different
rules; it is modelled separately.

Six files, one module each:

- `wrappers.dfy` (`Wrappers`): `Option` and `Result`.
- `orders.dfy` (`Orders`): the order lifecycle of `backend/order_manager.py`.
  The order table is the `map` field of class `OrderManager`. The limit-crossing
  test and the two fills are pure functions.
- `accounting.dfy` (`Accounting`): `process_executed_order` and the
  `get_portfolio` valuation of `backend/main.py`, stated on values. A `Ledger`
  holds the positions, their first-traded order, the trade history and the
  realised total. `ApplyExecution` is the step. Its lemmas prove that the ledger
  invariants hold over any sequence of executions, and that the total equals
  the sum of the SELL contributions.
- `backend.dfy` (`Backend`): class `TradingBackend`. Its methods do the same
  steps in place (`place_order`, `process_executed_order`, the `get_portfolio`
  loop). Each method is proved equal to the functions of `Accounting`.
  Client scenarios mirror the repository's tests.
- `prices.dfy` (`Prices`): class `PriceSimulator` of
  `backend/price_simulator.py`. It holds six per-symbol maps. Its methods take
  the random draws as parameters, bounded to the ranges the simulator draws
  from. `Tick` is one step of the walk as a function.
- `paper.dfy` (`Paper`): the legacy `main.py`.
  - `ProcessTradeSpec`, `Place` and `PlaceChecked` are its steps on values.
  - Class `PaperDb` performs them in place.

Modelling choices:

- Prices are `real` and quantities `nat`; an order quantity is `Shares`, a
  positive `nat`.
- Ids, timestamps, the live quote and every random draw are parameters.
- Python dicts iterate in insertion order. Each portfolio map therefore has a
  `symbols` sequence beside it, so that the portfolio listings keep the
  source's order.
- In the backend the request schema upper-cases and validates side and style,
  so they are enums there. The legacy service does no such validation, so its
  side and style stay raw strings.

Behaviours of the code that the model keeps as written:

- An unmet LIMIT order stays NEW. `place_order` never calls
  `execute_limit_order` for it (backend/main.py:178-189).
- `execute_market_order` and `execute_limit_order` do not check the order's
  prior status (backend/order_manager.py:58, backend/order_manager.py:72).
- An oversized SELL overwrites the order's EXECUTED status with CANCELLED
  (backend/main.py:223-225). It also leaves behind the zero position entry that
  was created before the check (backend/main.py:208-209).
- A LIMIT order executes at its limit price (backend/order_manager.py:77-80).
  Whenever it executes, a buyer's limit is at least the quote and a seller's is
  at most the quote (`Orders.LimitFillNoBetterThanQuote`).
- After a re-synchronisation the whole-history high and low of
  `get_price_data` need not bracket the current price
  (backend/price_simulator.py:124-125, `Prices.RangeCanMissCurrent`).

## Model

| member | source | states |
|---|---|---|
| Orders.NewOrder | backend/order_manager.py:38-49 | defined by its body: the NEW record with no execution fields; properties in Orders.OrderManager.CreateOrder |
| Orders.CheckLimitExecution | backend/order_manager.py:107-114 | true iff a BUY's quote is at or below the limit, or a SELL's quote is at or above it |
| Orders.CrossingIsMonotone | backend/order_manager.py:107-114 | a crossed limit stays crossed when the quote moves further in the holder's favour |
| Orders.LimitFillNoBetterThanQuote | backend/order_manager.py:77-79 | when the limit is crossed, a buyer's limit is at least the quote and a seller's at most it, so the limit fill never beats the market |
| Orders.MarketFill | backend/order_manager.py:55-66 | the order keeps its terms and becomes EXECUTED at the quoted price with its execution time set |
| Orders.LimitFill | backend/order_manager.py:68-87 | terms kept; EXECUTED at the limit price (not the quote) when the check accepts, else PLACED with its execution fields untouched |
| Orders.OrderManager.constructor | backend/order_manager.py:30-33 | an empty, valid order table |
| Orders.OrderManager.CreateOrder | backend/order_manager.py:35-53 | exactly one NEW row stored under the id, with no execution price or time; every other row unchanged |
| Orders.OrderManager.ExecuteMarketOrder | backend/order_manager.py:55-66 | the stored row, whatever its status, replaced by its market fill; other rows unchanged |
| Orders.OrderManager.ExecuteLimitOrder | backend/order_manager.py:68-87 | the stored row, whatever its status, replaced by its limit fill; other rows unchanged |
| Orders.OrderManager.CancelOrder | backend/order_manager.py:89-101 | None and no change for an unknown id or an EXECUTED/CANCELLED order; otherwise only that row's status becomes CANCELLED, and the row is returned |
| Orders.OrderManager.GetOrder | backend/order_manager.py:103-105 | the stored row exactly when the id is present, else None |
| Orders.CancelTwice | backend/order_manager.py:95-97 | a second cancel of the same order fails and changes nothing |
| Accounting.Opened | backend/main.py:208-209 | a missing symbol gets a zero-quantity, zero-cost entry; existing positions, trades and total unchanged |
| Accounting.BuyInto | backend/main.py:214-220 | a BUY adds the shares to the position |
| Accounting.BuyConservesCost | backend/main.py:215-220 | after a BUY, quantity times average equals old cost plus the shares times the fill price |
| Accounting.BuyAverageBetween | backend/main.py:218-219 | buying into a held position moves the average to between the old average and the fill price |
| Accounting.BuyIntoEmpty | backend/main.py:215-216 | buying into an empty position sets the average to the fill price and the quantity to the shares bought |
| Accounting.ApplyExecution | backend/main.py:197-244 | defined by its body; properties in Accounting.IgnoredUnlessExecuted, RejectedIffOversizedSell, AcceptedEffect and ApplyPreservesInv |
| Accounting.Settle | backend/main.py:211-244 | defined by its body; properties in Accounting.RejectedIffOversizedSell and AcceptedEffect, and the in-place Backend.TradingBackend.SettleExecuted |
| Accounting.IgnoredUnlessExecuted | backend/main.py:199-200 | an order that is not EXECUTED changes nothing |
| Accounting.RejectedIffOversizedSell | backend/main.py:223-225 | an execution is rejected iff it is a SELL of more shares than held; then the only change is the opened zero entry |
| Accounting.AcceptedEffect | backend/main.py:211-244 | an accepted execution prepends one trade carrying the order id, adds its P&L (0 for a BUY, (price - avg) * qty for a SELL) to the total and changes only that position: BUY conserves cost, SELL removes the shares and zeroes the cost at quantity 0 |
| Accounting.OpenedPreservesInv | backend/main.py:208-209 | opening an entry keeps the ledger invariant |
| Accounting.ApplyPreservesInv | backend/main.py:197-244 | each execution keeps the ledger invariant: symbols distinct and matching the positions, zero cost at zero quantity, BUY trades realise 0, total equals the trades' sum |
| Accounting.TradePnlIsSellPnl | backend/main.py:227-228 | when BUY trades realise nothing, the sum over all trades equals the sum over the SELL trades |
| Accounting.ApplyAllPreservesInv | backend/main.py:197-244 | over any sequence of executions the invariant holds and the realised total is the sum of the SELL contributions |
| Accounting.EmptyLedgerInv | backend/main.py:80-85 | the initial database satisfies the ledger invariant |
| Accounting.Valuation | backend/main.py:303-311 | defined by its body; properties in Accounting.UnrealizedIsValueLessCost |
| Accounting.UnrealizedIsValueLessCost | backend/main.py:303-304 | current value is quantity times price; unrealised P&L is value less cost basis |
| Accounting.Holdings | backend/main.py:298-315 | the listing holds a valued line for every position with shares and only those, never more lines than symbols |
| Backend.TradingBackend.constructor | backend/main.py:80-88 | an empty order table, no positions or trades, and a zero total |
| Backend.TradingBackend.ProcessExecutedOrder | backend/main.py:197-244 | the ledger becomes ApplyExecution of the stored order; on rejection false is returned and the order is overwritten with CANCELLED; the invariants are kept |
| Backend.TradingBackend.OpenPosition | backend/main.py:208-209 | the in-place step equals Accounting.Opened |
| Backend.TradingBackend.SettleExecuted | backend/main.py:211-244 | the in-place settlement equals Accounting.Settle, both the new ledger and the rejection flag |
| Backend.TradingBackend.PlaceOrder | backend/main.py:142-195 | unknown symbol: error, nothing written; unmet LIMIT: stored NEW, ledger untouched; otherwise the fill is booked by ApplyExecution, and an oversized SELL yields InsufficientShares with the order CANCELLED |
| Backend.TradingBackend.BookExecuted | backend/main.py:174-195 | an executed order is booked; rejection becomes InsufficientShares with the order CANCELLED, otherwise the reply carries EXECUTED |
| Backend.TradingBackend.GetPortfolio | backend/main.py:297-315 | the loop returns exactly Holdings over the positions in first-traded order |
| Backend.TradingBackend.Stats | backend/main.py:321-332 | the reported total P&L equals the sum of the SELL trades' P&L |
| Backend.BuyThenSellScenario | backend/main.py:214-233 | BUY 10 then SELL 5: five shares remain at the first price and (p2 - p1) * 5 is realised, with two trades newest first |
| Backend.OversizedSellScenario | backend/main.py:223-225 | a SELL with nothing held fails, the order ends CANCELLED, no trade is recorded, and a zero entry remains |
| Backend.BuyTenScenario | backend/test_api.py:257-278 | a BUY into the empty database creates one position and one trade with pnl 0 |
| Backend.PortfolioScenario | backend/test_api.py:188-218 | the portfolio is empty at first and lists one holding of 10 shares after BUY 10 |
| Backend.TwoSellsScenario | backend/main.py:223-232 | two SELLs of a whole position in turn: the first empties it and zeroes its cost, the second is refused and CANCELLED |
| Backend.LimitScenario | backend/main.py:177-189 | a LIMIT BUY at 400 against a quote of 420 stays NEW; at 450 it executes at 450 |
| Prices.Max | backend/price_simulator.py:94 | Python's max: an element that bounds all others from above |
| Prices.Min | backend/price_simulator.py:95 | Python's min: an element that bounds all others from below |
| Prices.Window | backend/price_simulator.py:111 | the last twenty points, or all of them when fewer |
| Prices.WindowIsSuffix | backend/price_simulator.py:111 | the window is the suffix of the history of that length |
| Prices.LastInWindow | backend/price_simulator.py:94-95 | the newest point is always in the window |
| Prices.Step | backend/price_simulator.py:68-73 | the new price lies within half and one and a half times the current price, so it stays positive |
| Prices.Pushed | backend/price_simulator.py:83-85 | the history ends with the new price and never grows beyond 100 points |
| Prices.PushedIsSuffix | backend/price_simulator.py:83-85 | the new history is the old one plus the new price, with the oldest point dropped first |
| Prices.BidAsk | backend/price_simulator.py:98-100 | bid and ask sit symmetrically around the price, spread * price apart, and bracket it for a spread in [0, 2] |
| Prices.NextVolume | backend/price_simulator.py:88-91 | the volume is the truncated product of the base, the draw and the move factor |
| Prices.Span | backend/price_simulator.py:94-95 | a lowest and a highest point, both from the points and bracketing all of them |
| Prices.RecentRange | backend/price_simulator.py:94-95 | low and high bracket the newest price; with at most one point both are the fallback |
| Prices.RecentRangeIsWindowSpan | backend/price_simulator.py:94-95 | with two points or more, low and high are points of the window and bracket all of it |
| Prices.FullRange | backend/price_simulator.py:124-125 | with two or more points, low and high are the lowest and highest point of the whole history (both are points, and they bracket every point); with at most one point, the current price as fallback; the current price is bracketed when it is the last point |
| Prices.Tick | backend/price_simulator.py:55-112 | an update step: clamped positive price, change from the previous price, history window ending in the new price, low <= price <= high and bid <= price <= ask |
| Prices.StepKeepsTables | backend/price_simulator.py:80-91 | stepping a known symbol keeps every table covering it, with positive prices and a history of 1 to 100 points |
| Prices.PriceSimulator.constructor | backend/price_simulator.py:10-30 | the three seeded symbols with their base prices, one-point histories, volatilities, drawn volumes and clock |
| Prices.PriceSimulator.InitializeFromApi | backend/price_simulator.py:32-45 | a new symbol is seeded everywhere from the real price with volatility 0.02; a known one has only base and current reset, and only when the draw is under 0.1 |
| Prices.PriceSimulator.UpdatePrice | backend/price_simulator.py:47-112 | unknown symbol: None, nothing changed; otherwise the Tick quote is returned and only the current price, history and volume of that symbol change |
| Prices.PriceSimulator.GetPriceData | backend/price_simulator.py:114-141 | None iff the symbol is unknown; otherwise the current price and volume, change from the base price, bid <= price <= ask, and high/low over the whole history, without changing state |
| Prices.RangeCanMissCurrent | backend/price_simulator.py:124-125 | a history [260, 262] with current price 300 gives a whole-history high below the current price |
| Paper.Bought | main.py:35-38 | a BUY adds the shares to the position |
| Paper.BoughtConservesCost | main.py:36-38 | the cost after a BUY is the old cost plus the shares times the price |
| Paper.BoughtIntoEmpty | main.py:36-38 | a BUY into an emptied position costs exactly the price, whatever average a SELL left behind |
| Paper.Sold | main.py:39-40 | a SELL subtracts the shares, bottoms out at zero and keeps the average |
| Paper.Opened | main.py:31-32 | a first trade opens a zero-quantity, zero-cost position; the rest is unchanged |
| Paper.ProcessTradeSpec | main.py:25-40 | defined by its body; properties in Paper.TradeAppended, CrashIffBuyWithoutPrice, TradeEffect and TradePreservesInv |
| Paper.TradeAppended | main.py:27-32 | every call, crashing or not, appends exactly one trade to the end and leaves orders and other positions alone |
| Paper.CrashIffBuyWithoutPrice | main.py:35-36 | the trade fails iff it is a BUY without a price, after writing the trade and the zero entry |
| Paper.TradeEffect | main.py:34-40 | BUY: the shares add up and the cost basis is conserved; any other side: max(0, q - qty) shares and the same average |
| Paper.TradePreservesInv | main.py:25-40 | each trade keeps the positions under their own symbols, listed once each |
| Paper.Listed | main.py:69-71 | every listed entry holds shares and is the position of one of the symbols; every symbol holding shares has its position listed; never more entries than symbols (order in Paper.ListedAtIndices and ListedIndicesIncrease) |
| Paper.ListedIndices | main.py:71 | defined by its body: the indices of the symbols holding shares; properties in the three lemmas below |
| Paper.ListedAtIndices | main.py:71 | the i-th listed position is the position of the symbol at the i-th index |
| Paper.ListedIndicesIncrease | main.py:71 | the indices are in range and strictly increasing, so the listing keeps first-traded order and repeats no symbol |
| Paper.ListedIndicesComplete | main.py:71 | every symbol holding shares has its index listed |
| Paper.Execute | main.py:59-67 | defined by its body; properties in Paper.PlaceOutcome and PlaceCheckedIsAtomic |
| Paper.Place | main.py:48-67 | defined by its body (as written); properties in Paper.PlaceOutcome and UncheckedStyleLeavesPartialWrite |
| Paper.PlaceChecked | main.py:56-59 | defined by its body (corrected guard); properties in Paper.PlaceCheckedIsAtomic and PlaceCheckedAgrees |
| Paper.PlaceOutcome | main.py:48-67 | no quote, or a LIMIT with a falsy price: refused with nothing written; MARKET executes at the quote and LIMIT at its price; success stores the EXECUTED record and one trade |
| Paper.UncheckedStyleLeavesPartialWrite | main.py:56-59 | as written, a style-"STOP" BUY without a price fails only after writing a priceless trade and a zero position, and stores no order |
| Paper.PlaceCheckedIsAtomic | main.py:56-59 | corrected: refused iff no quote or a non-MARKET style without a price; refusals write nothing, and every accepted order has a price |
| Paper.PlaceCheckedAgrees | main.py:48-67 | where the corrected handler accepts, it matches the original |
| Paper.EmptyDbInv | main.py:18-22 | the initial database satisfies the invariant and lists nothing |
| Paper.PaperDb.constructor | main.py:18-22 | the database starts empty |
| Paper.PaperDb.ProcessTrade | main.py:25-40 | the in-place trade equals ProcessTradeSpec, including the partial writes before the BUY-without-price failure |
| Paper.PaperDb.PlaceOrder | main.py:48-67 | the in-place handler as written equals Place |
| Paper.PaperDb.PlaceOrderChecked | main.py:56-59 | the corrected handler equals PlaceChecked |
| Paper.PaperDb.Record | main.py:63-67 | the trade is written, then the EXECUTED record unless the trade failed |
| Paper.PaperDb.GetPortfolio | main.py:69-71 | a position is listed iff it is stored and holds shares |

## Left out

- Rounding: `round(..., 2)` on prices, P&L and report fields is not modelled; all arithmetic is exact `real`. Trades therefore carry the unrounded P&L, and `Accounting.LedgerInv`'s equation of the total with the trades' sum holds in the model but only up to rounding in the source.
- Floating point: IEEE behaviour is replaced by exact reals.
- Randomness, the clock and uuids: `random.uniform`, `random.gauss`, `random.random`, `random.randint`, `time.time`, `datetime.now` and `uuid4` become parameters. The Gaussian shock is any real.
- Live prices: the quote lookup of `backend/services.py` (network plus a cache) is not part of this model. The live price is a parameter. `backend/main.py` imports a `get_price_data` that `backend/services.py` does not define; `GetPortfolio` takes the per-symbol mark as a function parameter instead.
- Backend.TradingBackend.PlaceOrder: a quote lookup that returns None is not modelled; the quote is always a real number. The model therefore leaves out two crashes and the order states they leave behind:
  - MARKET: `execute_market_order` sets the stored order to EXECUTED (backend/order_manager.py:61), then `round(None, 2)` raises (backend/order_manager.py:62). The stored order stays EXECUTED with no execution price and no execution time. `Orders.OrderManager.Valid` rules that state out, and no ledger update follows.
  - LIMIT: the crash comes earlier. `check_limit_execution` is called (backend/main.py:178-180) and compares None with the limit (backend/order_manager.py:111 or 114), which raises. The stored order stays NEW, and the ledger is untouched.
- HTTP layer: FastAPI routing, status codes beyond the error kinds, CORS, logging, exception handlers and the startup `lifespan` are out of scope. The Pydantic rules become types and `ValidRequest`: quantity > 0, side and style upper-cased enums, price > 0, and LIMIT requires a price.
- Concurrency: `asyncio.sleep` and the interleaving of requests across suspension points are out of scope. Each handler runs as one sequential step. The two-concurrent-SELLs case appears only in its sequential form, `Backend.TwoSellsScenario`.
- Prices.PriceSimulator.InitializeFromApi: requires a positive real price. The caller only syncs on a truthy price; falsy and negative prices are not modelled.
- Volatility: the Gaussian's standard deviation enters only through the distribution of the shock, so the volatility table is carried but never read by the model.
- Prices.PriceSimulator.Valid: the invariant says every symbol with a current price appears in all the other tables. The source builds all tables from the same keys, but the converse direction is not stated.
- Prices.Tick: the change percentage and the volume are stated only through their definitions (`Prices.NextVolume` for the volume), not as separate bounds.
- Paper.PaperDb.ProcessTrade: the source's `order_id` argument is unused, and the trade id is drawn by `uuid4`. The model takes the trade id as a parameter and has no order-id argument.
- The HTTP wrappers `get_trades`, `get_stats`, `get_order_status` and `cancel_order` of backend/main.py only return what `Backend.TradingBackend.Stats`, `Orders.OrderManager.GetOrder` and `Orders.OrderManager.CancelOrder` model.
- `get_instruments`: its only trace is the symbol set `Backend.Instruments` that `place_order` checks against. Its per-instrument price enrichment (backend/main.py:129-133) is not modelled.

## Findings

| source | as written | input that shows it | evidently intended | confidence | as-written member | corrected member |
|---|---|---|---|---|---|---|
| main.py:56-59 | only the style "LIMIT" is checked for a price, yet every style other than "MARKET" executes at the request's own price | a BUY of 10 AAPL with style "STOP", no price and a quote of 150: the trade is appended with no price and a zero position is created, then the cost computation fails with an internal error and no order is stored | every style that executes at the request's price must name one, so that a refused request writes nothing | not executed | Paper.UncheckedStyleLeavesPartialWrite | Paper.PlaceCheckedIsAtomic |
