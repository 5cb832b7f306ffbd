# Order book of a stock matching engine, in Dafny

This project models the per-instrument order book of a small exchange
simulator (`OrderBook` in `src/core_engine/orderbook.rs`, with the `Order`
and `BuyOrSell` types of `src/core_engine/order.rs` folded in) and proves
what its operations promise.

The book keeps two price-keyed sorted maps, bids and asks. Each price maps
to the resting orders at that price, oldest first. The book offers:

- insertion of a resting order;
- queries: best bid and best ask, the market price for a side, the five best
  prices of each side, and the volume of each side;
- two matchers. A market order or a limit order walks at most five of the
  best opposite price levels. Inside each level, resting orders are consumed
  first in, first out. Whatever is left of the incoming order rests on its
  own side at its own price.

Modules, one per file:

- `Orders` (`orders.dfy`): `Decimal`, `Side`, `Order`, `Option`. Prices and
  quantities are exact decimals, modelled as `real`.
- `Keys` (`keys.dfy`): the least and greatest key of a set. Also the
  ascending and descending enumeration of a key set. These stand in for
  `BTreeMap` key iteration, and each is proved to be the unique strictly
  sorted listing of its set.
- `Levels` (`levels.dfy`): one side of the book as a
  `map<Decimal, seq<Order>>` with:
  - insertion, the best price, the top-five lists and the volume;
  - an order-independent reference sum of the level totals, with the
    volume proved equal to it.
- `Matching` (`matching.dfy`): the matching rules as functions on values.
  - `Consumed` is `execute_match`.
  - `Walk` is the loop over the best opposite levels, shared by both
    matchers. `Kind` selects market or limit.
  - `Matched` is the whole effect of `match_market_order` /
    `match_limit_order`.
  - The lemmas state:
    - FIFO inside a level;
    - conservation;
    - what a match fills: min(quantity, the volume at the reachable levels);
    - price priority across levels, and the inclusive crossing test;
    - the frame (the depth cap and the crossing test);
    - where the remainder goes;
    - preservation of the book's shape.
- `OrderBooks` (`orderbook.dfy`): `class OrderBook`, whose fields
  `buyOrders` and `sellOrders` the methods update in place.
  - `ExecuteMatch` is the loop over a copy of one level; it returns the updated level.
  - `SweepMarket` / `SweepLimit` are the loops over the price list.
  - `AddOrder`, `MatchMarketOrder` and `MatchLimitOrder` each update the
    book. Each is proved to leave exactly the state the matching function
    prescribes, and to keep the book valid.
- `Scenarios` (`scenarios.dfy`): the repository's unit tests as lemmas. The
  expected best prices, top lists, volumes and left-over quantities are
  proved to be what the model computes.

Two behaviours of the code that the model keeps as they are:

- The code never removes a price level, even when every order in it has been
  consumed to zero, and it never removes a zeroed order from its level. The
  model does the same.
- Such a level still counts as a best price, and it still takes one of the
  five places a matcher walks.

## Model

| member | source | states |
|---|---|---|
| Orders.WithQuantity | src/core_engine/orderbook.rs:222-235 | changing an order's quantity keeps its price and side |
| Orders.Opposite | src/core_engine/orderbook.rs:65-70 | a side's opposite is the other side |
| Keys.MinKey | src/core_engine/orderbook.rs:60-63 | the key is in the set and no key is smaller |
| Keys.MaxKey | src/core_engine/orderbook.rs:55-58 | the key is in the set and no key is larger |
| Keys.Ascending | src/core_engine/orderbook.rs:87-93 | the listing has exactly the keys of the set, each once, strictly ascending |
| Keys.Descending | src/core_engine/orderbook.rs:72-79 | the listing has exactly the keys of the set, each once, strictly descending |
| Keys.AscendingUnique | src/core_engine/orderbook.rs:87-93 | any strictly ascending listing of exactly the set's keys is the ascending enumeration |
| Keys.DescendingUnique | src/core_engine/orderbook.rs:72-79 | any strictly descending listing of exactly the set's keys is the descending enumeration |
| Levels.SumQtyAppend | src/core_engine/orderbook.rs:101-110 | the sum of quantities of two concatenated lists is the sum of their sums |
| Levels.ConcatAscending | src/core_engine/orderbook.rs:101-110 | summing the flattened levels in ascending key order gives the reference sum of the level totals |
| Levels.Volume | src/core_engine/orderbook.rs:103-108 | the volume of a side: every level flattened in ascending key order and the quantities summed; an empty side has volume 0 |
| Levels.VolumeIsLevelSum | src/core_engine/orderbook.rs:101-121 | a side's volume equals the sum of its level totals, whatever the key order |
| Levels.VolumeOverSplit | src/core_engine/orderbook.rs:101-121 | any one level's total can be split off the reference sum |
| Levels.VolumeOverFrame | src/core_engine/orderbook.rs:101-121 | the reference sum depends only on the levels it covers |
| Levels.VolumeReplace | src/core_engine/orderbook.rs:101-121 | replacing a level changes the volume by the change in that level's total |
| Levels.VolumeAddLevel | src/core_engine/orderbook.rs:101-121 | adding a level at a new price raises the volume by that level's total |
| Levels.Inserted | src/core_engine/orderbook.rs:21-53 | the order is appended to the tail of the level at its price, or a one-order level is created there; every other level is unchanged and no key is lost |
| Levels.InsertedVolume | src/core_engine/orderbook.rs:21-53 | insertion raises the side's volume by exactly the order's quantity |
| Levels.InsertedKeepsShape | src/core_engine/orderbook.rs:21-53 | insertion keeps every level non-empty, at its price and of the side's side, and keeps quantities non-negative |
| Levels.BestBid | src/core_engine/orderbook.rs:55-58 | `None` exactly when there are no bids, otherwise the highest bid price |
| Levels.BestAsk | src/core_engine/orderbook.rs:60-63 | `None` exactly when there are no asks, otherwise the lowest ask price |
| Levels.TopBids | src/core_engine/orderbook.rs:72-85 | `None` exactly when there are no bids; at most five prices |
| Levels.TopAsks | src/core_engine/orderbook.rs:87-99 | `None` exactly when there are no asks; at most five prices |
| Levels.TopBidsBest | src/core_engine/orderbook.rs:72-85 | the list holds min(5, #prices) bid prices, strictly descending from the best bid; every price left out is below every price listed |
| Levels.TopAsksBest | src/core_engine/orderbook.rs:87-99 | the list holds min(5, #prices) ask prices, strictly ascending from the best ask; every price left out is above every price listed |
| Levels.VolumeNonNegative | src/core_engine/orderbook.rs:101-121 | with no negative quantity a side's volume is non-negative |
| Matching.Consumed | src/core_engine/orderbook.rs:219-239 | consuming a level never changes its length |
| Matching.ConsumedKeepsOrders | src/core_engine/orderbook.rs:219-239 | consumption changes quantities only: every resting order keeps its price and side |
| Matching.FillIndexFirstCover | src/core_engine/orderbook.rs:220-231 | consumption stops at the first order that covers what is left of the incoming quantity; every order before it falls short |
| Matching.ConsumedFifo | src/core_engine/orderbook.rs:220-237 | FIFO: the orders before the stop index are zeroed and the orders after it are untouched |
| Matching.ConsumedStop | src/core_engine/orderbook.rs:226-237 | the order at the stop index is reduced by what was left; the incoming quantity ends at 0, or at q minus the level total when the whole level was consumed |
| Matching.ConsumedConserves | src/core_engine/orderbook.rs:222-235 | the level total drops by exactly the quantity the incoming order filled |
| Matching.ConsumedLeftOver | src/core_engine/orderbook.rs:219-239 | with non-negative quantities the left-over is max(0, q minus the level total) and the level stays non-negative |
| Matching.ConsumedZeroLevel | src/core_engine/orderbook.rs:220-225 | a level of zeroed orders fills nothing and is left as it was |
| Matching.CrossesAtOrBetter | src/core_engine/orderbook.rs:175 | the crossing test is inclusive: a market order takes every level; a limit order takes the level at its own price and every level ahead of it in price priority (asks at or below a buy's limit here, bids at or above a sell's limit at line 198), and no other |
| Matching.Step | src/core_engine/orderbook.rs:130-132 | visiting a price consumes the level there, if any, and never adds or removes a price |
| Matching.Walk | src/core_engine/orderbook.rs:129-136 | the walk over the listed prices never adds or removes a price |
| Matching.WalkFills | src/core_engine/orderbook.rs:174-184 | over distinct listed prices and non-negative levels, the quantity left over is max(0, q minus the total resting at the listed levels that cross) |
| Matching.WalkPriority | src/core_engine/orderbook.rs:129-136 | when the walk changed a listed level, every crossing level listed before it ends with a total of 0 |
| Matching.WalkFrame | src/core_engine/orderbook.rs:174-184 | every level that is not listed, or does not cross, is left untouched |
| Matching.WalkConserves | src/core_engine/orderbook.rs:129-136 | the opposite side's volume drops by exactly the quantity filled |
| Matching.WalkKeepsShape | src/core_engine/orderbook.rs:129-136 | the walk keeps every level's length and its orders' prices and sides |
| Matching.WalkNonNegative | src/core_engine/orderbook.rs:129-136 | with non-negative quantities the side stays non-negative and the left-over lies between 0 and the starting quantity |
| Matching.WalkNoCross | src/core_engine/orderbook.rs:174-184 | a walk in which no listed level crosses leaves the side and the quantity unchanged |
| Matching.AddOrder | src/core_engine/orderbook.rs:21-53 | insertion changes only the order's own side, by `Inserted` |
| Matching.AddOrderProperties | src/core_engine/orderbook.rs:21-53 | insertion keeps the book valid and non-negative, raises its own side's volume by the quantity and leaves the other side's volume alone |
| Matching.MarketPrice | src/core_engine/orderbook.rs:65-70 | a buy trades at the best ask and a sell at the best bid; `None` exactly when the opposite side is empty |
| Matching.TopOpposite | src/core_engine/orderbook.rs:124-146 | the opposite side's top list is `None` exactly when that side is empty |
| Matching.TopOppositeListed | src/core_engine/orderbook.rs:124-126 | the opposite side's top list holds that side's prices, without repetition, in price priority, starting at the market price |
| Matching.Matched | src/core_engine/orderbook.rs:123-217 | matching changes the incoming order's quantity only |
| Matching.MatchedEmptyOpposite | src/core_engine/orderbook.rs:142 | with an empty opposite side the whole order rests and nothing else changes |
| Matching.MatchedRemainder | src/core_engine/orderbook.rs:137-142 | the own side gets the left-over appended once at its price exactly when the opposite side was empty or something is left; the own side's volume moves by that amount |
| Matching.MatchedOwnSide | src/core_engine/orderbook.rs:185-190 | the own side after matching is the old one with the remainder inserted, or unchanged |
| Matching.MatchedOpposite | src/core_engine/orderbook.rs:168-217 | the opposite side keeps its prices and loses exactly the filled quantity; every level beyond the top five or not crossing is untouched |
| Matching.MatchedNothingCrosses | src/core_engine/orderbook.rs:174-190 | a limit order that crosses no level fills nothing and rests whole (a zero-quantity one rests only when the opposite side is empty) |
| Matching.MatchedFills | src/core_engine/orderbook.rs:123-217 | a match fills min(o.quantity, the volume resting at the levels it may reach), so the left-over is max(0, o.quantity minus that volume) |
| Matching.MatchedPriority | src/core_engine/orderbook.rs:123-217 | price priority: a level the match changed was reached only after every reachable level ahead of it had been emptied |
| Matching.MatchedAtLimitFills | src/core_engine/orderbook.rs:174-184 | a limit order priced at the opposite best price, with quantity resting there, fills part of its quantity |
| Matching.MatchedKeepsValid | src/core_engine/orderbook.rs:123-217 | matching a valid book leaves a valid book: the shape invariant is preserved |
| Matching.MatchedKeepsNonNegative | src/core_engine/orderbook.rs:123-217 | with non-negative quantities the book stays non-negative and the left-over lies between 0 and the order's quantity |
| OrderBooks.ExecuteStepUsedUp | src/core_engine/orderbook.rs:222-225 | a resting order smaller than what is left is zeroed and the walk goes on with the difference |
| OrderBooks.ExecuteStepLast | src/core_engine/orderbook.rs:227-237 | a resting order at least as large as what is left absorbs it and ends the level's consumption |
| OrderBooks.OrderBook.constructor | src/core_engine/orderbook.rs:14-19 | a new book has no bids and no asks, and is valid |
| OrderBooks.OrderBook.AddOrder | src/core_engine/orderbook.rs:21-53 | the new state is `Matching.AddOrder` of the old one; validity is kept |
| OrderBooks.OrderBook.BestBuyPrice | src/core_engine/orderbook.rs:55-58 | `None` exactly when there are no bids, otherwise the highest bid price |
| OrderBooks.OrderBook.BestSellPrice | src/core_engine/orderbook.rs:60-63 | `None` exactly when there are no asks, otherwise the lowest ask price |
| OrderBooks.OrderBook.MarketPrice | src/core_engine/orderbook.rs:65-70 | a buy's market price is the best sell price, a sell's the best buy price |
| OrderBooks.OrderBook.TopNBestBuyPrices | src/core_engine/orderbook.rs:72-85 | `None` exactly when there are no bids; otherwise min(5, #bids) bid prices, strictly descending from the best bid, none left out above one listed |
| OrderBooks.OrderBook.TopNBestSellPrices | src/core_engine/orderbook.rs:87-99 | `None` exactly when there are no asks; otherwise min(5, #asks) ask prices, strictly ascending from the best ask, none left out below one listed |
| OrderBooks.OrderBook.BuyVolume | src/core_engine/orderbook.rs:101-110 | always present; the sum of the bid level totals; non-negative when no quantity is negative |
| OrderBooks.OrderBook.SellVolume | src/core_engine/orderbook.rs:112-121 | always present; the sum of the ask level totals; non-negative when no quantity is negative |
| OrderBooks.OrderBook.ExecuteMatch | src/core_engine/orderbook.rs:219-239 | the loop over a copy of the level computes `Consumed`: same length, the incoming order changed in quantity only, and the level total drops by exactly the fill |
| OrderBooks.OrderBook.SweepMarket | src/core_engine/orderbook.rs:129-136 | the market loop computes `Walk` with kind `Market` |
| OrderBooks.OrderBook.SweepLimit | src/core_engine/orderbook.rs:174-184 | the limit loop, with its inclusive crossing test, computes `Walk` with kind `Limit` |
| OrderBooks.OrderBook.MatchMarketOrder | src/core_engine/orderbook.rs:123-166 | the new book and the incoming order are exactly `Matched(old book, order, Market)`; validity is kept |
| OrderBooks.OrderBook.MatchLimitOrder | src/core_engine/orderbook.rs:168-217 | the new book and the incoming order are exactly `Matched(old book, order, Limit)`; validity is kept |
| Scenarios.AddAllVolume | src/core_engine/orderbook.rs:21-53 | after any sequence of insertions each side's volume has grown by exactly the quantities of that side's orders |
| Scenarios.SixOrdersBook | src/lib.rs:15-42 | the six test insertions build two bid levels (690 with two orders in arrival order, 685 with one) and two ask levels (700 with two, 705 with one) |
| Scenarios.SixVolumes | src/lib.rs:45-73 | that book's bid volume is 70 and its ask volume 65 |
| Scenarios.SixBookQueries | src/lib.rs:127-157 | that book's best bid is 690 and best ask 700; its top lists are [690, 685] and [700, 705] |
| Scenarios.FullBookVolumes | src/lib.rs:190-191 | the full-fill test book has bid volume 440 and ask volume 355 |
| Scenarios.FullMatchLimitBuy | src/lib.rs:193-198 | a buy of 10 limited at 1005 is filled from the 1005 ask and nothing rests |
| Scenarios.FullMarketPrice | src/lib.rs:200-202 | the market price for a sell is then 1004 |
| Scenarios.FullMatchMarketSell | src/lib.rs:200-207 | a market sell of 100 empties both 1004 bids and takes 35 from the 1003 bid; nothing rests |
| Scenarios.FullMatchLimitBuy2 | src/lib.rs:209-214 | a buy of 40 limited at 1008 passes the emptied 1005 ask and is filled from the 1006 ask |
| Scenarios.FullMatchLimitSell | src/lib.rs:216-221 | a sell of 20 limited at 1004 finds only zeroed bids that cross, fills nothing, and rests 20 at 1004 |
| Scenarios.FullVolumes | src/lib.rs:196-221 | the volumes after the four matches are 440/345, 340/345, 340/305 and 340/325 |
| Scenarios.UntradableMatch | src/lib.rs:307-310 | a buy of 50 limited at 1007, below every ask, fills nothing and rests whole |
| Scenarios.UntradableBookVolumes | src/lib.rs:304-312 | volumes 225/375 before, and a bid volume of 275 after the order rests |
| Scenarios.PartialMatchLimitBuy | src/lib.rs:256-259 | a buy of 25 limited at 1005 takes the 20 at 1005 and rests 5 at 1005 |
| Scenarios.PartialMatchLimitSell | src/lib.rs:263-266 | a sell of 100 limited at 1002 empties the bids at 1005 to 1002 (90) and rests 10 at 1002 |
| Scenarios.PartialMarketPrice | src/lib.rs:270-272 | the market price for a buy is then 1002 |
| Scenarios.PartialMatchMarketBuy | src/lib.rs:270-275 | a market buy of 30 takes 10 at 1002, nothing from the zeroed 1005 order, and 20 at 1006; nothing rests |
| Scenarios.PartialVolumes | src/lib.rs:253-277 | the volumes are 245/410, then 250/390, 160/400 and a final ask volume of 370 |

## Left out

- `src/core_engine/engine.rs` is not part of this model. Its registry of
  books per company is a plain hash-map lookup. The listing test in
  `src/lib.rs:76-124` exercises that registry. Through it, the test also
  repeats the six-order insertions and the volume check of
  `test_prices_and_volumes`, which `Scenarios.SixOrdersBook` and
  `Scenarios.SixVolumes` model.
- `Decimal` is modelled as an exact `real`. The 96-bit mantissa, the
  scale and the overflow panics of `rust_decimal` are not modelled.
- The `Clone` derivations and the `.clone()` at remainder insertion are
  value copies in Dafny.
- The `&mut Order` parameter of the matchers and of `execute_match` becomes a
  returned `filled` order.
- OrderBooks.OrderBook.ExecuteMatch: `execute_match` changes its
  `&mut Vec<Order>` level in place. The model takes the level as a
  `seq<Order>` by value and returns it updated, and the caller writes it
  back, so the final level is the same. The in-place update of the vector
  is not modelled.
- OrderBooks.OrderBook.MatchMarketOrder: the loop reaches each level through
  `get_mut` and changes it in place. The model sweeps a local copy of the
  opposite side and writes that copy back once. The resulting state is the
  same. The aliasing of the level through `get_mut` is not modelled.
- OrderBooks.OrderBook.MatchLimitOrder: the same copy-and-write-back as the
  market matcher.
- The test books of `test_match_full_order`, `test_match_partial_order` and
  `test_match_untradable_orders` are written directly as the maps their
  insertions produce. Only the six-order book of the first tests is built
  through the insertions themselves (`Scenarios.SixOrdersBook`).
- Concurrency and I/O: the code has none.
