/**
 * `OrderBook`: the per-instrument book whose two sorted maps are updated in
 * place. Its methods are the source's operations; each is proved to compute
 * exactly the corresponding function of the `Matching` module, whose
 * properties are proved there.
 */
module OrderBooks {
  import opened Orders
  import opened Keys
  import opened Levels
  import opened Matching

  /** A sequence is its prefix, the element at `i`, and its suffix. */
  lemma SplitAt(s: seq<Order>, i: nat)
    requires i < |s|
    ensures s == s[..i] + ([s[i]] + s[i + 1..])
  {
  }

  /** One step of `execute_match` that uses up the resting order at `i` and not the incoming one. */
  lemma ExecuteStepUsedUp(validOrders: seq<Order>, level: seq<Order>, i: nat, q: Decimal)
    requires i < |level| == |validOrders| && level[i..] == validOrders[i..]
    requires level[i].quantity < q
    ensures var level' := level[i := WithQuantity(level[i], 0.0)];
      level'[i + 1..] == validOrders[i + 1..] &&
      level[..i] + Consumed(validOrders[i..], q).0
        == level'[..i + 1] + Consumed(validOrders[i + 1..], q - level[i].quantity).0 &&
      Consumed(validOrders[i..], q).1 == Consumed(validOrders[i + 1..], q - level[i].quantity).1
  {
    var o := level[i];
    var rest := validOrders[i..];
    assert rest[0] == o && rest[1..] == validOrders[i + 1..];
    var tail := Consumed(validOrders[i + 1..], q - o.quantity);
    assert Consumed(rest, q) == ([WithQuantity(o, 0.0)] + tail.0, tail.1);
    var level' := level[i := WithQuantity(o, 0.0)];
    assert level'[..i + 1] == level[..i] + [WithQuantity(o, 0.0)];
    assert (level[..i] + [WithQuantity(o, 0.0)]) + tail.0 == level[..i] + ([WithQuantity(o, 0.0)] + tail.0);
    assert level'[i + 1..] == level[i + 1..];
    assert level[i + 1..] == level[i..][1..];
  }

  /** The last step of `execute_match`: the incoming order is used up at `i`, leaving `o'` there. */
  lemma ExecuteStepLast(validOrders: seq<Order>, level: seq<Order>, i: nat, q: Decimal, o': Order)
    requires i < |level| == |validOrders| && level[i..] == validOrders[i..]
    requires q <= level[i].quantity && o' == WithQuantity(level[i], level[i].quantity - q)
    ensures level[..i] + Consumed(validOrders[i..], q).0 == level[i := o']
    ensures Consumed(validOrders[i..], q).1 == 0.0
  {
    var rest := validOrders[i..];
    assert rest[0] == level[i] && rest[1..] == validOrders[i + 1..];
    assert Consumed(rest, q) == ([o'] + validOrders[i + 1..], 0.0);
    var level' := level[i := o'];
    assert level'[..i] == level[..i] && level'[i + 1..] == level[i + 1..];
    assert level[i + 1..] == level[i..][1..];
    SplitAt(level', i);
  }

  class OrderBook {
    /** Bids: price -> resting Buy orders at that price, oldest first. */
    var buyOrders: Levels
    /** Asks: price -> resting Sell orders at that price, oldest first. */
    var sellOrders: Levels

    /** The book's current contents as a value. */
    function Snapshot(): Book
      reads this
    {
      Book(buyOrders, sellOrders)
    }

    /** Bids hold Buy orders and asks Sell orders, each level non-empty and at its own price. */
    predicate Valid()
      reads this
    {
      Matching.Valid(Snapshot())
    }

    /** `OrderBook::new`: an empty book. */
    constructor ()
      ensures buyOrders == map[] && sellOrders == map[]
      ensures Valid()
    {
      buyOrders := map[];
      sellOrders := map[];
    }

    /**
     * `add_order_to_orderbook`: append the order to the tail of the level at
     * its price on its own side, creating the level when it is absent.
     */
    method AddOrder(order: Order)
      modifies this
      ensures Snapshot() == Matching.AddOrder(old(Snapshot()), order)
      ensures old(Valid()) ==> Valid()
    {
      ghost var before := Snapshot();
      match order.side
      case Buy =>
        if order.price in buyOrders {
          buyOrders := buyOrders[order.price := buyOrders[order.price] + [order]];
        } else {
          buyOrders := buyOrders[order.price := [order]];
        }
        assert buyOrders == Inserted(before.buy, order);
      case Sell =>
        if order.price in sellOrders {
          sellOrders := sellOrders[order.price := sellOrders[order.price] + [order]];
        } else {
          sellOrders := sellOrders[order.price := [order]];
        }
        assert sellOrders == Inserted(before.sell, order);
      assert Snapshot() == Matching.AddOrder(before, order);
      AddOrderProperties(before, order);
    }

    /** `best_buy_price`: the highest bid, `None` exactly when there are no bids. */
    function BestBuyPrice(): (r: Option<Decimal>)
      reads this
      ensures r.None? <==> buyOrders == map[]
      ensures r.Some? ==> r.value in buyOrders && forall p :: p in buyOrders ==> p <= r.value
    {
      BestBid(buyOrders)
    }

    /** `best_sell_price`: the lowest ask, `None` exactly when there are no asks. */
    function BestSellPrice(): (r: Option<Decimal>)
      reads this
      ensures r.None? <==> sellOrders == map[]
      ensures r.Some? ==> r.value in sellOrders && forall p :: p in sellOrders ==> r.value <= p
    {
      BestAsk(sellOrders)
    }

    /** `market_price`: a buy trades at the best ask, a sell at the best bid. */
    function MarketPrice(side: Side): (r: Option<Decimal>)
      reads this
      ensures side == Buy ==> r == BestSellPrice()
      ensures side == Sell ==> r == BestBuyPrice()
    {
      Matching.MarketPrice(Snapshot(), side)
    }

    /**
     * `top_n_best_buy_prices`: `None` exactly when there are no bids;
     * otherwise the min(5, #bids) highest bid prices, strictly descending
     * from the best bid.
     */
    function TopNBestBuyPrices(): (r: Option<seq<Decimal>>)
      reads this
      ensures r.None? <==> buyOrders == map[]
      ensures r.Some? ==> 1 <= |r.value| <= Depth && |r.value| == Min(Depth, |buyOrders.Keys|)
      ensures r.Some? ==> forall i :: 0 <= i < |r.value| ==> r.value[i] in buyOrders
      ensures r.Some? ==> StrictlyDescending(r.value) && Some(r.value[0]) == BestBuyPrice()
      ensures r.Some? ==> forall p :: p in buyOrders && p !in r.value ==>
                            forall i :: 0 <= i < |r.value| ==> p < r.value[i]
    {
      if buyOrders != map[] then TopBidsBest(buyOrders); TopBids(buyOrders)
      else TopBids(buyOrders)
    }

    /**
     * `top_n_best_sell_prices`: `None` exactly when there are no asks;
     * otherwise the min(5, #asks) lowest ask prices, strictly ascending
     * from the best ask.
     */
    function TopNBestSellPrices(): (r: Option<seq<Decimal>>)
      reads this
      ensures r.None? <==> sellOrders == map[]
      ensures r.Some? ==> 1 <= |r.value| <= Depth && |r.value| == Min(Depth, |sellOrders.Keys|)
      ensures r.Some? ==> forall i :: 0 <= i < |r.value| ==> r.value[i] in sellOrders
      ensures r.Some? ==> StrictlyAscending(r.value) && Some(r.value[0]) == BestSellPrice()
      ensures r.Some? ==> forall p :: p in sellOrders && p !in r.value ==>
                            forall i :: 0 <= i < |r.value| ==> r.value[i] < p
    {
      if sellOrders != map[] then TopAsksBest(sellOrders); TopAsks(sellOrders)
      else TopAsks(sellOrders)
    }

    /**
     * `buy_volume`: always present; the sum of every bid's quantity, equal to
     * the sum of the level totals whatever the order of the levels, and
     * non-negative when no quantity is.
     */
    function BuyVolume(): (r: Option<Decimal>)
      reads this
      ensures r.Some? && r.value == VolumeOver(buyOrders, buyOrders.Keys)
      ensures NonNegative(buyOrders) ==> r.value >= 0.0
    {
      VolumeIsLevelSum(buyOrders);
      VolumeNonNegative(buyOrders);
      Some(Volume(buyOrders))
    }

    /**
     * `sell_volume`: always present; the sum of every ask's quantity, equal to
     * the sum of the level totals whatever the order of the levels, and
     * non-negative when no quantity is.
     */
    function SellVolume(): (r: Option<Decimal>)
      reads this
      ensures r.Some? && r.value == VolumeOver(sellOrders, sellOrders.Keys)
      ensures NonNegative(sellOrders) ==> r.value >= 0.0
    {
      VolumeIsLevelSum(sellOrders);
      VolumeNonNegative(sellOrders);
      Some(Volume(sellOrders))
    }

    /**
     * `execute_match`: consume one level oldest first against the incoming
     * order, in place. Returns the new level and the incoming order with what
     * is left of its quantity; the level total drops by exactly the fill.
     */
    static method ExecuteMatch(validOrders: seq<Order>, incoming: Order) returns (level: seq<Order>, filled: Order)
      ensures (level, filled.quantity) == Consumed(validOrders, incoming.quantity)
      ensures filled == WithQuantity(incoming, filled.quantity)
      ensures |level| == |validOrders|
      ensures SumQty(validOrders) - SumQty(level) == incoming.quantity - filled.quantity
    {
      level, filled := validOrders, incoming;
      ghost var spec := Consumed(validOrders, incoming.quantity);
      var i := 0;
      assert level[..0] == [] && validOrders[0..] == validOrders;
      assert [] + spec.0 == spec.0;
      while i < |level|
        invariant 0 <= i <= |level| == |validOrders|
        invariant level[i..] == validOrders[i..]
        invariant filled == WithQuantity(incoming, filled.quantity)
        invariant spec == (level[..i] + Consumed(validOrders[i..], filled.quantity).0,
                           Consumed(validOrders[i..], filled.quantity).1)
      {
        var order := level[i];
        if order.quantity < filled.quantity {
          // partially matched: the resting order is used up
          ExecuteStepUsedUp(validOrders, level, i, filled.quantity);
          filled := WithQuantity(filled, filled.quantity - order.quantity);
          level := level[i := WithQuantity(order, 0.0)];
        } else if order.quantity == filled.quantity {
          // perfectly matched: both are used up
          ExecuteStepLast(validOrders, level, i, filled.quantity, WithQuantity(order, 0.0));
          level := level[i := WithQuantity(order, 0.0)];
          filled := WithQuantity(filled, 0.0);
          break;
        } else {
          // fully matched: the incoming order is used up
          var reduced := WithQuantity(order, order.quantity - filled.quantity);
          ExecuteStepLast(validOrders, level, i, filled.quantity, reduced);
          level := level[i := reduced];
          filled := WithQuantity(filled, 0.0);
          break;
        }
        i := i + 1;
      }
      if i == |level| {
        assert validOrders[i..] == [] && level[..i] == level && level + [] == level;
      }
      ConsumedConserves(validOrders, incoming.quantity);
    }

    /**
     * The loop of `match_market_order`: visit the listed opposite levels best
     * first, consuming each one present, and stop as soon as the incoming
     * order is filled. Returns the opposite side and the incoming order as
     * updated.
     */
    static method SweepMarket(opposite: Levels, prices: seq<Decimal>, incoming: Order)
      returns (opp: Levels, filled: Order)
      ensures (opp, filled.quantity) == Walk(opposite, prices, incoming.quantity, Market, incoming.side, incoming.price)
      ensures filled == WithQuantity(incoming, filled.quantity)
    {
      opp, filled := opposite, incoming;
      ghost var spec := Walk(opposite, prices, incoming.quantity, Market, incoming.side, incoming.price);
      var i := 0;
      while i < |prices|
        invariant 0 <= i <= |prices|
        invariant filled == WithQuantity(incoming, filled.quantity)
        invariant Walk(opp, prices[i..], filled.quantity, Market, incoming.side, incoming.price) == spec
      {
        var price := prices[i];
        assert prices[i..][1..] == prices[i + 1..];
        if price in opp {
          var level, f := ExecuteMatch(opp[price], filled);
          opp, filled := opp[price := level], f;
        }
        if filled.quantity == 0.0 {
          break;
        }
        i := i + 1;
      }
    }

    /**
     * The loop of `match_limit_order`: like `SweepMarket`, but a level is
     * consumed only when it crosses the limit (ask <= limit for a buy,
     * bid >= limit for a sell); a level that does not cross is skipped
     * without ending the walk.
     */
    static method SweepLimit(opposite: Levels, prices: seq<Decimal>, incoming: Order)
      returns (opp: Levels, filled: Order)
      ensures (opp, filled.quantity) == Walk(opposite, prices, incoming.quantity, Limit, incoming.side, incoming.price)
      ensures filled == WithQuantity(incoming, filled.quantity)
    {
      opp, filled := opposite, incoming;
      ghost var spec := Walk(opposite, prices, incoming.quantity, Limit, incoming.side, incoming.price);
      var i := 0;
      while i < |prices|
        invariant 0 <= i <= |prices|
        invariant filled == WithQuantity(incoming, filled.quantity)
        invariant Walk(opp, prices[i..], filled.quantity, Limit, incoming.side, incoming.price) == spec
      {
        var price := prices[i];
        assert prices[i..][1..] == prices[i + 1..];
        var crosses := match incoming.side
          case Buy => incoming.price >= price
          case Sell => incoming.price <= price;
        if crosses {
          if price in opp {
            var level, f := ExecuteMatch(opp[price], filled);
            opp, filled := opp[price := level], f;
          }
          if filled.quantity == 0.0 {
            break;
          }
        }
        i := i + 1;
      }
    }

    /**
     * `match_market_order`: walk the opposite side's best (at most five)
     * levels whatever their price, stopping once the order is filled; a
     * non-zero remainder rests on the order's own side. With no opposite
     * levels the whole order rests. Returns the incoming order as updated.
     */
    method MatchMarketOrder(incoming: Order) returns (filled: Order)
      modifies this
      ensures (Snapshot(), filled) == Matched(old(Snapshot()), incoming, Market)
      ensures old(Valid()) ==> Valid()
    {
      ghost var before := Snapshot();
      filled := incoming;
      var possible := if incoming.side == Buy then TopNBestSellPrices() else TopNBestBuyPrices();
      assert possible == TopOpposite(before, incoming.side);
      match possible
      case None =>
        MatchedEmptyOpposite(before, incoming, Market);
        AddOrder(filled);
      case Some(prices) =>
        MatchedUnfold(before, incoming, Market);
        var opp := if incoming.side == Buy then sellOrders else buyOrders;
        assert opp == SideOf(before, Opposite(incoming.side));
        opp, filled := SweepMarket(opp, prices, incoming);
        if incoming.side == Buy {
          sellOrders := opp;
        } else {
          buyOrders := opp;
        }
        assert Snapshot() == WithSide(before, Opposite(incoming.side), opp);
        if filled.quantity != 0.0 {
          // not fully executed: the remainder rests
          AddOrder(filled);
        }
      MatchedKeepsValid(before, incoming, Market);
    }

    /**
     * `match_limit_order`: like `match_market_order`, but only levels that
     * cross the limit are consumed; a non-zero remainder rests at the limit
     * price.
     */
    method MatchLimitOrder(incoming: Order) returns (filled: Order)
      modifies this
      ensures (Snapshot(), filled) == Matched(old(Snapshot()), incoming, Limit)
      ensures old(Valid()) ==> Valid()
    {
      ghost var before := Snapshot();
      filled := incoming;
      var possible := if incoming.side == Buy then TopNBestSellPrices() else TopNBestBuyPrices();
      assert possible == TopOpposite(before, incoming.side);
      match possible
      case None =>
        MatchedEmptyOpposite(before, incoming, Limit);
        AddOrder(filled);
      case Some(prices) =>
        MatchedUnfold(before, incoming, Limit);
        var opp := if incoming.side == Buy then sellOrders else buyOrders;
        assert opp == SideOf(before, Opposite(incoming.side));
        opp, filled := SweepLimit(opp, prices, incoming);
        if incoming.side == Buy {
          sellOrders := opp;
        } else {
          buyOrders := opp;
        }
        assert Snapshot() == WithSide(before, Opposite(incoming.side), opp);
        if filled.quantity != 0.0 {
          // not fully executed: the remainder rests at the limit price
          AddOrder(filled);
        }
      MatchedKeepsValid(before, incoming, Limit);
    }
  }
}
