/**
 * Worked books from the repository's own unit tests, computed through the
 * model: the expected best prices, top lists, volumes and match outcomes are
 * proved to be what the definitions yield.
 */
module Scenarios {
  import opened Orders
  import opened Keys
  import opened Levels
  import opened Matching

  /** Add the orders one after the other, as a test's sequence of `add_order_to_orderbook` calls. */
  function AddAll(b: Book, os: seq<Order>): Book
    decreases |os|
  {
    if os == [] then b else AddAll(AddOrder(b, os[0]), os[1..])
  }

  /** The total quantity of the orders of side `s` in `os`. */
  function SideQty(os: seq<Order>, s: Side): Decimal
    decreases |os|
  {
    if os == [] then 0.0 else (if os[0].side == s then os[0].quantity else 0.0) + SideQty(os[1..], s)
  }

  /**
   * Volume conservation over insertions: after any sequence of insertions a
   * side's volume has grown by exactly the quantities of that side's orders.
   */
  lemma {:induction false} AddAllVolume(b: Book, os: seq<Order>, s: Side)
    ensures Volume(SideOf(AddAll(b, os), s)) == Volume(SideOf(b, s)) + SideQty(os, s)
    decreases |os|
  {
    if os != [] {
      var o := os[0];
      AddOrderProperties(b, o);
      if o.side != s {
        assert s == Opposite(o.side) by { match s case Buy => case Sell => }
      }
      AddAllVolume(AddOrder(b, o), os[1..], s);
    }
  }

  /** The six orders of `test_add_order_to_orderbook` and `test_prices_and_volumes`. */
  function SixOrders(): seq<Order>
  {
    [Order(35.0, 690.0, Buy), Order(20.0, 685.0, Buy), Order(15.0, 690.0, Buy),
     Order(10.0, 700.0, Sell), Order(25.0, 705.0, Sell), Order(30.0, 700.0, Sell)]
  }

  /** Each insertion appends at its own price level on its own side. */
  lemma SixOrdersBook()
    ensures AddAll(Book(map[], map[]), SixOrders()) ==
      Book(map[690.0 := [Order(35.0, 690.0, Buy), Order(15.0, 690.0, Buy)],
               685.0 := [Order(20.0, 685.0, Buy)]],
           map[700.0 := [Order(10.0, 700.0, Sell), Order(30.0, 700.0, Sell)],
               705.0 := [Order(25.0, 705.0, Sell)]])
  {
    var os := SixOrders();
    var b0 := Book(map[], map[]);
    var b1 := AddOrder(b0, os[0]);
    assert b1 == Book(map[690.0 := [os[0]]], map[]);
    var b2 := AddOrder(b1, os[1]);
    assert b2 == Book(map[690.0 := [os[0]], 685.0 := [os[1]]], map[]);
    var b3 := AddOrder(b2, os[2]);
    assert [os[0]] + [os[2]] == [os[0], os[2]];
    assert b3 == Book(map[690.0 := [os[0], os[2]], 685.0 := [os[1]]], map[]);
    var b4 := AddOrder(b3, os[3]);
    assert b4 == Book(b3.buy, map[700.0 := [os[3]]]);
    var b5 := AddOrder(b4, os[4]);
    assert b5 == Book(b3.buy, map[700.0 := [os[3]], 705.0 := [os[4]]]);
    var b6 := AddOrder(b5, os[5]);
    assert [os[3]] + [os[5]] == [os[3], os[5]];
    assert b6 == Book(b3.buy, map[700.0 := [os[3], os[5]], 705.0 := [os[4]]]);
    assert AddAll(b0, os) == AddAll(b1, os[1..]);
    assert AddAll(b1, os[1..]) == AddAll(b2, os[2..]);
    assert AddAll(b2, os[2..]) == AddAll(b3, os[3..]);
    assert AddAll(b3, os[3..]) == AddAll(b4, os[4..]);
    assert AddAll(b4, os[4..]) == AddAll(b5, os[5..]);
    assert AddAll(b5, os[5..]) == AddAll(b6, os[6..]);
    assert os[6..] == [];
  }

  /** The book the six orders build. */
  function SixBook(): Book
  {
    Book(map[690.0 := [Order(35.0, 690.0, Buy), Order(15.0, 690.0, Buy)],
             685.0 := [Order(20.0, 685.0, Buy)]],
         map[700.0 := [Order(10.0, 700.0, Sell), Order(30.0, 700.0, Sell)],
             705.0 := [Order(25.0, 705.0, Sell)]])
  }

  /** `test_prices_and_volumes` and `test_top_n_buy_and_sell_prices`: best prices and top lists. */
  lemma SixBookQueries(b: Book)
    requires b == SixBook()
    ensures BestBid(b.buy) == Some(690.0) && BestAsk(b.sell) == Some(700.0)
    ensures TopBids(b.buy) == Some([690.0, 685.0])
    ensures TopAsks(b.sell) == Some([700.0, 705.0])
  {
    assert b.buy.Keys == {690.0, 685.0} && b.sell.Keys == {700.0, 705.0};
    SixBookSides(b.buy, b.sell);
  }

  lemma SixBookSides(bids: Levels, asks: Levels)
    requires bids.Keys == {690.0, 685.0} && asks.Keys == {700.0, 705.0}
    ensures BestBid(bids) == Some(690.0) && BestAsk(asks) == Some(700.0)
    ensures TopBids(bids) == Some([690.0, 685.0])
    ensures TopAsks(asks) == Some([700.0, 705.0])
  {
    SixBookBids(bids);
    SixBookAsks(asks);
  }

  lemma SixBookBids(bids: Levels)
    requires bids.Keys == {690.0, 685.0}
    ensures BestBid(bids) == Some(690.0) && TopBids(bids) == Some([690.0, 685.0])
  {
    BestBidIs(bids, 690.0);
    TopBidsListed(bids, [690.0, 685.0]);
  }

  lemma SixBookAsks(asks: Levels)
    requires asks.Keys == {700.0, 705.0}
    ensures BestAsk(asks) == Some(700.0) && TopAsks(asks) == Some([700.0, 705.0])
  {
    BestAskIs(asks, 700.0);
    TopAsksListed(asks, [700.0, 705.0]);
  }


  /** `test_prices_and_volumes`: the bid volume 35 + 20 + 15 and the ask volume 10 + 25 + 30. */
  lemma SixVolumes(b: Book)
    requires b == SixBook()
    ensures Volume(b.buy) == 70.0 && Volume(b.sell) == 65.0
  {
    assert b.buy.Keys == {690.0, 685.0} && b.sell.Keys == {700.0, 705.0};
    assert b.buy[690.0] == [Bid(35.0, 690.0), Bid(15.0, 690.0)] && b.buy[685.0] == [Bid(20.0, 685.0)];
    assert b.sell[700.0] == [Ask(10.0, 700.0), Ask(30.0, 700.0)] && b.sell[705.0] == [Ask(25.0, 705.0)];
    SixBookVolumes(b.buy, b.sell);
  }

  lemma SixBookVolumes(bids: Levels, asks: Levels)
    requires bids.Keys == {690.0, 685.0}
    requires bids[690.0] == [Bid(35.0, 690.0), Bid(15.0, 690.0)] && bids[685.0] == [Bid(20.0, 685.0)]
    requires asks.Keys == {700.0, 705.0}
    requires asks[700.0] == [Ask(10.0, 700.0), Ask(30.0, 700.0)] && asks[705.0] == [Ask(25.0, 705.0)]
    ensures Volume(bids) == 70.0 && Volume(asks) == 65.0
  {
    SumQtyTwo(Bid(35.0, 690.0), Bid(15.0, 690.0));
    SumQtyOne(Bid(20.0, 685.0));
    SumQtyTwo(Ask(10.0, 700.0), Ask(30.0, 700.0));
    SumQtyOne(Ask(25.0, 705.0));
    Volume2(bids, 690.0, 685.0);
    Volume2(asks, 700.0, 705.0);
  }

  /** Given the ascending listing of at most five ask prices, those are the top asks. */
  lemma TopAsksListed(m: Levels, ps: seq<Decimal>)
    requires 1 <= |ps| <= Depth && StrictlyAscending(ps) && forall k :: k in ps <==> k in m
    ensures TopAsks(m) == Some(ps)
  {
    AscendingUnique(m.Keys, ps);
    assert m != map[] by { assert ps[0] in ps; }
    assert ps[..|ps|] == ps;
  }

  /** Given the descending listing of at most five bid prices, those are the top bids. */
  lemma TopBidsListed(m: Levels, ps: seq<Decimal>)
    requires 1 <= |ps| <= Depth && StrictlyDescending(ps) && forall k :: k in ps <==> k in m
    ensures TopBids(m) == Some(ps)
  {
    DescendingUnique(m.Keys, ps);
    assert m != map[] by { assert ps[0] in ps; }
    assert ps[..|ps|] == ps;
  }

  /** Given the ascending listing of more than five ask prices, the top asks are its first five. */
  lemma TopAsksCut(m: Levels, ps: seq<Decimal>)
    requires Depth < |ps| && StrictlyAscending(ps) && forall k :: k in ps <==> k in m
    ensures TopAsks(m) == Some(ps[..Depth])
  {
    AscendingUnique(m.Keys, ps);
    assert m != map[] by { assert ps[0] in ps; }
  }

  /** Given the descending listing of more than five bid prices, the top bids are its first five. */
  lemma TopBidsCut(m: Levels, ps: seq<Decimal>)
    requires Depth < |ps| && StrictlyDescending(ps) && forall k :: k in ps <==> k in m
    ensures TopBids(m) == Some(ps[..Depth])
  {
    DescendingUnique(m.Keys, ps);
    assert m != map[] by { assert ps[0] in ps; }
  }

  function Bid(q: Decimal, p: Decimal): Order { Order(q, p, Buy) }
  function Ask(q: Decimal, p: Decimal): Order { Order(q, p, Sell) }

  /** The book of `test_match_full_order` once its ten orders are added. */
  function FullBook(): Book
  {
    Book(map[1004.0 := [Bid(25.0, 1004.0), Bid(40.0, 1004.0)], 1003.0 := [Bid(125.0, 1003.0)],
             1002.0 := [Bid(100.0, 1002.0)], 1001.0 := [Bid(150.0, 1001.0)]],
         map[1005.0 := [Ask(10.0, 1005.0)], 1006.0 := [Ask(50.0, 1006.0)], 1007.0 := [Ask(25.0, 1007.0)],
             1008.0 := [Ask(150.0, 1008.0)], 1009.0 := [Ask(120.0, 1009.0)]])
  }

  /** `test_match_full_order`: the bid volume 440 and the ask volume 355 before any match. */
  lemma FullBookVolumes()
    ensures Volume(FullBook().buy) == 440.0 && Volume(FullBook().sell) == 355.0
  {
    FullBookBuyVolume();
    FullBookSellVolume();
  }

  lemma FullBookBuyVolume()
    ensures Volume(FullBook().buy) == 440.0
  {
    FullBookBidTotal(FullBook().buy);
  }

  lemma FullBookSellVolume()
    ensures Volume(FullBook().sell) == 355.0
  {
    FullBookAskTotal(FullBook().sell);
  }

  lemma FullBookBidTotal(m: Levels)
    requires m.Keys == {1004.0, 1003.0, 1002.0, 1001.0}
    requires m[1004.0] == [Bid(25.0, 1004.0), Bid(40.0, 1004.0)] && m[1003.0] == [Bid(125.0, 1003.0)]
    requires m[1002.0] == [Bid(100.0, 1002.0)] && m[1001.0] == [Bid(150.0, 1001.0)]
    ensures Volume(m) == 440.0
  {
    SumQtyTwo(Bid(25.0, 1004.0), Bid(40.0, 1004.0));
    SumQtyOne(Bid(125.0, 1003.0));
    SumQtyOne(Bid(100.0, 1002.0));
    SumQtyOne(Bid(150.0, 1001.0));
    Volume4(m, 1004.0, 1003.0, 1002.0, 1001.0);
  }

  lemma FullBookAskTotal(m: Levels)
    requires m.Keys == {1005.0, 1006.0, 1007.0, 1008.0, 1009.0}
    requires m[1005.0] == [Ask(10.0, 1005.0)] && m[1006.0] == [Ask(50.0, 1006.0)]
    requires m[1007.0] == [Ask(25.0, 1007.0)] && m[1008.0] == [Ask(150.0, 1008.0)]
    requires m[1009.0] == [Ask(120.0, 1009.0)]
    ensures Volume(m) == 355.0
  {
    SumQtyOne(Ask(10.0, 1005.0));
    SumQtyOne(Ask(50.0, 1006.0));
    SumQtyOne(Ask(25.0, 1007.0));
    SumQtyOne(Ask(150.0, 1008.0));
    SumQtyOne(Ask(120.0, 1009.0));
    Volume5(m, 1005.0, 1006.0, 1007.0, 1008.0, 1009.0);
  }

  /** Example 1 of `test_match_full_order`: buy 10 at limit 1005 fills exactly against the 1005 ask. */
  lemma FullMatchLimitBuy(b: Book)
    requires b == FullBook()
    ensures Matched(b, Bid(10.0, 1005.0), Limit) ==
      (Book(b.buy, b.sell[1005.0 := [Ask(0.0, 1005.0)]]), Bid(0.0, 1005.0))
  {
    assert b.sell.Keys == {1005.0, 1006.0, 1007.0, 1008.0, 1009.0};
    assert b.sell[1005.0] == [Ask(10.0, 1005.0)];
    FullBuyMatch(b);
  }

  /** The first limit buy of the full-fill scenario, on any book whose asks are those levels. */
  lemma FullBuyMatch(b: Book)
    requires b.sell.Keys == {1005.0, 1006.0, 1007.0, 1008.0, 1009.0}
    requires b.sell[1005.0] == [Ask(10.0, 1005.0)]
    ensures Matched(b, Bid(10.0, 1005.0), Limit) ==
      (Book(b.buy, b.sell[1005.0 := [Ask(0.0, 1005.0)]]), Bid(0.0, 1005.0))
  {
    TopAsksListed(b.sell, [1005.0, 1006.0, 1007.0, 1008.0, 1009.0]);
    FullBuyWalk(b.sell);
    MatchedUnfold(b, Bid(10.0, 1005.0), Limit);
  }

  /** The ask at 1005 fills the whole buy. */
  lemma FullBuyWalk(m: Levels)
    requires 1005.0 in m && m[1005.0] == [Ask(10.0, 1005.0)]
    ensures Walk(m, [1005.0, 1006.0, 1007.0, 1008.0, 1009.0], 10.0, Limit, Buy, 1005.0) ==
      (m[1005.0 := [Ask(0.0, 1005.0)]], 0.0)
  {
    var ps := [1005.0, 1006.0, 1007.0, 1008.0, 1009.0];
    ConsumeOne(Ask(10.0, 1005.0), 10.0);
    assert Step(m, 1005.0, 10.0) == (m[1005.0 := [Ask(0.0, 1005.0)]], 0.0);
    assert Crosses(Limit, Buy, 1005.0, ps[0]);
  }


  /** Consuming a level of one order, by the three cases of `execute_match`. */
  lemma ConsumeOne(o: Order, q: Decimal)
    ensures Consumed([o], q) ==
      if o.quantity < q then ([WithQuantity(o, 0.0)], q - o.quantity)
      else if o.quantity == q then ([WithQuantity(o, 0.0)], 0.0)
      else ([WithQuantity(o, o.quantity - q)], 0.0)
  {
    assert [o][1..] == [];
    assert [WithQuantity(o, 0.0)] + [] == [WithQuantity(o, 0.0)];
    assert [WithQuantity(o, o.quantity - q)] + [] == [WithQuantity(o, o.quantity - q)];
  }

  /** Consuming a level of two orders when the first is used up. */
  lemma ConsumeTwo(o1: Order, o2: Order, q: Decimal)
    requires o1.quantity < q
    ensures Consumed([o1, o2], q) ==
      ([WithQuantity(o1, 0.0)] + Consumed([o2], q - o1.quantity).0, Consumed([o2], q - o1.quantity).1)
  {
    assert [o1, o2][1..] == [o2];
  }

  function FullBook1(): Book { Book(FullBook().buy, FullBook().sell[1005.0 := [Ask(0.0, 1005.0)]]) }

  /** Example 2 of `test_match_full_order`: the market price for a sell is the best bid, 1004. */
  lemma FullMarketPrice(b: Book)
    requires b == FullBook1()
    ensures MarketPrice(b, Sell) == Some(1004.0)
  {
    BestBidIs(b.buy, 1004.0);
  }

  /** A bid price at least every other is the best bid. */
  lemma BestBidIs(m: Levels, p: Decimal)
    requires p in m && forall k :: k in m ==> k <= p
    ensures BestBid(m) == Some(p)
  {
  }

  /**
   * Example 2 of `test_match_full_order`: sell 100 at market takes both 1004
   * bids (65) and 35 of the 1003 bid; the emptied orders stay at 1004.
   */
  lemma FullMatchMarketSell(b: Book)
    requires b == FullBook1()
    ensures Matched(b, Ask(100.0, 1004.0), Market) ==
      (Book(b.buy[1004.0 := [Bid(0.0, 1004.0), Bid(0.0, 1004.0)]][1003.0 := [Bid(90.0, 1003.0)]], b.sell),
       Ask(0.0, 1004.0))
  {
    assert b.buy.Keys == {1004.0, 1003.0, 1002.0, 1001.0};
    assert b.buy[1004.0] == [Bid(25.0, 1004.0), Bid(40.0, 1004.0)] && b.buy[1003.0] == [Bid(125.0, 1003.0)];
    FullMarketMatch(b);
  }

  /** The market sell of the full-fill scenario, on any book whose bids are those levels. */
  lemma FullMarketMatch(b: Book)
    requires b.buy.Keys == {1004.0, 1003.0, 1002.0, 1001.0}
    requires b.buy[1004.0] == [Bid(25.0, 1004.0), Bid(40.0, 1004.0)] && b.buy[1003.0] == [Bid(125.0, 1003.0)]
    ensures Matched(b, Ask(100.0, 1004.0), Market) ==
      (Book(b.buy[1004.0 := [Bid(0.0, 1004.0), Bid(0.0, 1004.0)]][1003.0 := [Bid(90.0, 1003.0)]], b.sell),
       Ask(0.0, 1004.0))
  {
    TopBidsListed(b.buy, [1004.0, 1003.0, 1002.0, 1001.0]);
    FullMarketWalk(b.buy);
    MatchedUnfold(b, Ask(100.0, 1004.0), Market);
  }

  /** Both bids at 1004 are spent (65), and 35 of the bid at 1003. */
  lemma FullMarketWalk(m: Levels)
    requires 1004.0 in m && 1003.0 in m
    requires m[1004.0] == [Bid(25.0, 1004.0), Bid(40.0, 1004.0)] && m[1003.0] == [Bid(125.0, 1003.0)]
    ensures Walk(m, [1004.0, 1003.0, 1002.0, 1001.0], 100.0, Market, Sell, 1004.0) ==
      (m[1004.0 := [Bid(0.0, 1004.0), Bid(0.0, 1004.0)]][1003.0 := [Bid(90.0, 1003.0)]], 0.0)
  {
    var ps := [1004.0, 1003.0, 1002.0, 1001.0];
    ConsumeOne(Bid(40.0, 1004.0), 75.0);
    ConsumeTwo(Bid(25.0, 1004.0), Bid(40.0, 1004.0), 100.0);
    assert [Bid(0.0, 1004.0)] + [Bid(0.0, 1004.0)] == [Bid(0.0, 1004.0), Bid(0.0, 1004.0)];
    var s1 := Step(m, 1004.0, 100.0);
    assert s1 == (m[1004.0 := [Bid(0.0, 1004.0), Bid(0.0, 1004.0)]], 35.0);
    ConsumeOne(Bid(125.0, 1003.0), 35.0);
    var s2 := Step(s1.0, 1003.0, 35.0);
    assert s2 == (s1.0[1003.0 := [Bid(90.0, 1003.0)]], 0.0);
    assert ps[1..] == [1003.0, 1002.0, 1001.0];
    assert Walk(s1.0, ps[1..], 35.0, Market, Sell, 1004.0) == s2;
  }


  function FullBook2(): Book
  {
    Book(FullBook1().buy[1004.0 := [Bid(0.0, 1004.0), Bid(0.0, 1004.0)]][1003.0 := [Bid(90.0, 1003.0)]],
         FullBook1().sell)
  }

  /**
   * Example 3 of `test_match_full_order`: buy 40 at limit 1008 passes the
   * emptied 1005 ask (0 filled) and takes 40 of the 50 at 1006.
   */
  lemma FullMatchLimitBuy2(b: Book)
    requires b == FullBook2()
    ensures Matched(b, Bid(40.0, 1008.0), Limit) ==
      (Book(b.buy, b.sell[1006.0 := [Ask(10.0, 1006.0)]]), Bid(0.0, 1008.0))
  {
    assert b.sell.Keys == {1005.0, 1006.0, 1007.0, 1008.0, 1009.0};
    assert b.sell[1005.0] == [Ask(0.0, 1005.0)] && b.sell[1006.0] == [Ask(50.0, 1006.0)];
    FullBuyMatch2(b);
  }

  /** The second limit buy of the full-fill scenario, on any book whose asks are those levels. */
  lemma FullBuyMatch2(b: Book)
    requires b.sell.Keys == {1005.0, 1006.0, 1007.0, 1008.0, 1009.0}
    requires b.sell[1005.0] == [Ask(0.0, 1005.0)] && b.sell[1006.0] == [Ask(50.0, 1006.0)]
    ensures Matched(b, Bid(40.0, 1008.0), Limit) ==
      (Book(b.buy, b.sell[1006.0 := [Ask(10.0, 1006.0)]]), Bid(0.0, 1008.0))
  {
    TopAsksListed(b.sell, [1005.0, 1006.0, 1007.0, 1008.0, 1009.0]);
    FullBuyWalk2(b.sell);
    MatchedUnfold(b, Bid(40.0, 1008.0), Limit);
  }

  /** The empty order at 1005 gives nothing; the ask at 1006 fills the 40. */
  lemma FullBuyWalk2(m: Levels)
    requires 1005.0 in m && 1006.0 in m
    requires m[1005.0] == [Ask(0.0, 1005.0)] && m[1006.0] == [Ask(50.0, 1006.0)]
    ensures Walk(m, [1005.0, 1006.0, 1007.0, 1008.0, 1009.0], 40.0, Limit, Buy, 1008.0) ==
      (m[1006.0 := [Ask(10.0, 1006.0)]], 0.0)
  {
    var ps := [1005.0, 1006.0, 1007.0, 1008.0, 1009.0];
    ConsumeOne(Ask(0.0, 1005.0), 40.0);
    assert m[1005.0 := [Ask(0.0, 1005.0)]] == m;
    assert Step(m, 1005.0, 40.0) == (m, 40.0);
    ConsumeOne(Ask(50.0, 1006.0), 40.0);
    var s2 := Step(m, 1006.0, 40.0);
    assert s2 == (m[1006.0 := [Ask(10.0, 1006.0)]], 0.0);
    assert ps[1..] == [1006.0, 1007.0, 1008.0, 1009.0];
    assert Walk(m, ps[1..], 40.0, Limit, Buy, 1008.0) == s2;
  }


  function FullBook3(): Book
  {
    Book(FullBook2().buy, FullBook2().sell[1006.0 := [Ask(10.0, 1006.0)]])
  }

  /**
   * Example 4 of `test_match_full_order`: sell 20 at limit 1004 crosses only
   * the emptied 1004 bids, fills nothing, and rests whole as a new 1004 ask.
   */
  lemma FullMatchLimitSell(b: Book)
    requires b == FullBook3()
    ensures Matched(b, Ask(20.0, 1004.0), Limit) ==
      (Book(b.buy, b.sell[1004.0 := [Ask(20.0, 1004.0)]]), Ask(20.0, 1004.0))
  {
    assert b.buy.Keys == {1004.0, 1003.0, 1002.0, 1001.0};
    assert b.buy[1004.0] == [Bid(0.0, 1004.0), Bid(0.0, 1004.0)];
    assert 1004.0 !in b.sell;
    FullSellMatch(b);
  }

  /** The limit sell of the full-fill scenario, on any book whose bids are those levels. */
  lemma FullSellMatch(b: Book)
    requires b.buy.Keys == {1004.0, 1003.0, 1002.0, 1001.0}
    requires b.buy[1004.0] == [Bid(0.0, 1004.0), Bid(0.0, 1004.0)]
    requires 1004.0 !in b.sell
    ensures Matched(b, Ask(20.0, 1004.0), Limit) ==
      (Book(b.buy, b.sell[1004.0 := [Ask(20.0, 1004.0)]]), Ask(20.0, 1004.0))
  {
    var ps := [1004.0, 1003.0, 1002.0, 1001.0];
    var o := Ask(20.0, 1004.0);
    assert Inserted(b.sell, o) == b.sell[1004.0 := [o]];
    TopBidsListed(b.buy, ps);
    FullSellWalk(b.buy);
    MatchedUnfold(b, o, Limit);
  }

  /** Both resting bids at 1004 are spent, and no lower bid crosses a sell at 1004. */
  lemma FullSellWalk(m: Levels)
    requires 1004.0 in m && m[1004.0] == [Bid(0.0, 1004.0), Bid(0.0, 1004.0)]
    ensures Walk(m, [1004.0, 1003.0, 1002.0, 1001.0], 20.0, Limit, Sell, 1004.0) == (m, 20.0)
  {
    var ps := [1004.0, 1003.0, 1002.0, 1001.0];
    ConsumeOne(Bid(0.0, 1004.0), 20.0);
    ConsumeTwo(Bid(0.0, 1004.0), Bid(0.0, 1004.0), 20.0);
    assert [Bid(0.0, 1004.0)] + [Bid(0.0, 1004.0)] == m[1004.0];
    assert m[1004.0 := m[1004.0]] == m;
    assert Step(m, 1004.0, 20.0) == (m, 20.0);
    assert ps[1..] == [1003.0, 1002.0, 1001.0];
    assert ps[1..][1..] == [1002.0, 1001.0];
    assert ps[1..][1..][1..] == [1001.0];
    assert ps[1..][1..][1..][1..] == [];
    assert Walk(m, [1001.0], 20.0, Limit, Sell, 1004.0) == (m, 20.0);
    assert Walk(m, [1002.0, 1001.0], 20.0, Limit, Sell, 1004.0) == (m, 20.0);
    assert Walk(m, ps[1..], 20.0, Limit, Sell, 1004.0) == (m, 20.0);
  }


  /**
   * The volumes `test_match_full_order` expects after each example: bids
   * 440, 340, 340, 340 and asks 345, 345, 305, 325.
   */
  lemma FullVolumes()
    ensures Volume(FullBook1().buy) == 440.0 && Volume(FullBook1().sell) == 345.0
    ensures Volume(FullBook2().buy) == 340.0 && Volume(FullBook2().sell) == 345.0
    ensures Volume(FullBook3().buy) == 340.0 && Volume(FullBook3().sell) == 305.0
    ensures Volume(FullBook3().sell[1004.0 := [Ask(20.0, 1004.0)]]) == 325.0
  {
    FullBookLevels(FullBook());
    FullBookVolumes();
    FullVolumeSteps(FullBook().buy, FullBook().sell);
  }

  lemma FullBookLevels(b: Book)
    requires b == FullBook()
    ensures 1004.0 in b.buy && b.buy[1004.0] == [Bid(25.0, 1004.0), Bid(40.0, 1004.0)]
    ensures 1003.0 in b.buy && b.buy[1003.0] == [Bid(125.0, 1003.0)]
    ensures 1005.0 in b.sell && b.sell[1005.0] == [Ask(10.0, 1005.0)]
    ensures 1006.0 in b.sell && b.sell[1006.0] == [Ask(50.0, 1006.0)]
    ensures 1004.0 !in b.sell
  {
  }

  lemma FullVolumeSteps(bids: Levels, asks: Levels)
    requires 1004.0 in bids && bids[1004.0] == [Bid(25.0, 1004.0), Bid(40.0, 1004.0)]
    requires 1003.0 in bids && bids[1003.0] == [Bid(125.0, 1003.0)]
    requires 1005.0 in asks && asks[1005.0] == [Ask(10.0, 1005.0)]
    requires 1006.0 in asks && asks[1006.0] == [Ask(50.0, 1006.0)]
    requires 1004.0 !in asks
    requires Volume(bids) == 440.0 && Volume(asks) == 355.0
    ensures Volume(asks[1005.0 := [Ask(0.0, 1005.0)]]) == 345.0
    ensures Volume(bids[1004.0 := [Bid(0.0, 1004.0), Bid(0.0, 1004.0)]][1003.0 := [Bid(90.0, 1003.0)]]) == 340.0
    ensures Volume(asks[1005.0 := [Ask(0.0, 1005.0)]][1006.0 := [Ask(10.0, 1006.0)]]) == 305.0
    ensures Volume(asks[1005.0 := [Ask(0.0, 1005.0)]][1006.0 := [Ask(10.0, 1006.0)]][1004.0 := [Ask(20.0, 1004.0)]]) == 325.0
  {
    var a1 := asks[1005.0 := [Ask(0.0, 1005.0)]];
    SumQtyOne(Ask(10.0, 1005.0));
    SumQtyOne(Ask(0.0, 1005.0));
    VolumeReplace(asks, 1005.0, [Ask(0.0, 1005.0)]);
    var zeros := [Bid(0.0, 1004.0), Bid(0.0, 1004.0)];
    var b1 := bids[1004.0 := zeros];
    SumQtyTwo(Bid(25.0, 1004.0), Bid(40.0, 1004.0));
    SumQtyTwo(Bid(0.0, 1004.0), Bid(0.0, 1004.0));
    VolumeReplace(bids, 1004.0, zeros);
    SumQtyOne(Bid(125.0, 1003.0));
    SumQtyOne(Bid(90.0, 1003.0));
    VolumeReplace(b1, 1003.0, [Bid(90.0, 1003.0)]);
    var a2 := a1[1006.0 := [Ask(10.0, 1006.0)]];
    SumQtyOne(Ask(50.0, 1006.0));
    SumQtyOne(Ask(10.0, 1006.0));
    VolumeReplace(a1, 1006.0, [Ask(10.0, 1006.0)]);
    SumQtyOne(Ask(20.0, 1004.0));
    VolumeAddLevel(a2, 1004.0, [Ask(20.0, 1004.0)]);
  }

  lemma SumQtyOne(o: Order)
    ensures SumQty([o]) == o.quantity
  {
    assert [o][1..] == [];
  }

  lemma SumQtyTwo(o1: Order, o2: Order)
    ensures SumQty([o1, o2]) == o1.quantity + o2.quantity
  {
    assert [o1, o2][1..] == [o2];
    SumQtyOne(o2);
  }

  /** The book of `test_match_untradable_orders` once its eight orders are added. */
  function UntradableBook(): Book
  {
    Book(map[1005.0 := [Bid(15.0, 1005.0)], 1002.0 := [Bid(40.0, 1002.0)],
             1001.0 := [Bid(90.0, 1001.0)], 1000.0 := [Bid(80.0, 1000.0)]],
         map[1008.0 := [Ask(75.0, 1008.0)], 1009.0 := [Ask(60.0, 1009.0)],
             1010.0 := [Ask(30.0, 1010.0)], 1013.0 := [Ask(210.0, 1013.0)]])
  }

  /**
   * `test_match_untradable_orders`: buy 50 at limit 1007 crosses none of the
   * asks (the best is 1008), so the whole order rests as a new 1007 bid.
   */
  lemma UntradableMatch(b: Book)
    requires b == UntradableBook()
    ensures Matched(b, Bid(50.0, 1007.0), Limit) ==
      (Book(b.buy[1007.0 := [Bid(50.0, 1007.0)]], b.sell), Bid(50.0, 1007.0))
  {
    var ps := [1008.0, 1009.0, 1010.0, 1013.0];
    var o := Bid(50.0, 1007.0);
    assert ps[1..] == [1009.0, 1010.0, 1013.0];
    assert ps[1..][1..] == [1010.0, 1013.0];
    assert ps[1..][1..][1..] == [1013.0];
    assert ps[1..][1..][1..][1..] == [];
    assert Walk(b.sell, [1013.0], 50.0, Limit, Buy, 1007.0) == (b.sell, 50.0);
    assert Walk(b.sell, [1010.0, 1013.0], 50.0, Limit, Buy, 1007.0) == (b.sell, 50.0);
    assert Walk(b.sell, ps[1..], 50.0, Limit, Buy, 1007.0) == (b.sell, 50.0);
    assert Walk(b.sell, ps, 50.0, Limit, Buy, 1007.0) == (b.sell, 50.0);
    assert Inserted(b.buy, o) == b.buy[1007.0 := [o]];
    TopAsksListed(b.sell, ps);
    MatchedUnfold(b, o, Limit);
  }

  /** `test_match_untradable_orders`: the volumes 225 and 375, then a bid volume of 275 once the buy rests whole. */
  lemma UntradableBookVolumes(b: Book)
    requires b == UntradableBook()
    ensures Volume(b.buy) == 225.0 && Volume(b.sell) == 375.0
    ensures Volume(b.buy[1007.0 := [Bid(50.0, 1007.0)]]) == 275.0
  {
    assert b.buy.Keys == {1005.0, 1002.0, 1001.0, 1000.0};
    assert b.buy[1005.0] == [Bid(15.0, 1005.0)] && b.buy[1002.0] == [Bid(40.0, 1002.0)];
    assert b.buy[1001.0] == [Bid(90.0, 1001.0)] && b.buy[1000.0] == [Bid(80.0, 1000.0)];
    assert b.sell.Keys == {1008.0, 1009.0, 1010.0, 1013.0};
    assert b.sell[1008.0] == [Ask(75.0, 1008.0)] && b.sell[1009.0] == [Ask(60.0, 1009.0)];
    assert b.sell[1010.0] == [Ask(30.0, 1010.0)] && b.sell[1013.0] == [Ask(210.0, 1013.0)];
    UntradableVolumes(b.buy, b.sell);
  }

  lemma UntradableVolumes(bids: Levels, asks: Levels)
    requires bids.Keys == {1005.0, 1002.0, 1001.0, 1000.0}
    requires bids[1005.0] == [Bid(15.0, 1005.0)] && bids[1002.0] == [Bid(40.0, 1002.0)]
    requires bids[1001.0] == [Bid(90.0, 1001.0)] && bids[1000.0] == [Bid(80.0, 1000.0)]
    requires asks.Keys == {1008.0, 1009.0, 1010.0, 1013.0}
    requires asks[1008.0] == [Ask(75.0, 1008.0)] && asks[1009.0] == [Ask(60.0, 1009.0)]
    requires asks[1010.0] == [Ask(30.0, 1010.0)] && asks[1013.0] == [Ask(210.0, 1013.0)]
    ensures Volume(bids) == 225.0 && Volume(asks) == 375.0
    ensures Volume(bids[1007.0 := [Bid(50.0, 1007.0)]]) == 275.0
  {
    SumQtyOne(Bid(50.0, 1007.0));
    VolumeAddLevel(bids, 1007.0, [Bid(50.0, 1007.0)]);
    SumQtyOne(Bid(15.0, 1005.0));
    SumQtyOne(Bid(40.0, 1002.0));
    SumQtyOne(Bid(90.0, 1001.0));
    SumQtyOne(Bid(80.0, 1000.0));
    Volume4(bids, 1005.0, 1002.0, 1001.0, 1000.0);
    SumQtyOne(Ask(75.0, 1008.0));
    SumQtyOne(Ask(60.0, 1009.0));
    SumQtyOne(Ask(30.0, 1010.0));
    SumQtyOne(Ask(210.0, 1013.0));
    Volume4(asks, 1008.0, 1009.0, 1010.0, 1013.0);
  }

  /** The book of `test_match_partial_order` once its ten orders are added. */
  function PartialBook(): Book
  {
    Book(map[1004.0 := [Bid(10.0, 1004.0)], 1003.0 := [Bid(25.0, 1003.0)], 1002.0 := [Bid(50.0, 1002.0)],
             1001.0 := [Bid(40.0, 1001.0)], 1000.0 := [Bid(120.0, 1000.0)]],
         map[1005.0 := [Ask(20.0, 1005.0)], 1006.0 := [Ask(50.0, 1006.0)], 1007.0 := [Ask(30.0, 1007.0)],
             1008.0 := [Ask(100.0, 1008.0)], 1009.0 := [Ask(210.0, 1009.0)]])
  }

  /**
   * Example 1 of `test_match_partial_order`: buy 25 at limit 1005 takes the
   * 20 at 1005, skips the asks above its limit, and rests 5 as a new 1005 bid.
   */
  lemma PartialMatchLimitBuy(b: Book)
    requires b == PartialBook()
    ensures Matched(b, Bid(25.0, 1005.0), Limit) ==
      (Book(b.buy[1005.0 := [Bid(5.0, 1005.0)]], b.sell[1005.0 := [Ask(0.0, 1005.0)]]), Bid(5.0, 1005.0))
  {
    assert b.sell.Keys == {1005.0, 1006.0, 1007.0, 1008.0, 1009.0};
    assert b.sell[1005.0] == [Ask(20.0, 1005.0)];
    assert 1005.0 !in b.buy;
    PartialBuyMatch(b);
  }

  /** The limit buy of the partial-fill scenario, on any book whose asks are those levels. */
  lemma PartialBuyMatch(b: Book)
    requires b.sell.Keys == {1005.0, 1006.0, 1007.0, 1008.0, 1009.0}
    requires b.sell[1005.0] == [Ask(20.0, 1005.0)]
    requires 1005.0 !in b.buy
    ensures Matched(b, Bid(25.0, 1005.0), Limit) ==
      (Book(b.buy[1005.0 := [Bid(5.0, 1005.0)]], b.sell[1005.0 := [Ask(0.0, 1005.0)]]), Bid(5.0, 1005.0))
  {
    var ps := [1005.0, 1006.0, 1007.0, 1008.0, 1009.0];
    var o := Bid(25.0, 1005.0);
    assert Inserted(b.buy, Bid(5.0, 1005.0)) == b.buy[1005.0 := [Bid(5.0, 1005.0)]];
    TopAsksListed(b.sell, ps);
    PartialBuyWalk(b.sell);
    MatchedUnfold(b, o, Limit);
  }

  /** The ask at 1005 fills 20 of the 25; no higher ask crosses a bid at 1005. */
  lemma PartialBuyWalk(m: Levels)
    requires 1005.0 in m && m[1005.0] == [Ask(20.0, 1005.0)]
    ensures Walk(m, [1005.0, 1006.0, 1007.0, 1008.0, 1009.0], 25.0, Limit, Buy, 1005.0) ==
      (m[1005.0 := [Ask(0.0, 1005.0)]], 5.0)
  {
    var ps := [1005.0, 1006.0, 1007.0, 1008.0, 1009.0];
    ConsumeOne(Ask(20.0, 1005.0), 25.0);
    var m1 := m[1005.0 := [Ask(0.0, 1005.0)]];
    assert Step(m, 1005.0, 25.0) == (m1, 5.0);
    assert ps[1..] == [1006.0, 1007.0, 1008.0, 1009.0];
    assert ps[1..][1..] == [1007.0, 1008.0, 1009.0];
    assert ps[1..][1..][1..] == [1008.0, 1009.0];
    assert ps[1..][1..][1..][1..] == [1009.0];
    assert ps[1..][1..][1..][1..][1..] == [];
    assert Walk(m1, [1009.0], 5.0, Limit, Buy, 1005.0) == (m1, 5.0);
    assert Walk(m1, [1008.0, 1009.0], 5.0, Limit, Buy, 1005.0) == (m1, 5.0);
    assert Walk(m1, [1007.0, 1008.0, 1009.0], 5.0, Limit, Buy, 1005.0) == (m1, 5.0);
    assert Walk(m1, ps[1..], 5.0, Limit, Buy, 1005.0) == (m1, 5.0);
  }


  function PartialBook1(): Book
  {
    Book(PartialBook().buy[1005.0 := [Bid(5.0, 1005.0)]], PartialBook().sell[1005.0 := [Ask(0.0, 1005.0)]])
  }

  /**
   * Example 2 of `test_match_partial_order`: sell 100 at limit 1002. Only the
   * five best of the six bid levels are walked; 1005, 1004, 1003 and 1002
   * cross and give 90, 1001 does not, and 10 rests as a new 1002 ask.
   */
  lemma PartialMatchLimitSell(b: Book)
    requires b == PartialBook1()
    ensures Matched(b, Ask(100.0, 1002.0), Limit) ==
      (Book(b.buy[1005.0 := [Bid(0.0, 1005.0)]][1004.0 := [Bid(0.0, 1004.0)]]
                 [1003.0 := [Bid(0.0, 1003.0)]][1002.0 := [Bid(0.0, 1002.0)]],
            b.sell[1002.0 := [Ask(10.0, 1002.0)]]),
       Ask(10.0, 1002.0))
  {
    assert b.buy.Keys == {1005.0, 1004.0, 1003.0, 1002.0, 1001.0, 1000.0};
    assert b.buy[1005.0] == [Bid(5.0, 1005.0)] && b.buy[1004.0] == [Bid(10.0, 1004.0)];
    assert b.buy[1003.0] == [Bid(25.0, 1003.0)] && b.buy[1002.0] == [Bid(50.0, 1002.0)];
    assert 1002.0 !in b.sell;
    PartialSellMatch(b);
  }

  /** The limit sell of the partial-fill scenario, on any book whose bids are those levels. */
  lemma PartialSellMatch(b: Book)
    requires b.buy.Keys == {1005.0, 1004.0, 1003.0, 1002.0, 1001.0, 1000.0}
    requires b.buy[1005.0] == [Bid(5.0, 1005.0)] && b.buy[1004.0] == [Bid(10.0, 1004.0)]
    requires b.buy[1003.0] == [Bid(25.0, 1003.0)] && b.buy[1002.0] == [Bid(50.0, 1002.0)]
    requires 1002.0 !in b.sell
    ensures Matched(b, Ask(100.0, 1002.0), Limit) ==
      (Book(b.buy[1005.0 := [Bid(0.0, 1005.0)]][1004.0 := [Bid(0.0, 1004.0)]]
                 [1003.0 := [Bid(0.0, 1003.0)]][1002.0 := [Bid(0.0, 1002.0)]],
            b.sell[1002.0 := [Ask(10.0, 1002.0)]]),
       Ask(10.0, 1002.0))
  {
    var o := Ask(100.0, 1002.0);
    assert Inserted(b.sell, Ask(10.0, 1002.0)) == b.sell[1002.0 := [Ask(10.0, 1002.0)]];
    PartialTopBids(b.buy);
    PartialSellWalk(b.buy);
    MatchedUnfold(b, o, Limit);
  }


  /** Example 2 of `test_match_partial_order`: of the six bid levels only the best five are listed. */
  lemma PartialTopBids(m: Levels)
    requires m.Keys == {1005.0, 1004.0, 1003.0, 1002.0, 1001.0, 1000.0}
    ensures TopBids(m) == Some([1005.0, 1004.0, 1003.0, 1002.0, 1001.0])
  {
    var all := [1005.0, 1004.0, 1003.0, 1002.0, 1001.0, 1000.0];
    assert all[..Depth] == [1005.0, 1004.0, 1003.0, 1002.0, 1001.0];
    PartialBidKeys(m, all);
    SixDescending(all);
    TopBidsCut(m, all);
  }


  lemma PartialBidKeys(m: Levels, all: seq<Decimal>)
    requires m.Keys == {1005.0, 1004.0, 1003.0, 1002.0, 1001.0, 1000.0}
    requires all == [1005.0, 1004.0, 1003.0, 1002.0, 1001.0, 1000.0]
    ensures forall k :: k in all <==> k in m
  {
  }

  lemma SixDescending(all: seq<Decimal>)
    requires all == [1005.0, 1004.0, 1003.0, 1002.0, 1001.0, 1000.0]
    ensures StrictlyDescending(all)
  {
  }


  /** The walk of example 2 of `test_match_partial_order`, level by level. */
  lemma PartialSellWalk(m: Levels)
    requires 1005.0 in m && m[1005.0] == [Bid(5.0, 1005.0)]
    requires 1004.0 in m && m[1004.0] == [Bid(10.0, 1004.0)]
    requires 1003.0 in m && m[1003.0] == [Bid(25.0, 1003.0)]
    requires 1002.0 in m && m[1002.0] == [Bid(50.0, 1002.0)]
    ensures Walk(m, [1005.0, 1004.0, 1003.0, 1002.0, 1001.0], 100.0, Limit, Sell, 1002.0) ==
      (m[1005.0 := [Bid(0.0, 1005.0)]][1004.0 := [Bid(0.0, 1004.0)]]
        [1003.0 := [Bid(0.0, 1003.0)]][1002.0 := [Bid(0.0, 1002.0)]], 10.0)
  {
    var ps := [1005.0, 1004.0, 1003.0, 1002.0, 1001.0];
    ConsumeOne(Bid(5.0, 1005.0), 100.0);
    var m1 := m[1005.0 := [Bid(0.0, 1005.0)]];
    assert Step(m, 1005.0, 100.0) == (m1, 95.0);
    ConsumeOne(Bid(10.0, 1004.0), 95.0);
    var m2 := m1[1004.0 := [Bid(0.0, 1004.0)]];
    assert Step(m1, 1004.0, 95.0) == (m2, 85.0);
    assert ps[1..] == [1004.0, 1003.0, 1002.0, 1001.0];
    assert ps[1..][1..] == [1003.0, 1002.0, 1001.0];
    PartialSellWalkRest(m2);
  }

  /** The last two crossing bid levels of the partial-fill sell, and the level at 1001 that does not cross. */
  lemma PartialSellWalkRest(m2: Levels)
    requires 1003.0 in m2 && m2[1003.0] == [Bid(25.0, 1003.0)]
    requires 1002.0 in m2 && m2[1002.0] == [Bid(50.0, 1002.0)]
    ensures Walk(m2, [1003.0, 1002.0, 1001.0], 85.0, Limit, Sell, 1002.0) ==
      (m2[1003.0 := [Bid(0.0, 1003.0)]][1002.0 := [Bid(0.0, 1002.0)]], 10.0)
  {
    var ps := [1003.0, 1002.0, 1001.0];
    ConsumeOne(Bid(25.0, 1003.0), 85.0);
    var m3 := m2[1003.0 := [Bid(0.0, 1003.0)]];
    assert Step(m2, 1003.0, 85.0) == (m3, 60.0);
    ConsumeOne(Bid(50.0, 1002.0), 60.0);
    var m4 := m3[1002.0 := [Bid(0.0, 1002.0)]];
    assert Step(m3, 1002.0, 60.0) == (m4, 10.0);
    assert ps[1..] == [1002.0, 1001.0];
    assert ps[1..][1..] == [1001.0];
    assert ps[1..][1..][1..] == [];
    assert Walk(m4, [1001.0], 10.0, Limit, Sell, 1002.0) == (m4, 10.0);
    assert Walk(m3, [1002.0, 1001.0], 60.0, Limit, Sell, 1002.0) == (m4, 10.0);
  }


  function PartialBook2(): Book
  {
    Book(PartialBook1().buy[1005.0 := [Bid(0.0, 1005.0)]][1004.0 := [Bid(0.0, 1004.0)]]
                           [1003.0 := [Bid(0.0, 1003.0)]][1002.0 := [Bid(0.0, 1002.0)]],
         PartialBook1().sell[1002.0 := [Ask(10.0, 1002.0)]])
  }

  /** Example 3 of `test_match_partial_order`: the market price for a buy is the resting 1002 ask. */
  lemma PartialMarketPrice(b: Book)
    requires b == PartialBook2()
    ensures MarketPrice(b, Buy) == Some(1002.0)
  {
    BestAskIs(b.sell, 1002.0);
  }

  /** An ask price at most every other is the best ask. */
  lemma BestAskIs(m: Levels, p: Decimal)
    requires p in m && forall k :: k in m ==> p <= k
    ensures BestAsk(m) == Some(p)
  {
  }

  /**
   * Example 3 of `test_match_partial_order`: buy 30 at market takes the 10
   * at 1002, passes the emptied 1005 ask, and takes 20 of the 50 at 1006.
   */
  lemma PartialMatchMarketBuy(b: Book)
    requires b == PartialBook2()
    ensures Matched(b, Bid(30.0, 1002.0), Market) ==
      (Book(b.buy, b.sell[1002.0 := [Ask(0.0, 1002.0)]][1006.0 := [Ask(30.0, 1006.0)]]), Bid(0.0, 1002.0))
  {
    assert b.sell.Keys == {1002.0, 1005.0, 1006.0, 1007.0, 1008.0, 1009.0};
    assert b.sell[1002.0] == [Ask(10.0, 1002.0)] && b.sell[1005.0] == [Ask(0.0, 1005.0)];
    assert b.sell[1006.0] == [Ask(50.0, 1006.0)];
    PartialMarketMatch(b);
  }

  /** The market buy of the partial-fill scenario, on any book whose asks are those levels. */
  lemma PartialMarketMatch(b: Book)
    requires b.sell.Keys == {1002.0, 1005.0, 1006.0, 1007.0, 1008.0, 1009.0}
    requires b.sell[1002.0] == [Ask(10.0, 1002.0)] && b.sell[1005.0] == [Ask(0.0, 1005.0)]
    requires b.sell[1006.0] == [Ask(50.0, 1006.0)]
    ensures Matched(b, Bid(30.0, 1002.0), Market) ==
      (Book(b.buy, b.sell[1002.0 := [Ask(0.0, 1002.0)]][1006.0 := [Ask(30.0, 1006.0)]]), Bid(0.0, 1002.0))
  {
    PartialTopAsks(b.sell);
    PartialMarketWalk(b.sell);
    MatchedUnfold(b, Bid(30.0, 1002.0), Market);
  }

  lemma PartialTopAsks(m: Levels)
    requires m.Keys == {1002.0, 1005.0, 1006.0, 1007.0, 1008.0, 1009.0}
    ensures TopAsks(m) == Some([1002.0, 1005.0, 1006.0, 1007.0, 1008.0])
  {
    var all := [1002.0, 1005.0, 1006.0, 1007.0, 1008.0, 1009.0];
    assert all[..Depth] == [1002.0, 1005.0, 1006.0, 1007.0, 1008.0];
    assert forall k :: k in all <==> k in m;
    assert StrictlyAscending(all);
    TopAsksCut(m, all);
  }

  /** 10 from the ask at 1002, nothing from the empty order at 1005, the last 20 from 1006. */
  lemma PartialMarketWalk(m: Levels)
    requires 1002.0 in m && 1005.0 in m && 1006.0 in m
    requires m[1002.0] == [Ask(10.0, 1002.0)] && m[1005.0] == [Ask(0.0, 1005.0)]
    requires m[1006.0] == [Ask(50.0, 1006.0)]
    ensures Walk(m, [1002.0, 1005.0, 1006.0, 1007.0, 1008.0], 30.0, Market, Buy, 1002.0) ==
      (m[1002.0 := [Ask(0.0, 1002.0)]][1006.0 := [Ask(30.0, 1006.0)]], 0.0)
  {
    var ps := [1002.0, 1005.0, 1006.0, 1007.0, 1008.0];
    ConsumeOne(Ask(10.0, 1002.0), 30.0);
    var m1 := m[1002.0 := [Ask(0.0, 1002.0)]];
    assert Step(m, 1002.0, 30.0) == (m1, 20.0);
    ConsumeOne(Ask(0.0, 1005.0), 20.0);
    assert m1[1005.0 := [Ask(0.0, 1005.0)]] == m1;
    assert Step(m1, 1005.0, 20.0) == (m1, 20.0);
    ConsumeOne(Ask(50.0, 1006.0), 20.0);
    var m2 := m1[1006.0 := [Ask(30.0, 1006.0)]];
    assert Step(m1, 1006.0, 20.0) == (m2, 0.0);
    assert ps[1..] == [1005.0, 1006.0, 1007.0, 1008.0];
    assert ps[1..][1..] == [1006.0, 1007.0, 1008.0];
    assert Walk(m1, ps[1..][1..], 20.0, Market, Buy, 1002.0) == (m2, 0.0);
    assert Walk(m1, ps[1..], 20.0, Market, Buy, 1002.0) == (m2, 0.0);
  }

  /** `test_match_partial_order`: the bid and ask volumes before and after each of its three matches. */
  lemma PartialVolumes(b: Book)
    requires b == PartialBook()
    ensures Volume(b.buy) == 245.0 && Volume(b.sell) == 410.0
    ensures Volume(PartialBook1().buy) == 250.0 && Volume(PartialBook1().sell) == 390.0
    ensures Volume(PartialBook2().buy) == 160.0 && Volume(PartialBook2().sell) == 400.0
    ensures Volume(PartialBook2().sell[1002.0 := [Ask(0.0, 1002.0)]][1006.0 := [Ask(30.0, 1006.0)]]) == 370.0
  {
    assert b.buy.Keys == {1004.0, 1003.0, 1002.0, 1001.0, 1000.0};
    assert b.buy[1004.0] == [Bid(10.0, 1004.0)] && b.buy[1003.0] == [Bid(25.0, 1003.0)];
    assert b.buy[1002.0] == [Bid(50.0, 1002.0)] && b.buy[1001.0] == [Bid(40.0, 1001.0)];
    assert b.buy[1000.0] == [Bid(120.0, 1000.0)];
    assert b.sell.Keys == {1005.0, 1006.0, 1007.0, 1008.0, 1009.0};
    assert b.sell[1005.0] == [Ask(20.0, 1005.0)] && b.sell[1006.0] == [Ask(50.0, 1006.0)];
    assert b.sell[1007.0] == [Ask(30.0, 1007.0)] && b.sell[1008.0] == [Ask(100.0, 1008.0)];
    assert b.sell[1009.0] == [Ask(210.0, 1009.0)];
    PartialBidVolumes(b.buy);
    PartialAskVolumes(b.sell);
  }

  lemma PartialBidVolumes(bids: Levels)
    requires bids.Keys == {1004.0, 1003.0, 1002.0, 1001.0, 1000.0}
    requires bids[1004.0] == [Bid(10.0, 1004.0)] && bids[1003.0] == [Bid(25.0, 1003.0)]
    requires bids[1002.0] == [Bid(50.0, 1002.0)] && bids[1001.0] == [Bid(40.0, 1001.0)]
    requires bids[1000.0] == [Bid(120.0, 1000.0)]
    ensures Volume(bids) == 245.0
    ensures Volume(bids[1005.0 := [Bid(5.0, 1005.0)]]) == 250.0
    ensures Volume(bids[1005.0 := [Bid(5.0, 1005.0)]][1005.0 := [Bid(0.0, 1005.0)]][1004.0 := [Bid(0.0, 1004.0)]]
                       [1003.0 := [Bid(0.0, 1003.0)]][1002.0 := [Bid(0.0, 1002.0)]]) == 160.0
  {
    assert 1005.0 !in bids && 1004.0 in bids && 1003.0 in bids && 1002.0 in bids;
    PartialBidSteps(bids);
    PartialBidTotal(bids);
  }

  /** The bid-side volume changes of the partial-fill scenario, relative to the first book. */
  lemma PartialBidSteps(bids: Levels)
    requires 1005.0 !in bids && 1004.0 in bids && 1003.0 in bids && 1002.0 in bids
    requires bids[1004.0] == [Bid(10.0, 1004.0)] && bids[1003.0] == [Bid(25.0, 1003.0)]
    requires bids[1002.0] == [Bid(50.0, 1002.0)]
    ensures Volume(bids[1005.0 := [Bid(5.0, 1005.0)]]) == Volume(bids) + 5.0
    ensures Volume(bids[1005.0 := [Bid(5.0, 1005.0)]][1005.0 := [Bid(0.0, 1005.0)]][1004.0 := [Bid(0.0, 1004.0)]]
                       [1003.0 := [Bid(0.0, 1003.0)]][1002.0 := [Bid(0.0, 1002.0)]]) == Volume(bids) - 85.0
  {
    var b1 := bids[1005.0 := [Bid(5.0, 1005.0)]];
    var c1 := b1[1005.0 := [Bid(0.0, 1005.0)]];
    VolumeAddOne(bids, Bid(5.0, 1005.0));
    VolumeReplaceOne(b1, Bid(5.0, 1005.0), Bid(0.0, 1005.0));
    PartialBidSweep(c1);
  }

  /** Emptying the levels 1004, 1003 and 1002 removes their 85 units. */
  lemma PartialBidSweep(c1: Levels)
    requires 1004.0 in c1 && 1003.0 in c1 && 1002.0 in c1
    requires c1[1004.0] == [Bid(10.0, 1004.0)] && c1[1003.0] == [Bid(25.0, 1003.0)]
    requires c1[1002.0] == [Bid(50.0, 1002.0)]
    ensures Volume(c1[1004.0 := [Bid(0.0, 1004.0)]][1003.0 := [Bid(0.0, 1003.0)]][1002.0 := [Bid(0.0, 1002.0)]])
            == Volume(c1) - 85.0
  {
    VolumeReplaceOne(c1, Bid(10.0, 1004.0), Bid(0.0, 1004.0));
    PartialBidSweepRest(c1[1004.0 := [Bid(0.0, 1004.0)]]);
  }

  lemma PartialBidSweepRest(c2: Levels)
    requires 1003.0 in c2 && 1002.0 in c2
    requires c2[1003.0] == [Bid(25.0, 1003.0)] && c2[1002.0] == [Bid(50.0, 1002.0)]
    ensures Volume(c2[1003.0 := [Bid(0.0, 1003.0)]][1002.0 := [Bid(0.0, 1002.0)]]) == Volume(c2) - 75.0
  {
    VolumeReplaceOne(c2, Bid(25.0, 1003.0), Bid(0.0, 1003.0));
    VolumeReplaceOne(c2[1003.0 := [Bid(0.0, 1003.0)]], Bid(50.0, 1002.0), Bid(0.0, 1002.0));
  }




  /** A new level of one order raises the volume by that order's quantity. */
  lemma VolumeAddOne(m: Levels, o: Order)
    requires o.price !in m
    ensures Volume(m[o.price := [o]]) == Volume(m) + o.quantity
  {
    SumQtyOne(o);
    VolumeAddLevel(m, o.price, [o]);
  }

  /** Replacing a level of one order by another of one order moves the volume by the difference. */
  lemma VolumeReplaceOne(m: Levels, o: Order, o': Order)
    requires o.price in m && m[o.price] == [o] && o'.price == o.price
    ensures Volume(m[o.price := [o']]) == Volume(m) - o.quantity + o'.quantity
  {
    SumQtyOne(o);
    SumQtyOne(o');
    VolumeReplace(m, o.price, [o']);
  }

  lemma PartialBidTotal(bids: Levels)
    requires bids.Keys == {1004.0, 1003.0, 1002.0, 1001.0, 1000.0}
    requires bids[1004.0] == [Bid(10.0, 1004.0)] && bids[1003.0] == [Bid(25.0, 1003.0)]
    requires bids[1002.0] == [Bid(50.0, 1002.0)] && bids[1001.0] == [Bid(40.0, 1001.0)]
    requires bids[1000.0] == [Bid(120.0, 1000.0)]
    ensures Volume(bids) == 245.0
  {
    SumQtyOne(Bid(10.0, 1004.0));
    SumQtyOne(Bid(25.0, 1003.0));
    SumQtyOne(Bid(50.0, 1002.0));
    SumQtyOne(Bid(40.0, 1001.0));
    SumQtyOne(Bid(120.0, 1000.0));
    Volume5(bids, 1004.0, 1003.0, 1002.0, 1001.0, 1000.0);
  }

  /** The ask volumes `test_match_partial_order` expects: 410, then 390, 400 and 370. */
  lemma PartialAskVolumes(asks: Levels)
    requires asks.Keys == {1005.0, 1006.0, 1007.0, 1008.0, 1009.0}
    requires asks[1005.0] == [Ask(20.0, 1005.0)] && asks[1006.0] == [Ask(50.0, 1006.0)]
    requires asks[1007.0] == [Ask(30.0, 1007.0)] && asks[1008.0] == [Ask(100.0, 1008.0)]
    requires asks[1009.0] == [Ask(210.0, 1009.0)]
    ensures Volume(asks) == 410.0
    ensures Volume(asks[1005.0 := [Ask(0.0, 1005.0)]]) == 390.0
    ensures Volume(asks[1005.0 := [Ask(0.0, 1005.0)]][1002.0 := [Ask(10.0, 1002.0)]]) == 400.0
    ensures Volume(asks[1005.0 := [Ask(0.0, 1005.0)]][1002.0 := [Ask(10.0, 1002.0)]]
                       [1002.0 := [Ask(0.0, 1002.0)]][1006.0 := [Ask(30.0, 1006.0)]]) == 370.0
  {
    assert 1005.0 in asks && 1006.0 in asks && 1002.0 !in asks;
    PartialAskSteps(asks);
    PartialAskTotal(asks);
  }

  /** The ask-side volume changes of the partial-fill scenario, relative to the first book. */
  lemma PartialAskSteps(asks: Levels)
    requires 1005.0 in asks && 1006.0 in asks && 1002.0 !in asks
    requires asks[1005.0] == [Ask(20.0, 1005.0)] && asks[1006.0] == [Ask(50.0, 1006.0)]
    ensures Volume(asks[1005.0 := [Ask(0.0, 1005.0)]]) == Volume(asks) - 20.0
    ensures Volume(asks[1005.0 := [Ask(0.0, 1005.0)]][1002.0 := [Ask(10.0, 1002.0)]]) == Volume(asks) - 10.0
    ensures Volume(asks[1005.0 := [Ask(0.0, 1005.0)]][1002.0 := [Ask(10.0, 1002.0)]]
                       [1002.0 := [Ask(0.0, 1002.0)]][1006.0 := [Ask(30.0, 1006.0)]]) == Volume(asks) - 40.0
  {
    var a1 := asks[1005.0 := [Ask(0.0, 1005.0)]];
    VolumeReplaceOne(asks, Ask(20.0, 1005.0), Ask(0.0, 1005.0));
    VolumeAddOne(a1, Ask(10.0, 1002.0));
    PartialAskSweep(a1[1002.0 := [Ask(10.0, 1002.0)]]);
  }

  /** The market buy takes 10 at 1002 and 20 at 1006. */
  lemma PartialAskSweep(a2: Levels)
    requires 1002.0 in a2 && 1006.0 in a2
    requires a2[1002.0] == [Ask(10.0, 1002.0)] && a2[1006.0] == [Ask(50.0, 1006.0)]
    ensures Volume(a2[1002.0 := [Ask(0.0, 1002.0)]][1006.0 := [Ask(30.0, 1006.0)]]) == Volume(a2) - 30.0
  {
    VolumeReplaceOne(a2, Ask(10.0, 1002.0), Ask(0.0, 1002.0));
    VolumeReplaceOne(a2[1002.0 := [Ask(0.0, 1002.0)]], Ask(50.0, 1006.0), Ask(30.0, 1006.0));
  }

  lemma PartialAskTotal(asks: Levels)
    requires asks.Keys == {1005.0, 1006.0, 1007.0, 1008.0, 1009.0}
    requires asks[1005.0] == [Ask(20.0, 1005.0)] && asks[1006.0] == [Ask(50.0, 1006.0)]
    requires asks[1007.0] == [Ask(30.0, 1007.0)] && asks[1008.0] == [Ask(100.0, 1008.0)]
    requires asks[1009.0] == [Ask(210.0, 1009.0)]
    ensures Volume(asks) == 410.0
  {
    SumQtyOne(Ask(20.0, 1005.0));
    SumQtyOne(Ask(50.0, 1006.0));
    SumQtyOne(Ask(30.0, 1007.0));
    SumQtyOne(Ask(100.0, 1008.0));
    SumQtyOne(Ask(210.0, 1009.0));
    Volume5(asks, 1005.0, 1006.0, 1007.0, 1008.0, 1009.0);
  }


  /** A side with one price level holds exactly that level's total. */
  lemma Volume1(m: Levels, p1: Decimal)
    requires m.Keys == {p1}
    ensures Volume(m) == SumQty(m[p1])
  {
    VolumeIsLevelSum(m);
    VolumeOverSplit(m, m.Keys, p1);
    assert m.Keys - {p1} == {};
  }

  /** Removing one level of a side and adding it back leaves its volume plus that level's total. */
  lemma VolumePeel(m: Levels, p1: Decimal)
    requires p1 in m
    ensures Volume(m) == SumQty(m[p1]) + Volume(m - {p1})
  {
    var rest := m - {p1};
    assert m == rest[p1 := m[p1]];
    VolumeAddLevel(rest, p1, m[p1]);
  }

  lemma Volume2(m: Levels, p1: Decimal, p2: Decimal)
    requires m.Keys == {p1, p2} && p1 != p2
    ensures Volume(m) == SumQty(m[p1]) + SumQty(m[p2])
  {
    var rest := m - {p1};
    assert rest.Keys == {p2};
    VolumePeel(m, p1);
    Volume1(rest, p2);
  }

  lemma Volume3(m: Levels, p1: Decimal, p2: Decimal, p3: Decimal)
    requires m.Keys == {p1, p2, p3} && p1 != p2 && p1 != p3 && p2 != p3
    ensures Volume(m) == SumQty(m[p1]) + SumQty(m[p2]) + SumQty(m[p3])
  {
    var rest := m - {p1};
    assert rest.Keys == {p2, p3};
    VolumePeel(m, p1);
    Volume2(rest, p2, p3);
  }

  lemma Volume4(m: Levels, p1: Decimal, p2: Decimal, p3: Decimal, p4: Decimal)
    requires m.Keys == {p1, p2, p3, p4}
    requires p1 != p2 && p1 != p3 && p1 != p4 && p2 != p3 && p2 != p4 && p3 != p4
    ensures Volume(m) == SumQty(m[p1]) + SumQty(m[p2]) + SumQty(m[p3]) + SumQty(m[p4])
  {
    var rest := m - {p1};
    assert rest.Keys == {p2, p3, p4};
    VolumePeel(m, p1);
    Volume3(rest, p2, p3, p4);
  }

  lemma Volume5(m: Levels, p1: Decimal, p2: Decimal, p3: Decimal, p4: Decimal, p5: Decimal)
    requires m.Keys == {p1, p2, p3, p4, p5}
    requires p1 != p2 && p1 != p3 && p1 != p4 && p1 != p5
    requires p2 != p3 && p2 != p4 && p2 != p5 && p3 != p4 && p3 != p5 && p4 != p5
    ensures Volume(m) == SumQty(m[p1]) + SumQty(m[p2]) + SumQty(m[p3]) + SumQty(m[p4]) + SumQty(m[p5])
  {
    var rest := m - {p1};
    assert rest.Keys == {p2, p3, p4, p5};
    VolumePeel(m, p1);
    Volume4(rest, p2, p3, p4, p5);
  }
}
