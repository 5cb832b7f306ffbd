/**
 * The matching rules of the order book as functions on values: intra-level
 * FIFO consumption (`execute_match`), the bounded-depth walk over the best
 * opposite price levels shared by market and limit orders, and the complete
 * effect of `match_market_order` / `match_limit_order` on a book, with the
 * properties they promise.
 */
module Matching {
  import opened Orders
  import opened Keys
  import opened Levels

  // ---------------------------------------------------------------------------
  // Intra-level consumption
  // ---------------------------------------------------------------------------

  /**
   * What `execute_match` does to one price level and the incoming quantity `q`:
   * resting orders are visited oldest first; one smaller than what is left is
   * zeroed and the walk goes on; one equal to it is zeroed and the walk stops;
   * one larger is reduced by it and the walk stops. Zeroed orders stay in place.
   * Returns the new level and the incoming quantity left over.
   */
  function Consumed(level: seq<Order>, q: Decimal): (r: (seq<Order>, Decimal))
    ensures |r.0| == |level|
    decreases |level|
  {
    if level == [] then ([], q)
    else
      var o := level[0];
      if o.quantity < q then
        var rest := Consumed(level[1..], q - o.quantity);
        ([WithQuantity(o, 0.0)] + rest.0, rest.1)
      else if o.quantity == q then
        ([WithQuantity(o, 0.0)] + level[1..], 0.0)
      else
        ([WithQuantity(o, o.quantity - q)] + level[1..], 0.0)
  }

  /** Consumption changes quantities only: every order keeps its price and side. */
  lemma {:induction false} ConsumedKeepsOrders(level: seq<Order>, q: Decimal)
    ensures forall i :: 0 <= i < |level| ==>
              Consumed(level, q).0[i].price == level[i].price && Consumed(level, q).0[i].side == level[i].side
    decreases |level|
  {
    if level != [] && level[0].quantity < q {
      ConsumedKeepsOrders(level[1..], q - level[0].quantity);
    }
  }

  /** The sum of the first `i` orders, seen from the second order on. */
  lemma PrefixSumCons(level: seq<Order>, i: nat)
    requires 1 <= i <= |level|
    ensures SumQty(level[..i]) == level[0].quantity + SumQty(level[1..][..i - 1])
  {
    assert level[..i][1..] == level[1..][..i - 1];
  }

  /**
   * The index at which consumption stops: the first resting order whose
   * quantity covers what is left of `q` after the orders before it, or
   * `|level|` when there is none.
   */
  function FillIndex(level: seq<Order>, q: Decimal): (k: nat)
    ensures k <= |level|
    decreases |level|
  {
    if level == [] then 0
    else if level[0].quantity < q then 1 + FillIndex(level[1..], q - level[0].quantity)
    else 0
  }

  /**
   * The fill index is the first order whose quantity covers what is left of
   * `q` after the orders before it: every order before it falls short.
   */
  lemma {:induction false} FillIndexFirstCover(level: seq<Order>, q: Decimal)
    ensures var k := FillIndex(level, q);
      && (forall i :: 0 <= i < k ==> level[i].quantity < q - SumQty(level[..i]))
      && (k < |level| ==> level[k].quantity >= q - SumQty(level[..k]))
    decreases |level|
  {
    assert level[..0] == [];
    if level != [] && level[0].quantity < q {
      var q' := q - level[0].quantity;
      var k' := FillIndex(level[1..], q');
      FillIndexFirstCover(level[1..], q');
      forall i | 1 <= i <= k' + 1 && i <= |level| {
        PrefixSumCons(level, i);
      }
      forall i | 1 <= i < k' + 1
        ensures level[i].quantity < q - SumQty(level[..i])
      {
        assert level[i] == level[1..][i - 1];
      }
      if k' + 1 < |level| {
        assert level[k' + 1] == level[1..][k'];
      }
    }
  }

  /**
   * FIFO: with k the fill index, the orders before k are zeroed and the
   * orders after k are untouched.
   */
  lemma {:induction false} ConsumedFifo(level: seq<Order>, q: Decimal)
    ensures var r := Consumed(level, q); var k := FillIndex(level, q);
      && (forall i :: 0 <= i < k ==> r.0[i] == WithQuantity(level[i], 0.0))
      && (forall i :: k < i < |level| ==> r.0[i] == level[i])
    decreases |level|
  {
    if level != [] && level[0].quantity < q {
      var q' := q - level[0].quantity;
      ConsumedFifo(level[1..], q');
      var r := Consumed(level, q);
      var rest := Consumed(level[1..], q');
      assert r.0 == [WithQuantity(level[0], 0.0)] + rest.0;
      assert forall i :: 1 <= i < |level| ==> r.0[i] == rest.0[i - 1] && level[i] == level[1..][i - 1];
    }
  }

  /**
   * Where consumption stops: order k (if any) is reduced by what was left of
   * the incoming quantity when it was reached, and the incoming quantity ends
   * at 0; when the whole level was consumed it ends at q - level total.
   */
  lemma {:induction false} ConsumedStop(level: seq<Order>, q: Decimal)
    ensures var r := Consumed(level, q); var k := FillIndex(level, q);
      && (k < |level| ==>
            r.1 == 0.0 && r.0[k] == WithQuantity(level[k], level[k].quantity - (q - SumQty(level[..k]))))
      && (k == |level| ==> r.1 == q - SumQty(level))
    decreases |level|
  {
    if level != [] {
      assert level[..0] == [];
      if level[0].quantity < q {
        var q' := q - level[0].quantity;
        ConsumedStop(level[1..], q');
        var k' := FillIndex(level[1..], q');
        var r := Consumed(level, q);
        var rest := Consumed(level[1..], q');
        assert r.0 == [WithQuantity(level[0], 0.0)] + rest.0;
        assert FillIndex(level, q) == k' + 1;
        if k' < |level| - 1 {
          PrefixSumCons(level, k' + 1);
          var left := q' - SumQty(level[1..][..k']);
          assert q - SumQty(level[..k' + 1]) == left;
          assert rest.0[k'] == WithQuantity(level[1..][k'], level[1..][k'].quantity - left);
          assert r.0[k' + 1] == rest.0[k'];
        } else {
          assert level[1..] == level[1..][..k'];
        }
      } else {
        assert FillIndex(level, q) == 0;
      }
    }
  }

  /** Conservation: the level total drops by exactly what the incoming order fills. */
  lemma {:induction false} ConsumedConserves(level: seq<Order>, q: Decimal)
    ensures SumQty(level) - SumQty(Consumed(level, q).0) == q - Consumed(level, q).1
    decreases |level|
  {
    if level != [] {
      var o := level[0];
      var r := Consumed(level, q);
      assert r.0[1..] == (if o.quantity < q then Consumed(level[1..], q - o.quantity).0 else level[1..]);
      if o.quantity < q {
        ConsumedConserves(level[1..], q - o.quantity);
      }
    }
  }

  /**
   * With non-negative quantities the incoming quantity left over is
   * max(0, q - level total), never negative, and the level stays non-negative.
   */
  lemma {:induction false} ConsumedLeftOver(level: seq<Order>, q: Decimal)
    requires NonNegativeLevel(level) && q >= 0.0
    ensures var r := Consumed(level, q);
      && r.1 == (if q - SumQty(level) > 0.0 then q - SumQty(level) else 0.0)
      && NonNegativeLevel(r.0)
    decreases |level|
  {
    if level != [] {
      var o := level[0];
      var r := Consumed(level, q);
      assert NonNegativeLevel(level[1..]);
      SumQtyNonNegative(level[1..]);
      if o.quantity < q {
        ConsumedLeftOver(level[1..], q - o.quantity);
        var rest := Consumed(level[1..], q - o.quantity);
        assert r.0 == [WithQuantity(o, 0.0)] + rest.0;
      }
    }
  }

  /** A level holding only zeroed orders fills nothing and stays as it is. */
  lemma {:induction false} ConsumedZeroLevel(level: seq<Order>, q: Decimal)
    requires forall i :: 0 <= i < |level| ==> level[i].quantity == 0.0
    requires q >= 0.0
    ensures Consumed(level, q) == (level, q)
    decreases |level|
  {
    if level != [] {
      if 0.0 < q {
        ConsumedZeroLevel(level[1..], q);
      }
      assert level == [WithQuantity(level[0], 0.0)] + level[1..];
    }
  }

  // ---------------------------------------------------------------------------
  // The bounded-depth walk over the best opposite levels
  // ---------------------------------------------------------------------------

  /** The two matching entry points differ only in which levels they accept. */
  datatype Kind = Market | Limit

  /**
   * Price priority for an incoming order of side `side`: price `p` is served
   * before price `p'` (asks from the lowest up for a buy, bids from the
   * highest down for a sell).
   */
  predicate Ahead(side: Side, p: Decimal, p': Decimal)
  {
    match side
    case Buy => p < p'
    case Sell => p > p'
  }

  /**
   * Whether a level at price `level` may be consumed by an incoming order of
   * side `side` and price `limit`: a market order takes any level, a buy limit
   * takes asks at or below its price, a sell limit bids at or above it.
   */
  predicate Crosses(kind: Kind, side: Side, limit: Decimal, level: Decimal)
  {
    match kind
    case Market => true
    case Limit =>
      match side
      case Buy => limit >= level
      case Sell => limit <= level
  }

  /**
   * The crossing test is inclusive: a limit order takes the level at its own
   * price and every level ahead of it in price priority, and no other.
   */
  lemma CrossesAtOrBetter(kind: Kind, side: Side, limit: Decimal, level: Decimal)
    ensures Crosses(kind, side, limit, level) <==>
              kind == Market || level == limit || Ahead(side, level, limit)
  {
  }

  /** Run `execute_match` on the level at price `p`, when there is one. */
  function Step(opp: Levels, p: Decimal, q: Decimal): (r: (Levels, Decimal))
    ensures r.0.Keys == opp.Keys
  {
    if p in opp then
      var c := Consumed(opp[p], q);
      (opp[p := c.0], c.1)
    else (opp, q)
  }

  /**
   * The loop of both matchers: visit `prices` in order; consume each level
   * that crosses; stop as soon as nothing is left to fill.
   */
  function Walk(opp: Levels, prices: seq<Decimal>, q: Decimal, kind: Kind, side: Side, limit: Decimal)
    : (r: (Levels, Decimal))
    ensures r.0.Keys == opp.Keys
    decreases |prices|
  {
    if prices == [] then (opp, q)
    else if !Crosses(kind, side, limit, prices[0]) then
      Walk(opp, prices[1..], q, kind, side, limit)
    else
      var s := Step(opp, prices[0], q);
      if s.1 == 0.0 then s else Walk(s.0, prices[1..], s.1, kind, side, limit)
  }

  /** Only the listed levels that cross are touched. */
  lemma {:induction false} WalkFrame(opp: Levels, prices: seq<Decimal>, q: Decimal, kind: Kind, side: Side, limit: Decimal)
    ensures forall p :: p in opp && (p !in prices || !Crosses(kind, side, limit, p)) ==>
              Walk(opp, prices, q, kind, side, limit).0[p] == opp[p]
    decreases |prices|
  {
    if prices != [] {
      var s := Step(opp, prices[0], q);
      WalkFrame(opp, prices[1..], q, kind, side, limit);
      WalkFrame(s.0, prices[1..], s.1, kind, side, limit);
      forall p | p in opp && (p !in prices || !Crosses(kind, side, limit, p))
        ensures Walk(opp, prices, q, kind, side, limit).0[p] == opp[p]
      {
        assert p !in prices[1..] || !Crosses(kind, side, limit, p);
        assert Crosses(kind, side, limit, prices[0]) ==> p != prices[0];
      }
    }
  }

  /** The opposite side loses exactly the quantity the incoming order filled. */
  lemma {:induction false} WalkConserves(opp: Levels, prices: seq<Decimal>, q: Decimal, kind: Kind, side: Side, limit: Decimal)
    ensures var r := Walk(opp, prices, q, kind, side, limit);
      Volume(r.0) == Volume(opp) - (q - r.1)
    decreases |prices|
  {
    if prices != [] {
      var p := prices[0];
      if !Crosses(kind, side, limit, p) {
        WalkConserves(opp, prices[1..], q, kind, side, limit);
      } else {
        var s := Step(opp, p, q);
        if p in opp {
          ConsumedConserves(opp[p], q);
          VolumeReplace(opp, p, Consumed(opp[p], q).0);
        }
        assert Volume(s.0) == Volume(opp) - (q - s.1);
        if s.1 != 0.0 {
          WalkConserves(s.0, prices[1..], s.1, kind, side, limit);
        }
      }
    }
  }

  /** Two sides with the same prices, level lengths, and order prices and sides. */
  predicate SameShape(m: Levels, m': Levels)
  {
    && m'.Keys == m.Keys
    && forall p :: p in m ==>
         && |m'[p]| == |m[p]|
         && forall i :: 0 <= i < |m[p]| ==> m'[p][i].price == m[p][i].price && m'[p][i].side == m[p][i].side
  }

  lemma SameShapeTransitive(a: Levels, b: Levels, c: Levels)
    requires SameShape(a, b) && SameShape(b, c)
    ensures SameShape(a, c)
  {
  }

  lemma SameShapeWellFormed(m: Levels, m': Levels, side: Side)
    requires SameShape(m, m') && WellFormed(m, side)
    ensures WellFormed(m', side)
  {
  }

  /** The walk keeps every level's length, prices and sides: only quantities change. */
  lemma {:induction false} WalkKeepsShape(opp: Levels, prices: seq<Decimal>, q: Decimal, kind: Kind, side: Side, limit: Decimal)
    ensures SameShape(opp, Walk(opp, prices, q, kind, side, limit).0)
    decreases |prices|
  {
    if prices != [] {
      var p := prices[0];
      if !Crosses(kind, side, limit, p) {
        WalkKeepsShape(opp, prices[1..], q, kind, side, limit);
      } else {
        var s := Step(opp, p, q);
        if p in opp {
          ConsumedKeepsOrders(opp[p], q);
        }
        assert SameShape(opp, s.0);
        if s.1 != 0.0 {
          WalkKeepsShape(s.0, prices[1..], s.1, kind, side, limit);
          SameShapeTransitive(opp, s.0, Walk(s.0, prices[1..], s.1, kind, side, limit).0);
        }
      }
    }
  }

  /**
   * With non-negative quantities the walk leaves the side non-negative and
   * the incoming quantity between 0 and where it started.
   */
  lemma {:induction false} WalkNonNegative(opp: Levels, prices: seq<Decimal>, q: Decimal, kind: Kind, side: Side, limit: Decimal)
    requires NonNegative(opp) && q >= 0.0
    ensures var r := Walk(opp, prices, q, kind, side, limit);
      NonNegative(r.0) && 0.0 <= r.1 <= q
    decreases |prices|
  {
    if prices != [] {
      var p := prices[0];
      if !Crosses(kind, side, limit, p) {
        WalkNonNegative(opp, prices[1..], q, kind, side, limit);
      } else {
        var s := Step(opp, p, q);
        if p in opp {
          assert NonNegativeLevel(opp[p]);
          ConsumedLeftOver(opp[p], q);
          SumQtyNonNegative(opp[p]);
        }
        assert NonNegative(s.0) && 0.0 <= s.1 <= q;
        if s.1 != 0.0 {
          WalkNonNegative(s.0, prices[1..], s.1, kind, side, limit);
        }
      }
    }
  }

  /** A walk over levels none of which cross leaves everything as it was. */
  lemma {:induction false} WalkNoCross(opp: Levels, prices: seq<Decimal>, q: Decimal, kind: Kind, side: Side, limit: Decimal)
    requires forall i :: 0 <= i < |prices| ==> !Crosses(kind, side, limit, prices[i])
    ensures Walk(opp, prices, q, kind, side, limit) == (opp, q)
    decreases |prices|
  {
    if prices != [] {
      assert !Crosses(kind, side, limit, prices[0]);
      WalkNoCross(opp, prices[1..], q, kind, side, limit);
    }
  }

  /** No price is listed twice. */
  predicate Distinct(xs: seq<Decimal>)
  {
    forall i, j :: 0 <= i < j < |xs| ==> xs[i] != xs[j]
  }

  /** The total resting quantity at the listed prices whose levels cross. */
  function CrossTotal(opp: Levels, prices: seq<Decimal>, kind: Kind, side: Side, limit: Decimal): Decimal
    decreases |prices|
  {
    if prices == [] then 0.0
    else
      var p := prices[0];
      (if p in opp && Crosses(kind, side, limit, p) then SumQty(opp[p]) else 0.0)
        + CrossTotal(opp, prices[1..], kind, side, limit)
  }

  lemma {:induction false} CrossTotalNonNegative(opp: Levels, prices: seq<Decimal>, kind: Kind, side: Side, limit: Decimal)
    requires NonNegative(opp)
    ensures CrossTotal(opp, prices, kind, side, limit) >= 0.0
    decreases |prices|
  {
    if prices != [] {
      if prices[0] in opp {
        assert NonNegativeLevel(opp[prices[0]]);
        SumQtyNonNegative(opp[prices[0]]);
      }
      CrossTotalNonNegative(opp, prices[1..], kind, side, limit);
    }
  }

  /** The cross total does not depend on a level that is not listed. */
  lemma {:induction false} CrossTotalReplace(opp: Levels, prices: seq<Decimal>, p: Decimal, v: seq<Order>,
                                             kind: Kind, side: Side, limit: Decimal)
    requires p in opp && p !in prices
    ensures CrossTotal(opp[p := v], prices, kind, side, limit) == CrossTotal(opp, prices, kind, side, limit)
    decreases |prices|
  {
    if prices != [] {
      assert prices[0] != p;
      assert p !in prices[1..];
      CrossTotalReplace(opp, prices[1..], p, v, kind, side, limit);
    }
  }

  /** The tail of a listing without repetitions has none and misses its head. */
  lemma DistinctTail(prices: seq<Decimal>)
    requires |prices| > 0 && Distinct(prices)
    ensures Distinct(prices[1..]) && prices[0] !in prices[1..]
  {
    assert forall i :: 0 <= i < |prices| - 1 ==> prices[1..][i] == prices[i + 1];
  }

  /**
   * What the walk fills: over distinct listed prices and non-negative levels,
   * the incoming quantity left over is max(0, q - the total resting at the
   * listed levels that cross). Every crossing level counts, the one at the
   * limit price included.
   */
  lemma {:induction false} WalkFills(opp: Levels, prices: seq<Decimal>, q: Decimal, kind: Kind, side: Side, limit: Decimal)
    requires NonNegative(opp) && q >= 0.0 && Distinct(prices)
    ensures var t := CrossTotal(opp, prices, kind, side, limit);
      Walk(opp, prices, q, kind, side, limit).1 == (if q - t > 0.0 then q - t else 0.0)
    decreases |prices|
  {
    if prices != [] {
      var p := prices[0];
      var rest := prices[1..];
      DistinctTail(prices);
      CrossTotalNonNegative(opp, rest, kind, side, limit);
      if !Crosses(kind, side, limit, p) {
        WalkFills(opp, rest, q, kind, side, limit);
      } else if p in opp {
        var c := Consumed(opp[p], q);
        assert NonNegativeLevel(opp[p]);
        ConsumedLeftOver(opp[p], q);
        if c.1 != 0.0 {
          var opp' := opp[p := c.0];
          assert NonNegative(opp');
          CrossTotalReplace(opp, rest, p, c.0, kind, side, limit);
          WalkFills(opp', rest, c.1, kind, side, limit);
        }
      } else if q != 0.0 {
        WalkFills(opp, rest, q, kind, side, limit);
      }
    }
  }

  /**
   * Price priority across levels: a listed level that the walk changed was
   * reached only after every crossing level listed before it was emptied.
   */
  lemma {:induction false} WalkPriority(opp: Levels, prices: seq<Decimal>, q: Decimal, kind: Kind, side: Side, limit: Decimal)
    requires NonNegative(opp) && q >= 0.0 && Distinct(prices)
    requires forall i :: 0 <= i < |prices| ==> prices[i] in opp
    ensures var w := Walk(opp, prices, q, kind, side, limit).0;
      forall i, j :: 0 <= i < j < |prices| && Crosses(kind, side, limit, prices[i]) && w[prices[j]] != opp[prices[j]] ==>
        SumQty(w[prices[i]]) == 0.0
    decreases |prices|
  {
    if prices != [] {
      var p := prices[0];
      var rest := prices[1..];
      DistinctTail(prices);
      assert forall i :: 0 <= i < |rest| ==> rest[i] == prices[i + 1];
      var w := Walk(opp, prices, q, kind, side, limit).0;
      if !Crosses(kind, side, limit, p) {
        WalkPriority(opp, rest, q, kind, side, limit);
        forall i, j | 0 <= i < j < |prices| && Crosses(kind, side, limit, prices[i]) && w[prices[j]] != opp[prices[j]]
          ensures SumQty(w[prices[i]]) == 0.0
        {
          assert i != 0;
          assert prices[i] == rest[i - 1] && prices[j] == rest[j - 1];
        }
      } else {
        var c := Consumed(opp[p], q);
        var opp' := opp[p := c.0];
        assert NonNegativeLevel(opp[p]);
        ConsumedLeftOver(opp[p], q);
        if c.1 == 0.0 {
          forall j | 0 < j < |prices| ensures w[prices[j]] == opp[prices[j]] {
            assert prices[j] == rest[j - 1];
          }
        } else {
          ConsumedConserves(opp[p], q);
          assert SumQty(c.0) == 0.0;
          assert NonNegative(opp');
          WalkPriority(opp', rest, c.1, kind, side, limit);
          WalkFrame(opp', rest, c.1, kind, side, limit);
          assert w[p] == c.0;
          forall i, j | 0 <= i < j < |prices| && Crosses(kind, side, limit, prices[i]) && w[prices[j]] != opp[prices[j]]
            ensures SumQty(w[prices[i]]) == 0.0
          {
            if i != 0 {
              assert prices[i] == rest[i - 1] && prices[j] == rest[j - 1];
              assert opp'[prices[j]] == opp[prices[j]];
            }
          }
        }
      }
    }
  }

  // ---------------------------------------------------------------------------
  // The whole book
  // ---------------------------------------------------------------------------

  /** The two sides of the book: bids (buy orders) and asks (sell orders). */
  datatype Book = Book(buy: Levels, sell: Levels)

  function SideOf(b: Book, s: Side): Levels
  {
    match s
    case Buy => b.buy
    case Sell => b.sell
  }

  function WithSide(b: Book, s: Side, m: Levels): (r: Book)
    ensures SideOf(r, s) == m && SideOf(r, Opposite(s)) == SideOf(b, Opposite(s))
  {
    match s
    case Buy => b.(buy := m)
    case Sell => b.(sell := m)
  }

  /** The book's shape invariant: bids hold Buy orders, asks Sell orders, each at its key. */
  predicate Valid(b: Book)
  {
    WellFormed(b.buy, Buy) && WellFormed(b.sell, Sell)
  }

  predicate AllNonNegative(b: Book)
  {
    NonNegative(b.buy) && NonNegative(b.sell)
  }

  /** `add_order_to_orderbook`: insert on the order's own side only. */
  function AddOrder(b: Book, o: Order): (r: Book)
    ensures SideOf(r, o.side) == Inserted(SideOf(b, o.side), o)
    ensures SideOf(r, Opposite(o.side)) == SideOf(b, Opposite(o.side))
  {
    WithSide(b, o.side, Inserted(SideOf(b, o.side), o))
  }

  /** Insertion keeps the book valid and moves only its own side's volume, by the order's quantity. */
  lemma AddOrderProperties(b: Book, o: Order)
    ensures Valid(b) ==> Valid(AddOrder(b, o))
    ensures AllNonNegative(b) && o.quantity >= 0.0 ==> AllNonNegative(AddOrder(b, o))
    ensures Volume(SideOf(AddOrder(b, o), o.side)) == Volume(SideOf(b, o.side)) + o.quantity
    ensures Volume(SideOf(AddOrder(b, o), Opposite(o.side))) == Volume(SideOf(b, Opposite(o.side)))
  {
    InsertedKeepsShape(SideOf(b, o.side), o);
    InsertedVolume(SideOf(b, o.side), o);
  }

  /**
   * `market_price`: what a market order of side `s` would trade at, the best
   * price of the opposite side; `None` exactly when that side is empty.
   */
  function MarketPrice(b: Book, s: Side): (r: Option<Decimal>)
    ensures s == Buy ==> r == BestAsk(b.sell)
    ensures s == Sell ==> r == BestBid(b.buy)
    ensures r.None? <==> SideOf(b, Opposite(s)) == map[]
    ensures r.Some? ==> r.value in SideOf(b, Opposite(s))
  {
    match s
    case Buy => BestAsk(b.sell)
    case Sell => BestBid(b.buy)
  }

  /** The opposite side's best prices for an incoming order of side `s`, in priority order. */
  function TopOpposite(b: Book, s: Side): (r: Option<seq<Decimal>>)
    ensures r.None? <==> SideOf(b, Opposite(s)) == map[]
    ensures r.Some? ==> |r.value| <= Depth
  {
    match s
    case Buy => TopAsks(b.sell)
    case Sell => TopBids(b.buy)
  }

  /**
   * `match_market_order` (kind Market) and `match_limit_order` (kind Limit):
   * the new book and the incoming order with its left-over quantity. With an
   * empty opposite side the whole order rests; otherwise the best levels are
   * walked and a non-zero remainder rests on the order's own side at its price.
   */
  function Matched(b: Book, o: Order, kind: Kind): (r: (Book, Order))
    ensures r.1 == WithQuantity(o, r.1.quantity)
  {
    match TopOpposite(b, o.side)
    case None => (AddOrder(b, o), o)
    case Some(prices) =>
      var w := Walk(SideOf(b, Opposite(o.side)), prices, o.quantity, kind, o.side, o.price);
      var o' := WithQuantity(o, w.1);
      var b' := WithSide(b, Opposite(o.side), w.0);
      if w.1 != 0.0 then (AddOrder(b', o'), o') else (b', o')
  }

  /** A level the matcher may touch: among the opposite side's top levels, and crossing. */
  predicate Reached(b: Book, o: Order, kind: Kind, p: Decimal)
  {
    var top := TopOpposite(b, o.side);
    top.Some? && p in top.value && Crosses(kind, o.side, o.price, p)
  }

  /** With nothing on the opposite side, the whole order rests unchanged. */
  lemma MatchedEmptyOpposite(b: Book, o: Order, kind: Kind)
    requires SideOf(b, Opposite(o.side)) == map[]
    ensures Matched(b, o, kind) == (AddOrder(b, o), o)
  {
  }

  /**
   * Where the remainder goes: the order's own side gets the left-over order
   * appended once at its price when the opposite side was empty or something
   * is left; otherwise the own side is unchanged. Its volume moves accordingly.
   */
  lemma MatchedRemainder(b: Book, o: Order, kind: Kind)
    ensures var r := Matched(b, o, kind);
      var own := SideOf(b, o.side);
      var rested := SideOf(b, Opposite(o.side)) == map[] || r.1.quantity != 0.0;
      && SideOf(r.0, o.side) == (if rested then Inserted(own, r.1) else own)
      && Volume(SideOf(r.0, o.side)) == Volume(own) + (if rested then r.1.quantity else 0.0)
  {
    var r := Matched(b, o, kind);
    var own := SideOf(b, o.side);
    MatchedOwnSide(b, o, kind);
    if SideOf(b, Opposite(o.side)) == map[] || r.1.quantity != 0.0 {
      InsertedVolume(own, r.1);
    }
  }

  /** The own side after matching: the remainder appended, or nothing changed. */
  lemma MatchedOwnSide(b: Book, o: Order, kind: Kind)
    ensures var r := Matched(b, o, kind);
      var rested := SideOf(b, Opposite(o.side)) == map[] || r.1.quantity != 0.0;
      SideOf(r.0, o.side) == (if rested then Inserted(SideOf(b, o.side), r.1) else SideOf(b, o.side))
  {
    if SideOf(b, Opposite(o.side)) != map[] {
      MatchedUnfold(b, o, kind);
    }
  }

  /**
   * The opposite side keeps its prices, loses exactly the filled quantity, and
   * every level the matcher did not reach (beyond the top five, or not
   * crossing the limit) is untouched.
   */
  lemma MatchedOpposite(b: Book, o: Order, kind: Kind)
    ensures var r := Matched(b, o, kind);
      var opp := SideOf(b, Opposite(o.side));
      var opp' := SideOf(r.0, Opposite(o.side));
      && opp'.Keys == opp.Keys
      && Volume(opp') == Volume(opp) - (o.quantity - r.1.quantity)
      && forall p :: p in opp && !Reached(b, o, kind, p) ==> opp'[p] == opp[p]
  {
    var opp := SideOf(b, Opposite(o.side));
    match TopOpposite(b, o.side)
    case None =>
    case Some(prices) =>
      WalkConserves(opp, prices, o.quantity, kind, o.side, o.price);
      WalkFrame(opp, prices, o.quantity, kind, o.side, o.price);
  }

  /**
   * A limit order that crosses no resting level fills nothing: it rests whole
   * (unless it has quantity 0 and the opposite side is not empty) and the
   * opposite side is untouched.
   */
  lemma MatchedNothingCrosses(b: Book, o: Order)
    requires forall p :: p in SideOf(b, Opposite(o.side)) ==> !Crosses(Limit, o.side, o.price, p)
    ensures Matched(b, o, Limit) ==
      (if o.quantity != 0.0 || SideOf(b, Opposite(o.side)) == map[] then AddOrder(b, o) else b, o)
  {
    match TopOpposite(b, o.side)
    case None =>
    case Some(prices) =>
      var opp := SideOf(b, Opposite(o.side));
      WalkNoCross(opp, prices, o.quantity, Limit, o.side, o.price);
      assert WithSide(b, Opposite(o.side), opp) == b;
      assert WithQuantity(o, o.quantity) == o;
  }

  /** Replacing one side by a well-formed one keeps the book valid. */
  lemma WithSideValid(b: Book, s: Side, m: Levels)
    requires Valid(b) && WellFormed(m, s)
    ensures Valid(WithSide(b, s, m))
  {
  }

  lemma WithSideNonNegative(b: Book, s: Side, m: Levels)
    requires AllNonNegative(b) && NonNegative(m)
    ensures AllNonNegative(WithSide(b, s, m))
  {
  }

  /** The effect of a match on a non-empty opposite side, unfolded. */
  lemma MatchedUnfold(b: Book, o: Order, kind: Kind)
    requires SideOf(b, Opposite(o.side)) != map[]
    ensures var opp := SideOf(b, Opposite(o.side));
      var w := Walk(opp, TopOpposite(b, o.side).value, o.quantity, kind, o.side, o.price);
      var b' := WithSide(b, Opposite(o.side), w.0);
      var o' := WithQuantity(o, w.1);
      Matched(b, o, kind) == (if w.1 != 0.0 then AddOrder(b', o') else b', o')
  {
  }

  /** Matching keeps the book valid: the shape invariant is preserved. */
  lemma MatchedKeepsValid(b: Book, o: Order, kind: Kind)
    ensures Valid(b) ==> Valid(Matched(b, o, kind).0)
  {
    var opp := SideOf(b, Opposite(o.side));
    if !Valid(b) {
    } else if opp == map[] {
      AddOrderProperties(b, o);
    } else {
      MatchedUnfold(b, o, kind);
      var w := Walk(opp, TopOpposite(b, o.side).value, o.quantity, kind, o.side, o.price);
      WalkKeepsShape(opp, TopOpposite(b, o.side).value, o.quantity, kind, o.side, o.price);
      assert WellFormed(opp, Opposite(o.side));
      SameShapeWellFormed(opp, w.0, Opposite(o.side));
      var b' := WithSide(b, Opposite(o.side), w.0);
      WithSideValid(b, Opposite(o.side), w.0);
      AddOrderProperties(b', WithQuantity(o, w.1));
    }
  }

  /**
   * With non-negative quantities matching keeps the book non-negative, and
   * the left-over quantity lies between 0 and the order's own.
   */
  lemma MatchedKeepsNonNegative(b: Book, o: Order, kind: Kind)
    requires AllNonNegative(b) && o.quantity >= 0.0
    ensures AllNonNegative(Matched(b, o, kind).0)
    ensures 0.0 <= Matched(b, o, kind).1.quantity <= o.quantity
  {
    var opp := SideOf(b, Opposite(o.side));
    if opp == map[] {
      AddOrderProperties(b, o);
    } else {
      MatchedUnfold(b, o, kind);
      var w := Walk(opp, TopOpposite(b, o.side).value, o.quantity, kind, o.side, o.price);
      assert NonNegative(opp);
      WalkNonNegative(opp, TopOpposite(b, o.side).value, o.quantity, kind, o.side, o.price);
      var b' := WithSide(b, Opposite(o.side), w.0);
      WithSideNonNegative(b, Opposite(o.side), w.0);
      AddOrderProperties(b', WithQuantity(o, w.1));
    }
  }

  /**
   * The opposite side's top list is made of its own prices, without
   * repetition, in price priority, and starts at the market price.
   */
  lemma TopOppositeListed(b: Book, s: Side)
    requires SideOf(b, Opposite(s)) != map[]
    ensures var ps := TopOpposite(b, s).value;
      && (forall i :: 0 <= i < |ps| ==> ps[i] in SideOf(b, Opposite(s)))
      && (forall i, j :: 0 <= i < j < |ps| ==> Ahead(s, ps[i], ps[j]))
      && Distinct(ps)
      && Some(ps[0]) == MarketPrice(b, s)
  {
    match s
    case Buy => TopAsksBest(b.sell);
    case Sell => TopBidsBest(b.buy);
  }

  /** The total resting at the levels a match may reach (`Reached`). */
  function ReachableVolume(b: Book, o: Order, kind: Kind): Decimal
  {
    match TopOpposite(b, o.side)
    case None => 0.0
    case Some(prices) => CrossTotal(SideOf(b, Opposite(o.side)), prices, kind, o.side, o.price)
  }

  /**
   * What a match fills: min(o.quantity, the volume resting at the levels the
   * matcher may reach), so the quantity left over is max(0, o.quantity minus
   * that volume).
   */
  lemma MatchedFills(b: Book, o: Order, kind: Kind)
    requires AllNonNegative(b) && o.quantity >= 0.0
    ensures var t := ReachableVolume(b, o, kind);
      Matched(b, o, kind).1.quantity == (if o.quantity - t > 0.0 then o.quantity - t else 0.0)
  {
    var opp := SideOf(b, Opposite(o.side));
    if opp != map[] {
      MatchedUnfold(b, o, kind);
      TopOppositeListed(b, o.side);
      assert NonNegative(opp);
      WalkFills(opp, TopOpposite(b, o.side).value, o.quantity, kind, o.side, o.price);
    }
  }

  /** `WalkPriority` by price: over a listing in price priority, indices become prices. */
  lemma WalkPriorityByPrice(opp: Levels, ps: seq<Decimal>, q: Decimal, kind: Kind, side: Side, limit: Decimal)
    requires NonNegative(opp) && q >= 0.0 && Distinct(ps)
    requires forall i :: 0 <= i < |ps| ==> ps[i] in opp
    requires forall i, j :: 0 <= i < j < |ps| ==> Ahead(side, ps[i], ps[j])
    ensures var w := Walk(opp, ps, q, kind, side, limit).0;
      forall p, p' :: p in opp && p' in opp && p in ps && Crosses(kind, side, limit, p) && Ahead(side, p, p') && w[p'] != opp[p'] ==>
        SumQty(w[p]) == 0.0
  {
    var w := Walk(opp, ps, q, kind, side, limit).0;
    WalkPriority(opp, ps, q, kind, side, limit);
    WalkFrame(opp, ps, q, kind, side, limit);
    forall p, p' | p in opp && p' in opp && p in ps && Crosses(kind, side, limit, p) && Ahead(side, p, p') && w[p'] != opp[p']
      ensures SumQty(w[p]) == 0.0
    {
      var i :| 0 <= i < |ps| && ps[i] == p;
      var j :| 0 <= j < |ps| && ps[j] == p';
      assert i != j;
      assert j < i ==> Ahead(side, p', p);
      assert i < j;
    }
  }

  /**
   * Price priority of a match: a level the match changed was reached only
   * after every reachable level ahead of it had been emptied.
   */
  lemma MatchedPriority(b: Book, o: Order, kind: Kind)
    requires AllNonNegative(b) && o.quantity >= 0.0
    ensures var opp := SideOf(b, Opposite(o.side));
      var opp' := SideOf(Matched(b, o, kind).0, Opposite(o.side));
      forall p, p' :: p in opp && p' in opp && p in opp' && p' in opp' &&
                      Reached(b, o, kind, p) && Ahead(o.side, p, p') && opp'[p'] != opp[p'] ==>
        SumQty(opp'[p]) == 0.0
  {
    var opp := SideOf(b, Opposite(o.side));
    if opp != map[] {
      MatchedUnfold(b, o, kind);
      TopOppositeListed(b, o.side);
      var ps := TopOpposite(b, o.side).value;
      assert NonNegative(opp);
      WalkPriorityByPrice(opp, ps, o.quantity, kind, o.side, o.price);
      var w := Walk(opp, ps, o.quantity, kind, o.side, o.price);
      assert SideOf(Matched(b, o, kind).0, Opposite(o.side)) == w.0;
    }
  }

  /**
   * A limit order priced at the opposite side's best price, with something
   * resting there, fills at least part of its quantity: the crossing test is
   * inclusive.
   */
  lemma MatchedAtLimitFills(b: Book, o: Order)
    requires AllNonNegative(b) && o.quantity > 0.0
    requires MarketPrice(b, o.side) == Some(o.price)
    requires SumQty(SideOf(b, Opposite(o.side))[o.price]) > 0.0
    ensures Matched(b, o, Limit).1.quantity < o.quantity
  {
    var opp := SideOf(b, Opposite(o.side));
    MatchedFills(b, o, Limit);
    TopOppositeListed(b, o.side);
    var ps := TopOpposite(b, o.side).value;
    CrossTotalNonNegative(opp, ps[1..], Limit, o.side, o.price);
    assert ReachableVolume(b, o, Limit) >= SumQty(opp[o.price]);
  }
}
