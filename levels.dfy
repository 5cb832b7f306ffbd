/**
 * One side of the order book: a price-keyed sorted map whose value at each
 * price is the FIFO sequence of the orders resting at that price (earliest
 * first). Queries over one side live here: best price, the five best prices,
 * and total volume.
 */
module Levels {
  import opened Orders
  import opened Keys

  /** The price levels of one side: price -> orders at that price, oldest first. */
  type Levels = map<Decimal, seq<Order>>

  /** The fixed number of best price levels a match may walk. */
  const Depth: nat := 5

  function Min(a: nat, b: nat): nat { if a <= b then a else b }

  /** Sum of the quantities of a sequence of orders, front to back. */
  function SumQty(level: seq<Order>): Decimal
  {
    if level == [] then 0.0 else level[0].quantity + SumQty(level[1..])
  }

  lemma {:induction false} SumQtyAppend(a: seq<Order>, b: seq<Order>)
    ensures SumQty(a + b) == SumQty(a) + SumQty(b)
    decreases |a|
  {
    if a != [] {
      assert (a + b)[1..] == a[1..] + b;
      SumQtyAppend(a[1..], b);
    } else {
      assert a + b == b;
    }
  }

  /** The levels at prices `ps`, concatenated in the order of `ps`. */
  function Concat(m: Levels, ps: seq<Decimal>): seq<Order>
    requires forall i :: 0 <= i < |ps| ==> ps[i] in m
  {
    if ps == [] then [] else m[ps[0]] + Concat(m, ps[1..])
  }

  /** Every resting order of the side, level by level in ascending price order. */
  function AllOrders(m: Levels): seq<Order>
  {
    Concat(m, Ascending(m.Keys))
  }

  /**
   * Total resting quantity of a side, computed as the source does: all levels
   * in key order, flattened, quantities summed. An empty side has volume 0.
   */
  function Volume(m: Levels): (v: Decimal)
    ensures m == map[] ==> v == 0.0
  {
    SumQty(AllOrders(m))
  }

  /** Order-independent reference sum of the level totals at the keys `ks`. */
  function VolumeOver(m: Levels, ks: set<Decimal>): Decimal
    requires ks <= m.Keys
    decreases ks
  {
    if ks == {} then 0.0
    else
      var k := MinKey(ks);
      SumQty(m[k]) + VolumeOver(m, ks - {k})
  }

  lemma {:induction false} ConcatAscending(m: Levels, ks: set<Decimal>)
    requires ks <= m.Keys
    ensures SumQty(Concat(m, Ascending(ks))) == VolumeOver(m, ks)
    decreases ks
  {
    if ks != {} {
      var k := MinKey(ks);
      var rest := Ascending(ks - {k});
      assert Ascending(ks) == [k] + rest;
      assert ([k] + rest)[1..] == rest;
      assert Concat(m, Ascending(ks)) == m[k] + Concat(m, rest);
      SumQtyAppend(m[k], Concat(m, rest));
      ConcatAscending(m, ks - {k});
    }
  }

  /** The volume is the sum of the level totals, whatever the key order. */
  lemma VolumeIsLevelSum(m: Levels)
    ensures Volume(m) == VolumeOver(m, m.Keys)
  {
    ConcatAscending(m, m.Keys);
  }

  /** Any one level can be split off the reference sum. */
  lemma {:induction false} VolumeOverSplit(m: Levels, ks: set<Decimal>, k: Decimal)
    requires ks <= m.Keys && k in ks
    ensures VolumeOver(m, ks) == SumQty(m[k]) + VolumeOver(m, ks - {k})
    decreases ks
  {
    var j := MinKey(ks);
    if j != k {
      VolumeOverSplit(m, ks - {j}, k);
      assert j in ks - {k};
      var j' := MinKey(ks - {k});
      assert j' in ks;
      assert j' == j;
      assert ks - {j} - {k} == ks - {k} - {j};
    }
  }

  /** The reference sum only looks at the levels at `ks`. */
  lemma {:induction false} VolumeOverFrame(m: Levels, m': Levels, ks: set<Decimal>)
    requires ks <= m.Keys && ks <= m'.Keys
    requires forall k :: k in ks ==> m[k] == m'[k]
    ensures VolumeOver(m, ks) == VolumeOver(m', ks)
    decreases ks
  {
    if ks != {} {
      VolumeOverFrame(m, m', ks - {MinKey(ks)});
    }
  }

  /** Replacing one level of the reference sum changes it by the change of that level's total. */
  lemma VolumeOverReplace(m: Levels, ks: set<Decimal>, p: Decimal, v: seq<Order>)
    requires ks <= m.Keys && p in ks
    ensures VolumeOver(m[p := v], ks) == VolumeOver(m, ks) - SumQty(m[p]) + SumQty(v)
  {
    var m' := m[p := v];
    VolumeOverSplit(m, ks, p);
    VolumeOverSplit(m', ks, p);
    VolumeOverFrame(m, m', ks - {p});
  }

  /** Replacing an existing level changes the volume by the change of that level's total. */
  lemma VolumeReplace(m: Levels, p: Decimal, v: seq<Order>)
    requires p in m
    ensures Volume(m[p := v]) == Volume(m) - SumQty(m[p]) + SumQty(v)
  {
    var m' := m[p := v];
    assert m'.Keys == m.Keys;
    VolumeOverReplace(m, m.Keys, p, v);
    VolumeIsLevelSum(m);
    VolumeIsLevelSum(m');
  }


  /** Adding a level at a new price raises the volume by that level's total. */
  lemma VolumeAddLevel(m: Levels, p: Decimal, v: seq<Order>)
    requires p !in m
    ensures Volume(m[p := v]) == Volume(m) + SumQty(v)
  {
    var m' := m[p := v];
    assert m'.Keys - {p} == m.Keys;
    VolumeIsLevelSum(m);
    VolumeIsLevelSum(m');
    VolumeOverSplit(m', m'.Keys, p);
    VolumeOverFrame(m, m', m.Keys);
  }

  /**
   * `add_order_to_orderbook` on one side: the order goes to the tail of the
   * level at its price, and a one-order level is created when there is none.
   */
  function Inserted(m: Levels, o: Order): (r: Levels)
    ensures r.Keys == m.Keys + {o.price}
    ensures o.price in m ==> r[o.price] == m[o.price] + [o]
    ensures o.price !in m ==> r[o.price] == [o]
    ensures forall p :: p in m && p != o.price ==> r[p] == m[p]
  {
    if o.price in m then m[o.price := m[o.price] + [o]] else m[o.price := [o]]
  }

  /** Inserting raises the side's volume by exactly the order's quantity. */
  lemma InsertedVolume(m: Levels, o: Order)
    ensures Volume(Inserted(m, o)) == Volume(m) + o.quantity
  {
    assert SumQty([o]) == o.quantity;
    if o.price in m {
      SumQtyAppend(m[o.price], [o]);
      VolumeReplace(m, o.price, m[o.price] + [o]);
    } else {
      VolumeAddLevel(m, o.price, [o]);
    }
  }

  /** Best bid: the greatest buy price, `None` exactly when the side is empty. */
  function BestBid(m: Levels): (r: Option<Decimal>)
    ensures r.None? <==> m == map[]
    ensures r.Some? ==> r.value in m && forall p :: p in m ==> p <= r.value
  {
    if m == map[] then None else Some(MaxKey(m.Keys))
  }

  /** Best ask: the least sell price, `None` exactly when the side is empty. */
  function BestAsk(m: Levels): (r: Option<Decimal>)
    ensures r.None? <==> m == map[]
    ensures r.Some? ==> r.value in m && forall p :: p in m ==> r.value <= p
  {
    if m == map[] then None else Some(MinKey(m.Keys))
  }

  /** A prefix of a strictly descending sequence is strictly descending and beats the rest. */
  lemma DescendingPrefix(xs: seq<Decimal>, n: nat)
    requires n <= |xs| && StrictlyDescending(xs)
    ensures StrictlyDescending(xs[..n])
    ensures forall p :: p in xs && p !in xs[..n] ==> forall i :: 0 <= i < n ==> p < xs[..n][i]
  {
    forall p, i | p in xs && p !in xs[..n] && 0 <= i < n ensures p < xs[..n][i] {
      var j :| 0 <= j < |xs| && xs[j] == p;
      assert j >= n;
    }
  }

  /** A prefix of a strictly ascending sequence is strictly ascending and beats the rest. */
  lemma AscendingPrefix(xs: seq<Decimal>, n: nat)
    requires n <= |xs| && StrictlyAscending(xs)
    ensures StrictlyAscending(xs[..n])
    ensures forall p :: p in xs && p !in xs[..n] ==> forall i :: 0 <= i < n ==> xs[..n][i] < p
  {
    forall p, i | p in xs && p !in xs[..n] && 0 <= i < n ensures xs[..n][i] < p {
      var j :| 0 <= j < |xs| && xs[j] == p;
      assert j >= n;
    }
  }

  /** `top_n_best_buy_prices`: the first (at most five) keys from the highest down. */
  function TopBids(m: Levels): (r: Option<seq<Decimal>>)
    ensures r.None? <==> m == map[]
    ensures r.Some? ==> |r.value| <= Depth
  {
    var all := Descending(m.Keys);
    var ps := all[..Min(Depth, |all|)];
    if ps == [] then
      assert m.Keys == {};
      None
    else
      Some(ps)
  }

  /** `top_n_best_sell_prices`: the first (at most five) keys from the lowest up. */
  function TopAsks(m: Levels): (r: Option<seq<Decimal>>)
    ensures r.None? <==> m == map[]
    ensures r.Some? ==> |r.value| <= Depth
  {
    var all := Ascending(m.Keys);
    var ps := all[..Min(Depth, |all|)];
    if ps == [] then
      assert m.Keys == {};
      None
    else
      Some(ps)
  }

  /**
   * The best-bids list holds min(5, #prices) prices of the side, strictly
   * descending from the best bid, and no price left out beats one in it.
   */
  lemma TopBidsBest(m: Levels)
    requires m != map[]
    ensures var ps := TopBids(m).value;
      && 1 <= |ps| <= Depth && |ps| == Min(Depth, |m.Keys|)
      && (forall i :: 0 <= i < |ps| ==> ps[i] in m)
      && StrictlyDescending(ps)
      && Some(ps[0]) == BestBid(m)
      && forall p :: p in m && p !in ps ==> forall i :: 0 <= i < |ps| ==> p < ps[i]
  {
    var all := Descending(m.Keys);
    var n := Min(Depth, |all|);
    assert TopBids(m).value == all[..n];
    DescendingPrefix(all, n);
    DescendingHead(m.Keys, all);
    assert forall i :: 0 <= i < n ==> all[..n][i] in all;
  }

  /**
   * The best-asks list holds min(5, #prices) prices of the side, strictly
   * ascending from the best ask, and no price left out beats one in it.
   */
  lemma TopAsksBest(m: Levels)
    requires m != map[]
    ensures var ps := TopAsks(m).value;
      && 1 <= |ps| <= Depth && |ps| == Min(Depth, |m.Keys|)
      && (forall i :: 0 <= i < |ps| ==> ps[i] in m)
      && StrictlyAscending(ps)
      && Some(ps[0]) == BestAsk(m)
      && forall p :: p in m && p !in ps ==> forall i :: 0 <= i < |ps| ==> ps[i] < p
  {
    var all := Ascending(m.Keys);
    var n := Min(Depth, |all|);
    assert TopAsks(m).value == all[..n];
    AscendingPrefix(all, n);
    AscendingHead(m.Keys, all);
    assert forall i :: 0 <= i < n ==> all[..n][i] in all;
  }

  /**
   * The shape the book keeps on one side: every level holds at least one
   * order, and every order in it has the level's price and the side's side.
   */
  predicate WellFormed(m: Levels, side: Side)
  {
    forall p :: p in m ==>
      |m[p]| > 0 && forall i :: 0 <= i < |m[p]| ==> m[p][i].price == p && m[p][i].side == side
  }

  /** No resting quantity is negative. */
  predicate NonNegative(m: Levels)
  {
    forall p, i :: p in m && 0 <= i < |m[p]| ==> m[p][i].quantity >= 0.0
  }

  predicate NonNegativeLevel(level: seq<Order>)
  {
    forall i :: 0 <= i < |level| ==> level[i].quantity >= 0.0
  }

  /** Insertion keeps the side well formed and non-negative. */
  lemma InsertedKeepsShape(m: Levels, o: Order)
    ensures WellFormed(m, o.side) ==> WellFormed(Inserted(m, o), o.side)
    ensures NonNegative(m) && o.quantity >= 0.0 ==> NonNegative(Inserted(m, o))
  {
  }

  /** A non-negative side has a non-negative volume. */
  lemma {:induction false} SumQtyNonNegative(level: seq<Order>)
    requires NonNegativeLevel(level)
    ensures SumQty(level) >= 0.0
    decreases |level|
  {
    if level != [] {
      SumQtyNonNegative(level[1..]);
    }
  }

  lemma {:induction false} VolumeOverNonNegative(m: Levels, ks: set<Decimal>)
    requires ks <= m.Keys && NonNegative(m)
    ensures VolumeOver(m, ks) >= 0.0
    decreases ks
  {
    if ks != {} {
      var k := MinKey(ks);
      assert NonNegativeLevel(m[k]);
      SumQtyNonNegative(m[k]);
      VolumeOverNonNegative(m, ks - {k});
    }
  }

  /** A side without negative quantities has a non-negative volume. */
  lemma VolumeNonNegative(m: Levels)
    ensures NonNegative(m) ==> Volume(m) >= 0.0
  {
    if NonNegative(m) {
      VolumeIsLevelSum(m);
      VolumeOverNonNegative(m, m.Keys);
    }
  }
}
