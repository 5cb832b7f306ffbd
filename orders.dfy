/**
 * The order value type of the matching core: a side, a price and a quantity.
 * Decimal amounts are exact; they are modelled as Dafny `real`, which is exact
 * rational arithmetic, never floating point.
 */
module Orders {

  /** An exact decimal amount (price or quantity). */
  type Decimal = real

  /** An optional value, for queries that may find nothing. */
  datatype Option<T> = None | Some(value: T)

  /** Which side of the book an order belongs to. */
  datatype Side = Buy | Sell

  /** An order: how much, at what price, on which side. */
  datatype Order = Order(quantity: Decimal, price: Decimal, side: Side)

  /** The side an order of side `s` trades against. */
  function Opposite(s: Side): (r: Side)
    ensures r != s
  {
    match s
    case Buy => Sell
    case Sell => Buy
  }

  /** The order with its quantity replaced; price and side are kept. */
  function WithQuantity(o: Order, q: Decimal): (r: Order)
    ensures r.quantity == q && r.price == o.price && r.side == o.side
  {
    o.(quantity := q)
  }
}
