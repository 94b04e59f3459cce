/** The three collections the point-of-sale screen keeps: catalogue products,
    the open cart and the list of completed sales. Money is modelled as exact
    `real`s; a sale keeps the time stamp it was given as text. */
module PosTypes {
  import opened Seqs

  /** A catalogue entry. `price` is the current unit price, `stock` the units on hand. */
  datatype Product = Product(id: string, name: string, sku: string, category: string, price: real, stock: int)

  /** One line of the open order: the product reference, its quantity and the
      unit price captured when the line was created. */
  datatype CartLine = CartLine(id: string, name: string, qty: int, priceSnapshot: real)

  /** A copy of a cart line kept inside a sale. */
  datatype SaleItem = SaleItem(id: string, name: string, qty: int, price: real)

  /** A completed checkout. The amount fields are optional because stored sales
      written by older versions of the screen may lack some of them; `amount` is
      the older name of `net`. */
  datatype Sale = Sale(
    id: string,
    time: string,
    mode: string,
    items: seq<SaleItem>,
    subTotal: Option<real>,
    discount: Option<real>,
    taxPercent: Option<real>,
    tax: Option<real>,
    net: Option<real>,
    amount: Option<real>)

  /** The value a sale contributes to revenue figures: `net ?? amount ?? 0`. */
  function SaleValue(s: Sale): real
  {
    match s.net
    case Some(v) => v
    case None => match s.amount
      case Some(v) => v
      case None => 0.0
  }

  /** `Math.max(0, x)` */
  function FloorZero(x: int): int
  {
    if x < 0 then 0 else x
  }
}
