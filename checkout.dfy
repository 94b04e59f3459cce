/** What a checkout does to the catalogue and what it records: every product
    with a cart line loses the line's quantity from its stock (never below
    zero), and a sale is written that copies the cart lines and the totals. */
module CheckoutRules {
  import opened Seqs
  import opened PosTypes
  import opened Cart
  import opened Pricing

  /** The stock update checkout applies to one product: subtract the quantity of its first cart line. */
  function RestockOne(p: Product, cart: seq<CartLine>): Product
  {
    match FindIndex(cart, LineIdIs(p.id))
    case None => p
    case Some(i) => p.(stock := FloorZero(p.stock - cart[i].qty))
  }

  /** The catalogue after checkout. */
  function Restock(products: seq<Product>, cart: seq<CartLine>): (r: seq<Product>)
    ensures |r| == |products|
    ensures forall k | 0 <= k < |products| :: r[k] == products[k].(stock := r[k].stock)
    ensures forall k | 0 <= k < |products| :: !HasLine(cart, products[k].id) ==> r[k] == products[k]
    ensures DistinctIds(cart) ==> forall k | 0 <= k < |products| ::
      r[k].stock == if HasLine(cart, products[k].id)
                    then FloorZero(products[k].stock - CartQty(cart, products[k].id))
                    else products[k].stock
  {
    var r := seq(|products|, k requires 0 <= k < |products| => RestockOne(products[k], cart));
    assert DistinctIds(cart) ==> forall k | 0 <= k < |products| ::
      r[k].stock == if HasLine(cart, products[k].id)
                    then FloorZero(products[k].stock - CartQty(cart, products[k].id))
                    else products[k].stock
    by {
      if DistinctIds(cart) {
        forall k | 0 <= k < |products| && HasLine(cart, products[k].id)
          ensures r[k].stock == FloorZero(products[k].stock - CartQty(cart, products[k].id))
        {
          var i := FindIndex(cart, LineIdIs(products[k].id)).value;
          DistinctLineQty(cart, i);
        }
      }
    }
    r
  }

  /** Every product id in the catalogue is used once. */
  predicate DistinctProductIds(products: seq<Product>)
  {
    forall i, j | 0 <= i < j < |products| :: products[i].id != products[j].id
  }

  /** Because the cart never reserves more than the stock, checkout subtracts the
      reserved quantity exactly: the floor at zero never applies. */
  lemma RestockExact(products: seq<Product>, cart: seq<CartLine>)
    requires CartInvariant(products, cart) && DistinctProductIds(products)
    ensures forall k | 0 <= k < |products| ::
      Restock(products, cart)[k].stock == products[k].stock - CartQty(cart, products[k].id)
  {
    var r := Restock(products, cart);
    forall k | 0 <= k < |products|
      ensures r[k].stock == products[k].stock - CartQty(cart, products[k].id)
    {
      var id := products[k].id;
      if HasLine(cart, id) {
        var j :| 0 <= j < |cart| && cart[j].id == id;
        FindIndexIs(products, ProductIdIs(id), k);
        assert StockOf(products, id) == products[k].stock;
        ReservedIffHasLine(cart, id);
      } else {
        AbsentLineQty(cart, id);
      }
    }
  }

  /** The copies of the cart lines kept in a sale. */
  function SaleItems(cart: seq<CartLine>): (r: seq<SaleItem>)
    ensures |r| == |cart|
  {
    seq(|cart|, k requires 0 <= k < |cart| => SaleItem(cart[k].id, cart[k].name, cart[k].qty, cart[k].priceSnapshot))
  }

  function ItemsQty(items: seq<SaleItem>): int
  {
    if items == [] then 0 else items[0].qty + ItemsQty(items[1..])
  }

  /** The amount a receipt recomputes from the items of a sale. */
  function ItemsAmount(items: seq<SaleItem>): real
  {
    if items == [] then 0.0 else (items[0].qty as real) * items[0].price + ItemsAmount(items[1..])
  }

  /** The items of a sale add up to the cart's item count and subtotal. */
  lemma {:induction false} SaleItemsAddUp(cart: seq<CartLine>)
    ensures ItemsQty(SaleItems(cart)) == ItemCount(cart)
    ensures ItemsAmount(SaleItems(cart)) == SubTotal(cart)
  {
    if cart != [] {
      assert SaleItems(cart)[1..] == SaleItems(cart[1..]);
      SaleItemsAddUp(cart[1..]);
    }
  }

  /** The sale record checkout writes. */
  function MakeSale(cart: seq<CartLine>, t: Totals, taxPercent: real, mode: string, id: string, time: string): (s: Sale)
    ensures s.id == id && s.time == time && s.mode == mode
    ensures SaleValue(s) == t.net
    ensures s.items == SaleItems(cart)
    ensures s.amount == s.net
  {
    Sale(id, time, mode, SaleItems(cart), Some(t.subTotal), Some(t.disc), Some(taxPercent), Some(t.tax), Some(t.net), Some(t.net))
  }

  /** A recorded sale is self-consistent: its items reproduce its subtotal, its
      discount is the requested one capped at that subtotal, its tax is the rate
      applied to the discounted subtotal, and its net (also kept as `amount`) is
      the discounted subtotal plus tax, never negative for a non-negative rate. */
  lemma SaleRecordConsistent(cart: seq<CartLine>, discount: real, taxPercent: real, mode: string, id: string, time: string)
    ensures var t := ComputeTotals(cart, discount, taxPercent);
            var s := MakeSale(cart, t, taxPercent, mode, id, time);
            && s.subTotal == Some(ItemsAmount(s.items))
            && ItemsQty(s.items) == t.items
            && s.discount == Some(if discount < s.subTotal.value then discount else s.subTotal.value)
            && s.discount.value <= s.subTotal.value
            && s.taxPercent == Some(taxPercent)
            && s.tax == Some(TaxOn(taxPercent, s.subTotal.value - s.discount.value))
            && s.net == Some(s.subTotal.value - s.discount.value + s.tax.value)
            && s.amount == s.net
            && (taxPercent >= 0.0 ==> SaleValue(s) >= 0.0)
  {
    SaleItemsAddUp(cart);
  }
}
