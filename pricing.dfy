/** The order totals the screen shows under the cart and stores in each sale:
    item count, subtotal, the discount capped at the subtotal, tax on what is
    left, and the net amount due. */
module Pricing {
  import opened PosTypes
  import opened Cart

  datatype Totals = Totals(items: int, subTotal: real, disc: real, tax: real, net: real)

  /** The sum of quantity times captured price over the cart lines. */
  function SubTotal(cart: seq<CartLine>): real
  {
    if cart == [] then 0.0 else (cart[0].qty as real) * cart[0].priceSnapshot + SubTotal(cart[1..])
  }

  /** The tax due on `taxable` at a rate of `taxPercent` percent. */
  function TaxOn(taxPercent: real, taxable: real): real
  {
    taxPercent / 100.0 * taxable
  }

  /** `totals`, for a discount amount and a tax rate in percent. */
  function ComputeTotals(cart: seq<CartLine>, discount: real, taxPercent: real): (t: Totals)
    ensures t.items == ItemCount(cart) && t.subTotal == SubTotal(cart)
    ensures t.disc <= t.subTotal
    ensures discount <= t.subTotal ==> t.disc == discount
    ensures discount > t.subTotal ==> t.disc == t.subTotal
    ensures t.tax == TaxOn(taxPercent, t.subTotal - t.disc)
    ensures t.net == t.subTotal - t.disc + t.tax
    ensures taxPercent >= 0.0 ==> t.net >= t.subTotal - t.disc >= 0.0
  {
    var items := ItemCount(cart);
    var subTotal := SubTotal(cart);
    var disc := if discount < subTotal then discount else subTotal;
    var taxable := if subTotal - disc < 0.0 then 0.0 else subTotal - disc;
    var tax := TaxOn(taxPercent, taxable);
    Totals(items, subTotal, disc, tax, taxable + tax)
  }

  /** Two units at 50 with no discount and 5% tax: subtotal 100, tax 5, net 105. */
  lemma TotalsExample()
    ensures ComputeTotals([CartLine("p1", "Tea", 2, 50.0)], 0.0, 5.0) == Totals(2, 100.0, 0.0, 5.0, 105.0)
  {
    var cart := [CartLine("p1", "Tea", 2, 50.0)];
    assert cart[1..] == [];
  }
}
