/** The cart bookkeeping of the point-of-sale screen: how much of each product
    the open cart reserves, how much is left to sell, the updaters the cart
    buttons apply (`addToCart`, `inc`, `dec`, `removeLine`) and the invariant
    they keep: one line per product, positive quantities, and never more of a
    product in the cart than its stock. */
module Cart {
  import opened Seqs
  import opened PosTypes

  function LineIdIs(id: string): CartLine -> bool
  {
    (l: CartLine) => l.id == id
  }

  function LineIdIsNot(id: string): CartLine -> bool
  {
    (l: CartLine) => l.id != id
  }

  function ProductIdIs(id: string): Product -> bool
  {
    (p: Product) => p.id == id
  }

  /** The quantity one line reserves of product `id`. */
  function LineQty(l: CartLine, id: string): int
  {
    if l.id == id then l.qty else 0
  }

  /** The sum of the quantities of the lines for `id`: what `cartQtyById` maps `id` to (0 when absent). */
  function CartQty(cart: seq<CartLine>, id: string): int
  {
    if cart == [] then 0 else LineQty(cart[0], id) + CartQty(cart[1..], id)
  }

  /** The sum of all quantities: the `items` figure of the totals. */
  function ItemCount(cart: seq<CartLine>): int
  {
    if cart == [] then 0 else cart[0].qty + ItemCount(cart[1..])
  }

  predicate HasLine(cart: seq<CartLine>, id: string)
  {
    exists k | 0 <= k < |cart| :: cart[k].id == id
  }

  predicate PositiveQuantities(cart: seq<CartLine>)
  {
    forall k | 0 <= k < |cart| :: cart[k].qty >= 1
  }

  /** At most one line per product id. */
  predicate DistinctIds(cart: seq<CartLine>)
  {
    forall i, j | 0 <= i < j < |cart| :: cart[i].id != cart[j].id
  }

  /** The stock of the first catalogue product with this id, 0 when there is none. */
  function StockOf(products: seq<Product>, id: string): int
  {
    match FindIndex(products, ProductIdIs(id))
    case Some(k) => products[k].stock
    case None => 0
  }

  /** No product is reserved beyond its stock. */
  predicate WithinStock(products: seq<Product>, cart: seq<CartLine>)
  {
    forall k | 0 <= k < |cart| :: CartQty(cart, cart[k].id) <= StockOf(products, cart[k].id)
  }

  predicate CartInvariant(products: seq<Product>, cart: seq<CartLine>)
  {
    PositiveQuantities(cart) && DistinctIds(cart) && WithinStock(products, cart)
  }

  // ---------------------------------------------------------------------------
  // Facts about CartQty and ItemCount

  lemma {:induction false} CartQtyAppend(cart: seq<CartLine>, l: CartLine, id: string)
    ensures CartQty(cart + [l], id) == CartQty(cart, id) + LineQty(l, id)
  {
    if cart != [] {
      assert (cart + [l])[1..] == cart[1..] + [l];
      CartQtyAppend(cart[1..], l, id);
    }
  }

  lemma {:induction false} ItemCountAppend(cart: seq<CartLine>, l: CartLine)
    ensures ItemCount(cart + [l]) == ItemCount(cart) + l.qty
  {
    if cart != [] {
      assert (cart + [l])[1..] == cart[1..] + [l];
      ItemCountAppend(cart[1..], l);
    }
  }

  lemma {:induction false} CartQtyUpdate(cart: seq<CartLine>, i: nat, l: CartLine, id: string)
    requires i < |cart|
    ensures CartQty(cart[i := l], id) == CartQty(cart, id) - LineQty(cart[i], id) + LineQty(l, id)
  {
    if i > 0 {
      assert cart[i := l][1..] == cart[1..][i - 1 := l];
      CartQtyUpdate(cart[1..], i - 1, l, id);
    }
  }

  lemma {:induction false} ItemCountUpdate(cart: seq<CartLine>, i: nat, l: CartLine)
    requires i < |cart|
    ensures ItemCount(cart[i := l]) == ItemCount(cart) - cart[i].qty + l.qty
  {
    if i > 0 {
      assert cart[i := l][1..] == cart[1..][i - 1 := l];
      ItemCountUpdate(cart[1..], i - 1, l);
    }
  }

  /** With positive quantities a product is reserved exactly when it has a line. */
  lemma {:induction false} ReservedIffHasLine(cart: seq<CartLine>, id: string)
    requires PositiveQuantities(cart)
    ensures CartQty(cart, id) >= 0
    ensures CartQty(cart, id) > 0 <==> HasLine(cart, id)
  {
    if cart != [] {
      ReservedIffHasLine(cart[1..], id);
      if HasLine(cart[1..], id) {
        var k :| 0 <= k < |cart[1..]| && cart[1..][k].id == id;
        assert cart[k + 1].id == id;
      }
      if HasLine(cart, id) && cart[0].id != id {
        var k :| 0 <= k < |cart| && cart[k].id == id;
        assert cart[1..][k - 1].id == id;
      }
    }
  }

  /** A product without a line has nothing reserved. */
  lemma {:induction false} AbsentLineQty(cart: seq<CartLine>, id: string)
    requires !HasLine(cart, id)
    ensures CartQty(cart, id) == 0
  {
    if cart != [] {
      assert cart[0].id != id;
      assert !HasLine(cart[1..], id);
      AbsentLineQty(cart[1..], id);
    }
  }

  /** With one line per id, the reserved quantity is that line's quantity. */
  lemma {:induction false} DistinctLineQty(cart: seq<CartLine>, k: nat)
    requires DistinctIds(cart) && k < |cart|
    ensures CartQty(cart, cart[k].id) == cart[k].qty
  {
    var id := cart[k].id;
    if k == 0 {
      assert !HasLine(cart[1..], id);
      AbsentLineQty(cart[1..], id);
    } else {
      assert cart[0].id != id;
      assert cart[1..][k - 1] == cart[k];
      DistinctLineQty(cart[1..], k - 1);
    }
  }

  /** A non-empty cart has a line for `id` when its first line or one of the rest does. */
  lemma HasLineCons(cart: seq<CartLine>, id: string)
    requires cart != []
    ensures HasLine(cart, id) <==> cart[0].id == id || HasLine(cart[1..], id)
  {
    if HasLine(cart[1..], id) {
      var k :| 0 <= k < |cart[1..]| && cart[1..][k].id == id;
      assert cart[k + 1].id == id;
    }
    if HasLine(cart, id) && cart[0].id != id {
      var k :| 0 <= k < |cart| && cart[k].id == id;
      assert cart[1..][k - 1].id == id;
    }
  }

  lemma DistinctCons(h: CartLine, rest: seq<CartLine>)
    ensures DistinctIds([h] + rest) <==> !HasLine(rest, h.id) && DistinctIds(rest)
  {
    var s := [h] + rest;
    if !HasLine(rest, h.id) && DistinctIds(rest) {
      forall i, j | 0 <= i < j < |s| ensures s[i].id != s[j].id {
        if i == 0 {
          assert s[j] == rest[j - 1];
        } else {
          assert s[i] == rest[i - 1] && s[j] == rest[j - 1];
        }
      }
    }
    if DistinctIds(s) {
      forall k | 0 <= k < |rest| ensures rest[k].id != h.id {
        assert s[0] == h && rest[k] == s[k + 1];
        assert s[0].id != s[k + 1].id;
      }
      forall i, j | 0 <= i < j < |rest| ensures rest[i].id != rest[j].id {
        assert rest[i] == s[i + 1] && rest[j] == s[j + 1];
      }
    }
  }

  /** Any cart whose reservations shrank, except possibly for `id`, and whose
      reservation of `id` fits the stock, is still within stock. */
  lemma {:induction false} WithinStockTransfer(products: seq<Product>, before: seq<CartLine>, after: seq<CartLine>, id: string)
    requires WithinStock(products, before) && PositiveQuantities(after)
    requires forall x | x != id :: CartQty(after, x) <= CartQty(before, x)
    requires HasLine(after, id) ==> CartQty(after, id) <= StockOf(products, id)
    ensures WithinStock(products, after)
  {
    forall k | 0 <= k < |after|
      ensures CartQty(after, after[k].id) <= StockOf(products, after[k].id)
    {
      var x := after[k].id;
      if x != id {
        ReservedIffHasLine(after, x);
        if !HasLine(before, x) {
          AbsentLineQty(before, x);
        }
        var j :| 0 <= j < |before| && before[j].id == x;
      }
    }
  }

  // ---------------------------------------------------------------------------
  // Remaining stock

  /** `remainingStock(id)`: the stock of the product minus what the cart already
      reserves, never below zero. */
  function RemainingStock(products: seq<Product>, cart: seq<CartLine>, id: string): (r: int)
    ensures r >= 0
    ensures r > 0 <==> CartQty(cart, id) < StockOf(products, id)
    ensures r > 0 ==> CartQty(cart, id) + r == StockOf(products, id)
  {
    FloorZero(StockOf(products, id) - CartQty(cart, id))
  }

  /** A product id missing from the catalogue has no remaining stock. */
  lemma UnknownProductHasNoStock(products: seq<Product>, cart: seq<CartLine>, id: string)
    requires forall k | 0 <= k < |products| :: products[k].id != id
    requires PositiveQuantities(cart)
    ensures RemainingStock(products, cart, id) == 0
  {
    ReservedIffHasLine(cart, id);
  }

  /** `cartQtyById`: a map from each product id in the cart to the sum of its line quantities. */
  method CartQtyById(cart: seq<CartLine>) returns (m: map<string, int>)
    ensures forall id :: id in m <==> HasLine(cart, id)
    ensures forall id :: (if id in m then m[id] else 0) == CartQty(cart, id)
  {
    m := map[];
    for i := 0 to |cart|
      invariant forall id :: id in m <==> HasLine(cart[..i], id)
      invariant forall id :: (if id in m then m[id] else 0) == CartQty(cart[..i], id)
    {
      var l := cart[i];
      m := m[l.id := (if l.id in m then m[l.id] else 0) + l.qty];
      assert cart[..i + 1] == cart[..i] + [l];
      forall id ensures (if id in m then m[id] else 0) == CartQty(cart[..i + 1], id) {
        CartQtyAppend(cart[..i], l, id);
      }
      forall id ensures id in m <==> HasLine(cart[..i + 1], id) {
        if HasLine(cart[..i + 1], id) && id != l.id {
          var k :| 0 <= k < i + 1 && cart[..i + 1][k].id == id;
          assert cart[..i][k].id == id;
        }
        if id in m && id != l.id {
          var k :| 0 <= k < i && cart[..i][k].id == id;
          assert cart[..i + 1][k].id == id;
        }
        if id == l.id {
          assert cart[..i + 1][i].id == id;
        }
      }
    }
    assert cart[..|cart|] == cart;
  }

  // ---------------------------------------------------------------------------
  // addToCart

  /** The updater `addToCart` hands to the cart: bump the line for `p`, or
      append a fresh line of one unit at the current price. */
  function AddLine(cart: seq<CartLine>, p: Product): (r: seq<CartLine>)
    ensures HasLine(cart, p.id) ==> |r| == |cart|
    ensures HasLine(cart, p.id) ==> forall k | 0 <= k < |cart| ::
      r[k].id == cart[k].id && r[k].name == cart[k].name && r[k].priceSnapshot == cart[k].priceSnapshot
    ensures !HasLine(cart, p.id) ==> r == cart + [CartLine(p.id, p.name, 1, p.price)]
    ensures PositiveQuantities(cart) ==> PositiveQuantities(r)
    ensures DistinctIds(cart) ==> DistinctIds(r)
  {
    match FindIndex(cart, LineIdIs(p.id))
    case None => cart + [CartLine(p.id, p.name, 1, p.price)]
    case Some(i) => cart[i := cart[i].(qty := cart[i].qty + 1)]
  }

  /** Adding one unit of `p` raises its reservation by one and leaves every other product's alone. */
  lemma AddLineQuantity(cart: seq<CartLine>, p: Product, id: string)
    ensures CartQty(AddLine(cart, p), id) == CartQty(cart, id) + (if id == p.id then 1 else 0)
    ensures ItemCount(AddLine(cart, p)) == ItemCount(cart) + 1
  {
    match FindIndex(cart, LineIdIs(p.id))
    case None =>
      CartQtyAppend(cart, CartLine(p.id, p.name, 1, p.price), id);
      ItemCountAppend(cart, CartLine(p.id, p.name, 1, p.price));
    case Some(i) =>
      CartQtyUpdate(cart, i, cart[i].(qty := cart[i].qty + 1), id);
      ItemCountUpdate(cart, i, cart[i].(qty := cart[i].qty + 1));
  }

  /** Adding `p` leaves the lines of every other product as they were, in order. */
  lemma AddLineKeepsOthers(cart: seq<CartLine>, p: Product)
    ensures RemoveLines(AddLine(cart, p), p.id) == RemoveLines(cart, p.id)
  {
    var keep := LineIdIsNot(p.id);
    match FindIndex(cart, LineIdIs(p.id))
    case None =>
      var l := CartLine(p.id, p.name, 1, p.price);
      assert AddLine(cart, p) == cart + [l];
      FilterAppend(cart, [l], keep);
      assert Filter([l], keep) == [] by {
        assert [l][1..] == [];
      }
      assert Filter(cart, keep) + [] == Filter(cart, keep);
    case Some(i) =>
      var l := cart[i].(qty := cart[i].qty + 1);
      assert AddLine(cart, p) == cart[i := l];
      FilterUpdateDropped(cart, i, l, keep);
  }

  lemma {:induction false} FilterUpdateDropped(cart: seq<CartLine>, i: nat, l: CartLine, p: CartLine -> bool)
    requires i < |cart| && !p(cart[i]) && !p(l)
    ensures Filter(cart[i := l], p) == Filter(cart, p)
  {
    if i > 0 {
      assert cart[i := l][1..] == cart[1..][i - 1 := l];
      FilterUpdateDropped(cart[1..], i - 1, l, p);
    }
  }

  /** `addToCart(p)`: refused when nothing of `p` is left, otherwise AddLine. */
  function CartAfterAdd(products: seq<Product>, cart: seq<CartLine>, p: Product): (r: seq<CartLine>)
    ensures RemainingStock(products, cart, p.id) == 0 ==> r == cart
    ensures RemainingStock(products, cart, p.id) > 0 ==> r == AddLine(cart, p)
    ensures CartInvariant(products, cart) ==> CartInvariant(products, r)
  {
    if RemainingStock(products, cart, p.id) <= 0 then cart
    else
      var r := AddLine(cart, p);
      assert CartInvariant(products, cart) ==> CartInvariant(products, r) by {
        if CartInvariant(products, cart) {
          forall x | x != p.id ensures CartQty(r, x) <= CartQty(cart, x) {
            AddLineQuantity(cart, p, x);
          }
          AddLineQuantity(cart, p, p.id);
          WithinStockTransfer(products, cart, r, p.id);
        }
      }
      r
  }

  // ---------------------------------------------------------------------------
  // inc

  function IncOne(l: CartLine, id: string): CartLine
  {
    if l.id == id then l.(qty := l.qty + 1) else l
  }

  /** The updater `inc(id)` hands to the cart: one more unit on every line for `id`. */
  function IncLines(cart: seq<CartLine>, id: string): (r: seq<CartLine>)
    ensures |r| == |cart|
    ensures forall k | 0 <= k < |cart| :: r[k] == IncOne(cart[k], id)
  {
    if cart == [] then [] else [IncOne(cart[0], id)] + IncLines(cart[1..], id)
  }

  lemma {:induction false} IncLinesQuantity(cart: seq<CartLine>, id: string, x: string)
    requires DistinctIds(cart)
    ensures CartQty(IncLines(cart, id), x) == CartQty(cart, x) + (if x == id && HasLine(cart, id) then 1 else 0)
    ensures ItemCount(IncLines(cart, id)) == ItemCount(cart) + (if HasLine(cart, id) then 1 else 0)
  {
    if cart != [] {
      var r := IncLines(cart, id);
      assert r[1..] == IncLines(cart[1..], id);
      DistinctCons(cart[0], cart[1..]);
      assert [cart[0]] + cart[1..] == cart;
      IncLinesQuantity(cart[1..], id, x);
      HasLineCons(cart, id);
    }
  }

  lemma IncLinesAbsent(cart: seq<CartLine>, id: string)
    requires !HasLine(cart, id)
    ensures IncLines(cart, id) == cart
  {
  }

  lemma {:induction false} IncLinesKeepsOthers(cart: seq<CartLine>, id: string)
    ensures RemoveLines(IncLines(cart, id), id) == RemoveLines(cart, id)
  {
    if cart != [] {
      var r := IncLines(cart, id);
      assert r[1..] == IncLines(cart[1..], id);
      IncLinesKeepsOthers(cart[1..], id);
    }
  }

  /** `inc(id)`: refused when nothing of `id` is left, otherwise IncLines. */
  function CartAfterInc(products: seq<Product>, cart: seq<CartLine>, id: string): (r: seq<CartLine>)
    ensures RemainingStock(products, cart, id) == 0 ==> r == cart
    ensures !HasLine(cart, id) ==> r == cart
    ensures RemainingStock(products, cart, id) > 0 ==> r == IncLines(cart, id)
    ensures CartInvariant(products, cart) ==> CartInvariant(products, r)
  {
    if RemainingStock(products, cart, id) <= 0 then cart
    else
      var r := IncLines(cart, id);
      assert !HasLine(cart, id) ==> r == cart by {
        if !HasLine(cart, id) {
          IncLinesAbsent(cart, id);
        }
      }
      assert CartInvariant(products, cart) ==> CartInvariant(products, r) by {
        if CartInvariant(products, cart) {
          assert PositiveQuantities(r);
          assert DistinctIds(r) by {
            forall i, j | 0 <= i < j < |r| ensures r[i].id != r[j].id {
              assert r[i].id == cart[i].id && r[j].id == cart[j].id;
            }
          }
          forall x | x != id ensures CartQty(r, x) <= CartQty(cart, x) {
            IncLinesQuantity(cart, id, x);
          }
          IncLinesQuantity(cart, id, id);
          WithinStockTransfer(products, cart, r, id);
        }
      }
      r
  }

  // ---------------------------------------------------------------------------
  // dec

  function DecOne(l: CartLine, id: string): seq<CartLine>
  {
    if l.id != id then [l]
    else if l.qty - 1 <= 0 then []
    else [l.(qty := l.qty - 1)]
  }

  /** The updater `dec(id)` hands to the cart: one unit fewer on every line for
      `id`, dropping a line whose quantity would reach zero. */
  function DecLines(cart: seq<CartLine>, id: string): (r: seq<CartLine>)
    ensures |r| <= |cart|
  {
    if cart == [] then [] else DecOne(cart[0], id) + DecLines(cart[1..], id)
  }

  lemma {:induction false} DecLinesAbsent(cart: seq<CartLine>, id: string)
    requires !HasLine(cart, id)
    ensures DecLines(cart, id) == cart
  {
    if cart != [] {
      assert cart[0].id != id;
      assert !HasLine(cart[1..], id);
      DecLinesAbsent(cart[1..], id);
      assert [cart[0]] + cart[1..] == cart;
    }
  }

  /** With one line per id, `dec` touches only the line for `id`, in its place:
      that line keeps its name and captured price and loses one unit, or is
      dropped when it held a single unit. */
  lemma {:induction false} DecLinesAt(cart: seq<CartLine>, id: string, k: nat)
    requires DistinctIds(cart) && k < |cart| && cart[k].id == id
    ensures DecLines(cart, id) ==
      if cart[k].qty >= 2 then cart[k := cart[k].(qty := cart[k].qty - 1)]
      else cart[..k] + cart[k + 1..]
  {
    DecLinesSplit(cart, id, k);
    if cart[k].qty >= 2 {
      assert cart[k := cart[k].(qty := cart[k].qty - 1)] == cart[..k] + [cart[k].(qty := cart[k].qty - 1)] + cart[k + 1..];
    }
  }

  /** `dec` rewrites the line for `id` and copies every other line. */
  lemma {:induction false} DecLinesSplit(cart: seq<CartLine>, id: string, k: nat)
    requires DistinctIds(cart) && k < |cart| && cart[k].id == id
    ensures DecLines(cart, id) == cart[..k] + DecOne(cart[k], id) + cart[k + 1..]
  {
    var tail := cart[1..];
    assert DistinctIds(tail);
    assert DecLines(cart, id) == DecOne(cart[0], id) + DecLines(tail, id);
    if k == 0 {
      assert !HasLine(tail, id) by {
        forall j | 0 <= j < |tail| ensures tail[j].id != id {
          assert tail[j] == cart[j + 1];
        }
      }
      DecLinesAbsent(tail, id);
      assert cart[..0] == [];
    } else {
      assert cart[0].id != cart[k].id;
      DecLinesSplit(tail, id, k - 1);
      assert tail[k - 1] == cart[k] && tail[k..] == cart[k + 1..];
      assert [cart[0]] + tail[..k - 1] == cart[..k];
    }
  }

  lemma {:induction false} DecLinesKeepsOthers(cart: seq<CartLine>, id: string)
    ensures RemoveLines(DecLines(cart, id), id) == RemoveLines(cart, id)
  {
    if cart != [] {
      DecLinesKeepsOthers(cart[1..], id);
      FilterAppend(DecOne(cart[0], id), DecLines(cart[1..], id), LineIdIsNot(id));
    }
  }

  /** Every line `dec` leaves has a positive quantity and belongs to a product that had a line before. */
  lemma {:induction false} DecLinesShape(cart: seq<CartLine>, id: string)
    requires PositiveQuantities(cart)
    ensures PositiveQuantities(DecLines(cart, id))
    ensures forall x | HasLine(DecLines(cart, id), x) :: HasLine(cart, x)
    ensures DistinctIds(cart) ==> DistinctIds(DecLines(cart, id))
  {
    if cart != [] {
      var h, t := DecOne(cart[0], id), DecLines(cart[1..], id);
      DecLinesShape(cart[1..], id);
      assert DecLines(cart, id) == h + t;
      forall x | HasLine(h + t, x) ensures HasLine(cart, x) {
        var k :| 0 <= k < |h + t| && (h + t)[k].id == x;
        if k < |h| {
          assert cart[0].id == x;
        } else {
          assert t[k - |h|].id == x;
          assert HasLine(t, x);
          var j :| 0 <= j < |cart[1..]| && cart[1..][j].id == x;
          assert cart[j + 1].id == x;
        }
      }
      if DistinctIds(cart) {
        DistinctCons(cart[0], cart[1..]);
        assert [cart[0]] + cart[1..] == cart;
        if h != [] {
          assert !HasLine(t, h[0].id);
          DistinctCons(h[0], t);
          assert h == [h[0]];
        }
      }
    }
  }

  lemma {:induction false} DecLinesQuantity(cart: seq<CartLine>, id: string, x: string)
    requires PositiveQuantities(cart) && DistinctIds(cart)
    ensures CartQty(DecLines(cart, id), x) == CartQty(cart, x) - (if x == id && HasLine(cart, id) then 1 else 0)
    ensures ItemCount(DecLines(cart, id)) == ItemCount(cart) - (if HasLine(cart, id) then 1 else 0)
  {
    if cart != [] {
      var h, t := DecOne(cart[0], id), DecLines(cart[1..], id);
      DistinctCons(cart[0], cart[1..]);
      assert [cart[0]] + cart[1..] == cart;
      DecLinesQuantity(cart[1..], id, x);
      HasLineCons(cart, id);
      if h == [] {
        assert DecLines(cart, id) == t;
      } else {
        assert DecLines(cart, id) == [h[0]] + t;
        assert ([h[0]] + t)[1..] == t;
      }
    }
  }

  /** `dec(id)` on a cart that keeps the invariant keeps it. */
  lemma DecLinesPreservesInvariant(products: seq<Product>, cart: seq<CartLine>, id: string)
    requires CartInvariant(products, cart)
    ensures CartInvariant(products, DecLines(cart, id))
  {
    var r := DecLines(cart, id);
    DecLinesShape(cart, id);
    forall x | x != id ensures CartQty(r, x) <= CartQty(cart, x) {
      DecLinesQuantity(cart, id, x);
    }
    if HasLine(r, id) {
      DecLinesQuantity(cart, id, id);
      var k :| 0 <= k < |cart| && cart[k].id == id;
    }
    WithinStockTransfer(products, cart, r, id);
  }

  /** The line for `id` disappears from the cart exactly when its quantity was 1. */
  lemma DecLinesDropsEmptied(cart: seq<CartLine>, id: string)
    requires PositiveQuantities(cart) && DistinctIds(cart)
    ensures HasLine(DecLines(cart, id), id) <==> CartQty(cart, id) >= 2
  {
    DecLinesShape(cart, id);
    DecLinesQuantity(cart, id, id);
    ReservedIffHasLine(DecLines(cart, id), id);
    ReservedIffHasLine(cart, id);
  }

  // ---------------------------------------------------------------------------
  // removeLine

  /** The updater `removeLine(id)` hands to the cart: keep the lines of other products. */
  function RemoveLines(cart: seq<CartLine>, id: string): (r: seq<CartLine>)
    ensures !HasLine(r, id)
  {
    Filter(cart, LineIdIsNot(id))
  }

  lemma {:induction false} RemoveLinesQuantity(cart: seq<CartLine>, id: string, x: string)
    ensures CartQty(RemoveLines(cart, id), x) == if x == id then 0 else CartQty(cart, x)
  {
    if cart != [] {
      RemoveLinesQuantity(cart[1..], id, x);
      var t := RemoveLines(cart[1..], id);
      if cart[0].id != id {
        assert RemoveLines(cart, id) == [cart[0]] + t;
        assert ([cart[0]] + t)[1..] == t;
      } else {
        assert RemoveLines(cart, id) == t;
      }
    }
  }

  lemma {:induction false} RemoveLinesPreservesInvariant(products: seq<Product>, cart: seq<CartLine>, id: string)
    requires CartInvariant(products, cart)
    ensures CartInvariant(products, RemoveLines(cart, id))
  {
    var r := RemoveLines(cart, id);
    assert PositiveQuantities(r) by {
      forall k | 0 <= k < |r| ensures r[k].qty >= 1 {
        assert r[k] in cart;
      }
    }
    forall x | x != id ensures CartQty(r, x) <= CartQty(cart, x) {
      RemoveLinesQuantity(cart, id, x);
    }
    assert DistinctIds(r) by {
      RemoveLinesDistinct(cart, id);
    }
    WithinStockTransfer(products, cart, r, id);
  }

  lemma {:induction false} RemoveLinesDistinct(cart: seq<CartLine>, id: string)
    requires DistinctIds(cart)
    ensures DistinctIds(RemoveLines(cart, id))
  {
    if cart != [] {
      DistinctCons(cart[0], cart[1..]);
      assert [cart[0]] + cart[1..] == cart;
      RemoveLinesDistinct(cart[1..], id);
      var t := RemoveLines(cart[1..], id);
      if cart[0].id != id {
        assert RemoveLines(cart, id) == [cart[0]] + t;
        forall k | 0 <= k < |t| ensures t[k].id != cart[0].id {
          assert t[k] in cart[1..];
        }
        DistinctCons(cart[0], t);
      }
    }
  }

  // ---------------------------------------------------------------------------
  // Stock alerts

  function RemainingIsZero(products: seq<Product>, cart: seq<CartLine>): Product -> bool
  {
    (p: Product) => RemainingStock(products, cart, p.id) == 0
  }

  function RemainingIsLow(products: seq<Product>, cart: seq<CartLine>, threshold: int): Product -> bool
  {
    (p: Product) => var rem := RemainingStock(products, cart, p.id); rem <= threshold && rem > 0
  }

  /** `outOfStockItems`: the products with nothing left to sell, in catalogue order. */
  function OutOfStockItems(products: seq<Product>, cart: seq<CartLine>): (r: seq<Product>)
    ensures forall p | p in r :: p in products && RemainingStock(products, cart, p.id) == 0
    ensures forall p | p in products && RemainingStock(products, cart, p.id) == 0 :: p in r
    ensures IsSubsequence(r, products)
  {
    FilterIsSubsequence(products, RemainingIsZero(products, cart));
    Filter(products, RemainingIsZero(products, cart))
  }

  /** `lowStockItems`: the products with some, but at most `threshold`, units left. */
  function LowStockItems(products: seq<Product>, cart: seq<CartLine>, threshold: int): (r: seq<Product>)
    ensures forall p | p in r :: p in products && 0 < RemainingStock(products, cart, p.id) <= threshold
    ensures forall p | p in products && 0 < RemainingStock(products, cart, p.id) <= threshold :: p in r
    ensures IsSubsequence(r, products)
  {
    FilterIsSubsequence(products, RemainingIsLow(products, cart, threshold));
    Filter(products, RemainingIsLow(products, cart, threshold))
  }

  /** The two alert lists never share a product, and a product on neither has more than `threshold` left. */
  lemma StockAlertsPartition(products: seq<Product>, cart: seq<CartLine>, threshold: int, p: Product)
    requires p in products
    ensures !(p in OutOfStockItems(products, cart) && p in LowStockItems(products, cart, threshold))
    ensures p !in OutOfStockItems(products, cart) && p !in LowStockItems(products, cart, threshold)
      ==> RemainingStock(products, cart, p.id) > threshold
  {
  }
}
