/** The state the point-of-sale screen keeps between events (catalogue, open
    cart, sales history) and the transitions its buttons trigger. Each
    transition replaces whole collections, as the screen's state setters do. */
module PosState {
  import opened Seqs
  import opened PosTypes
  import opened Cart
  import opened Pricing
  import opened CheckoutRules

  /** White space as `String.prototype.trim` removes it: the ECMAScript
      WhiteSpace and LineTerminator code points. */
  predicate IsTrimmed(c: char)
  {
    c == '\t' || c == '\n' || c == '\U{000B}' || c == '\U{000C}' || c == '\r' || c == ' '
    || c == '\U{00A0}' || c == '\U{1680}' || ('\U{2000}' <= c <= '\U{200A}')
    || c == '\U{2028}' || c == '\U{2029}' || c == '\U{202F}' || c == '\U{205F}'
    || c == '\U{3000}' || c == '\U{FEFF}'
  }

  function TrimStart(s: string): (r: string)
    ensures |r| <= |s| && r == s[|s| - |r|..]
    ensures forall i | 0 <= i < |s| - |r| :: IsTrimmed(s[i])
    ensures r == [] || !IsTrimmed(r[0])
  {
    if s != [] && IsTrimmed(s[0]) then TrimStart(s[1..]) else s
  }

  function TrimEnd(s: string): (r: string)
    ensures |r| <= |s| && r == s[..|r|]
    ensures forall i | |r| <= i < |s| :: IsTrimmed(s[i])
    ensures r == [] || !IsTrimmed(r[|r| - 1])
  {
    if s != [] && IsTrimmed(s[|s| - 1]) then TrimEnd(s[..|s| - 1]) else s
  }

  /** `String.prototype.trim`: the text without its leading and trailing white space. */
  function Trim(s: string): (r: string)
    ensures r == [] <==> forall i | 0 <= i < |s| :: IsTrimmed(s[i])
    ensures r != [] ==> !IsTrimmed(r[0]) && !IsTrimmed(r[|r| - 1])
    ensures exists i, j | 0 <= i <= j <= |s| ::
      && r == s[i..j]
      && (forall k | 0 <= k < i :: IsTrimmed(s[k]))
      && (forall k | j <= k < |s| :: IsTrimmed(s[k]))
  {
    var t := TrimStart(s);
    TrimmedStretch(s, t, TrimEnd(t));
    TrimEnd(t)
  }

  /** Dropping white space from the front and then from the back leaves one
      stretch of the text, with only white space around it. */
  lemma TrimmedStretch(s: string, t: string, r: string)
    requires |t| <= |s| && t == s[|s| - |t|..]
    requires forall k | 0 <= k < |s| - |t| :: IsTrimmed(s[k])
    requires |r| <= |t| && r == t[..|r|]
    requires forall k | |r| <= k < |t| :: IsTrimmed(t[k])
    ensures exists i, j | 0 <= i <= j <= |s| ::
      && r == s[i..j]
      && (forall k | 0 <= k < i :: IsTrimmed(s[k]))
      && (forall k | j <= k < |s| :: IsTrimmed(s[k]))
  {
    var i := |s| - |t|;
    var j := i + |r|;
    SuffixPrefix(s, i, r);
    forall k | j <= k < |s|
      ensures IsTrimmed(s[k])
    {
      assert t[k - i] == s[k];
    }
  }

  /** A prefix of a suffix is a slice. */
  lemma SuffixPrefix<T>(s: seq<T>, i: nat, r: seq<T>)
    requires i <= |s| && |r| <= |s| - i && r == s[i..][..|r|]
    ensures r == s[i..i + |r|]
  {
  }

  /** A quick-add code names a product by its SKU or by its id. */
  function CodeMatches(code: string): Product -> bool
  {
    (p: Product) => p.sku == code || p.id == code
  }

  class Store {
    var products: seq<Product>
    var cart: seq<CartLine>
    var sales: seq<Sale>

    ghost predicate Valid()
      reads this
    {
      CartInvariant(products, cart)
    }

    constructor (catalogue: seq<Product>, history: seq<Sale>)
      ensures products == catalogue && cart == [] && sales == history
      ensures Valid()
    {
      products, cart, sales := catalogue, [], history;
    }

    /** `addToCart(p)`: one more unit of `p`, unless none is left to sell. */
    method AddToCart(p: Product)
      modifies this
      ensures products == old(products) && sales == old(sales)
      ensures cart == CartAfterAdd(old(products), old(cart), p)
      ensures old(Valid()) ==> Valid()
    {
      var rem := RemainingStock(products, cart, p.id);
      if rem <= 0 {
        return;
      }
      match FindIndex(cart, LineIdIs(p.id)) {
        case None =>
          cart := cart + [CartLine(p.id, p.name, 1, p.price)];
        case Some(i) =>
          var cp := cart;
          cp := cp[i := cp[i].(qty := cp[i].qty + 1)];
          cart := cp;
      }
    }

    /** `inc(id)`: one more unit on the line for `id`, unless none is left to sell. */
    method Inc(id: string)
      modifies this
      ensures products == old(products) && sales == old(sales)
      ensures cart == CartAfterInc(old(products), old(cart), id)
      ensures old(Valid()) ==> Valid()
    {
      var rem := RemainingStock(products, cart, id);
      if rem <= 0 {
        return;
      }
      cart := IncLines(cart, id);
    }

    /** `dec(id)`: one unit fewer on the line for `id`; a line that would reach zero goes. */
    method Dec(id: string)
      modifies this
      ensures products == old(products) && sales == old(sales)
      ensures cart == DecLines(old(cart), id)
      ensures old(Valid()) ==> Valid()
    {
      if Valid() {
        DecLinesPreservesInvariant(products, cart, id);
      }
      cart := DecLines(cart, id);
    }

    /** `removeLine(id)`: drop the line for `id`. */
    method RemoveLine(id: string)
      modifies this
      ensures products == old(products) && sales == old(sales)
      ensures cart == RemoveLines(old(cart), id)
      ensures old(Valid()) ==> Valid()
    {
      if Valid() {
        RemoveLinesPreservesInvariant(products, cart, id);
      }
      cart := RemoveLines(cart, id);
    }

    /** `clearCart()` */
    method ClearCart()
      modifies this
      ensures products == old(products) && sales == old(sales)
      ensures cart == []
      ensures Valid()
    {
      cart := [];
    }

    /** `onQuickAdd()`: add the first product whose SKU or id equals the trimmed
        code; a blank code or one that matches nothing changes nothing. */
    method QuickAdd(code: string)
      modifies this
      ensures products == old(products) && sales == old(sales)
      ensures Trim(code) == [] ==> cart == old(cart)
      ensures Trim(code) != [] ==>
        cart == match FindIndex(products, CodeMatches(Trim(code))) {
          case None => old(cart)
          case Some(k) => CartAfterAdd(products, old(cart), products[k])
        }
      ensures old(Valid()) ==> Valid()
    {
      var c := Trim(code);
      if c == [] {
        return;
      }
      match FindIndex(products, CodeMatches(c)) {
        case None =>
        case Some(k) => AddToCart(products[k]);
      }
    }

    /** `checkout()`: with a non-empty cart and no checkout in progress, take the
        sold quantities out of stock, put the sale at the head of the history
        and empty the cart. `id` and `time` are the new sale's identifier and
        time stamp. */
    method Checkout(busy: bool, discount: real, taxPercent: real, mode: string, id: string, time: string)
      returns (sale: Option<Sale>)
      modifies this
      ensures old(cart) == [] || busy ==>
        sale == None && products == old(products) && cart == old(cart) && sales == old(sales)
      ensures old(cart) != [] && !busy ==>
        && sale == Some(MakeSale(old(cart), ComputeTotals(old(cart), discount, taxPercent), taxPercent, mode, id, time))
        && products == Restock(old(products), old(cart))
        && sales == [sale.value] + old(sales)
        && cart == []
      ensures old(Valid()) ==> Valid()
    {
      if cart == [] || busy {
        return None;
      }
      var totals := ComputeTotals(cart, discount, taxPercent);
      products := Restock(products, cart);
      var s := MakeSale(cart, totals, taxPercent, mode, id, time);
      sales := [s] + sales;
      cart := [];
      sale := Some(s);
    }
  }
}
