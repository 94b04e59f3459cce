/** The best-sellers figures of the analytics view: the quantity sold of each
    item name over the whole sales history, kept as the entries of a JavaScript
    `Map` in insertion order, and the seven names with the largest quantities. */
module ProductStats {
  import opened Seqs
  import opened PosTypes

  /** One `Map` entry: an item name and the quantity sold under it. */
  datatype ProductTotal = ProductTotal(name: string, qty: int)

  function NameIs(name: string): ProductTotal -> bool
  {
    (e: ProductTotal) => e.name == name
  }

  /** The quantity recorded for `name`, summed over the entries (0 when absent). */
  function EntryQty(entries: seq<ProductTotal>, name: string): int
  {
    if entries == [] then 0 else (if entries[0].name == name then entries[0].qty else 0) + EntryQty(entries[1..], name)
  }

  predicate HasEntry(entries: seq<ProductTotal>, name: string)
  {
    exists k | 0 <= k < |entries| :: entries[k].name == name
  }

  /** A `Map` holds each key once. */
  predicate DistinctNames(entries: seq<ProductTotal>)
  {
    forall i, j | 0 <= i < j < |entries| :: entries[i].name != entries[j].name
  }

  /** The quantity of the items named `name` in one sale. */
  function ItemsQtyOf(items: seq<SaleItem>, name: string): int
  {
    if items == [] then 0 else (if items[0].name == name then items[0].qty else 0) + ItemsQtyOf(items[1..], name)
  }

  /** The quantity sold under `name` over all sales. */
  function SoldQty(sales: seq<Sale>, name: string): int
  {
    if sales == [] then 0 else ItemsQtyOf(sales[0].items, name) + SoldQty(sales[1..], name)
  }

  predicate ItemsNamed(items: seq<SaleItem>, name: string)
  {
    exists k | 0 <= k < |items| :: items[k].name == name
  }

  /** Some sale has an item named `name`. */
  predicate Sold(sales: seq<Sale>, name: string)
  {
    exists i | 0 <= i < |sales| :: ItemsNamed(sales[i].items, name)
  }

  // ---------------------------------------------------------------------------
  // Building the map

  /** `m.set(name, (m.get(name) || 0) + qty)`: an existing key keeps its place, a new one goes last. */
  function AggInsert(entries: seq<ProductTotal>, name: string, qty: int): (r: seq<ProductTotal>)
    ensures HasEntry(entries, name) ==> |r| == |entries|
    ensures !HasEntry(entries, name) ==> r == entries + [ProductTotal(name, qty)]
    ensures forall k | 0 <= k < |entries| :: r[k].name == entries[k].name
    ensures forall k | 0 <= k < |entries| && entries[k].name != name :: r[k] == entries[k]
  {
    match FindIndex(entries, NameIs(name))
    case None => entries + [ProductTotal(name, qty)]
    case Some(i) => entries[i := ProductTotal(name, entries[i].qty + qty)]
  }

  lemma {:induction false} EntryQtyAppend(entries: seq<ProductTotal>, e: ProductTotal, x: string)
    ensures EntryQty(entries + [e], x) == EntryQty(entries, x) + (if e.name == x then e.qty else 0)
  {
    if entries != [] {
      assert (entries + [e])[1..] == entries[1..] + [e];
      EntryQtyAppend(entries[1..], e, x);
    }
  }

  lemma {:induction false} EntryQtyUpdate(entries: seq<ProductTotal>, i: nat, e: ProductTotal, x: string)
    requires i < |entries|
    ensures EntryQty(entries[i := e], x) == EntryQty(entries, x)
      - (if entries[i].name == x then entries[i].qty else 0) + (if e.name == x then e.qty else 0)
  {
    if i > 0 {
      assert entries[i := e][1..] == entries[1..][i - 1 := e];
      EntryQtyUpdate(entries[1..], i - 1, e, x);
    }
  }

  /** Inserting adds `qty` to the quantity of `name` and leaves every other name's quantity alone. */
  lemma AggInsertQty(entries: seq<ProductTotal>, name: string, qty: int, x: string)
    ensures EntryQty(AggInsert(entries, name, qty), x) == EntryQty(entries, x) + (if x == name then qty else 0)
  {
    match FindIndex(entries, NameIs(name))
    case None => EntryQtyAppend(entries, ProductTotal(name, qty), x);
    case Some(i) => EntryQtyUpdate(entries, i, ProductTotal(name, entries[i].qty + qty), x);
  }

  /** Inserting adds `name` to the keys and keeps them distinct. */
  lemma AggInsertNames(entries: seq<ProductTotal>, name: string, qty: int)
    ensures var r := AggInsert(entries, name, qty);
            && HasEntry(r, name)
            && (forall x :: HasEntry(r, x) <==> HasEntry(entries, x) || x == name)
            && (DistinctNames(entries) ==> DistinctNames(r))
  {
    var r := AggInsert(entries, name, qty);
    match FindIndex(entries, NameIs(name))
    case None =>
      assert r[|entries|].name == name;
      forall x | HasEntry(r, x) ensures HasEntry(entries, x) || x == name {
        var k :| 0 <= k < |r| && r[k].name == x;
        if k < |entries| {
          assert entries[k].name == x;
        }
      }
    case Some(i) =>
      assert r[i].name == name;
  }

  /** `s.items.forEach(i => m.set(...))`: the items of one sale folded into the map. */
  function AggItems(entries: seq<ProductTotal>, items: seq<SaleItem>): seq<ProductTotal>
    decreases |items|
  {
    if items == [] then entries else AggItems(AggInsert(entries, items[0].name, items[0].qty), items[1..])
  }

  /** `sales.forEach(s => ...)`: every sale folded into the map, oldest entry first. */
  function AggSales(entries: seq<ProductTotal>, sales: seq<Sale>): seq<ProductTotal>
    decreases |sales|
  {
    if sales == [] then entries else AggSales(AggItems(entries, sales[0].items), sales[1..])
  }

  /** `productAggMap` as the list of its entries. */
  function ProductTotals(sales: seq<Sale>): seq<ProductTotal>
  {
    AggSales([], sales)
  }

  lemma {:induction false} AggItemsQty(entries: seq<ProductTotal>, items: seq<SaleItem>, x: string)
    ensures EntryQty(AggItems(entries, items), x) == EntryQty(entries, x) + ItemsQtyOf(items, x)
    decreases |items|
  {
    if items != [] {
      AggInsertQty(entries, items[0].name, items[0].qty, x);
      AggItemsQty(AggInsert(entries, items[0].name, items[0].qty), items[1..], x);
    }
  }

  lemma {:induction false} AggItemsNames(entries: seq<ProductTotal>, items: seq<SaleItem>, x: string)
    ensures HasEntry(AggItems(entries, items), x) <==> HasEntry(entries, x) || ItemsNamed(items, x)
    ensures DistinctNames(entries) ==> DistinctNames(AggItems(entries, items))
    decreases |items|
  {
    if items != [] {
      AggInsertNames(entries, items[0].name, items[0].qty);
      AggItemsNames(AggInsert(entries, items[0].name, items[0].qty), items[1..], x);
      if ItemsNamed(items[1..], x) {
        var k :| 0 <= k < |items[1..]| && items[1..][k].name == x;
        assert items[k + 1].name == x;
      }
      if ItemsNamed(items, x) && items[0].name != x {
        var k :| 0 <= k < |items| && items[k].name == x;
        assert items[1..][k - 1].name == x;
      }
    }
  }

  lemma {:induction false} AggSalesQty(entries: seq<ProductTotal>, sales: seq<Sale>, x: string)
    ensures EntryQty(AggSales(entries, sales), x) == EntryQty(entries, x) + SoldQty(sales, x)
    decreases |sales|
  {
    if sales != [] {
      AggItemsQty(entries, sales[0].items, x);
      AggSalesQty(AggItems(entries, sales[0].items), sales[1..], x);
    }
  }

  lemma {:induction false} AggSalesNames(entries: seq<ProductTotal>, sales: seq<Sale>, x: string)
    ensures HasEntry(AggSales(entries, sales), x) <==> HasEntry(entries, x) || Sold(sales, x)
    ensures DistinctNames(entries) ==> DistinctNames(AggSales(entries, sales))
    decreases |sales|
  {
    if sales != [] {
      AggItemsNames(entries, sales[0].items, x);
      AggSalesNames(AggItems(entries, sales[0].items), sales[1..], x);
      if Sold(sales[1..], x) {
        var i :| 0 <= i < |sales[1..]| && ItemsNamed(sales[1..][i].items, x);
        assert sales[1..][i] == sales[i + 1];
      }
      if Sold(sales, x) && !ItemsNamed(sales[0].items, x) {
        var i :| 0 <= i < |sales| && ItemsNamed(sales[i].items, x);
        assert sales[1..][i - 1] == sales[i];
      }
    }
  }

  lemma {:induction false} AbsentEntryQty(entries: seq<ProductTotal>, x: string)
    requires !HasEntry(entries, x)
    ensures EntryQty(entries, x) == 0
  {
    if entries != [] {
      assert entries[0].name != x;
      assert !HasEntry(entries[1..], x);
      AbsentEntryQty(entries[1..], x);
    }
  }

  /** With distinct keys, the quantity of a name is the quantity in its one entry. */
  lemma {:induction false} DistinctEntryQty(entries: seq<ProductTotal>, k: nat)
    requires DistinctNames(entries) && k < |entries|
    ensures EntryQty(entries, entries[k].name) == entries[k].qty
  {
    var x := entries[k].name;
    if k == 0 {
      assert !HasEntry(entries[1..], x);
      AbsentEntryQty(entries[1..], x);
    } else {
      assert entries[0].name != x;
      assert entries[1..][k - 1] == entries[k];
      DistinctEntryQty(entries[1..], k - 1);
    }
  }

  /** The map holds each sold item name once, and nothing else, with the total
      quantity sold under that name. */
  lemma ProductTotalsCorrect(sales: seq<Sale>)
    ensures DistinctNames(ProductTotals(sales))
    ensures forall x :: HasEntry(ProductTotals(sales), x) <==> Sold(sales, x)
    ensures forall e | e in ProductTotals(sales) :: e.qty == SoldQty(sales, e.name)
  {
    var r := ProductTotals(sales);
    forall x ensures HasEntry(r, x) <==> Sold(sales, x) {
      AggSalesNames([], sales, x);
    }
    AggSalesNames([], sales, "");
    forall e | e in r ensures e.qty == SoldQty(sales, e.name) {
      var k :| 0 <= k < |r| && r[k] == e;
      AggSalesQty([], sales, e.name);
      DistinctEntryQty(r, k);
    }
  }

  /** `productAggMap`: the nested `forEach` loops filling the map. */
  method ProductAggMap(sales: seq<Sale>) returns (entries: seq<ProductTotal>)
    ensures entries == ProductTotals(sales)
  {
    entries := [];
    for i := 0 to |sales|
      invariant AggSales(entries, sales[i..]) == ProductTotals(sales)
    {
      var items := sales[i].items;
      ghost var before := entries;
      for j := 0 to |items|
        invariant AggItems(entries, items[j..]) == AggItems(before, items)
      {
        assert items[j..][1..] == items[j + 1..];
        entries := AggInsert(entries, items[j].name, items[j].qty);
      }
      assert sales[i..][1..] == sales[i + 1..];
    }
  }

  // ---------------------------------------------------------------------------
  // Ranking

  /** Non-increasing quantities, the order `sort((a, b) => b.qty - a.qty)` produces. */
  predicate SortedByQty(s: seq<ProductTotal>)
  {
    forall i, j | 0 <= i < j < |s| :: s[i].qty >= s[j].qty
  }

  /** Places `x` before the first entry whose quantity does not exceed its own. */
  function InsertByQty(x: ProductTotal, s: seq<ProductTotal>): (r: seq<ProductTotal>)
    ensures multiset(r) == multiset(s) + multiset{x}
  {
    if s == [] || s[0].qty <= x.qty then [x] + s
    else
      assert s == [s[0]] + s[1..];
      [s[0]] + InsertByQty(x, s[1..])
  }

  lemma {:induction false} InsertByQtySorted(x: ProductTotal, s: seq<ProductTotal>)
    requires SortedByQty(s)
    ensures SortedByQty(InsertByQty(x, s))
  {
    if s != [] && s[0].qty > x.qty {
      var t := InsertByQty(x, s[1..]);
      InsertByQtySorted(x, s[1..]);
      forall k | 0 <= k < |t| ensures t[k].qty <= s[0].qty {
        assert t[k] in multiset(s[1..]) + multiset{x};
        if t[k] != x {
          var j :| 0 <= j < |s[1..]| && s[1..][j] == t[k];
          assert s[j + 1] == t[k];
        }
      }
    }
  }

  /** The stable sort by descending quantity: of two entries with equal
      quantities, the one inserted into the map first stays first. */
  function SortByQty(s: seq<ProductTotal>): (r: seq<ProductTotal>)
    ensures multiset(r) == multiset(s)
    ensures SortedByQty(r)
  {
    if s == [] then []
    else
      assert s == [s[0]] + s[1..];
      InsertByQtySorted(s[0], SortByQty(s[1..]));
      InsertByQty(s[0], SortByQty(s[1..]))
  }

  /** Inserting an entry under a new name keeps the names distinct. */
  lemma {:induction false} InsertByQtyDistinct(x: ProductTotal, s: seq<ProductTotal>)
    requires DistinctNames(s) && forall k | 0 <= k < |s| :: s[k].name != x.name
    ensures DistinctNames(InsertByQty(x, s))
  {
    if s != [] && s[0].qty > x.qty {
      var t := InsertByQty(x, s[1..]);
      InsertByQtyDistinct(x, s[1..]);
      forall k | 0 <= k < |t| ensures t[k].name != s[0].name {
        assert t[k] in multiset(s[1..]) + multiset{x};
        if t[k] != x {
          var j :| 0 <= j < |s[1..]| && s[1..][j] == t[k];
          assert s[j + 1] == t[k];
        }
      }
      assert InsertByQty(x, s) == [s[0]] + t;
    }
  }

  /** Sorting a map's entries keeps their names distinct. */
  lemma {:induction false} SortByQtyDistinct(s: seq<ProductTotal>)
    requires DistinctNames(s)
    ensures DistinctNames(SortByQty(s))
  {
    if s != [] {
      var t := SortByQty(s[1..]);
      SortByQtyDistinct(s[1..]);
      forall k | 0 <= k < |t| ensures t[k].name != s[0].name {
        assert t[k] in multiset(s[1..]);
        var j :| 0 <= j < |s[1..]| && s[1..][j] == t[k];
        assert s[j + 1] == t[k];
      }
      InsertByQtyDistinct(s[0], t);
    }
  }

  lemma SortedFromTotals(totals: seq<ProductTotal>)
    ensures forall e | e in SortByQty(totals) :: e in totals
  {
    var sorted := SortByQty(totals);
    forall e | e in sorted ensures e in totals {
      assert e in multiset(sorted);
    }
  }

  /** `topProducts`: the first seven entries of the sorted map. */
  function TopProducts(sales: seq<Sale>): (r: seq<ProductTotal>)
    ensures |r| <= 7 && |r| == if |ProductTotals(sales)| < 7 then |ProductTotals(sales)| else 7
    ensures SortedByQty(r)
    ensures forall e | e in r :: e in ProductTotals(sales) && e.qty == SoldQty(sales, e.name)
    ensures DistinctNames(r)
    ensures |ProductTotals(sales)| <= 7 ==> multiset(r) == multiset(ProductTotals(sales))
  {
    var totals := ProductTotals(sales);
    var sorted := SortByQty(totals);
    ProductTotalsCorrect(sales);
    SortedFromTotals(totals);
    SortByQtyDistinct(totals);
    assert |sorted| == |totals| by {
      assert |multiset(sorted)| == |multiset(totals)|;
    }
    var n := if |sorted| < 7 then |sorted| else 7;
    assert n == |sorted| ==> sorted[..n] == sorted;
    sorted[..n]
  }

  /** No entry left out of the top list sold more than any entry in it. */
  lemma TopProductsAreTop(sales: seq<Sale>)
    ensures forall e, k | e in ProductTotals(sales) && e !in TopProducts(sales) && 0 <= k < |TopProducts(sales)| ::
      e.qty <= TopProducts(sales)[k].qty
  {
    var totals := ProductTotals(sales);
    var sorted := SortByQty(totals);
    var r := TopProducts(sales);
    forall e, k | e in totals && e !in r && 0 <= k < |r|
      ensures e.qty <= r[k].qty
    {
      assert e in multiset(sorted);
      var j :| 0 <= j < |sorted| && sorted[j] == e;
      assert r[k] == sorted[k];
    }
  }
}
