/** The payments history view: the sales list filtered by payment mode and by
    an inclusive time window, then cut into fixed-size pages. Times are compared
    as milliseconds; `instant` is the host's parsing of a stored time stamp,
    `None` standing for an unparseable one (`NaN`, which fails every comparison,
    so the window never excludes such a sale). */
module History {
  import opened Seqs
  import opened PosTypes

  /** The filter controls: a payment mode or "ALL", and the optional window
      bounds: the start of the `from` day and the last millisecond of the `to` day. */
  datatype SalesFilter = SalesFilter(mode: string, from: Option<int>, toEnd: Option<int>)

  predicate Keeps(f: SalesFilter, instant: string -> Option<int>, s: Sale)
  {
    var t := instant(s.time);
    && (f.mode == "ALL" || s.mode == f.mode)
    && (f.from.None? || t.None? || t.value >= f.from.value)
    && (f.toEnd.None? || t.None? || t.value <= f.toEnd.value)
  }

  function KeepsSale(f: SalesFilter, instant: string -> Option<int>): Sale -> bool
  {
    s => Keeps(f, instant, s)
  }

  /** `filteredSales`: exactly the sales that pass the filter, in their original order. */
  function FilteredSales(sales: seq<Sale>, f: SalesFilter, instant: string -> Option<int>): (r: seq<Sale>)
    ensures IsSubsequence(r, sales)
    ensures forall s | s in r :: s in sales && Keeps(f, instant, s)
    ensures forall s | s in sales && Keeps(f, instant, s) :: s in r
    ensures forall s | s in r :: f.mode == "ALL" || s.mode == f.mode
    ensures forall s | s in r && instant(s.time).Some? ::
      (f.from.Some? ==> f.from.value <= instant(s.time).value)
      && (f.toEnd.Some? ==> instant(s.time).value <= f.toEnd.value)
  {
    FilterIsSubsequence(sales, KeepsSale(f, instant));
    Filter(sales, KeepsSale(f, instant))
  }

  /** `totalPages`: `max(1, ceil(n / pageSize))`, enough pages to hold every
      sale and no page more than needed. */
  function TotalPages(n: nat, pageSize: int): (r: int)
    requires pageSize >= 1
    ensures r >= 1
    ensures n <= r * pageSize
    ensures n > 0 ==> (r - 1) * pageSize < n
    ensures n == 0 ==> r == 1
  {
    var q := if n % pageSize == 0 then n / pageSize else n / pageSize + 1;
    if q < 1 then 1 else q
  }

  /** `pageSales`: the slice for page `page` (counted from 1). */
  function PageSales<T>(s: seq<T>, page: int, pageSize: int): (r: seq<T>)
    requires pageSize >= 0
    ensures |r| <= pageSize
    ensures page >= 1 ==> forall k | 0 <= k < |r| ::
      (page - 1) * pageSize + k < |s| && r[k] == s[(page - 1) * pageSize + k]
    ensures page >= 1 && page * pageSize <= |s| ==> |r| == pageSize
  {
    PageBounds(page, pageSize);
    Slice(s, (page - 1) * pageSize, page * pageSize)
  }

  /** Page `page` is the stretch of the list between its two bounds, each
      capped at the length: the last page may be partial, and a page past the
      end is empty. */
  lemma PageSalesClamped<T>(s: seq<T>, page: int, pageSize: int)
    requires pageSize >= 0 && page >= 1
    ensures var start, end := (page - 1) * pageSize, page * pageSize;
      && 0 <= start <= end
      && PageSales(s, page, pageSize) == s[Clamp(start, |s|)..Clamp(end, |s|)]
  {
    PageBounds(page, pageSize);
  }

  /** A non-negative position, capped at the length `n`. */
  function Clamp(i: nat, n: nat): (r: nat)
    ensures r <= n && r <= i && (r == i || r == n)
  {
    if i < n then i else n
  }

  /** Page `page` runs from `(page - 1) * pageSize` to `page * pageSize`. */
  lemma PageBounds(page: int, pageSize: int)
    requires pageSize >= 0
    ensures page * pageSize == (page - 1) * pageSize + pageSize
    ensures page >= 1 ==> (page - 1) * pageSize >= 0
  {
  }

  /** Pages 1 to `count`, one after the other. */
  function Pages<T>(s: seq<T>, pageSize: int, count: nat): seq<T>
    requires pageSize >= 1
  {
    if count == 0 then [] else Pages(s, pageSize, count - 1) + PageSales(s, count, pageSize)
  }

  lemma {:induction false} PagesArePrefix<T>(s: seq<T>, pageSize: int, count: nat)
    requires pageSize >= 1
    ensures Pages(s, pageSize, count) == s[..Clamp(count * pageSize, |s|)]
  {
    if count > 0 {
      PagesArePrefix(s, pageSize, count - 1);
      PageSalesClamped(s, count, pageSize);
      var lo, hi := Clamp((count - 1) * pageSize, |s|), Clamp(count * pageSize, |s|);
      assert lo <= hi;
      assert Pages(s, pageSize, count) == s[..lo] + s[lo..hi];
      assert s[..lo] + s[lo..hi] == s[..hi];
    }
  }

  /** Stepping through pages 1 to `totalPages` shows every filtered sale once, in order. */
  lemma PagesCoverAll<T>(s: seq<T>, pageSize: int)
    requires pageSize >= 1
    ensures Pages(s, pageSize, TotalPages(|s|, pageSize)) == s
  {
    PagesArePrefix(s, pageSize, TotalPages(|s|, pageSize));
  }
}
