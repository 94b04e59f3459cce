/** The revenue figures of the analytics view: totals per payment mode and per
    day, and a trailing three-day moving average of the daily totals. Both
    groupings have the same shape: for each key in a fixed list, the sum of the
    values of the sales whose key is that one. */
module Analytics {
  import opened Seqs
  import opened PosTypes

  /** `reduce((a, s) => a + (s.net ?? s.amount ?? 0), 0)` */
  function SalesTotal(sales: seq<Sale>): real
  {
    if sales == [] then 0.0 else SaleValue(sales[0]) + SalesTotal(sales[1..])
  }

  function SumReals(xs: seq<real>): real
  {
    if xs == [] then 0.0 else xs[0] + SumReals(xs[1..])
  }

  function KeyIs<K(==)>(key: Sale -> K, k: K): Sale -> bool
  {
    (s: Sale) => key(s) == k
  }

  function KeyIn<K(==)>(key: Sale -> K, ks: set<K>): Sale -> bool
  {
    (s: Sale) => key(s) in ks
  }

  function KeyNotIn<K(==)>(key: Sale -> K, ks: set<K>): Sale -> bool
  {
    (s: Sale) => key(s) !in ks
  }

  /** The total of the sales `p` keeps, accumulated sale by sale. */
  function KeptTotal(sales: seq<Sale>, p: Sale -> bool): real
  {
    if sales == [] then 0.0 else (if p(sales[0]) then SaleValue(sales[0]) else 0.0) + KeptTotal(sales[1..], p)
  }

  /** Filtering first and then summing gives the sale-by-sale total of the kept sales. */
  lemma {:induction false} FilterTotal(sales: seq<Sale>, p: Sale -> bool)
    ensures SalesTotal(Filter(sales, p)) == KeptTotal(sales, p)
  {
    if sales != [] {
      FilterTotal(sales[1..], p);
      var rest := Filter(sales[1..], p);
      if p(sales[0]) {
        assert ([sales[0]] + rest)[1..] == rest;
      } else {
        assert [] + rest == rest;
      }
    }
  }

  lemma {:induction false} KeptTotalNone<K>(sales: seq<Sale>, key: Sale -> K)
    ensures KeptTotal(sales, KeyIn(key, {})) == 0.0
  {
    if sales != [] {
      KeptTotalNone(sales[1..], key);
    }
  }

  /** Adding a key that is not yet in the set adds that key's total. */
  lemma {:induction false} KeptTotalAddKey<K>(sales: seq<Sale>, key: Sale -> K, ks: set<K>, k: K)
    requires k !in ks
    ensures KeptTotal(sales, KeyIn(key, ks + {k})) == KeptTotal(sales, KeyIs(key, k)) + KeptTotal(sales, KeyIn(key, ks))
  {
    if sales != [] {
      KeptTotalAddKey(sales[1..], key, ks, k);
    }
  }

  /** Every sale is either kept or dropped. */
  lemma {:induction false} KeptTotalComplement<K>(sales: seq<Sale>, key: Sale -> K, ks: set<K>)
    ensures KeptTotal(sales, KeyIn(key, ks)) + KeptTotal(sales, KeyNotIn(key, ks)) == SalesTotal(sales)
  {
    if sales != [] {
      KeptTotalComplement(sales[1..], key, ks);
    }
  }

  predicate DistinctKeys<K(==)>(keys: seq<K>)
  {
    forall i, j | 0 <= i < j < |keys| :: keys[i] != keys[j]
  }

  /** `keys.map(k => sales.filter(s => key(s) === k).reduce(sum))` */
  function GroupTotals<K(==)>(keys: seq<K>, sales: seq<Sale>, key: Sale -> K): (r: seq<real>)
    ensures |r| == |keys|
  {
    seq(|keys|, i requires 0 <= i < |keys| => SalesTotal(Filter(sales, KeyIs(key, keys[i]))))
  }

  /** Each group's figure is the sale-by-sale total of the sales with that key. */
  lemma GroupTotalsAt<K>(keys: seq<K>, sales: seq<Sale>, key: Sale -> K)
    ensures forall i | 0 <= i < |keys| :: GroupTotals(keys, sales, key)[i] == KeptTotal(sales, KeyIs(key, keys[i]))
  {
    forall i | 0 <= i < |keys|
      ensures GroupTotals(keys, sales, key)[i] == KeptTotal(sales, KeyIs(key, keys[i]))
    {
      FilterTotal(sales, KeyIs(key, keys[i]));
    }
  }

  lemma DistinctKeysTail<K>(keys: seq<K>)
    requires DistinctKeys(keys) && keys != []
    ensures DistinctKeys(keys[1..])
    ensures keys[0] !in (set k | k in keys[1..])
    ensures (set k | k in keys) == (set k | k in keys[1..]) + {keys[0]}
  {
    var rest := keys[1..];
    forall i, j | 0 <= i < j < |rest| ensures rest[i] != rest[j] {
      assert rest[i] == keys[i + 1] && rest[j] == keys[j + 1];
    }
    forall j | 0 <= j < |rest| ensures rest[j] != keys[0] {
      assert rest[j] == keys[j + 1];
    }
    assert keys == [keys[0]] + rest;
  }

  lemma {:induction false} GroupTotalsSum<K>(keys: seq<K>, sales: seq<Sale>, key: Sale -> K)
    requires DistinctKeys(keys)
    ensures SumReals(GroupTotals(keys, sales, key)) == KeptTotal(sales, KeyIn(key, set k | k in keys))
  {
    if keys == [] {
      assert (set k | k in keys) == {};
      KeptTotalNone(sales, key);
    } else {
      var rest := keys[1..];
      var g := GroupTotals(keys, sales, key);
      assert g[1..] == GroupTotals(rest, sales, key);
      DistinctKeysTail(keys);
      GroupTotalsSum(rest, sales, key);
      KeptTotalAddKey(sales, key, (set k | k in rest), keys[0]);
      FilterTotal(sales, KeyIs(key, keys[0]));
      assert SumReals(g) == g[0] + SumReals(g[1..]);
    }
  }

  /** With distinct keys the groups split the revenue: the group figures plus the
      total of the sales whose key is in no group make up the whole. */
  lemma GroupTotalsPartition<K>(keys: seq<K>, sales: seq<Sale>, key: Sale -> K)
    requires DistinctKeys(keys)
    ensures SumReals(GroupTotals(keys, sales, key)) + SalesTotal(Filter(sales, KeyNotIn(key, set k | k in keys)))
            == SalesTotal(sales)
  {
    var ks := set k | k in keys;
    GroupTotalsSum(keys, sales, key);
    FilterTotal(sales, KeyNotIn(key, ks));
    KeptTotalComplement(sales, key, ks);
  }

  // ---------------------------------------------------------------------------
  // Payment modes

  const PayModes: seq<string> := ["CASH", "UPI", "CARD", "CREDIT"]

  datatype NamedTotal = NamedTotal(name: string, value: real)

  function SaleMode(s: Sale): string
  {
    s.mode
  }

  /** `payModeAgg`: one entry per payment mode, in the fixed order, with the
      revenue of the sales paid that way. */
  function PayModeAgg(sales: seq<Sale>): (r: seq<NamedTotal>)
    ensures |r| == 4
    ensures forall k | 0 <= k < 4 :: r[k].name == PayModes[k]
    ensures forall k | 0 <= k < 4 :: r[k].value == KeptTotal(sales, KeyIs(SaleMode, PayModes[k]))
  {
    var g := GroupTotals(PayModes, sales, SaleMode);
    GroupTotalsAt(PayModes, sales, SaleMode);
    seq(4, k requires 0 <= k < 4 => NamedTotal(PayModes[k], g[k]))
  }

  lemma SumRealsFour(g: seq<real>)
    requires |g| == 4
    ensures SumReals(g) == g[0] + g[1] + g[2] + g[3]
  {
    var g1 := g[1..];
    var g2 := g1[1..];
    var g3 := g2[1..];
    assert g3[1..] == [];
    assert SumReals(g3) == g[3];
    assert SumReals(g2) == g[2] + g[3];
    assert SumReals(g1) == g[1] + g[2] + g[3];
  }

  lemma PayModesDistinct()
    ensures DistinctKeys(PayModes)
  {
    assert PayModes[0][1] == 'A' && PayModes[1][1] == 'P' && PayModes[2][1] == 'A' && PayModes[3][1] == 'R';
    assert PayModes[0][2] == 'S' && PayModes[2][2] == 'R';
  }

  /** The four mode figures and the sales paid some other way add up to all revenue. */
  lemma PayModeAggPartition(sales: seq<Sale>)
    ensures var r := PayModeAgg(sales);
            r[0].value + r[1].value + r[2].value + r[3].value
              + SalesTotal(Filter(sales, KeyNotIn(SaleMode, set m | m in PayModes))) == SalesTotal(sales)
  {
    var r := PayModeAgg(sales);
    var g := GroupTotals(PayModes, sales, SaleMode);
    PayModesDistinct();
    GroupTotalsPartition(PayModes, sales, SaleMode);
    GroupTotalsAt(PayModes, sales, SaleMode);
    assert r[0].value == g[0] && r[1].value == g[1] && r[2].value == g[2] && r[3].value == g[3];
    SumRealsFour(g);
  }

  lemma NoOtherModes(sales: seq<Sale>)
    requires forall s | s in sales :: s.mode in PayModes
    ensures Filter(sales, KeyNotIn(SaleMode, set m | m in PayModes)) == []
  {
    var p := KeyNotIn(SaleMode, set m | m in PayModes);
    forall k | 0 <= k < |sales| ensures !p(sales[k]) {
      assert sales[k] in sales;
    }
    FilterNone(sales, p);
  }

  /** When every sale uses one of the four modes, the four figures add up to all revenue. */
  lemma PayModeAggCoversAll(sales: seq<Sale>)
    requires forall s | s in sales :: s.mode in PayModes
    ensures var r := PayModeAgg(sales);
            r[0].value + r[1].value + r[2].value + r[3].value == SalesTotal(sales)
  {
    PayModeAggPartition(sales);
    NoOtherModes(sales);
  }

  // ---------------------------------------------------------------------------
  // Daily revenue

  function SaleDay(dayKey: string -> int): Sale -> int
  {
    (s: Sale) => dayKey(s.time)
  }

  /** `salesByDay`: for each day of the range (`days` holds the calendar days as
      keys, `dayKey` maps a stored time to its day), the revenue of that day. */
  function SalesByDay(days: seq<int>, sales: seq<Sale>, dayKey: string -> int): (r: seq<real>)
    ensures |r| == |days|
    ensures forall i | 0 <= i < |days| :: r[i] == KeptTotal(sales, KeyIs(SaleDay(dayKey), days[i]))
  {
    GroupTotalsAt(days, sales, SaleDay(dayKey));
    GroupTotals(days, sales, SaleDay(dayKey))
  }

  /** Over a range of distinct days, the daily figures and the sales outside the
      range make up all revenue. */
  lemma SalesByDayPartition(days: seq<int>, sales: seq<Sale>, dayKey: string -> int)
    requires DistinctKeys(days)
    ensures SumReals(SalesByDay(days, sales, dayKey))
            + SalesTotal(Filter(sales, KeyNotIn(SaleDay(dayKey), set d | d in days))) == SalesTotal(sales)
  {
    GroupTotalsPartition(days, sales, SaleDay(dayKey));
  }

  // ---------------------------------------------------------------------------
  // Moving average

  function Min(a: int, b: int): int
  {
    if a < b then a else b
  }

  function Max(a: int, b: int): int
  {
    if a < b then b else a
  }

  /** `movingAvg`: each day's figure averaged with up to two days before it. */
  function MovingAvg(xs: seq<real>): (r: seq<real>)
    ensures |r| == |xs|
  {
    seq(|xs|, i requires 0 <= i < |xs| => WindowAvg(xs, i))
  }

  /** `arr.slice(Math.max(0, idx - 2), idx + 1).reduce(sum) / Math.min(idx + 1, 3)` */
  function WindowAvg(xs: seq<real>, i: nat): real
  {
    SumReals(Slice(xs, Max(0, i - 2), i + 1)) / (Min(i + 1, 3) as real)
  }

  lemma SumRealsWindow(xs: seq<real>, i: nat)
    requires 2 <= i < |xs|
    ensures SumReals(xs[i - 2..i + 1]) == xs[i - 2] + xs[i - 1] + xs[i]
  {
    var w := xs[i - 2..i + 1];
    var w1 := w[1..];
    var w2 := w1[1..];
    assert w2[1..] == [];
    assert SumReals(w2) == xs[i];
    assert SumReals(w1) == xs[i - 1] + xs[i];
  }

  /** One entry of the moving average, with the JavaScript slice bounds and the divisor worked out. */
  lemma MovingAvgAt(xs: seq<real>, i: nat)
    requires i < |xs|
    ensures i == 0 ==> MovingAvg(xs)[i] == SumReals(xs[0..1]) / 1.0
    ensures i == 1 ==> MovingAvg(xs)[i] == SumReals(xs[0..2]) / 2.0
    ensures i >= 2 ==> MovingAvg(xs)[i] == SumReals(xs[i - 2..i + 1]) / 3.0
  {
    assert MovingAvg(xs)[i] == WindowAvg(xs, i);
    if i == 0 {
      assert Slice(xs, 0, 1) == xs[0..1];
    } else if i == 1 {
      assert Slice(xs, 0, 2) == xs[0..2];
    } else {
      assert Slice(xs, i - 2, i + 1) == xs[i - 2..i + 1];
    }
  }

  /** The average over the first day alone, the first two, and from then on the last three. */
  lemma MovingAvgWindow(xs: seq<real>)
    ensures |xs| >= 1 ==> MovingAvg(xs)[0] == xs[0]
    ensures |xs| >= 2 ==> MovingAvg(xs)[1] == (xs[0] + xs[1]) / 2.0
    ensures forall i | 2 <= i < |xs| :: MovingAvg(xs)[i] == (xs[i - 2] + xs[i - 1] + xs[i]) / 3.0
  {
    if |xs| >= 1 {
      MovingAvgAt(xs, 0);
      assert xs[0..1][1..] == [];
    }
    if |xs| >= 2 {
      MovingAvgAt(xs, 1);
      var w := xs[0..2];
      assert w[1..][1..] == [];
      assert SumReals(w[1..]) == xs[1];
    }
    forall i | 2 <= i < |xs|
      ensures MovingAvg(xs)[i] == (xs[i - 2] + xs[i - 1] + xs[i]) / 3.0
    {
      MovingAvgAt(xs, i);
      SumRealsWindow(xs, i);
    }
  }

  /** An average never leaves the range of the figures it averages. */
  lemma MovingAvgBounds(xs: seq<real>, lo: real, hi: real)
    requires forall j | 0 <= j < |xs| :: lo <= xs[j] <= hi
    ensures forall i | 0 <= i < |xs| :: lo <= MovingAvg(xs)[i] <= hi
  {
    MovingAvgWindow(xs);
    forall i | 0 <= i < |xs|
      ensures lo <= MovingAvg(xs)[i] <= hi
    {
      if i >= 2 {
        var a, b, c := xs[i - 2], xs[i - 1], xs[i];
        assert 3.0 * lo <= a + b + c <= 3.0 * hi;
      } else if i == 1 {
        assert 2.0 * lo <= xs[0] + xs[1] <= 2.0 * hi;
      }
    }
  }

}
