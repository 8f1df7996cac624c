/**
 The holdings table (app/components/HoldingsTable.tsx): the distinct ids
 whose prices are requested, one row per holding valued at its current
 price, the portfolio total, and the 24-hour change weighted by each row's
 value.
 */
module Valuation {
  import opened Types

  /** A table row: the holding's fields plus its price, 24-hour change and
      value. */
  datatype Row = Row(id: string, symbol: string, name: string, amount: real,
                     price: real, changePct: real, value: real)

  // ---------------------------------------------------------------------
  // Distinct ids
  // ---------------------------------------------------------------------

  /** No string occurs twice. */
  predicate Distinct(xs: seq<string>) {
    forall i, j :: 0 <= i < j < |xs| ==> xs[i] != xs[j]
  }

  /** The position of the first occurrence of `x`. */
  function FirstIndex(xs: seq<string>, x: string): (k: nat)
    requires x in xs
    ensures k < |xs| && xs[k] == x
    ensures forall j :: 0 <= j < k ==> xs[j] != x
    decreases |xs|
  {
    if xs[0] == x then 0 else 1 + FirstIndex(xs[1..], x)
  }

  /** `Array.from(new Set(xs))`: a set remembers insertion order, so each
      string is kept at its first occurrence. */
  function Dedup(xs: seq<string>): (r: seq<string>)
    ensures Distinct(r)
    ensures forall x :: x in r <==> x in xs
    ensures |r| <= |xs|
    decreases |xs|
  {
    if |xs| == 0 then []
    else
      var init := xs[..|xs| - 1];
      var last := xs[|xs| - 1];
      var d := Dedup(init);
      assert xs == init + [last];
      if last in d then d else d + [last]
  }

  /** The ids of the holdings, in order. */
  function IdsOf(hs: seq<Holding>): (r: seq<string>)
    ensures |r| == |hs|
    ensures forall i :: 0 <= i < |hs| ==> r[i] == hs[i].id
  {
    seq(|hs|, i requires 0 <= i < |hs| => hs[i].id)
  }

  /** The ids whose prices are requested: every holding's id once. */
  function Ids(hs: seq<Holding>): (r: seq<string>)
    ensures Distinct(r)
    ensures forall i :: 0 <= i < |hs| ==> hs[i].id in r
    ensures forall x :: x in r ==> exists i :: 0 <= i < |hs| && hs[i].id == x
  {
    var ids := IdsOf(hs);
    assert forall i :: 0 <= i < |hs| ==> ids[i] in ids;
    Dedup(ids)
  }

  lemma FirstIndexAppend(xs: seq<string>, y: string, x: string)
    requires x in xs
    ensures FirstIndex(xs + [y], x) == FirstIndex(xs, x)
  {
    var k := FirstIndex(xs, x);
    var k' := FirstIndex(xs + [y], x);
    assert (xs + [y])[k] == x;
    assert k' <= k;
    assert xs[k'] == x;
  }

  /** The distinct ids appear in the order of their first occurrence. */
  lemma {:induction false} DedupKeepsFirstOccurrenceOrder(xs: seq<string>)
    ensures forall i, j :: 0 <= i < j < |Dedup(xs)| ==>
      FirstIndex(xs, Dedup(xs)[i]) < FirstIndex(xs, Dedup(xs)[j])
    decreases |xs|
  {
    if |xs| > 0 {
      var init := xs[..|xs| - 1];
      var last := xs[|xs| - 1];
      assert xs == init + [last];
      DedupKeepsFirstOccurrenceOrder(init);
      var d := Dedup(init);
      var r := Dedup(xs);
      forall i, j | 0 <= i < j < |r|
        ensures FirstIndex(xs, r[i]) < FirstIndex(xs, r[j])
      {
        assert r[i] == d[i];
        assert r[i] in init;
        FirstIndexAppend(init, last, r[i]);
        if j < |d| {
          assert r[j] == d[j];
          FirstIndexAppend(init, last, r[j]);
        } else {
          assert r[j] == last && last !in init;
          assert FirstIndex(xs, last) == |init|;
        }
      }
    }
  }

  // ---------------------------------------------------------------------
  // Rows, total and weighted change
  // ---------------------------------------------------------------------

  /** The row of one holding: price and change from the price map, 0 when
      the map or the entry is missing, and value = amount * price. */
  function RowOf(h: Holding, prices: Option<PriceMap>): (r: Row)
    ensures r.id == h.id && r.symbol == h.symbol && r.name == h.name && r.amount == h.amount
    ensures r.value == h.amount * r.price
    ensures prices.Some? && h.id in prices.value ==>
      r.price == prices.value[h.id].price && r.changePct == prices.value[h.id].change24hPercentage
    ensures prices.None? || h.id !in prices.value ==> r.price == 0.0 && r.changePct == 0.0 && r.value == 0.0
  {
    var info := if prices.Some? && h.id in prices.value then Some(prices.value[h.id]) else None;
    var price := if info.Some? then info.value.price else 0.0;
    var changePct := if info.Some? then info.value.change24hPercentage else 0.0;
    Row(h.id, h.symbol, h.name, h.amount, price, changePct, h.amount * price)
  }

  /** One row per holding, in the same order. */
  function Rows(hs: seq<Holding>, prices: Option<PriceMap>): (r: seq<Row>)
    ensures |r| == |hs|
    ensures forall i :: 0 <= i < |hs| ==> r[i] == RowOf(hs[i], prices)
  {
    seq(|hs|, i requires 0 <= i < |hs| => RowOf(hs[i], prices))
  }

  /** `rows.reduce((sum, r) => sum + r.value, 0)`. */
  function Total(rows: seq<Row>): real
    decreases |rows|
  {
    if |rows| == 0 then 0.0
    else Total(rows[..|rows| - 1]) + rows[|rows| - 1].value
  }

  /** `rows.reduce((acc, r) => acc + (r.value * r.changePct) / 100, 0)`: the
      dollar change over 24 hours implied by the rows. */
  function DollarChange(rows: seq<Row>): real
    decreases |rows|
  {
    if |rows| == 0 then 0.0
    else DollarChange(rows[..|rows| - 1]) + (rows[|rows| - 1].value * rows[|rows| - 1].changePct) / 100.0
  }

  /** The portfolio's 24-hour change in percent, weighted by value; 0 when
      the total is 0 instead of dividing by zero. */
  function WeightedChangePct(rows: seq<Row>): (w: real)
    ensures Total(rows) == 0.0 ==> w == 0.0
    ensures Total(rows) != 0.0 ==> w * Total(rows) == DollarChange(rows) * 100.0
  {
    var total := Total(rows);
    if total == 0.0 then 0.0
    else
      var w := (DollarChange(rows) / total) * 100.0;
      assert w * total == DollarChange(rows) * 100.0;
      w
  }

  lemma {:induction false} TotalConcat(a: seq<Row>, b: seq<Row>)
    ensures Total(a + b) == Total(a) + Total(b)
    decreases |b|
  {
    if |b| > 0 {
      assert (a + b)[..|a + b| - 1] == a + b[..|b| - 1];
      TotalConcat(a, b[..|b| - 1]);
    } else {
      assert a + b == a;
    }
  }

  /** The total is the sum of every holding's amount times its price. */
  lemma {:induction false} TotalOfRows(hs: seq<Holding>, prices: Option<PriceMap>)
    ensures Total(Rows(hs, prices)) == Worth(hs, prices)
    decreases |hs|
  {
    if |hs| > 0 {
      var rows := Rows(hs, prices);
      assert rows[..|rows| - 1] == Rows(hs[..|hs| - 1], prices);
      TotalOfRows(hs[..|hs| - 1], prices);
    }
  }

  /** The worth of the holdings at the given prices, a missing price
      counting as 0. */
  function Worth(hs: seq<Holding>, prices: Option<PriceMap>): real
    decreases |hs|
  {
    if |hs| == 0 then 0.0
    else
      var h := hs[|hs| - 1];
      var price := if prices.Some? && h.id in prices.value then prices.value[h.id].price else 0.0;
      Worth(hs[..|hs| - 1], prices) + h.amount * price
  }

  /** When every row moved by the same percentage `c`, the implied dollar
      change is `c` percent of the total. */
  lemma {:induction false} UniformDollarChange(rows: seq<Row>, c: real)
    requires forall i :: 0 <= i < |rows| ==> rows[i].changePct == c
    ensures DollarChange(rows) == Total(rows) * c / 100.0
    decreases |rows|
  {
    if |rows| > 0 {
      var init := rows[..|rows| - 1];
      var v := rows[|rows| - 1].value;
      UniformDollarChange(init, c);
      calc {
        DollarChange(rows);
        DollarChange(init) + (v * c) / 100.0;
        Total(init) * c / 100.0 + (v * c) / 100.0;
        (Total(init) + v) * c / 100.0;
        Total(rows) * c / 100.0;
      }
    }
  }

  /** When every row moved by the same percentage and the total is not 0,
      the weighted change is that percentage. */
  lemma UniformChange(rows: seq<Row>, c: real)
    requires forall i :: 0 <= i < |rows| ==> rows[i].changePct == c
    requires Total(rows) != 0.0
    ensures WeightedChangePct(rows) == c
  {
    UniformDollarChange(rows, c);
    var t, w, d := Total(rows), WeightedChangePct(rows), DollarChange(rows);
    assert w * t == d * 100.0;
    assert d * 100.0 == t * c;
    CommuteFactor(w, d, t, c);
    CancelFactor(w, c, t);
  }

  lemma CommuteFactor(w: real, d: real, t: real, c: real)
    requires w * t == d * 100.0 && d * 100.0 == t * c
    ensures w * t == c * t
  {
  }

  /** A single holding with a non-zero value has its own change as the
      portfolio's change. */
  lemma SingleHolding(h: Holding, prices: Option<PriceMap>)
    requires RowOf(h, prices).value != 0.0
    ensures Total(Rows([h], prices)) == RowOf(h, prices).value
    ensures WeightedChangePct(Rows([h], prices)) == RowOf(h, prices).changePct
  {
    var rows := Rows([h], prices);
    assert rows[..0] == [];
    UniformChange(rows, RowOf(h, prices).changePct);
  }

  /** Bitcoin, amount 2, priced 50000 with a 10% change: the row is worth
      100000, the total is 100000 and the weighted change is 10%. */
  lemma BitcoinExample()
    ensures var rows := Rows([Holding("bitcoin", "BTC", "Bitcoin", 2.0)],
                             Some(map["bitcoin" := PriceInfo(50000.0, 10.0)]));
      && rows[0].value == 100000.0
      && Total(rows) == 100000.0
      && WeightedChangePct(rows) == 10.0
  {
    var h := Holding("bitcoin", "BTC", "Bitcoin", 2.0);
    var prices := Some(map["bitcoin" := PriceInfo(50000.0, 10.0)]);
    assert RowOf(h, prices).value == 100000.0;
    SingleHolding(h, prices);
  }

  lemma {:induction false} DollarChangeBounds(rows: seq<Row>, lo: real, hi: real)
    requires forall i :: 0 <= i < |rows| ==> rows[i].value >= 0.0
    requires forall i :: 0 <= i < |rows| ==> lo <= rows[i].changePct <= hi
    ensures Total(rows) * lo <= DollarChange(rows) * 100.0 <= Total(rows) * hi
    decreases |rows|
  {
    if |rows| > 0 {
      var init := rows[..|rows| - 1];
      var last := rows[|rows| - 1];
      DollarChangeBounds(init, lo, hi);
      ScaleStep(DollarChange(init), last.value * last.changePct);
      BoundsStep(Total(init), DollarChange(init) * 100.0, last.value, last.changePct, lo, hi);
    }
  }

  lemma ScaleStep(d0: real, y: real)
    ensures (d0 + y / 100.0) * 100.0 == d0 * 100.0 + y
  {
  }

  /** One more row keeps the bounds: adding `v` to the total and `v * c` to
      the scaled dollar change. */
  lemma BoundsStep(t0: real, x0: real, v: real, c: real, lo: real, hi: real)
    requires t0 * lo <= x0 <= t0 * hi
    requires v >= 0.0 && lo <= c <= hi
    ensures (t0 + v) * lo <= x0 + v * c <= (t0 + v) * hi
  {
    MultiplyMonotone(v, lo, c);
    MultiplyMonotone(v, c, hi);
    assert (t0 + v) * lo == t0 * lo + v * lo;
    assert (t0 + v) * hi == t0 * hi + v * hi;
  }

  lemma CancelFactor(a: real, b: real, t: real)
    requires t != 0.0 && a * t == b * t
    ensures a == b
  {
    assert (a - b) * t == 0.0;
  }

  lemma MultiplyMonotone(v: real, x: real, y: real)
    requires v >= 0.0 && x <= y
    ensures v * x <= v * y
  {
    assert v * y - v * x == v * (y - x);
  }

  /** With non-negative row values and a non-zero total, the weighted
      change lies between the smallest and the largest row change. */
  lemma WeightedChangeWithinRowChanges(rows: seq<Row>, lo: real, hi: real)
    requires forall i :: 0 <= i < |rows| ==> rows[i].value >= 0.0
    requires forall i :: 0 <= i < |rows| ==> lo <= rows[i].changePct <= hi
    requires Total(rows) != 0.0
    ensures lo <= WeightedChangePct(rows) <= hi
  {
    TotalNonNegative(rows);
    DollarChangeBounds(rows, lo, hi);
    WeightedBounds(rows, lo, hi);
  }

  lemma WeightedBounds(rows: seq<Row>, lo: real, hi: real)
    requires Total(rows) > 0.0
    requires Total(rows) * lo <= DollarChange(rows) * 100.0 <= Total(rows) * hi
    ensures lo <= WeightedChangePct(rows) <= hi
  {
    FactorBounds(WeightedChangePct(rows), Total(rows), DollarChange(rows) * 100.0, lo, hi);
  }

  lemma FactorBounds(w: real, t: real, x: real, lo: real, hi: real)
    requires t > 0.0 && w * t == x && t * lo <= x <= t * hi
    ensures lo <= w <= hi
  {
    if w < lo {
      MultiplyStrict(t, w, lo);
      assert false;
    }
    if w > hi {
      MultiplyStrict(t, hi, w);
      assert false;
    }
  }

  lemma MultiplyStrict(v: real, x: real, y: real)
    requires v > 0.0 && x < y
    ensures v * x < v * y
  {
    assert v * y - v * x == v * (y - x);
  }

  lemma {:induction false} TotalNonNegative(rows: seq<Row>)
    requires forall i :: 0 <= i < |rows| ==> rows[i].value >= 0.0
    ensures Total(rows) >= 0.0
    decreases |rows|
  {
    if |rows| > 0 {
      TotalNonNegative(rows[..|rows| - 1]);
    }
  }
}
