/**
 The portfolio history route (app/api/history/route.ts). For every
 requested position it asks the market-data provider for a price series
 over a clamped number of days, then adds up `amount * price` per exact
 timestamp in a map keyed by timestamp, and emits the map's entries
 sorted by timestamp.

 The provider is a parameter: `fetch(id, days, interval)` is its reply
 for one coin. The program's `Map<number, number>` accumulator is modelled
 as a sequence of points with distinct timestamps in insertion order,
 which is how a JavaScript `Map` iterates.
 */
module History {
  import opened Types

  /** One `[timestamp, price]` pair of an upstream series. */
  datatype Sample = Sample(ts: int, price: real)

  /** One requested position: which coin, and how much of it. */
  datatype Position = Position(id: string, amount: real)

  /** The series fetched for one position. */
  datatype Series = Series(id: string, amount: real, prices: seq<Sample>)

  /** The sampling interval asked of the provider. */
  datatype Interval = Hourly | Daily

  /** The provider's reply for one coin: a non-2xx status, or a body whose
      `prices` field may be missing. */
  datatype Reply = NotOk | Ok(prices: Option<seq<Sample>>)

  /** The request body: `holdings` is `None` when it is not an array, and
      `days` is `None` when it is absent. */
  datatype Body = Body(holdings: Option<seq<Position>>, days: Option<real>)

  // ---------------------------------------------------------------------
  // Request shaping
  // ---------------------------------------------------------------------

  /** The requested day count, defaulted to 90 and clamped to [1, 365]. */
  function ClampDays(days: Option<real>): (d: real)
    ensures 1.0 <= d <= 365.0
    ensures days.None? ==> d == 90.0
    ensures days.Some? && 1.0 <= days.value <= 365.0 ==> d == days.value
    ensures days.Some? && days.value < 1.0 ==> d == 1.0
    ensures days.Some? && days.value > 365.0 ==> d == 365.0
  {
    var requested := days.GetOr(90.0);
    var upper := if requested < 365.0 then requested else 365.0;
    if upper > 1.0 then upper else 1.0
  }

  /** Long windows are sampled daily, short ones hourly. */
  function IntervalFor(days: real): Interval {
    if days > 90.0 then Daily else Hourly
  }

  /** The interval actually requested is daily exactly when the client asked
      for more than 90 days; without a `days` field it is hourly. */
  lemma RequestedInterval(days: Option<real>)
    ensures IntervalFor(ClampDays(days)) == Daily <==> days.Some? && days.value > 90.0
    ensures days.None? ==> IntervalFor(ClampDays(days)) == Hourly
  {
  }

  /** The series kept for one position: a non-2xx reply, or a reply without
      `prices`, gives the empty series. */
  function SeriesOf(p: Position, reply: Reply): (s: Series)
    ensures s.id == p.id && s.amount == p.amount
    ensures reply.NotOk? ==> s.prices == []
    ensures reply.Ok? && reply.prices.None? ==> s.prices == []
    ensures reply.Ok? && reply.prices.Some? ==> s.prices == reply.prices.value
  {
    match reply
    case NotOk => Series(p.id, p.amount, [])
    case Ok(prices) => Series(p.id, p.amount, prices.GetOr([]))
  }

  /** One series per position, each fetched with the same days and interval. */
  function Histories(ps: seq<Position>, days: real, fetch: (string, real, Interval) -> Reply): (r: seq<Series>)
    ensures |r| == |ps|
    ensures forall i :: 0 <= i < |ps| ==> r[i] == SeriesOf(ps[i], fetch(ps[i].id, days, IntervalFor(days)))
  {
    seq(|ps|, i requires 0 <= i < |ps| => SeriesOf(ps[i], fetch(ps[i].id, days, IntervalFor(days))))
  }

  // ---------------------------------------------------------------------
  // Reference definitions: what the portfolio is worth at a timestamp
  // ---------------------------------------------------------------------

  /** The timestamps of a series. */
  function SampleKeys(samples: seq<Sample>): set<int> {
    set s | s in samples :: s.ts
  }

  lemma SampleKeysHead(samples: seq<Sample>)
    requires |samples| > 0
    ensures SampleKeys(samples) == {samples[0].ts} + SampleKeys(samples[1..])
  {
    assert forall s :: s in samples <==> s == samples[0] || s in samples[1..] by {
      assert samples == [samples[0]] + samples[1..];
    }
  }

  /** The timestamps of all series together. */
  function AllKeys(ss: seq<Series>): set<int>
    decreases |ss|
  {
    if |ss| == 0 then {} else SampleKeys(ss[0].prices) + AllKeys(ss[1..])
  }

  /** The number of samples in all series together. */
  function SampleCount(ss: seq<Series>): nat
    decreases |ss|
  {
    if |ss| == 0 then 0 else |ss[0].prices| + SampleCount(ss[1..])
  }

  /** The sum of `amount * price` over the samples stamped exactly `t`. */
  function SeriesValueAt(amount: real, samples: seq<Sample>, t: int): real
    decreases |samples|
  {
    if |samples| == 0 then 0.0
    else
      var here := if samples[0].ts == t then amount * samples[0].price else 0.0;
      here + SeriesValueAt(amount, samples[1..], t)
  }

  lemma SeriesValueAtHead(amount: real, samples: seq<Sample>, t: int)
    requires |samples| > 0
    ensures SeriesValueAt(amount, samples, t)
      == (if samples[0].ts == t then amount * samples[0].price else 0.0) + SeriesValueAt(amount, samples[1..], t)
  {
  }

  /** The portfolio value at `t`: every sample of every series stamped
      exactly `t` contributes; nothing is interpolated. */
  function ValueAt(ss: seq<Series>, t: int): real
    decreases |ss|
  {
    if |ss| == 0 then 0.0
    else SeriesValueAt(ss[0].amount, ss[0].prices, t) + ValueAt(ss[1..], t)
  }

  // ---------------------------------------------------------------------
  // The accumulator: an insertion-ordered map from timestamp to value
  // ---------------------------------------------------------------------

  /** The timestamps present in a sequence of points. */
  function Timestamps(ps: seq<Point>): set<int> {
    set p | p in ps :: p.timestamp
  }

  /** No timestamp occurs twice. */
  predicate DistinctKeys(ps: seq<Point>) {
    forall i, j :: 0 <= i < j < |ps| ==> ps[i].timestamp != ps[j].timestamp
  }

  /** `totalByTs.get(t)`: the value stored under `t`, if any. */
  function Lookup(acc: seq<Point>, t: int): Option<real>
    decreases |acc|
  {
    if |acc| == 0 then None
    else if acc[0].timestamp == t then Some(acc[0].value)
    else Lookup(acc[1..], t)
  }

  /** The value accumulated at `t`, 0 when nothing was (`?? 0`). */
  function ValueOr0(acc: seq<Point>, t: int): real {
    Lookup(acc, t).GetOr(0.0)
  }

  lemma TimestampsCons(p: Point, s: seq<Point>)
    ensures Timestamps([p] + s) == {p.timestamp} + Timestamps(s)
  {
    assert forall q :: q in [p] + s <==> q == p || q in s;
  }

  lemma DistinctTail(acc: seq<Point>)
    requires DistinctKeys(acc)
    requires |acc| > 0
    ensures DistinctKeys(acc[1..])
    ensures acc[0].timestamp !in Timestamps(acc[1..])
  {
  }

  lemma DistinctCons(p: Point, s: seq<Point>)
    requires DistinctKeys(s)
    requires p.timestamp !in Timestamps(s)
    ensures DistinctKeys([p] + s)
  {
    var r := [p] + s;
    forall i, j | 0 <= i < j < |r|
      ensures r[i].timestamp != r[j].timestamp
    {
      assert r[j] == s[j - 1];
      if i == 0 {
        assert s[j - 1] in s;
      } else {
        assert r[i] == s[i - 1];
      }
    }
  }

  lemma LookupCons(p: Point, s: seq<Point>)
    ensures forall u :: Lookup([p] + s, u) == if p.timestamp == u then Some(p.value) else Lookup(s, u)
  {
    assert ([p] + s)[1..] == s;
  }

  /** A lookup finds a value exactly when the key is present. */
  lemma {:induction false} LookupPresent(acc: seq<Point>, t: int)
    ensures Lookup(acc, t).Some? <==> t in Timestamps(acc)
    decreases |acc|
  {
    if |acc| > 0 {
      assert acc == [acc[0]] + acc[1..];
      TimestampsCons(acc[0], acc[1..]);
      LookupPresent(acc[1..], t);
    }
  }

  /** With distinct keys every entry is what a lookup of its key finds. */
  lemma {:induction false} LookupEntry(acc: seq<Point>, i: nat)
    requires DistinctKeys(acc)
    requires i < |acc|
    ensures Lookup(acc, acc[i].timestamp) == Some(acc[i].value)
    decreases i
  {
    if i > 0 {
      assert acc[0].timestamp != acc[i].timestamp;
      assert acc[1..][i - 1] == acc[i];
      LookupEntry(acc[1..], i - 1);
    }
  }

  /** `totalByTs.set(t, v)`: overwrite in place when `t` is present,
      append otherwise. Afterwards `t` maps to `v` and every other key
      keeps its value. */
  function Put(acc: seq<Point>, t: int, v: real): (r: seq<Point>)
    ensures forall u :: Lookup(r, u) == if u == t then Some(v) else Lookup(acc, u)
    decreases |acc|
  {
    if |acc| == 0 then
      LookupCons(Point(t, v), []);
      [Point(t, v)]
    else
      assert acc == [acc[0]] + acc[1..];
      LookupCons(acc[0], acc[1..]);
      if acc[0].timestamp == t then
        LookupCons(Point(t, v), acc[1..]);
        [Point(t, v)] + acc[1..]
      else
        var rest := Put(acc[1..], t, v);
        LookupCons(acc[0], rest);
        [acc[0]] + rest
  }

  lemma PutValue(acc: seq<Point>, k: int, v: real, t: int)
    ensures ValueOr0(Put(acc, k, v), t) == if t == k then v else ValueOr0(acc, t)
  {
  }

  /** Put adds `t` to the keys, grows the accumulator only for a new key,
      and keeps keys distinct. */
  lemma {:induction false} PutShape(acc: seq<Point>, t: int, v: real)
    ensures Timestamps(Put(acc, t, v)) == Timestamps(acc) + {t}
    ensures |Put(acc, t, v)| == if t in Timestamps(acc) then |acc| else |acc| + 1
    ensures DistinctKeys(acc) ==> DistinctKeys(Put(acc, t, v))
    decreases |acc|
  {
    if |acc| == 0 {
      TimestampsCons(Point(t, v), []);
    } else {
      assert acc == [acc[0]] + acc[1..];
      TimestampsCons(acc[0], acc[1..]);
      if acc[0].timestamp != t {
        PutShape(acc[1..], t, v);
        TimestampsCons(acc[0], Put(acc[1..], t, v));
        if DistinctKeys(acc) {
          DistinctTail(acc);
          DistinctCons(acc[0], Put(acc[1..], t, v));
        }
      } else {
        TimestampsCons(Point(t, v), acc[1..]);
        if DistinctKeys(acc) {
          DistinctTail(acc);
          DistinctCons(Point(t, v), acc[1..]);
        }
      }
    }
  }

  /** The inner loop: every sample adds `amount * price` at its timestamp. */
  function AddSeries(acc: seq<Point>, amount: real, samples: seq<Sample>): seq<Point>
    decreases |samples|
  {
    if |samples| == 0 then acc
    else
      var s := samples[0];
      AddSeries(Put(acc, s.ts, ValueOr0(acc, s.ts) + amount * s.price), amount, samples[1..])
  }

  lemma AddSeriesHead(acc: seq<Point>, amount: real, samples: seq<Sample>)
    requires |samples| > 0
    ensures AddSeries(acc, amount, samples)
      == AddSeries(Put(acc, samples[0].ts, ValueOr0(acc, samples[0].ts) + amount * samples[0].price), amount, samples[1..])
  {
  }

  /** After the inner loop the value at `t` has grown by exactly the
      series' contribution at `t`. */
  lemma {:induction false} AddSeriesValue(acc: seq<Point>, amount: real, samples: seq<Sample>, t: int)
    ensures ValueOr0(AddSeries(acc, amount, samples), t) == ValueOr0(acc, t) + SeriesValueAt(amount, samples, t)
    decreases |samples|
  {
    if |samples| > 0 {
      var k := samples[0].ts;
      var v := ValueOr0(acc, k) + amount * samples[0].price;
      AddSeriesHead(acc, amount, samples);
      AddSeriesValue(Put(acc, k, v), amount, samples[1..], t);
      PutValue(acc, k, v, t);
      SeriesValueAtHead(amount, samples, t);
    }
  }

  /** The inner loop adds the series' timestamps as keys. */
  lemma {:induction false} AddSeriesKeys(acc: seq<Point>, amount: real, samples: seq<Sample>)
    ensures Timestamps(AddSeries(acc, amount, samples)) == Timestamps(acc) + SampleKeys(samples)
    decreases |samples|
  {
    if |samples| > 0 {
      var k := samples[0].ts;
      var next := Put(acc, k, ValueOr0(acc, k) + amount * samples[0].price);
      var rest := samples[1..];
      assert AddSeries(acc, amount, samples) == AddSeries(next, amount, rest) by {
        AddSeriesHead(acc, amount, samples);
      }
      assert Timestamps(next) == Timestamps(acc) + {k} by {
        PutShape(acc, k, ValueOr0(acc, k) + amount * samples[0].price);
      }
      AddSeriesKeys(next, amount, rest);
      SampleKeysHead(samples);
    }
  }

  /** The inner loop adds at most one entry per sample and keeps keys
      distinct. */
  lemma {:induction false} AddSeriesSize(acc: seq<Point>, amount: real, samples: seq<Sample>)
    ensures |AddSeries(acc, amount, samples)| <= |acc| + |samples|
    ensures DistinctKeys(acc) ==> DistinctKeys(AddSeries(acc, amount, samples))
    decreases |samples|
  {
    if |samples| > 0 {
      var k := samples[0].ts;
      var next := Put(acc, k, ValueOr0(acc, k) + amount * samples[0].price);
      var rest := samples[1..];
      assert AddSeries(acc, amount, samples) == AddSeries(next, amount, rest) by {
        AddSeriesHead(acc, amount, samples);
      }
      assert |next| <= |acc| + 1 && (DistinctKeys(acc) ==> DistinctKeys(next)) by {
        PutShape(acc, k, ValueOr0(acc, k) + amount * samples[0].price);
      }
      AddSeriesSize(next, amount, rest);
    }
  }

  /** The outer loop, over the series in order. */
  function Accumulate(acc: seq<Point>, ss: seq<Series>): seq<Point>
    decreases |ss|
  {
    if |ss| == 0 then acc
    else Accumulate(AddSeries(acc, ss[0].amount, ss[0].prices), ss[1..])
  }

  /** After the outer loop the value at `t` has grown by the portfolio value
      at `t`. */
  lemma {:induction false} AccumulateValue(acc: seq<Point>, ss: seq<Series>, t: int)
    ensures ValueOr0(Accumulate(acc, ss), t) == ValueOr0(acc, t) + ValueAt(ss, t)
    decreases |ss|
  {
    if |ss| > 0 {
      AddSeriesValue(acc, ss[0].amount, ss[0].prices, t);
      AccumulateValue(AddSeries(acc, ss[0].amount, ss[0].prices), ss[1..], t);
    }
  }

  /** The outer loop adds every sample timestamp as a key. */
  lemma {:induction false} AccumulateKeys(acc: seq<Point>, ss: seq<Series>)
    ensures Timestamps(Accumulate(acc, ss)) == Timestamps(acc) + AllKeys(ss)
    decreases |ss|
  {
    if |ss| > 0 {
      AddSeriesKeys(acc, ss[0].amount, ss[0].prices);
      AccumulateKeys(AddSeries(acc, ss[0].amount, ss[0].prices), ss[1..]);
    }
  }

  /** The outer loop adds at most one entry per sample and keeps keys
      distinct. */
  lemma {:induction false} AccumulateSize(acc: seq<Point>, ss: seq<Series>)
    ensures |Accumulate(acc, ss)| <= |acc| + SampleCount(ss)
    ensures DistinctKeys(acc) ==> DistinctKeys(Accumulate(acc, ss))
    decreases |ss|
  {
    if |ss| > 0 {
      AddSeriesSize(acc, ss[0].amount, ss[0].prices);
      AccumulateSize(AddSeries(acc, ss[0].amount, ss[0].prices), ss[1..]);
    }
  }

  // ---------------------------------------------------------------------
  // Emission sorted by timestamp
  // ---------------------------------------------------------------------

  /** Timestamps strictly increase along the sequence. */
  predicate StrictlyIncreasing(ps: seq<Point>) {
    forall i, j :: 0 <= i < j < |ps| ==> ps[i].timestamp < ps[j].timestamp
  }

  lemma SameElementsSameTimestamps(a: seq<Point>, b: seq<Point>)
    requires multiset(a) == multiset(b)
    ensures Timestamps(a) == Timestamps(b)
  {
    assert forall p :: p in a <==> p in multiset(a);
    assert forall p :: p in b <==> p in multiset(b);
  }

  /** Places `p` before the first point with a larger timestamp. */
  function Insert(p: Point, s: seq<Point>): (r: seq<Point>)
    requires StrictlyIncreasing(s)
    requires forall k :: 0 <= k < |s| ==> s[k].timestamp != p.timestamp
    ensures StrictlyIncreasing(r)
    ensures multiset(r) == multiset(s) + multiset{p}
    decreases |s|
  {
    if |s| == 0 then [p]
    else if p.timestamp < s[0].timestamp then
      ConsIncreasing(p, s);
      [p] + s
    else
      var rest := Insert(p, s[1..]);
      AboveHead(s, p, rest);
      ConsIncreasing(s[0], rest);
      assert s == [s[0]] + s[1..];
      [s[0]] + rest
  }

  /** A point whose timestamp the tail lacks differs in timestamp from
      every point of any rearrangement of that tail. */
  lemma NewTimestamp(p: Point, rest: seq<Point>, tail: seq<Point>)
    requires multiset(rest) == multiset(tail)
    requires p.timestamp !in Timestamps(tail)
    ensures forall k :: 0 <= k < |rest| ==> rest[k].timestamp != p.timestamp
  {
    forall k | 0 <= k < |rest|
      ensures rest[k].timestamp != p.timestamp
    {
      assert rest[k] in multiset(tail);
    }
  }

  /** What is inserted into the tail of an ascending sequence, together with
      that tail, lies above the head. */
  lemma AboveHead(s: seq<Point>, p: Point, rest: seq<Point>)
    requires StrictlyIncreasing(s) && |s| > 0
    requires s[0].timestamp < p.timestamp
    requires multiset(rest) == multiset(s[1..]) + multiset{p}
    ensures forall k :: 0 <= k < |rest| ==> s[0].timestamp < rest[k].timestamp
  {
    forall k | 0 <= k < |rest|
      ensures s[0].timestamp < rest[k].timestamp
    {
      assert rest[k] in multiset(rest);
      if rest[k] != p {
        assert rest[k] in multiset(s[1..]);
        var m :| 0 <= m < |s[1..]| && s[1..][m] == rest[k];
        assert s[m + 1] == rest[k];
      }
    }
  }

  /** A point below every point of an ascending sequence can go in front. */
  lemma ConsIncreasing(x: Point, s: seq<Point>)
    requires StrictlyIncreasing(s)
    requires forall k :: 0 <= k < |s| ==> x.timestamp < s[k].timestamp
    ensures StrictlyIncreasing([x] + s)
  {
  }

  /** `Array.prototype.sort` by timestamp over entries with distinct keys,
      written as an insertion sort. */
  function Sort(s: seq<Point>): (r: seq<Point>)
    requires DistinctKeys(s)
    ensures StrictlyIncreasing(r)
    ensures multiset(r) == multiset(s)
    decreases |s|
  {
    if |s| == 0 then []
    else
      var rest := Sort(s[1..]);
      assert s == [s[0]] + s[1..];
      DistinctTail(s);
      NewTimestamp(s[0], rest, s[1..]);
      Insert(s[0], rest)
  }

  // ---------------------------------------------------------------------
  // The aggregate
  // ---------------------------------------------------------------------

  /** The portfolio history of the fetched series: one point per distinct
      sample timestamp, valued at the exact-timestamp sum, in ascending
      timestamp order, never more points than samples. */
  function Aggregate(ss: seq<Series>): (r: seq<Point>)
    ensures StrictlyIncreasing(r)
    ensures Timestamps(r) == AllKeys(ss)
    ensures forall i :: 0 <= i < |r| ==> r[i].value == ValueAt(ss, r[i].timestamp)
    ensures |r| <= SampleCount(ss)
  {
    var acc := Accumulate([], ss);
    AccumulateKeys([], ss);
    AccumulateSize([], ss);
    var r := Sort(acc);
    SameElementsSameTimestamps(r, acc);
    assert |r| == |multiset(r)| == |multiset(acc)| == |acc|;
    assert forall i :: 0 <= i < |r| ==> r[i].value == ValueAt(ss, r[i].timestamp) by {
      forall i | 0 <= i < |r|
        ensures r[i].value == ValueAt(ss, r[i].timestamp)
      {
        assert r[i] in multiset(r);
        var k :| 0 <= k < |acc| && acc[k] == r[i];
        LookupEntry(acc, k);
        AccumulateValue([], ss, r[i].timestamp);
      }
    }
    r
  }

  /** The route: positions from the body (none when `holdings` is not an
      array), the clamped days, one fetch per position, then the aggregate.
      No positions short-circuit to no points before anything is fetched. */
  function Route(body: Body, fetch: (string, real, Interval) -> Reply): (r: seq<Point>)
    ensures body.holdings.None? || body.holdings == Some([]) ==> r == []
    ensures StrictlyIncreasing(r)
    ensures var ss := Histories(body.holdings.GetOr([]), ClampDays(body.days), fetch);
      && Timestamps(r) == AllKeys(ss)
      && forall i :: 0 <= i < |r| ==> r[i].value == ValueAt(ss, r[i].timestamp)
  {
    var ps := body.holdings.GetOr([]);
    if |ps| == 0 then []
    else Aggregate(Histories(ps, ClampDays(body.days), fetch))
  }
}

/**
 Properties of the history aggregate: it is determined by the timestamps
 and exact-timestamp sums alone, so non-2xx replies, the order of the
 positions and the empty-holdings short-circuit do not change it.
 */
module HistoryProperties {
  import opened Types
  import opened History

  /** Two ascending sequences with the same elements are equal. */
  lemma {:induction false} StrictlyIncreasingUnique(a: seq<Point>, b: seq<Point>)
    requires StrictlyIncreasing(a) && StrictlyIncreasing(b)
    requires forall p :: p in a <==> p in b
    ensures a == b
    decreases |a|
  {
    assert |b| > 0 ==> b[0] in b;
    if |a| > 0 {
      HeadsAgree(a, b);
      TailWithin(a, b);
      TailWithin(b, a);
      StrictlyIncreasingUnique(a[1..], b[1..]);
      assert a == [a[0]] + a[1..];
      assert b == [b[0]] + b[1..];
    }
  }

  /** Two ascending sequences with the same elements start alike. */
  lemma HeadsAgree(a: seq<Point>, b: seq<Point>)
    requires StrictlyIncreasing(a) && StrictlyIncreasing(b)
    requires forall p :: p in a <==> p in b
    requires |a| > 0
    ensures |b| > 0 && a[0] == b[0]
  {
    assert a[0] in a;
    var i :| 0 <= i < |b| && b[i] == a[0];
    assert b[0] in b;
    var j :| 0 <= j < |a| && a[j] == b[0];
    assert a[0].timestamp <= a[j].timestamp;
    assert b[0].timestamp <= b[i].timestamp;
  }

  /** After a common head, the rest of `a` lies in the rest of `b`. */
  lemma TailWithin(a: seq<Point>, b: seq<Point>)
    requires StrictlyIncreasing(a)
    requires forall p :: p in a ==> p in b
    requires |a| > 0 && |b| > 0 && a[0] == b[0]
    ensures forall p :: p in a[1..] ==> p in b[1..]
  {
    forall p | p in a[1..]
      ensures p in b[1..]
    {
      var k :| 0 <= k < |a[1..]| && a[1..][k] == p;
      assert a[k + 1] == p;
      assert p != a[0];
      assert p in b;
      var m :| 0 <= m < |b| && b[m] == p;
      assert b[1..][m - 1] == p;
    }
  }

  /** The aggregate is the only ascending sequence of points whose
      timestamps are exactly the sample timestamps and whose values are the
      exact-timestamp sums. */
  lemma AggregateCharacterized(ss: seq<Series>, ps: seq<Point>)
    requires StrictlyIncreasing(ps)
    requires Timestamps(ps) == AllKeys(ss)
    requires forall i :: 0 <= i < |ps| ==> ps[i].value == ValueAt(ss, ps[i].timestamp)
    ensures Aggregate(ss) == ps
  {
    var a := Aggregate(ss);
    forall p | p in a
      ensures p in ps
    {
      var i :| 0 <= i < |a| && a[i] == p;
      assert p.timestamp in Timestamps(ps);
      var q :| q in ps && q.timestamp == p.timestamp;
      var j :| 0 <= j < |ps| && ps[j] == q;
    }
    forall p | p in ps
      ensures p in a
    {
      var j :| 0 <= j < |ps| && ps[j] == p;
      assert p.timestamp in Timestamps(a);
      var q :| q in a && q.timestamp == p.timestamp;
      var i :| 0 <= i < |a| && a[i] == q;
    }
    StrictlyIncreasingUnique(a, ps);
  }

  /** The aggregate depends only on which timestamps occur and on the value
      at each: series lists that agree on both give the same points. */
  lemma AggregateDeterminedByValues(ss: seq<Series>, tt: seq<Series>)
    requires AllKeys(ss) == AllKeys(tt)
    requires forall t :: ValueAt(ss, t) == ValueAt(tt, t)
    ensures Aggregate(ss) == Aggregate(tt)
  {
    AggregateCharacterized(tt, Aggregate(ss));
  }

  lemma {:induction false} ValueAtConcat(ss: seq<Series>, tt: seq<Series>, t: int)
    ensures ValueAt(ss + tt, t) == ValueAt(ss, t) + ValueAt(tt, t)
    decreases |ss|
  {
    if |ss| > 0 {
      assert (ss + tt)[1..] == ss[1..] + tt;
      ValueAtConcat(ss[1..], tt, t);
    } else {
      assert ss + tt == tt;
    }
  }

  lemma {:induction false} AllKeysConcat(ss: seq<Series>, tt: seq<Series>)
    ensures AllKeys(ss + tt) == AllKeys(ss) + AllKeys(tt)
    decreases |ss|
  {
    if |ss| > 0 {
      assert (ss + tt)[1..] == ss[1..] + tt;
      AllKeysConcat(ss[1..], tt);
    } else {
      assert ss + tt == tt;
    }
  }

  /** A timestamp is a key exactly when some sample of some series has it. */
  lemma {:induction false} AllKeysMembership(ss: seq<Series>, t: int)
    ensures t in AllKeys(ss) <==>
      exists i, k :: 0 <= i < |ss| && 0 <= k < |ss[i].prices| && ss[i].prices[k].ts == t
    decreases |ss|
  {
    if |ss| > 0 {
      AllKeysMembership(ss[1..], t);
      if t in SampleKeys(ss[0].prices) {
        var s :| s in ss[0].prices && s.ts == t;
        var k :| 0 <= k < |ss[0].prices| && ss[0].prices[k] == s;
        assert ss[0].prices[k].ts == t;
      } else if t in AllKeys(ss[1..]) {
        var i, k :| 0 <= i < |ss[1..]| && 0 <= k < |ss[1..][i].prices| && ss[1..][i].prices[k].ts == t;
        assert ss[i + 1].prices[k].ts == t;
      } else {
        forall i, k | 0 <= i < |ss| && 0 <= k < |ss[i].prices|
          ensures ss[i].prices[k].ts != t
        {
          if i == 0 {
            assert ss[0].prices[k] in ss[0].prices;
          } else {
            assert ss[1..][i - 1] == ss[i];
          }
        }
      }
    }
  }

  /** A position whose reply was non-2xx, or had no `prices`,
      contributes nothing: the aggregate equals the aggregate without it. */
  lemma FailedFetchContributesNothing(ss: seq<Series>, i: nat)
    requires i < |ss|
    requires ss[i].prices == []
    ensures Aggregate(ss) == Aggregate(ss[..i] + ss[i + 1..])
  {
    var rest := ss[..i] + ss[i + 1..];
    assert ss == ss[..i] + ([ss[i]] + ss[i + 1..]);
    AllKeysConcat(ss[..i], [ss[i]] + ss[i + 1..]);
    AllKeysConcat([ss[i]], ss[i + 1..]);
    AllKeysConcat(ss[..i], ss[i + 1..]);
    assert AllKeys([ss[i]]) == {} by {
      assert [ss[i]][1..] == [];
    }
    forall t
      ensures ValueAt(ss, t) == ValueAt(rest, t)
    {
      ValueAtConcat(ss[..i], [ss[i]] + ss[i + 1..], t);
      ValueAtConcat([ss[i]], ss[i + 1..], t);
      ValueAtConcat(ss[..i], ss[i + 1..], t);
      assert ValueAt([ss[i]], t) == 0.0 by {
        assert [ss[i]][1..] == [];
      }
    }
    AggregateDeterminedByValues(ss, rest);
  }

  lemma MultisetRemoveMatching<T>(ss: seq<T>, tt: seq<T>, k: nat)
    requires multiset(ss) == multiset(tt)
    requires |ss| > 0 && k < |tt| && tt[k] == ss[0]
    ensures multiset(ss[1..]) == multiset(tt[..k] + tt[k + 1..])
  {
    var x := ss[0];
    assert ss == [x] + ss[1..];
    assert tt == tt[..k] + ([x] + tt[k + 1..]);
    forall y
      ensures multiset(ss[1..])[y] == multiset(tt[..k] + tt[k + 1..])[y]
    {
      assert multiset(ss)[y] == multiset{x}[y] + multiset(ss[1..])[y];
      assert multiset(tt)[y] == multiset(tt[..k])[y] + multiset{x}[y] + multiset(tt[k + 1..])[y];
    }
  }

  /** Taking one series out of the list subtracts its contribution. */
  lemma SplitAt(tt: seq<Series>, k: nat, t: int)
    requires k < |tt|
    ensures ValueAt(tt, t) == ValueAt([tt[k]], t) + ValueAt(tt[..k] + tt[k + 1..], t)
    ensures AllKeys(tt) == AllKeys([tt[k]]) + AllKeys(tt[..k] + tt[k + 1..])
  {
    assert tt == tt[..k] + ([tt[k]] + tt[k + 1..]);
    ValueAtConcat(tt[..k], [tt[k]] + tt[k + 1..], t);
    ValueAtConcat([tt[k]], tt[k + 1..], t);
    ValueAtConcat(tt[..k], tt[k + 1..], t);
    AllKeysConcat(tt[..k], [tt[k]] + tt[k + 1..]);
    AllKeysConcat([tt[k]], tt[k + 1..]);
    AllKeysConcat(tt[..k], tt[k + 1..]);
  }

  /** The value at a timestamp, and the set of timestamps, do not depend on
      the order of the series. */
  lemma {:induction false} ValueAtPermutation(ss: seq<Series>, tt: seq<Series>, t: int)
    requires multiset(ss) == multiset(tt)
    ensures ValueAt(ss, t) == ValueAt(tt, t)
    ensures AllKeys(ss) == AllKeys(tt)
    decreases |ss|
  {
    if |ss| == 0 {
      assert |tt| == |multiset(tt)| == 0;
    } else {
      assert ss[0] in multiset(tt);
      var k :| 0 <= k < |tt| && tt[k] == ss[0];
      MultisetRemoveMatching(ss, tt, k);
      ValueAtPermutation(ss[1..], tt[..k] + tt[k + 1..], t);
      SplitAt(tt, k, t);
      SplitAt(ss, 0, t);
      assert ss[..0] + ss[1..] == ss[1..];
    }
  }

  /** Under exact arithmetic the aggregate does not depend on the order of
      the series. */
  lemma OrderIndependent(ss: seq<Series>, tt: seq<Series>)
    requires multiset(ss) == multiset(tt)
    ensures Aggregate(ss) == Aggregate(tt)
  {
    forall t
      ensures ValueAt(ss, t) == ValueAt(tt, t)
    {
      ValueAtPermutation(ss, tt, t);
    }
    ValueAtPermutation(ss, tt, 0);
    AggregateDeterminedByValues(ss, tt);
  }

  /** Reordering the positions reorders their fetched series the same way:
      `Promise.all` keeps each result at its position's place. */
  lemma {:induction false} HistoriesPermutation(ps: seq<Position>, ps': seq<Position>, days: real,
                                                fetch: (string, real, Interval) -> Reply)
    requires multiset(ps) == multiset(ps')
    ensures multiset(Histories(ps, days, fetch)) == multiset(Histories(ps', days, fetch))
    decreases |ps|
  {
    if |ps| > 0 {
      assert ps[0] in multiset(ps');
      var k :| 0 <= k < |ps'| && ps'[k] == ps[0];
      MultisetRemoveMatching(ps, ps', k);
      var rest' := ps'[..k] + ps'[k + 1..];
      HistoriesPermutation(ps[1..], rest', days, fetch);
      var h, h' := Histories(ps, days, fetch), Histories(ps', days, fetch);
      var tail, tail' := Histories(ps[1..], days, fetch), Histories(rest', days, fetch);
      assert multiset(tail) == multiset(tail');
      HistoriesTail(ps, days, fetch);
      HistoriesWithout(ps', k, days, fetch);
      assert tail == h[1..];
      assert tail' == h'[..k] + h'[k + 1..];
      MultisetSwap(h, h', k);
    } else {
      assert |ps'| == |multiset(ps')| == |multiset(ps)| == 0;
    }
  }

  /** Fetching all positions but the first gives all series but the first. */
  lemma HistoriesTail(ps: seq<Position>, days: real, fetch: (string, real, Interval) -> Reply)
    requires 0 < |ps|
    ensures Histories(ps[1..], days, fetch) == Histories(ps, days, fetch)[1..]
  {
  }

  /** Fetching all positions but the k-th gives all series but the k-th. */
  lemma HistoriesWithout(ps: seq<Position>, k: nat, days: real, fetch: (string, real, Interval) -> Reply)
    requires k < |ps|
    ensures var h := Histories(ps, days, fetch);
      Histories(ps[..k] + ps[k + 1..], days, fetch) == h[..k] + h[k + 1..]
  {
  }

  /** Two sequences whose first and k-th elements agree, and whose rests
      are permutations of each other, are permutations of each other. */
  lemma MultisetSwap<T>(h: seq<T>, h': seq<T>, k: nat)
    requires 0 < |h| && k < |h'| && h'[k] == h[0]
    requires multiset(h[1..]) == multiset(h'[..k] + h'[k + 1..])
    ensures multiset(h) == multiset(h')
  {
    assert h == [h[0]] + h[1..];
    MultisetWithout(h', k);
  }

  /** A sequence's multiset is its k-th element plus the rest. */
  lemma MultisetWithout<T>(s: seq<T>, k: nat)
    requires k < |s|
    ensures multiset(s) == multiset{s[k]} + multiset(s[..k] + s[k + 1..])
  {
    assert s == s[..k] + [s[k]] + s[k + 1..];
  }

  /** The route's points do not depend on the order of the holdings in the
      request body. */
  lemma RouteOrderIndependent(ps: seq<Position>, ps': seq<Position>, days: Option<real>,
                              fetch: (string, real, Interval) -> Reply)
    requires multiset(ps) == multiset(ps')
    ensures Route(Body(Some(ps), days), fetch) == Route(Body(Some(ps'), days), fetch)
  {
    var d := ClampDays(days);
    HistoriesPermutation(ps, ps', d, fetch);
    OrderIndependent(Histories(ps, d, fetch), Histories(ps', d, fetch));
    assert |ps| == |multiset(ps)| == |multiset(ps')| == |ps'|;
  }

  /** The worked example: `a = [(100, 10), (200, 20)]` and `b = [(100, 5)]`,
      both held once, give 15 at 100 and 20 at 200 (200 reflects `a` only;
      nothing is interpolated for `b`). */
  lemma TwoSeriesExample()
    ensures Aggregate([Series("a", 1.0, [Sample(100, 10.0), Sample(200, 20.0)]),
                       Series("b", 1.0, [Sample(100, 5.0)])])
         == [Point(100, 15.0), Point(200, 20.0)]
  {
    var ss := [Series("a", 1.0, [Sample(100, 10.0), Sample(200, 20.0)]), Series("b", 1.0, [Sample(100, 5.0)])];
    var expected := [Point(100, 15.0), Point(200, 20.0)];
    assert SampleKeys(ss[0].prices) == {100, 200};
    assert SampleKeys(ss[1].prices) == {100};
    assert AllKeys(ss) == {100, 200} by {
      assert ss[1..][1..] == [];
    }
    assert Timestamps(expected) == {100, 200};
    assert ValueAt(ss, 100) == 15.0;
    assert ValueAt(ss, 200) == 20.0;
    AggregateCharacterized(ss, expected);
  }

  /** A position held with amount 0 is not like a non-2xx reply: its sample
      timestamps still become points, valued 0 where nothing else adds up. */
  lemma ZeroAmountStillAddsPoints()
    ensures Aggregate([Series("a", 1.0, [Sample(100, 10.0)]), Series("b", 0.0, [Sample(200, 7.0)])])
         == [Point(100, 10.0), Point(200, 0.0)]
  {
    var ss := [Series("a", 1.0, [Sample(100, 10.0)]), Series("b", 0.0, [Sample(200, 7.0)])];
    var expected := [Point(100, 10.0), Point(200, 0.0)];
    assert SampleKeys(ss[0].prices) == {100};
    assert SampleKeys(ss[1].prices) == {200};
    assert AllKeys(ss) == {100, 200} by {
      assert ss[1..][1..] == [];
    }
    assert Timestamps(expected) == {100, 200};
    assert ValueAt(ss, 100) == 10.0;
    assert ValueAt(ss, 200) == 0.0;
    AggregateCharacterized(ss, expected);
  }

  /** ... whereas a non-2xx reply for the same position adds no point. */
  lemma FailedFetchAddsNoPoints()
    ensures Aggregate([Series("a", 1.0, [Sample(100, 10.0)]), Series("b", 0.0, [])])
         == [Point(100, 10.0)]
  {
    var ss := [Series("a", 1.0, [Sample(100, 10.0)]), Series("b", 0.0, [])];
    var expected := [Point(100, 10.0)];
    assert SampleKeys(ss[0].prices) == {100};
    assert SampleKeys(ss[1].prices) == {};
    assert AllKeys(ss) == {100} by {
      assert ss[1..][1..] == [];
    }
    assert Timestamps(expected) == {100};
    assert ValueAt(ss, 100) == 10.0;
    AggregateCharacterized(ss, expected);
  }

  /** In general, a position held with amount 0 adds its sample timestamps
      as points but nothing to any sum: a timestamp no other position
      samples becomes a point of value 0. */
  lemma ZeroAmountAddsOnlyTimestamps(ss: seq<Series>, z: Series)
    requires z.amount == 0.0
    ensures AllKeys(ss + [z]) == AllKeys(ss) + SampleKeys(z.prices)
    ensures forall t :: ValueAt(ss + [z], t) == ValueAt(ss, t)
    ensures Timestamps(Aggregate(ss + [z])) == Timestamps(Aggregate(ss)) + SampleKeys(z.prices)
    ensures forall i :: 0 <= i < |Aggregate(ss + [z])| && Aggregate(ss + [z])[i].timestamp !in AllKeys(ss) ==>
      Aggregate(ss + [z])[i].value == 0.0
  {
    AllKeysConcat(ss, [z]);
    assert AllKeys([z]) == SampleKeys(z.prices) by {
      assert [z][1..] == [];
    }
    forall t
      ensures ValueAt(ss + [z], t) == ValueAt(ss, t)
    {
      ValueAtConcat(ss, [z], t);
      SeriesValueAtZero(z.prices, t);
      assert ValueAt([z], t) == 0.0 by {
        assert [z][1..] == [];
      }
    }
    forall t | t !in AllKeys(ss)
      ensures ValueAt(ss, t) == 0.0
    {
      ValueAtOutsideKeys(ss, t);
    }
  }

  /** A series held with amount 0 is worth 0 at every timestamp. */
  lemma {:induction false} SeriesValueAtZero(samples: seq<Sample>, t: int)
    ensures SeriesValueAt(0.0, samples, t) == 0.0
    decreases |samples|
  {
    if |samples| > 0 {
      SeriesValueAtZero(samples[1..], t);
    }
  }

  /** Where no sample is stamped, the portfolio is worth 0. */
  lemma {:induction false} ValueAtOutsideKeys(ss: seq<Series>, t: int)
    requires t !in AllKeys(ss)
    ensures ValueAt(ss, t) == 0.0
    decreases |ss|
  {
    if |ss| > 0 {
      SeriesValueAtOutsideKeys(ss[0].amount, ss[0].prices, t);
      ValueAtOutsideKeys(ss[1..], t);
    }
  }

  lemma {:induction false} SeriesValueAtOutsideKeys(amount: real, samples: seq<Sample>, t: int)
    requires t !in SampleKeys(samples)
    ensures SeriesValueAt(amount, samples, t) == 0.0
    decreases |samples|
  {
    if |samples| > 0 {
      SampleKeysHead(samples);
      SeriesValueAtOutsideKeys(amount, samples[1..], t);
    }
  }

  /** The short-circuit for no positions gives what the aggregation would
      have given anyway, so the route always equals the aggregate of its
      fetched series. */
  lemma RouteIsAggregate(body: Body, fetch: (string, real, Interval) -> Reply)
    ensures Route(body, fetch)
         == Aggregate(Histories(body.holdings.GetOr([]), ClampDays(body.days), fetch))
  {
    var ps := body.holdings.GetOr([]);
    if |ps| == 0 {
      var r := Aggregate(Histories(ps, ClampDays(body.days), fetch));
      assert |r| == 0;
    }
  }

  /** When every reply is non-2xx the route yields no points. */
  lemma AllFetchesFailed(body: Body, fetch: (string, real, Interval) -> Reply)
    requires forall id, d, iv :: fetch(id, d, iv) == NotOk
    ensures Route(body, fetch) == []
  {
    var ps := body.holdings.GetOr([]);
    if |ps| > 0 {
      var ss := Histories(ps, ClampDays(body.days), fetch);
      assert SampleCount(ss) == 0 by {
        ZeroSamples(ss);
      }
    }
  }

  lemma {:induction false} ZeroSamples(ss: seq<Series>)
    requires forall i :: 0 <= i < |ss| ==> ss[i].prices == []
    ensures SampleCount(ss) == 0
    decreases |ss|
  {
    if |ss| > 0 {
      ZeroSamples(ss[1..]);
    }
  }
}
