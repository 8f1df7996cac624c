/**
 The price route (app/api/price/route.ts): it takes the requested coin ids,
 answers an empty map at once when there are none, and otherwise projects
 the market-data provider's answer onto the requested ids, defaulting a
 missing price or change to 0.
 */
module Prices {
  import opened Types
  import Valuation

  /** The provider's entry for one coin: `usd` and `usd_24h_change`, each of
      which may be missing. */
  datatype Entry = Entry(usd: Option<real>, usd24hChange: Option<real>)

  /** The provider's answer, keyed by coin id; an id without an entry (or
      with a `null` one) is absent. */
  type Upstream = map<string, Entry>

  /** The route's answer: the price map (status 200), or the answer to a
      non-2xx upstream reply (status 502). */
  datatype Reply = Prices(prices: PriceMap) | UpstreamFailed

  /** The price information of one entry, 0 standing in for a missing
      field. */
  function InfoOf(e: Entry): (info: PriceInfo)
    ensures info.price == (if e.usd.Some? then e.usd.value else 0.0)
    ensures info.change24hPercentage == (if e.usd24hChange.Some? then e.usd24hChange.value else 0.0)
  {
    PriceInfo(e.usd.GetOr(0.0), e.usd24hChange.GetOr(0.0))
  }

  /** What the projection must produce: an entry for exactly the requested
      ids the provider knows. */
  ghost predicate IsProjection(result: PriceMap, ids: seq<string>, data: Upstream) {
    && (forall id :: id in result <==> id in ids && id in data)
    && (forall id :: id in result ==> result[id] == InfoOf(data[id]))
  }

  /** The `for (const id of ids)` loop that fills `result`. A repeated id
      writes the same entry again. */
  method Project(ids: seq<string>, data: Upstream) returns (result: PriceMap)
    ensures forall id :: id in result ==> id in ids
    ensures forall id :: id in ids && id !in data ==> id !in result
    ensures forall id :: id in ids && id in data ==> id in result
    ensures forall id :: id in result ==> result[id].price == (if data[id].usd.Some? then data[id].usd.value else 0.0)
    ensures forall id :: id in result ==>
      result[id].change24hPercentage == (if data[id].usd24hChange.Some? then data[id].usd24hChange.value else 0.0)
  {
    result := map[];
    var i := 0;
    while i < |ids|
      invariant 0 <= i <= |ids|
      invariant forall id :: id in result <==> id in ids[..i] && id in data
      invariant forall id :: id in result ==> result[id] == InfoOf(data[id])
    {
      var id := ids[i];
      if id in data {
        result := result[id := InfoOf(data[id])];
      }
      assert ids[..i + 1] == ids[..i] + [id];
      i := i + 1;
    }
    assert ids[..i] == ids;
  }

  /** The route: no ids (or no array) gives the empty map without asking
      the provider; a non-2xx upstream reply gives the failure; otherwise the
      projection. `upstream` is the provider's answer, None for a non-2xx
      reply. */
  method Route(ids: Option<seq<string>>, upstream: Option<Upstream>) returns (reply: Reply)
    ensures ids.None? || ids.value == [] ==> reply == Prices(map[])
    ensures ids.Some? && ids.value != [] && upstream.None? ==> reply == UpstreamFailed
    ensures ids.Some? && ids.value != [] && upstream.Some? ==>
      reply.Prices? && IsProjection(reply.prices, ids.value, upstream.value)
  {
    var requested := ids.GetOr([]);
    if |requested| == 0 {
      return Prices(map[]);
    }
    if upstream.None? {
      return UpstreamFailed;
    }
    var result := Project(requested, upstream.value);
    return Prices(result);
  }

  /** A projection is determined by the requested ids and the provider's
      answer: it depends only on which ids were asked for, not on their
      order or repetitions. */
  lemma ProjectionUnique(a: PriceMap, b: PriceMap, ids: seq<string>, ids': seq<string>, data: Upstream)
    requires forall id :: id in ids <==> id in ids'
    requires IsProjection(a, ids, data) && IsProjection(b, ids', data)
    ensures a == b
  {
    assert a.Keys == b.Keys;
  }

  /** Seen through the holdings table, a held coin the provider does not
      know is worth nothing, and a known one is valued at the provider's
      `usd` (0 when missing). */
  lemma TableValuesProjection(h: Holding, result: PriceMap, ids: seq<string>, data: Upstream)
    requires IsProjection(result, ids, data)
    requires h.id in ids
    ensures h.id !in data ==> Valuation.RowOf(h, Some(result)).value == 0.0
    ensures h.id in data ==>
      Valuation.RowOf(h, Some(result)).value == h.amount * (if data[h.id].usd.Some? then data[h.id].usd.value else 0.0)
  {
  }
}
