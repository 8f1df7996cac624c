# Crypto portfolio tracker — a Dafny model of its computations

The tracker is a small web application. A user records holdings of crypto
assets. The application shows what they are worth now, their value-weighted
24-hour change, and how the portfolio's value developed over a chosen number
of days. Around the HTTP, React and chart glue sit a few pure computations
over sequences and maps. This project models those computations and proves
what they promise:

- `Types` (`types.dfy`): the shapes of `app/lib/types.ts`: coin, holding,
  price information, price map and history point. There is also an `Option`,
  which stands for `undefined`/`null` and for a non-2xx upstream reply.
- `Seqs` (`seqs.dfy`): the order-preserving `filter`, the bounded
  `slice(0, n)` and the subsequence relation.
- `Holdings` (`holdings.dfy`): the home page's `addHolding`, `removeHolding`
  and non-zero view. Together they form a keyed list with no duplicate ids.
- `Valuation` (`valuation.dfy`): the holdings table. It covers the distinct
  ids sent for pricing, the rows, the total and the value-weighted 24-hour
  change.
- `Search` (`search.dfy`): the add form's coin search and its `handleAdd`.
- `Prices` (`prices.dfy`): the price route. It returns an empty answer for no
  ids, and otherwise projects the provider's answer onto the requested ids.
- `History` and `HistoryProperties` (`history.dfy`): the history route.
  - It clamps the days and chooses the sampling interval.
  - It gives no points when there are no holdings, and turns a non-2xx
    reply into an empty series.
  - It sums `amount * price` per exact timestamp and emits the sums in
    ascending timestamp order.

Modelling choices:

- Money, amounts and day counts are exact `real`s. Timestamps are `int`s and
  ids are strings.
- Every answer of the market-data provider is an input value:
  - in the history route, a function `fetch(id, days, interval)` giving a
    `Reply`, which is `NotOk` for a non-2xx status;
  - in the price route, an `Option<map<string, Entry>>`, where `None` means
    a non-2xx reply.
  - A rejected `fetch` or a body that is not JSON is not an input value; see
    "Left out".
- The history route's `Map<number, number>` accumulator is a sequence of
  points with distinct timestamps, in insertion order, which is the order
  in which a JavaScript `Map` iterates. Sorting it is modelled by insertion
  sort. Timestamps are distinct, so every correct sort gives the same result
  (`HistoryProperties.AggregateCharacterized`).
- The holdings table receives the price map as `Option<PriceMap>`. `None`
  covers the states in which the table has no map: prices not loaded yet,
  the route's error body, or no ids at all.
- `handleAdd` receives the amount text together with a function `parse`.
  `parse` stands for `Number(...)` followed by `isFinite`, and gives `None`
  for a non-finite result.

A non-2xx reply and a holding of amount 0 are treated differently by the
code (app/api/history/route.ts:36-38 and :47-51). A non-2xx reply gives an
empty series, which adds no points. An amount-0 holding adds nothing to any
sum, but each of its sample timestamps still becomes a point. Where no other
holding has a sample at that timestamp, the point's value is 0.
`HistoryProperties.ZeroAmountAddsOnlyTimestamps` states this for every list
of series. `HistoryProperties.ZeroAmountStillAddsPoints` and
`HistoryProperties.FailedFetchAddsNoPoints` show the difference on one
example. In member names, a "failed fetch" is such a non-2xx reply.

## Model

| member | source | states |
|---|---|---|
| History.ClampDays | app/api/history/route.ts:13 | The day count always lies in [1, 365]. It is 90 when the field is absent, kept when in range, and cut to 1 below the range and to 365 above it. |
| History.RequestedInterval | app/api/history/route.ts:30 | The interval asked of the provider is daily exactly when the client asked for more than 90 days, and hourly when `days` is absent. |
| History.Put | app/api/history/route.ts:49-50 | After `set(t, v)` a lookup of `t` finds `v` and every other key finds what it found before. |
| History.PutShape | app/api/history/route.ts:50 | `set` adds `t` to the keys and grows the map only for a new key. Keys stay distinct. |
| History.AddSeriesValue | app/api/history/route.ts:48-51 | The inner loop raises the value stored at `t` by exactly the sum of `amount * price` over the series' samples stamped `t`. |
| History.AddSeriesKeys | app/api/history/route.ts:48-51 | The inner loop adds exactly the series' sample timestamps as keys. |
| History.AddSeriesSize | app/api/history/route.ts:48-51 | The inner loop adds at most one entry per sample and keeps the keys distinct. |
| History.AccumulateValue | app/api/history/route.ts:47-52 | After both loops the value at `t` is the sum of `amount * price` over every sample of every series stamped exactly `t`. |
| History.AccumulateKeys | app/api/history/route.ts:47-52 | After both loops the keys are the union of all sample timestamps. |
| History.AccumulateSize | app/api/history/route.ts:47-52 | After both loops there are at most as many entries as samples, with distinct keys. |
| History.LookupPresent | app/api/history/route.ts:49 | `get(t)` finds a value exactly when `t` is a key. |
| History.Insert | app/api/history/route.ts:54-55 | Inserting a point with a new timestamp into an ascending sequence keeps it ascending and adds exactly that point. |
| History.Sort | app/api/history/route.ts:54-55 | Sorting the map's entries gives an ascending permutation of them. |
| History.Aggregate | app/api/history/route.ts:45-56 | The points strictly increase in timestamp. Their timestamps are exactly the union of the sample timestamps. Each value is the exact-timestamp sum. There are never more points than samples. |
| History.Route | app/api/history/route.ts:8-17 | No holdings array, or an empty one, gives no points. Otherwise the points are the aggregate of one series per holding, each fetched with the clamped days and its interval. |
| History.SeriesOf | app/api/history/route.ts:36-41 | A non-2xx reply gives the holding's id and amount with an empty series. A reply without `prices` also gives an empty series. Otherwise the series is the reply's `prices`. |
| History.Histories | app/api/history/route.ts:21-43 | There is one series per holding, in holding order. Each comes from fetching that holding's id with the same clamped days and the interval those days choose. |
| HistoryProperties.StrictlyIncreasingUnique | app/api/history/route.ts:54-56 | Two ascending point sequences with the same elements are equal, so the sorted output is unique. |
| HistoryProperties.HeadsAgree | app/api/history/route.ts:54-56 | Two ascending point sequences with the same elements start with the same point. |
| HistoryProperties.AggregateCharacterized | app/api/history/route.ts:45-56 | The aggregate is the only ascending sequence whose timestamps are the sample timestamps and whose values are the exact-timestamp sums. |
| HistoryProperties.AggregateDeterminedByValues | app/api/history/route.ts:45-56 | Two lists of series with the same timestamps and the same sums give the same points. |
| HistoryProperties.ValueAtConcat | app/api/history/route.ts:47-51 | The sum at a timestamp over two lists of series is the sum of the two sums. |
| HistoryProperties.AllKeysConcat | app/api/history/route.ts:47-51 | The timestamps of two lists of series are the union of their timestamps. |
| HistoryProperties.AllKeysMembership | app/api/history/route.ts:47-51 | A timestamp is a point exactly when some sample of some series carries it. |
| HistoryProperties.FailedFetchContributesNothing | app/api/history/route.ts:36-38 | A position whose series is empty, as after a non-2xx reply, can be dropped without changing the points. |
| HistoryProperties.SplitAt | app/api/history/route.ts:47-51 | Taking one series out of the list subtracts exactly its contribution and its timestamps. |
| HistoryProperties.ValueAtPermutation | app/api/history/route.ts:47-51 | Sums and timestamps do not depend on the order of the series. |
| HistoryProperties.OrderIndependent | app/api/history/route.ts:21-56 | Under exact arithmetic the points do not depend on the order of the fetched series. |
| HistoryProperties.HistoriesPermutation | app/api/history/route.ts:21-43 | Permuting the holdings permutes their fetched series the same way. |
| HistoryProperties.RouteOrderIndependent | app/api/history/route.ts:8-56 | Under exact arithmetic the route's points do not depend on the order of the holdings in the request. |
| HistoryProperties.TwoSeriesExample | app/api/history/route.ts:47-56 | a = [(100, 10), (200, 20)] and b = [(100, 5)], both of amount 1, give [(100, 15), (200, 20)]. |
| HistoryProperties.ZeroAmountStillAddsPoints | app/api/history/route.ts:47-51 | In the example, a holding of amount 0 sampled at 200 still adds the point (200, 0). |
| HistoryProperties.FailedFetchAddsNoPoints | app/api/history/route.ts:36-38 | The same holding with a non-2xx reply adds no point. |
| HistoryProperties.ZeroAmountAddsOnlyTimestamps | app/api/history/route.ts:47-51 | Appending an amount-0 series adds its sample timestamps and leaves every sum unchanged. The points gain exactly those timestamps. A point no other series samples has value 0. |
| HistoryProperties.RouteIsAggregate | app/api/history/route.ts:15-17 | The no-holdings short-circuit gives what the aggregation would give, so the route always yields the aggregate of the fetched series. |
| HistoryProperties.AllFetchesFailed | app/api/history/route.ts:36-38 | When every reply is non-2xx the route gives no points. |
| Holdings.MergeAmount | app/page.tsx:36 | The map keeps the length and every id, symbol and name. Entries with the id grow by `h.amount` and all others are unchanged. |
| Seqs.Filter | app/page.tsx:43 | The result is no longer than the input. It holds exactly the elements that satisfy the predicate, each as often as in the input. |
| Seqs.FilterIsSubsequence | app/page.tsx:43 | `filter` keeps the surviving elements in their original order: the result is a subsequence of the input. |
| Seqs.Take | app/components/AddHolding.tsx:34 | `slice(0, n)` gives min(n, length) elements, and they are the input's first elements. |
| Holdings.Add | app/page.tsx:32-39 | An absent id is appended at the end. A present id keeps the length: that entry keeps its symbol and name and its amount grows by `h.amount`. Every other entry is unchanged. |
| Holdings.Remove | app/page.tsx:42-44 | The result holds exactly the entries with another id, each as often as before, in their original order. No entry has the id afterwards. Removing an absent id changes nothing. |
| Holdings.NonZero | app/page.tsx:46 | The view is exactly the entries with a positive amount, each as often as before, in their original order. It is the list itself when every amount is positive. |
| Holdings.RemoveConcat | app/page.tsx:43 | Removal acts on each part of a concatenation separately, so it never reorders. |
| Holdings.NonZeroConcat | app/page.tsx:46 | The non-zero view acts on each part of a concatenation separately. |
| Holdings.AddPreservesNoDuplicateIds | app/page.tsx:34-38 | Add keeps ids distinct. |
| Holdings.RemovePreservesNoDuplicateIds | app/page.tsx:43 | Remove keeps ids distinct. |
| Holdings.NoDuplicateIdsCons | app/page.tsx:38 | A holding whose id the list lacks can join it without creating duplicate ids. |
| Holdings.AddPreservesAllPositive | app/page.tsx:32-46 | Adding a positive amount keeps all amounts positive, so the non-zero view shows the whole list. |
| Holdings.AddThenRemove | app/page.tsx:32-44 | Removing an id right after adding to it gives the same list as only removing it. |
| Holdings.AmountOfConcat | app/page.tsx:32-39 | The amount recorded under an id in two lists together is the sum of the two amounts. |
| Holdings.AddAmountOf | app/page.tsx:32-39 | Without duplicate ids, the amount recorded under `h.id` grows by exactly `h.amount` and every other id keeps its amount. |
| Valuation.FirstIndex | app/components/HoldingsTable.tsx:20 | The position found holds the string and nothing before it does. |
| Valuation.Dedup | app/components/HoldingsTable.tsx:20 | The result has no repeats and the same elements as the input. |
| Valuation.DedupKeepsFirstOccurrenceOrder | app/components/HoldingsTable.tsx:20 | The distinct ids come in the order of their first occurrence. |
| Valuation.Ids | app/components/HoldingsTable.tsx:20 | Every holding's id occurs exactly once and nothing else occurs. |
| Valuation.IdsOf | app/components/HoldingsTable.tsx:20 | `holdings.map((h) => h.id)` gives one id per holding, at the same position. |
| Valuation.RowOf | app/components/HoldingsTable.tsx:31-35 | A row keeps the holding's fields and takes price and change from the price map. Without a map or an entry, price, change and value are 0. The value is amount times price. |
| Valuation.Rows | app/components/HoldingsTable.tsx:30-36 | There is one row per holding, in the same order. |
| Valuation.WeightedChangePct | app/components/HoldingsTable.tsx:39-43 | A zero total gives 0 instead of dividing by zero. Otherwise the change times the total is 100 times the summed dollar change. |
| Valuation.TotalConcat | app/components/HoldingsTable.tsx:38 | The total of two row lists together is the sum of their totals. |
| Valuation.TotalOfRows | app/components/HoldingsTable.tsx:30-38 | The total is the sum of amount times price over the holdings, a missing price counting as 0. |
| Valuation.UniformDollarChange | app/components/HoldingsTable.tsx:41 | When every row changed by `c` percent, the dollar change is `c` percent of the total. |
| Valuation.UniformChange | app/components/HoldingsTable.tsx:39-43 | When every row changed by `c` percent and the total is not 0, the weighted change is `c`. |
| Valuation.SingleHolding | app/components/HoldingsTable.tsx:30-43 | A single holding with a non-zero value has its own change as the portfolio change. |
| Valuation.BitcoinExample | app/components/HoldingsTable.tsx:30-43 | Bitcoin, amount 2, at 50000 with a 10% change: value 100000, total 100000, weighted change 10. |
| Valuation.DollarChangeBounds | app/components/HoldingsTable.tsx:38-41 | With non-negative values, the dollar change lies between the smallest and the largest row change applied to the total. |
| Valuation.WeightedChangeWithinRowChanges | app/components/HoldingsTable.tsx:39-43 | With non-negative values and a non-zero total, the weighted change lies between the smallest and the largest row change. |
| Valuation.TotalNonNegative | app/components/HoldingsTable.tsx:38 | Non-negative row values give a non-negative total. |
| Search.SkipForward | app/components/AddHolding.tsx:33 | The position found is the first at or after the start that is not white space; everything skipped is white space. |
| Search.SkipBackward | app/components/AddHolding.tsx:33 | The position found follows the last character that is not white space; everything skipped is white space. |
| Search.Trim | app/components/AddHolding.tsx:33 | The trimmed text is the piece between leading and trailing white space. It neither starts nor ends with white space, and everything cut off is white space. |
| Search.ToLower | app/components/AddHolding.tsx:33 | Same length, each character lower-cased. |
| Search.Filtered | app/components/AddHolding.tsx:32-42 | At most 12 coins, an order-preserving subsequence of the catalogue. An empty query gives the first min(12, n) coins. Otherwise the result is the first min(12, m) of the m matching coins, in catalogue order: every coin listed has a name or symbol containing the normalised query, and when fewer than 12 are listed every matching coin is among them. |
| Search.FewMatchesAllListed | app/components/AddHolding.tsx:35-41 | With at most 12 matches every matching coin is listed. |
| Search.BlankQueryListsFirstCoins | app/components/AddHolding.tsx:33-34 | A query of white space only lists the first min(12, n) coins. |
| Search.ToLowerIdempotent | app/components/AddHolding.tsx:33 | Lower-casing twice is lower-casing once. |
| Search.SkipForwardLower | app/components/AddHolding.tsx:33 | Lower-casing does not move where the leading white space ends. |
| Search.SkipBackwardLower | app/components/AddHolding.tsx:33 | Lower-casing does not move where the trailing white space starts. |
| Search.TrimLower | app/components/AddHolding.tsx:33 | Trimming commutes with lower-casing. |
| Search.NormalizeIgnoresCase | app/components/AddHolding.tsx:33 | The normalised query does not depend on the case of the query's letters. |
| Search.SearchIgnoresQueryCase | app/components/AddHolding.tsx:32-42 | The search lists the same coins whatever the case of the query's letters. |
| Search.MatchIgnoresNameCase | app/components/AddHolding.tsx:36-40 | Whether a coin matches does not depend on the case of its name's and symbol's letters. |
| Search.HandleAdd | app/components/AddHolding.tsx:49-57 | A holding is emitted exactly when a coin is selected and the amount parses to a finite positive number. It carries the coin's id, symbol and name and the parsed amount, and the form is cleared. Otherwise nothing is emitted and the form is unchanged. |
| Search.AddFormKeepsHoldingsInvariant | app/components/AddHolding.tsx:49-57 | Passing what the form emits to the page's add keeps ids distinct and amounts positive. |
| Search.AfterAddListsFirstCoins | app/components/AddHolding.tsx:53-55 | After a successful add the search lists the first coins of the catalogue again. |
| Prices.InfoOf | app/api/price/route.ts:35-38 | Price is `usd` and change is `usd_24h_change`, each 0 when missing. |
| Prices.Project | app/api/price/route.ts:31-40 | Keys are among the requested ids. A requested id is present exactly when the provider has an entry for it. Price and change come from that entry, with 0 defaults. |
| Prices.Route | app/api/price/route.ts:8-40 | No ids, or no array, gives the empty map without asking the provider. A non-2xx provider reply gives the failure reply (status 502). Otherwise the reply is the projection. |
| Prices.ProjectionUnique | app/api/price/route.ts:31-40 | The projection depends only on the set of requested ids, not on their order or repetitions. |
| Prices.TableValuesProjection | app/api/price/route.ts:31-40 | In the holdings table, a requested coin the provider does not know is worth 0. A known coin is worth amount times `usd`, or 0 when `usd` is missing. |

## Left out

- HTTP and framework plumbing is not modelled:
  - request parsing, URL building, `NextResponse` and status codes;
  - the `revalidate` caching;
  - the `try`/`catch` that answers 400 (app/api/history/route.ts:59-61, app/api/price/route.ts:43-45).

  The upstream provider is an input value.
- A rejected `fetch` (a network failure) or a `res.json()` that throws on a
  2xx body that is not JSON (app/api/history/route.ts:32 and :39,
  app/api/price/route.ts:18 and :30) is not modelled. For any one holding it
  makes the whole route answer 400 through the `catch`. So the per-holding
  tolerance that `HistoryProperties.FailedFetchContributesNothing` and
  `HistoryProperties.AllFetchesFailed` prove covers only non-2xx replies.
- `Promise.all` in the history route keeps each result at its holding's
  position, so the order in which fetches settle never reaches the
  aggregation. The fetches themselves are a function of (id, days,
  interval): two holdings with the same id get the same reply, although the
  program sends two requests that could be answered differently. The page
  keeps ids distinct, and no proved property depends on this.
- localStorage persistence in `useLocalStorage` (app/page.tsx:9-26) is
  browser I/O and is not modelled.
- SWR polling, React state and JSX rendering are not modelled. Neither is
  app/components/PortfolioChart.tsx (chart configuration and fetching) or
  app/api/coins/route.ts (one HTTP call and a field projection).
- IEEE-754 arithmetic is not modelled: rounding, `NaN` and infinities,
  `toFixed` and `toLocaleString`. All arithmetic is on exact reals.
- History.ClampDays: does not model a `days` value that `Number(...)` turns
  into `NaN`, which the program passes through unclamped, because `NaN` has
  no exact-real counterpart.
- Search.HandleAdd: does not model how `Number(...)` parses text, because
  that is a library routine. The parser is a parameter, and its `None`
  stands for a non-finite result.
- Search.ToLower: lower-cases only the letters A-Z, because full Unicode
  case mapping is a library table. `Trim` uses the full set of white space
  and line terminators that `trim` removes.
- History.Sort: `Array.prototype.sort`'s algorithm is not specified, so
  insertion sort stands in. Keys are distinct, so the sorted result is
  unique (`HistoryProperties.StrictlyIncreasingUnique`).
- Prices.Route: does not model ids that are not strings, or special
  property names such as `__proto__` on the result object, because they
  depend on JavaScript object semantics.
