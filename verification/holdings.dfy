/**
 The holdings list kept by the home page (app/page.tsx): adding a holding
 merges its amount into an entry with the same id or appends it, removing
 drops every entry with an id, and the displayed view keeps only the
 entries with a positive amount. Together they behave like a keyed list
 whose invariant is that no two entries share an id.
 */
module Holdings {
  import opened Types
  import Seqs

  /** No two entries share an id. */
  ghost predicate NoDuplicateIds(hs: seq<Holding>) {
    forall i, j :: 0 <= i < j < |hs| ==> hs[i].id != hs[j].id
  }

  /** Every entry has a positive amount. */
  predicate AllPositive(hs: seq<Holding>) {
    forall i :: 0 <= i < |hs| ==> hs[i].amount > 0.0
  }

  /** Some entry has the id (the program's `cur.find(x => x.id === id)`). */
  predicate HasId(hs: seq<Holding>, id: string) {
    exists i :: 0 <= i < |hs| && hs[i].id == id
  }

  /** The entries with id `h.id` get `h.amount` added; the others are kept. */
  function MergeAmount(cur: seq<Holding>, h: Holding): (r: seq<Holding>)
    ensures |r| == |cur|
    ensures forall i :: 0 <= i < |cur| ==>
      && r[i].id == cur[i].id
      && r[i].symbol == cur[i].symbol
      && r[i].name == cur[i].name
    ensures forall i :: 0 <= i < |cur| && cur[i].id == h.id ==>
      r[i].amount == cur[i].amount + h.amount
    ensures forall i :: 0 <= i < |cur| && cur[i].id != h.id ==> r[i] == cur[i]
    decreases |cur|
  {
    if |cur| == 0 then []
    else
      var x := cur[0];
      var y := if x.id == h.id then x.(amount := x.amount + h.amount) else x;
      [y] + MergeAmount(cur[1..], h)
  }

  /** addHolding: merge into the existing entry with the same id, or append. */
  function Add(cur: seq<Holding>, h: Holding): (r: seq<Holding>)
    ensures !HasId(cur, h.id) ==> r == cur + [h]
    ensures HasId(cur, h.id) ==> |r| == |cur|
    ensures HasId(cur, h.id) ==> forall i :: 0 <= i < |cur| && cur[i].id == h.id ==>
      r[i] == Holding(cur[i].id, cur[i].symbol, cur[i].name, cur[i].amount + h.amount)
    ensures forall i :: 0 <= i < |cur| && cur[i].id != h.id ==> r[i] == cur[i]
  {
    if HasId(cur, h.id) then MergeAmount(cur, h) else cur + [h]
  }

  /** The predicate that keeps every entry whose id differs from `id`. */
  function OtherId(id: string): Holding -> bool {
    (x: Holding) => x.id != id
  }

  /** removeHolding: drop every entry with the id, keep the rest in order. */
  function Remove(cur: seq<Holding>, id: string): (r: seq<Holding>)
    ensures forall x :: x in r <==> x in cur && x.id != id
    ensures !HasId(r, id)
    ensures !HasId(cur, id) ==> r == cur
    ensures Seqs.IsSubsequence(r, cur)
    ensures forall x :: multiset(r)[x] == if x.id != id then multiset(cur)[x] else 0
  {
    var r := Seqs.Filter(cur, OtherId(id));
    Seqs.FilterIsSubsequence(cur, OtherId(id));
    if !HasId(cur, id) then
      Seqs.FilterAll(cur, OtherId(id));
      r
    else
      r
  }

  /** The predicate that keeps every entry with a positive amount. */
  function PositiveAmount(): Holding -> bool {
    (x: Holding) => x.amount > 0.0
  }

  /** nonZeroHoldings: the entries with a positive amount, in order. */
  function NonZero(hs: seq<Holding>): (r: seq<Holding>)
    ensures forall x :: x in r <==> x in hs && x.amount > 0.0
    ensures AllPositive(r)
    ensures Seqs.IsSubsequence(r, hs)
    ensures AllPositive(hs) ==> r == hs
    ensures forall x :: multiset(r)[x] == if x.amount > 0.0 then multiset(hs)[x] else 0
  {
    var r := Seqs.Filter(hs, PositiveAmount());
    Seqs.FilterIsSubsequence(hs, PositiveAmount());
    assert forall i :: 0 <= i < |r| ==> r[i] in r;
    if AllPositive(hs) then
      Seqs.FilterAll(hs, PositiveAmount());
      r
    else
      r
  }

  /** Remove keeps the relative order: it acts on each part of a
      concatenation separately. */
  lemma RemoveConcat(a: seq<Holding>, b: seq<Holding>, id: string)
    ensures Remove(a + b, id) == Remove(a, id) + Remove(b, id)
  {
    Seqs.FilterConcat(a, b, OtherId(id));
  }

  /** The non-zero view keeps the relative order in the same way. */
  lemma NonZeroConcat(a: seq<Holding>, b: seq<Holding>)
    ensures NonZero(a + b) == NonZero(a) + NonZero(b)
  {
    Seqs.FilterConcat(a, b, PositiveAmount());
  }

  /** Add keeps the ids distinct. */
  lemma AddPreservesNoDuplicateIds(cur: seq<Holding>, h: Holding)
    requires NoDuplicateIds(cur)
    ensures NoDuplicateIds(Add(cur, h))
  {
    var r := Add(cur, h);
    if !HasId(cur, h.id) {
      forall i, j | 0 <= i < j < |r|
        ensures r[i].id != r[j].id
      {
        if j == |cur| {
          assert r[j] == h;
          assert r[i] == cur[i];
        }
      }
    }
  }

  /** Remove keeps the ids distinct. */
  lemma {:induction false} RemovePreservesNoDuplicateIds(cur: seq<Holding>, id: string)
    requires NoDuplicateIds(cur)
    ensures NoDuplicateIds(Remove(cur, id))
    decreases |cur|
  {
    if |cur| > 0 {
      assert cur == [cur[0]] + cur[1..];
      RemoveConcat([cur[0]], cur[1..], id);
      NoDuplicateIdsTail(cur);
      RemovePreservesNoDuplicateIds(cur[1..], id);
      var rest := Remove(cur[1..], id);
      if cur[0].id != id {
        assert Remove([cur[0]], id) == [cur[0]];
        NoDuplicateIdsCons(cur[0], rest);
      } else {
        assert Remove([cur[0]], id) == [];
      }
    }
  }

  /** Without duplicates, the tail has none either and the head's id does
      not occur in it. */
  lemma NoDuplicateIdsTail(cur: seq<Holding>)
    requires NoDuplicateIds(cur) && |cur| > 0
    ensures NoDuplicateIds(cur[1..])
    ensures forall x :: x in cur[1..] ==> x.id != cur[0].id
  {
    forall x | x in cur[1..]
      ensures x.id != cur[0].id
    {
      var m :| 0 <= m < |cur[1..]| && cur[1..][m] == x;
      assert cur[m + 1] == x;
    }
  }

  /** A holding whose id the list lacks can go in front without creating
      duplicates. */
  lemma NoDuplicateIdsCons(h: Holding, rest: seq<Holding>)
    requires NoDuplicateIds(rest)
    requires forall x :: x in rest ==> x.id != h.id
    ensures NoDuplicateIds([h] + rest)
  {
    var r := [h] + rest;
    forall i, j | 0 <= i < j < |r|
      ensures r[i].id != r[j].id
    {
      assert r[j] == rest[j - 1];
      if i == 0 {
        assert rest[j - 1] in rest;
      } else {
        assert r[i] == rest[i - 1];
      }
    }
  }

  /** Add with a positive amount keeps every amount positive, so the
      non-zero view of such a list is the list itself. */
  lemma AddPreservesAllPositive(cur: seq<Holding>, h: Holding)
    requires AllPositive(cur)
    requires h.amount > 0.0
    ensures AllPositive(Add(cur, h))
    ensures NonZero(Add(cur, h)) == Add(cur, h)
  {
  }

  /** Removing an id after adding it is the same as only removing it. */
  lemma {:induction false} AddThenRemove(cur: seq<Holding>, h: Holding)
    ensures Remove(Add(cur, h), h.id) == Remove(cur, h.id)
  {
    if HasId(cur, h.id) {
      MergeThenRemove(cur, h);
    } else {
      RemoveConcat(cur, [h], h.id);
      assert Remove([h], h.id) == [];
    }
  }

  lemma {:induction false} MergeThenRemove(cur: seq<Holding>, h: Holding)
    ensures Remove(MergeAmount(cur, h), h.id) == Remove(cur, h.id)
    decreases |cur|
  {
    if |cur| > 0 {
      var m := MergeAmount(cur, h);
      assert m[1..] == MergeAmount(cur[1..], h);
      MergeThenRemove(cur[1..], h);
      RemoveHead(cur, h.id);
      RemoveHead(m, h.id);
    }
  }

  /** Remove looks at the first entry, then at the rest. */
  lemma RemoveHead(s: seq<Holding>, id: string)
    requires |s| > 0
    ensures Remove(s, id) == if s[0].id != id then [s[0]] + Remove(s[1..], id) else Remove(s[1..], id)
  {
    assert s == [s[0]] + s[1..];
    RemoveConcat([s[0]], s[1..], id);
  }

  /** The total amount recorded under an id. */
  function AmountOf(hs: seq<Holding>, id: string): real
    decreases |hs|
  {
    if |hs| == 0 then 0.0
    else (if hs[0].id == id then hs[0].amount else 0.0) + AmountOf(hs[1..], id)
  }

  lemma {:induction false} AmountOfConcat(a: seq<Holding>, b: seq<Holding>, id: string)
    ensures AmountOf(a + b, id) == AmountOf(a, id) + AmountOf(b, id)
    decreases |a|
  {
    if |a| > 0 {
      assert (a + b)[1..] == a[1..] + b;
      AmountOfConcat(a[1..], b, id);
    } else {
      assert a + b == b;
    }
  }

  /** Without duplicates, Add behaves like adding to a per-id balance: the
      amount under `h.id` grows by exactly `h.amount`, every other id keeps
      its amount. */
  lemma AddAmountOf(cur: seq<Holding>, h: Holding, id: string)
    requires NoDuplicateIds(cur)
    ensures AmountOf(Add(cur, h), id) == AmountOf(cur, id) + (if id == h.id then h.amount else 0.0)
  {
    if HasId(cur, h.id) {
      var k :| 0 <= k < |cur| && cur[k].id == h.id;
      MergeAmountOf(cur, h, id, k);
    } else {
      AmountOfConcat(cur, [h], id);
      assert [h][1..] == [];
    }
  }

  lemma {:induction false} MergeAmountOf(cur: seq<Holding>, h: Holding, id: string, k: nat)
    requires NoDuplicateIds(cur)
    requires k < |cur| && cur[k].id == h.id
    ensures AmountOf(MergeAmount(cur, h), id) == AmountOf(cur, id) + (if id == h.id then h.amount else 0.0)
    decreases |cur|
  {
    var m := MergeAmount(cur, h);
    assert m[1..] == MergeAmount(cur[1..], h);
    if k == 0 {
      MergeAmountOfAbsent(cur[1..], h, id);
    } else {
      MergeAmountOf(cur[1..], h, id, k - 1);
    }
  }

  lemma {:induction false} MergeAmountOfAbsent(cur: seq<Holding>, h: Holding, id: string)
    requires !HasId(cur, h.id)
    ensures AmountOf(MergeAmount(cur, h), id) == AmountOf(cur, id)
    decreases |cur|
  {
    if |cur| > 0 {
      var m := MergeAmount(cur, h);
      assert m[1..] == MergeAmount(cur[1..], h);
      assert cur[0].id != h.id;
      MergeAmountOfAbsent(cur[1..], h, id);
    }
  }
}
