/**
 The add-holding form (app/components/AddHolding.tsx): the coin search that
 shows at most twelve catalogue entries whose name or symbol contains the
 trimmed, lower-cased query, and the add action that turns the selected
 coin and the typed amount into a holding.
 */
module Search {
  import opened Types
  import Seqs
  import Holdings

  /** At most this many coins are listed. */
  const MaxResults: nat := 12

  // ---------------------------------------------------------------------
  // Text helpers: `String.prototype.trim`, `toLowerCase`, `includes`
  // ---------------------------------------------------------------------

  /** The white space and line terminators that `trim` removes. */
  const Spaces: set<char> := {
    '\t', '\n', '\U{000B}', '\U{000C}', '\r', ' ', '\U{00A0}', '\U{1680}',
    '\U{2000}', '\U{2001}', '\U{2002}', '\U{2003}', '\U{2004}', '\U{2005}',
    '\U{2006}', '\U{2007}', '\U{2008}', '\U{2009}', '\U{200A}',
    '\U{2028}', '\U{2029}', '\U{202F}', '\U{205F}', '\U{3000}', '\U{FEFF}'
  }

  predicate IsSpace(c: char) {
    c in Spaces
  }

  /** The position of the first character at or after `i` that is not
      white space, or `|s|` when there is none. */
  function SkipForward(s: string, i: nat): (j: nat)
    requires i <= |s|
    ensures i <= j <= |s|
    ensures forall k :: i <= k < j ==> IsSpace(s[k])
    ensures j < |s| ==> !IsSpace(s[j])
    decreases |s| - i
  {
    if i < |s| && IsSpace(s[i]) then SkipForward(s, i + 1) else i
  }

  /** The position just after the last character before `j` that is not
      white space, but not below `lo`. */
  function SkipBackward(s: string, lo: nat, j: nat): (e: nat)
    requires lo <= j <= |s|
    ensures lo <= e <= j
    ensures forall k :: e <= k < j ==> IsSpace(s[k])
    ensures e > lo ==> !IsSpace(s[e - 1])
    decreases j
  {
    if j > lo && IsSpace(s[j - 1]) then SkipBackward(s, lo, j - 1) else j
  }

  /** Where the trimmed text starts. */
  function TrimStart(s: string): nat {
    SkipForward(s, 0)
  }

  /** Where the trimmed text ends. */
  function TrimEnd(s: string): nat {
    SkipBackward(s, TrimStart(s), |s|)
  }

  /** `s.trim()`: the piece of `s` between the leading and the trailing
      white space. It neither starts nor ends with white space, and
      everything cut off is white space. */
  function Trim(s: string): (r: string)
    ensures TrimStart(s) <= TrimEnd(s) <= |s| && r == s[TrimStart(s)..TrimEnd(s)]
    ensures forall i :: 0 <= i < TrimStart(s) ==> IsSpace(s[i])
    ensures forall i :: TrimEnd(s) <= i < |s| ==> IsSpace(s[i])
    ensures |r| > 0 ==> !IsSpace(r[0]) && !IsSpace(r[|r| - 1])
  {
    s[TrimStart(s)..TrimEnd(s)]
  }

  /** The lower-case form of one character; only the letters A-Z change. */
  function LowerChar(c: char): (d: char)
    ensures 'A' <= c <= 'Z' ==> 'a' <= d <= 'z' && d as int - c as int == 32
    ensures !('A' <= c <= 'Z') ==> d == c
  {
    if 'A' <= c <= 'Z' then (c as int + 32) as char else c
  }

  /** `s.toLowerCase()` restricted to the letters A-Z. */
  function ToLower(s: string): (r: string)
    ensures |r| == |s|
    ensures forall i :: 0 <= i < |s| ==> r[i] == LowerChar(s[i])
  {
    seq(|s|, i requires 0 <= i < |s| => LowerChar(s[i]))
  }

  /** `s.includes(q)`: `q` occurs in `s` at some position. */
  predicate Contains(s: string, q: string) {
    exists k :: 0 <= k <= |s| - |q| && OccursAt(s, q, k)
  }

  /** `q` occurs in `s` starting at position `k`. */
  predicate OccursAt(s: string, q: string, k: nat)
    requires k + |q| <= |s|
  {
    s[k..k + |q|] == q
  }

  // ---------------------------------------------------------------------
  // The coin search
  // ---------------------------------------------------------------------

  /** The normalised query: trimmed, then lower-cased. */
  function Normalize(query: string): string {
    ToLower(Trim(query))
  }

  /** Whether a coin's name or symbol, lower-cased, contains `q`. */
  predicate Matches(c: Coin, q: string) {
    Contains(ToLower(c.name), q) || Contains(ToLower(c.symbol), q)
  }

  /** The predicate handed to the filter. */
  function MatchesQuery(q: string): Coin -> bool {
    (c: Coin) => Matches(c, q)
  }

  /** `filtered`: an empty normalised query lists the first twelve coins;
      otherwise the first twelve coins that match it, in catalogue order. */
  function Filtered(coins: seq<Coin>, query: string): (r: seq<Coin>)
    ensures |r| <= MaxResults
    ensures Seqs.IsSubsequence(r, coins)
    ensures Normalize(query) == [] ==> |r| == (if |coins| < MaxResults then |coins| else MaxResults)
    ensures Normalize(query) == [] ==> r == coins[..|r|]
    ensures forall c :: c in r ==> c in coins
    ensures Normalize(query) != [] ==> forall c :: c in r ==> Matches(c, Normalize(query))
    ensures Normalize(query) != [] ==>
      var m := Seqs.Filter(coins, MatchesQuery(Normalize(query)));
      |r| == (if |m| < MaxResults then |m| else MaxResults) && r == m[..|r|]
    ensures Normalize(query) != [] && |r| < MaxResults ==>
      forall c :: c in coins && Matches(c, Normalize(query)) ==> c in r
  {
    var q := Normalize(query);
    if q == [] then
      var r := Seqs.Take(coins, MaxResults);
      assert r == coins[..|r|];
      Seqs.SubsequenceReflexive(coins);
      Seqs.SubsequencePrefix(coins, coins, |r|);
      Seqs.SubsequenceElements(r, coins);
      r
    else
      var matching := Seqs.Filter(coins, MatchesQuery(q));
      var r := Seqs.Take(matching, MaxResults);
      assert r == matching[..|r|];
      Seqs.FilterIsSubsequence(coins, MatchesQuery(q));
      Seqs.SubsequencePrefix(matching, coins, |r|);
      Seqs.SubsequenceElements(r, coins);
      assert forall c :: c in r ==> c in matching;
      assert forall c :: c in coins && Matches(c, q) ==> MatchesQuery(q)(c);
      r
  }

  /** With at most twelve matches, the search lists every one of them. */
  lemma FewMatchesAllListed(coins: seq<Coin>, query: string, c: Coin)
    ensures var q := Normalize(query);
      q != [] && |Seqs.Filter(coins, MatchesQuery(q))| <= MaxResults && c in coins && Matches(c, q)
      ==> c in Filtered(coins, query)
  {
    var q := Normalize(query);
    if q != [] && |Seqs.Filter(coins, MatchesQuery(q))| <= MaxResults && c in coins && Matches(c, q) {
      assert MatchesQuery(q)(c);
      assert Filtered(coins, query) == Seqs.Filter(coins, MatchesQuery(q));
    }
  }

  /** A query of white space only behaves like an empty query. */
  lemma BlankQueryListsFirstCoins(coins: seq<Coin>, query: string)
    requires forall i :: 0 <= i < |query| ==> IsSpace(query[i])
    ensures Normalize(query) == []
    ensures Filtered(coins, query) == coins[..if |coins| < MaxResults then |coins| else MaxResults]
  {
  }

  lemma {:induction false} LowerCharIdempotent(c: char)
    ensures LowerChar(LowerChar(c)) == LowerChar(c)
    ensures IsSpace(LowerChar(c)) == IsSpace(c)
  {
  }

  lemma {:induction false} SkipForwardLower(s: string, i: nat)
    requires i <= |s|
    ensures SkipForward(ToLower(s), i) == SkipForward(s, i)
    decreases |s| - i
  {
    if i < |s| {
      LowerCharIdempotent(s[i]);
      SkipForwardLower(s, i + 1);
    }
  }

  lemma {:induction false} SkipBackwardLower(s: string, lo: nat, j: nat)
    requires lo <= j <= |s|
    ensures SkipBackward(ToLower(s), lo, j) == SkipBackward(s, lo, j)
    decreases j
  {
    if j > lo {
      LowerCharIdempotent(s[j - 1]);
      SkipBackwardLower(s, lo, j - 1);
    }
  }

  /** Trimming commutes with lower-casing: both cut at the same places. */
  lemma TrimLower(s: string)
    ensures Trim(ToLower(s)) == ToLower(Trim(s))
  {
    var a, b := TrimStart(s), TrimEnd(s);
    assert TrimStart(ToLower(s)) == a by {
      SkipForwardLower(s, 0);
    }
    assert TrimEnd(ToLower(s)) == b by {
      SkipBackwardLower(s, a, |s|);
    }
    SliceLower(s, a, b);
  }

  /** Lower-casing a piece is taking the piece of the lower-cased text. */
  lemma SliceLower(s: string, a: nat, b: nat)
    requires a <= b <= |s|
    ensures ToLower(s)[a..b] == ToLower(s[a..b])
  {
  }

  lemma ToLowerIdempotent(s: string)
    ensures ToLower(ToLower(s)) == ToLower(s)
  {
    forall i | 0 <= i < |s|
      ensures ToLower(ToLower(s))[i] == ToLower(s)[i]
    {
      LowerCharIdempotent(s[i]);
    }
  }

  /** Normalising ignores the case of the query's letters A-Z. */
  lemma NormalizeIgnoresCase(query: string)
    ensures Normalize(ToLower(query)) == Normalize(query)
  {
    TrimLower(query);
    ToLowerIdempotent(Trim(query));
  }

  /** The search ignores the case of the query's letters A-Z. */
  lemma SearchIgnoresQueryCase(coins: seq<Coin>, query: string)
    ensures Filtered(coins, ToLower(query)) == Filtered(coins, query)
  {
    NormalizeIgnoresCase(query);
  }

  /** A coin matches whatever the case of its name's letters: matching
      looks at the lower-cased name and symbol only. */
  lemma MatchIgnoresNameCase(c: Coin, q: string)
    ensures Matches(c.(name := ToLower(c.name), symbol := ToLower(c.symbol)), q) == Matches(c, q)
  {
    ToLowerIdempotent(c.name);
    ToLowerIdempotent(c.symbol);
  }

  // ---------------------------------------------------------------------
  // The add action
  // ---------------------------------------------------------------------

  /** The form's state: the search text, the amount text and the coin picked
      from the list. */
  datatype Form = Form(query: string, amountText: string, selected: Option<Coin>)

  /** The form after a successful add. */
  const Cleared: Form := Form("", "", None)

  /** `handleAdd`: `parse` stands for `Number(...)` followed by the
      finiteness test (None for NaN or an infinity). Without a selection or
      with an amount that is not positive nothing happens; otherwise the
      holding is emitted and the form cleared. */
  function HandleAdd(form: Form, parse: string -> Option<real>): (r: (Form, Option<Holding>))
    ensures r.1.Some? <==> form.selected.Some? && parse(form.amountText).Some? && parse(form.amountText).value > 0.0
    ensures r.1.None? ==> r.0 == form
    ensures r.1.Some? ==> r.0 == Cleared
    ensures r.1.Some? ==> && r.1.value.id == form.selected.value.id
                          && r.1.value.symbol == form.selected.value.symbol
                          && r.1.value.name == form.selected.value.name
                          && r.1.value.amount == parse(form.amountText).value
  {
    match form.selected
    case None => (form, None)
    case Some(c) =>
      match parse(form.amountText)
      case None => (form, None)
      case Some(amt) =>
        if amt <= 0.0 then (form, None)
        else (Cleared, Some(Holding(c.id, c.symbol, c.name, amt)))
  }

  /** Every holding the form emits has a positive amount, so feeding it to
      the page's add keeps the list free of duplicate ids and of non-positive
      amounts. */
  lemma AddFormKeepsHoldingsInvariant(cur: seq<Holding>, form: Form, parse: string -> Option<real>)
    requires Holdings.NoDuplicateIds(cur) && Holdings.AllPositive(cur)
    ensures var next := match HandleAdd(form, parse).1
                        case None => cur
                        case Some(h) => Holdings.Add(cur, h);
      Holdings.NoDuplicateIds(next) && Holdings.AllPositive(next) && Holdings.NonZero(next) == next
  {
    match HandleAdd(form, parse).1
    case None =>
      var _ := Holdings.NonZero(cur);
    case Some(h) =>
      Holdings.AddPreservesNoDuplicateIds(cur, h);
      Holdings.AddPreservesAllPositive(cur, h);
  }

  /** After a successful add the search box is empty again, so the list
      shows the first coins of the catalogue. */
  lemma AfterAddListsFirstCoins(coins: seq<Coin>, form: Form, parse: string -> Option<real>)
    requires HandleAdd(form, parse).1.Some?
    ensures Filtered(coins, HandleAdd(form, parse).0.query) == coins[..if |coins| < MaxResults then |coins| else MaxResults]
  {
    BlankQueryListsFirstCoins(coins, "");
  }
}
