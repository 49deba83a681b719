/** Coins as the Cosmos SDK keeps them: lists with one entry per denomination, strictly sorted. */
module Coins {
  import opened FixedPoint

  type Address = string
  type Denom = string

  datatype Coin = Coin(denom: Denom, amount: int)
  datatype DecCoin = DecCoin(denom: Denom, amount: Dec)

  /** The order Go uses on strings. */
  predicate Less(s: string, t: string) {
    t != [] && (s == [] || s[0] < t[0] || (s[0] == t[0] && Less(s[1..], t[1..])))
  }

  lemma {:induction false} LessTransitive(s: string, t: string, u: string)
    requires Less(s, t) && Less(t, u)
    ensures Less(s, u)
  {
    if s != [] && s[0] == t[0] == u[0] {
      LessTransitive(s[1..], t[1..], u[1..]);
    }
  }

  lemma {:induction false} LessIrreflexive(s: string)
    ensures !Less(s, s)
  {
    if s != [] {
      LessIrreflexive(s[1..]);
    }
  }

  lemma {:induction false} LessTotal(s: string, t: string)
    ensures s == t || Less(s, t) || Less(t, s)
  {
    if s != [] && t != [] && s[0] == t[0] {
      LessTotal(s[1..], t[1..]);
      assert s == [s[0]] + s[1..] && t == [t[0]] + t[1..];
    }
  }

  /** Neighbours are in strict order, which is what `Coins.Validate` compares. */
  predicate Sorted(cs: seq<Coin>) {
    forall i :: 0 < i < |cs| ==> Less(cs[i - 1].denom, cs[i].denom)
  }

  predicate ValidCoins(cs: seq<Coin>) {
    Sorted(cs) && forall i :: 0 <= i < |cs| ==> cs[i].amount > 0
  }

  predicate IsZero(cs: seq<Coin>) {
    forall i :: 0 <= i < |cs| ==> cs[i].amount == 0
  }

  ghost predicate Distinct(cs: seq<Coin>) {
    forall i, j :: 0 <= i < j < |cs| ==> cs[i].denom != cs[j].denom
  }

  function AmountOf(cs: seq<Coin>, d: Denom): int {
    if cs == [] then 0
    else
      var last := cs[|cs| - 1];
      AmountOf(cs[..|cs| - 1], d) + (if last.denom == d then last.amount else 0)
  }

  lemma {:induction false} SortedBefore(cs: seq<Coin>, i: nat, j: nat)
    requires Sorted(cs) && i < j < |cs|
    ensures Less(cs[i].denom, cs[j].denom)
    decreases j
  {
    if i + 1 < j {
      SortedBefore(cs, i, j - 1);
      LessTransitive(cs[i].denom, cs[j - 1].denom, cs[j].denom);
    }
  }

  lemma SortedIsDistinct(cs: seq<Coin>)
    requires Sorted(cs)
    ensures Distinct(cs)
  {
    forall i, j | 0 <= i < j < |cs| ensures cs[i].denom != cs[j].denom {
      SortedBefore(cs, i, j);
      LessIrreflexive(cs[i].denom);
    }
  }

  lemma AmountOfAppend(cs: seq<Coin>, c: Coin, d: Denom)
    ensures AmountOf(cs + [c], d) == AmountOf(cs, d) + (if c.denom == d then c.amount else 0)
  {
  }

  lemma AmountOfPrefix(cs: seq<Coin>, i: nat, d: Denom)
    requires i < |cs|
    ensures AmountOf(cs[..i + 1], d) == AmountOf(cs[..i], d) + (if cs[i].denom == d then cs[i].amount else 0)
  {
    assert cs[..i + 1] == cs[..i] + [cs[i]];
    AmountOfAppend(cs[..i], cs[i], d);
  }

  lemma {:induction false} AmountOfAbsent(cs: seq<Coin>, d: Denom)
    requires forall i :: 0 <= i < |cs| ==> cs[i].denom != d
    ensures AmountOf(cs, d) == 0
  {
    if cs != [] {
      AmountOfAbsent(cs[..|cs| - 1], d);
    }
  }

  /** With one entry per denomination, the amount of an entry's denomination is that entry's. */
  lemma {:induction false} AmountOfEntry(cs: seq<Coin>, i: nat)
    requires Distinct(cs) && i < |cs|
    ensures AmountOf(cs, cs[i].denom) == cs[i].amount
  {
    var init := cs[..|cs| - 1];
    if i < |init| {
      AmountOfEntry(init, i);
    } else {
      AmountOfAbsent(init, cs[i].denom);
    }
  }

  lemma {:induction false} AmountOfNonNegative(cs: seq<Coin>, d: Denom)
    requires forall i :: 0 <= i < |cs| ==> cs[i].amount >= 0
    ensures AmountOf(cs, d) >= 0
  {
    if cs != [] {
      AmountOfNonNegative(cs[..|cs| - 1], d);
    }
  }

  /** A list with a positive amount of `d` has an entry for it. */
  lemma EntryOf(cs: seq<Coin>, d: Denom) returns (i: nat)
    requires AmountOf(cs, d) != 0
    ensures i < |cs| && cs[i].denom == d
  {
    if forall k :: 0 <= k < |cs| ==> cs[k].denom != d {
      AmountOfAbsent(cs, d);
    }
    i :| i < |cs| && cs[i].denom == d;
  }

  /** `Coins.IsAnyGTE`: some coin meets a non-zero threshold of its own denomination. */
  predicate IsAnyGTE(cs: seq<Coin>, thresholds: seq<Coin>) {
    exists i :: 0 <= i < |cs| &&
      var t := AmountOf(thresholds, cs[i].denom); cs[i].amount >= t && t != 0
  }

  /** Sorted insertion, used to list an account's balances in the store's order. */
  function Insert(cs: seq<Coin>, c: Coin): seq<Coin> {
    if cs == [] || Less(c.denom, cs[0].denom) then [c] + cs
    else [cs[0]] + Insert(cs[1..], c)
  }

  lemma {:induction false} InsertKeepsValid(cs: seq<Coin>, c: Coin)
    requires ValidCoins(cs) && c.amount > 0
    requires forall i :: 0 <= i < |cs| ==> cs[i].denom != c.denom
    ensures ValidCoins(Insert(cs, c))
    ensures cs != [] ==> Insert(cs, c)[0].denom in {c.denom, cs[0].denom}
  {
    if cs != [] && !Less(c.denom, cs[0].denom) {
      LessTotal(c.denom, cs[0].denom);
      InsertKeepsValid(cs[1..], c);
    }
  }

  lemma {:induction false} AmountOfCons(c: Coin, cs: seq<Coin>, d: Denom)
    ensures AmountOf([c] + cs, d) == (if c.denom == d then c.amount else 0) + AmountOf(cs, d)
  {
    if cs == [] {
      assert [c] + cs == [] + [c];
      AmountOfAppend([], c, d);
    } else {
      var init, last := cs[..|cs| - 1], cs[|cs| - 1];
      assert [c] + cs == ([c] + init) + [last];
      AmountOfCons(c, init, d);
      AmountOfAppend([c] + init, last, d);
    }
  }

  lemma {:induction false} AmountOfInsert(cs: seq<Coin>, c: Coin, d: Denom)
    ensures AmountOf(Insert(cs, c), d) == AmountOf(cs, d) + (if c.denom == d then c.amount else 0)
  {
    if cs == [] || Less(c.denom, cs[0].denom) {
      AmountOfCons(c, cs, d);
    } else {
      AmountOfInsert(cs[1..], c, d);
      AmountOfCons(cs[0], Insert(cs[1..], c), d);
      AmountOfCons(cs[0], cs[1..], d);
      assert cs == [cs[0]] + cs[1..];
    }
  }
}
