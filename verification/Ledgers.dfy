/** The bank's balance store: one entry per account and denomination, none of them zero. */
module Ledgers {
  import opened Coins
  import opened Sums

  type Ledger = map<(Address, Denom), nat>

  function Bal(l: Ledger, a: Address, d: Denom): nat {
    if (a, d) in l then l[(a, d)] else 0
  }

  /** Setting a balance to zero deletes its entry. */
  function Put(l: Ledger, a: Address, d: Denom, x: nat): Ledger {
    if x == 0 then l - {(a, d)} else l[(a, d) := x]
  }

  ghost predicate Normal(l: Ledger) {
    forall k :: k in l ==> l[k] > 0
  }

  ghost function InDenom(d: Denom): ((Address, Denom), nat) -> int {
    (k: (Address, Denom), x: nat) => if k.1 == d then x else 0
  }

  ghost function InDenomOf(owners: set<Address>, d: Denom): ((Address, Denom), nat) -> int {
    (k: (Address, Denom), x: nat) => if k.1 == d && k.0 in owners then x else 0
  }

  /** Everything held in a denomination. */
  ghost function Total(l: Ledger, d: Denom): int {
    Sum(l, InDenom(d))
  }

  /** What a set of accounts holds together. */
  ghost function HeldBy(l: Ledger, owners: set<Address>, d: Denom): int {
    Sum(l, InDenomOf(owners, d))
  }

  /** The coins `cs` have been added to one account's balances, and nothing else changed. */
  ghost predicate Credited(l: Ledger, l': Ledger, a: Address, cs: seq<Coin>) {
    forall x, d :: Bal(l', x, d) == Bal(l, x, d) + (if x == a then AmountOf(cs, d) else 0)
  }

  ghost predicate Debited(l: Ledger, l': Ledger, a: Address, cs: seq<Coin>) {
    forall x, d :: Bal(l', x, d) == Bal(l, x, d) - (if x == a then AmountOf(cs, d) else 0)
  }

  /** The coins `cs` have moved from one account to another, possibly the same one. */
  ghost predicate Moved(l: Ledger, l': Ledger, from: Address, to: Address, cs: seq<Coin>) {
    forall x, d ::
      Bal(l', x, d) ==
      Bal(l, x, d) - (if x == from then AmountOf(cs, d) else 0) + (if x == to then AmountOf(cs, d) else 0)
  }

  lemma TotalPut(l: Ledger, a: Address, d: Denom, x: nat, e: Denom)
    ensures Total(Put(l, a, d, x), e) == Total(l, e) + (if e == d then x - Bal(l, a, d) else 0)
  {
    var k := (a, d);
    if x > 0 {
      SumPut(l, InDenom(e), k, x);
    } else if k in l {
      SumTake(l, InDenom(e), k);
    } else {
      assert l - {k} == l;
    }
  }

  /** One coin of an addition: what was credited so far, and the totals, grow by that coin. */
  lemma CreditOne(l0: Ledger, l: Ledger, a: Address, cs: seq<Coin>, i: nat)
    requires i < |cs| && cs[i].amount > 0
    requires Credited(l0, l, a, cs[..i])
    requires forall d :: Total(l, d) == Total(l0, d) + AmountOf(cs[..i], d)
    ensures var l' := Put(l, a, cs[i].denom, Bal(l, a, cs[i].denom) + cs[i].amount);
      && Credited(l0, l', a, cs[..i + 1])
      && forall d :: Total(l', d) == Total(l0, d) + AmountOf(cs[..i + 1], d)
  {
    var c := cs[i];
    var x := Bal(l, a, c.denom) + c.amount;
    forall d ensures AmountOf(cs[..i + 1], d) == AmountOf(cs[..i], d) + (if c.denom == d then c.amount else 0) {
      AmountOfPrefix(cs, i, d);
    }
    forall d ensures Total(Put(l, a, c.denom, x), d) == Total(l0, d) + AmountOf(cs[..i + 1], d) {
      TotalPut(l, a, c.denom, x, d);
    }
  }

  lemma DebitOne(l0: Ledger, l: Ledger, a: Address, cs: seq<Coin>, i: nat)
    requires i < |cs| && 0 < cs[i].amount <= Bal(l, a, cs[i].denom)
    requires Debited(l0, l, a, cs[..i])
    requires forall d :: Total(l, d) == Total(l0, d) - AmountOf(cs[..i], d)
    ensures var l' := Put(l, a, cs[i].denom, Bal(l, a, cs[i].denom) - cs[i].amount);
      && Debited(l0, l', a, cs[..i + 1])
      && forall d :: Total(l', d) == Total(l0, d) - AmountOf(cs[..i + 1], d)
  {
    var c := cs[i];
    var x := Bal(l, a, c.denom) - c.amount;
    forall d ensures AmountOf(cs[..i + 1], d) == AmountOf(cs[..i], d) + (if c.denom == d then c.amount else 0) {
      AmountOfPrefix(cs, i, d);
    }
    forall d ensures Total(Put(l, a, c.denom, x), d) == Total(l0, d) - AmountOf(cs[..i + 1], d) {
      TotalPut(l, a, c.denom, x, d);
    }
  }

  /** One more account adds its own balance to what a set of accounts holds. */
  lemma {:induction false} HeldByOneMore(l: Ledger, owners: set<Address>, a: Address, d: Denom)
    requires a !in owners
    ensures HeldBy(l, owners + {a}, d) == HeldBy(l, owners, d) + Bal(l, a, d)
    decreases |l|
  {
    if l != map[] {
      var k :| k in l;
      SumTake(l, InDenomOf(owners, d), k);
      SumTake(l, InDenomOf(owners + {a}, d), k);
      HeldByOneMore(l - {k}, owners, a, d);
    }
  }

  lemma {:induction false} HeldByNone(l: Ledger, d: Denom)
    ensures HeldBy(l, {}, d) == 0
    decreases |l|
  {
    if l != map[] {
      var k :| k in l;
      SumTake(l, InDenomOf({}, d), k);
      HeldByNone(l - {k}, d);
    }
  }

  /** Accounts that own every entry hold the total. */
  lemma HeldByAll(l: Ledger, owners: set<Address>, d: Denom)
    requires forall k :: k in l ==> k.0 in owners
    ensures HeldBy(l, owners, d) == Total(l, d)
  {
    SumPointwise(l, InDenom(d), InDenomOf(owners, d));
  }

  lemma {:induction false} NothingHeld(l: Ledger, d: Denom)
    requires forall x :: Bal(l, x, d) == 0
    ensures Total(l, d) == 0
    decreases |l|
  {
    if l != map[] {
      var k :| k in l;
      SumTake(l, InDenom(d), k);
      assert k.1 == d ==> l[k] == Bal(l, k.0, d);
      forall x ensures Bal(l - {k}, x, d) == 0 {
        assert Bal(l, x, d) == 0;
      }
      NothingHeld(l - {k}, d);
    }
  }

  /** The total of a denomination depends on the balances alone. */
  lemma {:induction false} TotalOfBalances(l: Ledger, l': Ledger, d: Denom)
    requires forall x :: Bal(l, x, d) == Bal(l', x, d)
    ensures Total(l, d) == Total(l', d)
    decreases |l|
  {
    if l == map[] {
      NothingHeld(l', d);
    } else {
      var k :| k in l;
      SumTake(l, InDenom(d), k);
      if k.1 != d {
        TotalOfBalances(l - {k}, l', d);
      } else {
        assert Bal(l, k.0, d) == Bal(l', k.0, d);
        if k in l' {
          SumTake(l', InDenom(d), k);
        } else {
          assert l' - {k} == l';
        }
        forall x ensures Bal(l - {k}, x, d) == Bal(l' - {k}, x, d) {
          assert (x, d) == k <==> x == k.0;
          assert Bal(l, x, d) == Bal(l', x, d);
        }
        TotalOfBalances(l - {k}, l' - {k}, d);
      }
    }
  }
}
