/** Contract of the SDK's bank keeper (x/bank of v0.47): balances, recorded supply, minting,
    sending and the many-receiver transfer. A failing call may leave some coins written; its caller
    drops the whole state, so nothing is promised about it. */
module Bank {
  import opened Outcomes
  import opened Coins
  import opened Ledgers
  import opened Auth

  function SupplyOf(supply: map<Denom, nat>, d: Denom): nat {
    if d in supply then supply[d] else 0
  }

  /** The recorded supply is what all accounts hold together. */
  ghost predicate Backed(l: Ledger, supply: map<Denom, nat>) {
    forall d :: SupplyOf(supply, d) == Total(l, d)
  }

  datatype Transfer = Transfer(address: Address, coins: seq<Coin>)

  /** The account can pay every coin. */
  ghost predicate Covers(l: Ledger, a: Address, cs: seq<Coin>) {
    forall d :: AmountOf(cs, d) <= Bal(l, a, d)
  }

  function Sent(ts: seq<Transfer>, d: Denom): int {
    if ts == [] then 0 else Sent(ts[..|ts| - 1], d) + AmountOf(ts[|ts| - 1].coins, d)
  }

  /** What the transfers bring to one account. */
  function Received(ts: seq<Transfer>, a: Address, d: Denom): int {
    if ts == [] then 0
    else
      var last := ts[|ts| - 1];
      Received(ts[..|ts| - 1], a, d) + (if last.address == a then AmountOf(last.coins, d) else 0)
  }

  /** One account paid and the receivers, who may coincide with it and each other, were credited. */
  ghost predicate Distributed(l: Ledger, l': Ledger, input: Transfer, outputs: seq<Transfer>) {
    forall x, d ::
      Bal(l', x, d) ==
      Bal(l, x, d) - (if x == input.address then AmountOf(input.coins, d) else 0) + Received(outputs, x, d)
  }

  ghost predicate TotalsAfter(l: Ledger, l': Ledger, input: Transfer, outputs: seq<Transfer>) {
    forall d :: Total(l', d) == Total(l, d) - AmountOf(input.coins, d) + Sent(outputs, d)
  }

  lemma DistributeOne(l0: Ledger, l: Ledger, l': Ledger, input: Transfer, outputs: seq<Transfer>, k: nat)
    requires k < |outputs| && Credited(l, l', outputs[k].address, outputs[k].coins)
    requires forall d :: Total(l', d) == Total(l, d) + AmountOf(outputs[k].coins, d)
    requires Distributed(l0, l, input, outputs[..k]) && TotalsAfter(l0, l, input, outputs[..k])
    ensures Distributed(l0, l', input, outputs[..k + 1]) && TotalsAfter(l0, l', input, outputs[..k + 1])
  {
    var more := outputs[..k + 1];
    forall x, d
      ensures Bal(l', x, d) ==
        Bal(l0, x, d) - (if x == input.address then AmountOf(input.coins, d) else 0) + Received(more, x, d)
    {
      ReceivedPrefix(outputs, k, x, d);
    }
    assert Distributed(l0, l', input, more);
    forall d ensures Total(l', d) == Total(l0, d) - AmountOf(input.coins, d) + Sent(more, d) {
      SentPrefix(outputs, k, d);
    }
  }

  lemma SentPrefix(ts: seq<Transfer>, i: nat, d: Denom)
    requires i < |ts|
    ensures Sent(ts[..i + 1], d) == Sent(ts[..i], d) + AmountOf(ts[i].coins, d)
  {
    assert ts[..i + 1][..i] == ts[..i];
  }

  lemma ReceivedPrefix(ts: seq<Transfer>, i: nat, a: Address, d: Denom)
    requires i < |ts|
    ensures Received(ts[..i + 1], a, d) ==
      Received(ts[..i], a, d) + (if ts[i].address == a then AmountOf(ts[i].coins, d) else 0)
  {
    assert ts[..i + 1][..i] == ts[..i];
  }

  /** The SDK's `ValidateInputsOutputs`, with one input: parsable addresses, valid coins, and
      outputs that add up to the input in every denomination. */
  ghost predicate ValidTransfer(wellFormed: Address -> bool, input: Transfer, outputs: seq<Transfer>) {
    && outputs != []
    && wellFormed(input.address) && ValidCoins(input.coins) && input.coins != []
    && (forall k :: 0 <= k < |outputs| ==>
          wellFormed(outputs[k].address) && ValidCoins(outputs[k].coins) && outputs[k].coins != [])
    && (forall d :: Sent(outputs, d) == AmountOf(input.coins, d))
  }

  class BankKeeper {
    const ak: AccountKeeper
    const blocked: map<Address, bool>

    var balances: Ledger
    var supply: map<Denom, nat>

    constructor (ak: AccountKeeper, blocked: map<Address, bool>)
      ensures Valid() && balances == map[] && this.ak == ak && this.blocked == blocked
    {
      this.ak, this.blocked := ak, blocked;
      balances, supply := map[], map[];
    }

    ghost predicate Valid()
      reads this
    {
      Normal(balances) && Backed(balances, supply)
    }

    /** An account's balances as sorted coins. */
    method GetAllBalances(a: Address) returns (cs: seq<Coin>)
      requires Normal(balances)
      ensures ValidCoins(cs)
      ensures forall d :: AmountOf(cs, d) == Bal(balances, a, d)
    {
      cs := [];
      var rest := set k | k in balances && k.0 == a :: k.1;
      while rest != {}
        invariant forall d :: d in rest ==> (a, d) in balances
        invariant ValidCoins(cs)
        invariant forall d :: AmountOf(cs, d) == if d in rest then 0 else Bal(balances, a, d)
      {
        var d :| d in rest;
        var c := Coin(d, balances[(a, d)]);
        assert forall i :: 0 <= i < |cs| ==> cs[i].denom != d by {
          SortedIsDistinct(cs);
          forall i | 0 <= i < |cs| ensures cs[i].denom != d {
            AmountOfEntry(cs, i);
          }
        }
        InsertKeepsValid(cs, c);
        forall e ensures AmountOf(Insert(cs, c), e) == AmountOf(cs, e) + (if d == e then c.amount else 0) {
          AmountOfInsert(cs, c, e);
        }
        cs := Insert(cs, c);
        rest := rest - {d};
      }
    }

    method SetBalance(a: Address, d: Denom, x: nat)
      modifies this`balances
      ensures balances == Put(old(balances), a, d, x)
    {
      balances := if x == 0 then balances - {(a, d)} else balances[(a, d) := x];
    }

    method AddCoins(a: Address, cs: seq<Coin>) returns (r: Outcome)
      requires Normal(balances)
      modifies this`balances
      ensures r.Pass? <==> ValidCoins(cs)
      ensures r.Pass? ==> Credited(old(balances), balances, a, cs)
      ensures r.Pass? ==> forall d :: Total(balances, d) == Total(old(balances), d) + AmountOf(cs, d)
      ensures Normal(balances)
    {
      if !ValidCoins(cs) {
        return Fail(InvalidCoins);
      }
      var i := 0;
      while i < |cs|
        invariant 0 <= i <= |cs|
        invariant Normal(balances)
        invariant Credited(old(balances), balances, a, cs[..i])
        invariant forall d :: Total(balances, d) == Total(old(balances), d) + AmountOf(cs[..i], d)
      {
        var c := cs[i];
        CreditOne(old(balances), balances, a, cs, i);
        SetBalance(a, c.denom, Bal(balances, a, c.denom) + c.amount);
        i := i + 1;
      }
      assert cs[..i] == cs;
      return Pass;
    }

    method SubCoins(a: Address, cs: seq<Coin>) returns (r: Outcome)
      requires Normal(balances)
      modifies this`balances
      ensures r.Pass? <==> ValidCoins(cs) && Covers(old(balances), a, cs)
      ensures r.Pass? ==> Debited(old(balances), balances, a, cs)
      ensures r.Pass? ==> forall d :: Total(balances, d) == Total(old(balances), d) - AmountOf(cs, d)
      ensures Normal(balances)
    {
      if !ValidCoins(cs) {
        return Fail(InvalidCoins);
      }
      SortedIsDistinct(cs);
      var i := 0;
      while i < |cs|
        invariant 0 <= i <= |cs|
        invariant Normal(balances)
        invariant Debited(old(balances), balances, a, cs[..i])
        invariant forall d :: Total(balances, d) == Total(old(balances), d) - AmountOf(cs[..i], d)
      {
        var c := cs[i];
        AmountOfEntry(cs, i);
        AmountOfAbsent(cs[..i], c.denom);
        var held := Bal(balances, a, c.denom);
        if held < c.amount {
          return Fail(InsufficientFunds);
        }
        DebitOne(old(balances), balances, a, cs, i);
        SetBalance(a, c.denom, held - c.amount);
        i := i + 1;
      }
      assert cs[..i] == cs;
      return Pass;
    }

    method SendCoins(from: Address, to: Address, cs: seq<Coin>) returns (r: Outcome)
      requires Valid()
      modifies this`balances
      ensures r.Pass? <==> ValidCoins(cs) && Covers(old(balances), from, cs)
      ensures r.Pass? ==> Valid() && Moved(old(balances), balances, from, to, cs)
    {
      r := SubCoins(from, cs);
      if r.Pass? {
        r := AddCoins(to, cs);
      }
    }

    /** The module can mint: its account, existing or newly made, has the permission. */
    ghost predicate CanMint(name: ModuleName)
      reads this, ak
    {
      && ak.Usable(name)
      && var a := ak.moduleAddress(name);
         Minter in if a in ak.accounts && ak.accounts[a].kind.ModuleKind? then ak.accounts[a].kind.permissions
                   else ak.permissions[name]
    }

    /** Creates coins in a module's account and records them in the supply. */
    method MintCoins(name: ModuleName, cs: seq<Coin>) returns (r: Outcome)
      requires Valid() && WellKeyed(ak.State(), ak.moduleAddress)
      modifies this`balances, this`supply, ak
      ensures WellKeyed(ak.State(), ak.moduleAddress)
      ensures r.Pass? <==> old(CanMint(name)) && ValidCoins(cs)
      ensures r.Pass? ==> Valid()
      ensures r.Pass? ==> Credited(old(balances), balances, ak.moduleAddress(name), cs)
      ensures r.Pass? ==> forall d :: SupplyOf(supply, d) == SupplyOf(old(supply), d) + AmountOf(cs, d)
      ensures r.Pass? ==>
        ak.State() == WithModule(old(ak.State()), ak.moduleAddress(name), ModuleKind(name, ak.permissions[name]))
    {
      var account := ak.GetModuleAccount(name);
      if account.Err? {
        return Fail(account.error);
      }
      assert old(CanMint(name)) <==> Minter in account.value.kind.permissions;
      if Minter !in account.value.kind.permissions {
        return Fail(Panic("module account does not have permissions to mint tokens"));
      }
      r := CreateCoins(account.value.address, cs);
    }

    method CreateCoins(a: Address, cs: seq<Coin>) returns (r: Outcome)
      requires Valid()
      modifies this`balances, this`supply
      ensures r.Pass? <==> ValidCoins(cs)
      ensures r.Pass? ==> Valid() && Credited(old(balances), balances, a, cs)
      ensures r.Pass? ==> forall d :: SupplyOf(supply, d) == SupplyOf(old(supply), d) + AmountOf(cs, d)
    {
      r := AddCoins(a, cs);
      if r.Pass? {
        RecordSupply(cs);
      }
    }

    method RecordSupply(cs: seq<Coin>)
      requires ValidCoins(cs)
      modifies this`supply
      ensures forall d :: SupplyOf(supply, d) == SupplyOf(old(supply), d) + AmountOf(cs, d)
    {
      var i := 0;
      while i < |cs|
        invariant 0 <= i <= |cs|
        invariant forall d :: SupplyOf(supply, d) == SupplyOf(old(supply), d) + AmountOf(cs[..i], d)
      {
        var c := cs[i];
        forall d ensures AmountOf(cs[..i + 1], d) == AmountOf(cs[..i], d) + (if c.denom == d then c.amount else 0) {
          AmountOfPrefix(cs, i, d);
        }
        supply := supply[c.denom := SupplyOf(supply, c.denom) + c.amount];
        i := i + 1;
      }
      assert cs[..i] == cs;
    }

    method SendCoinsFromModuleToModule(sender: ModuleName, recipient: ModuleName, cs: seq<Coin>) returns (r: Outcome)
      requires Valid() && WellKeyed(ak.State(), ak.moduleAddress)
      modifies this`balances, ak
      ensures WellKeyed(ak.State(), ak.moduleAddress)
      ensures r.Pass? <==>
        && sender in ak.permissions && old(ak.Usable(recipient))
        && ValidCoins(cs) && Covers(old(balances), ak.moduleAddress(sender), cs)
      ensures r.Pass? ==> Valid()
      ensures r.Pass? ==> Moved(old(balances), balances, ak.moduleAddress(sender), ak.moduleAddress(recipient), cs)
      ensures r.Pass? ==>
        ak.State() == WithModule(old(ak.State()), ak.moduleAddress(recipient), ModuleKind(recipient, ak.permissions[recipient]))
    {
      if sender !in ak.permissions {
        return Fail(Panic("module account does not exist"));
      }
      var account := ak.GetModuleAccount(recipient);
      if account.Err? {
        return Fail(account.error);
      }
      r := SendCoins(ak.moduleAddress(sender), account.value.address, cs);
    }

    predicate IsBlocked(a: Address) {
      a in blocked && blocked[a]
    }

    method SendCoinsFromModuleToAccount(sender: ModuleName, to: Address, cs: seq<Coin>) returns (r: Outcome)
      requires Valid()
      modifies this`balances
      ensures r.Pass? <==>
        && sender in ak.permissions && !IsBlocked(to)
        && ValidCoins(cs) && Covers(old(balances), ak.moduleAddress(sender), cs)
      ensures r.Pass? ==> Valid() && Moved(old(balances), balances, ak.moduleAddress(sender), to, cs)
    {
      if sender !in ak.permissions {
        return Fail(Panic("module account does not exist"));
      }
      if IsBlocked(to) {
        return Fail(Unauthorized);
      }
      r := SendCoins(ak.moduleAddress(sender), to, cs);
    }

    /** One input, many outputs, as `InputOutputCoins` does it: validate, debit, credit in turn. */
    method InputOutputCoins(wellFormed: Address -> bool, input: Transfer, outputs: seq<Transfer>) returns (r: Outcome)
      requires Valid()
      modifies this`balances
      ensures r.Pass? <==> ValidTransfer(wellFormed, input, outputs) && Covers(old(balances), input.address, input.coins)
      ensures r.Pass? ==> Valid()
      ensures r.Pass? ==> Distributed(old(balances), balances, input, outputs)
    {
      if outputs == [] || !wellFormed(input.address) || !ValidCoins(input.coins) || input.coins == [] {
        return Fail(InvalidCoins);
      }
      if exists k :: 0 <= k < |outputs| &&
          !(wellFormed(outputs[k].address) && ValidCoins(outputs[k].coins) && outputs[k].coins != []) {
        return Fail(InvalidAddress);
      }
      var agree := SumsAgree(input.coins, outputs);
      if !agree {
        return Fail(InvalidCoins);
      }
      r := SubCoins(input.address, input.coins);
      if r.Fail? {
        return;
      }
      CreditEach(input, outputs, old(balances));
    }

    method CreditEach(input: Transfer, outputs: seq<Transfer>, ghost l0: Ledger)
      requires Normal(balances) && forall k :: 0 <= k < |outputs| ==> ValidCoins(outputs[k].coins)
      requires Debited(l0, balances, input.address, input.coins)
      requires forall d :: Total(balances, d) == Total(l0, d) - AmountOf(input.coins, d)
      modifies this`balances
      ensures Normal(balances) && Distributed(l0, balances, input, outputs)
      ensures TotalsAfter(l0, balances, input, outputs)
    {
      var k := 0;
      while k < |outputs|
        invariant 0 <= k <= |outputs|
        invariant Normal(balances) && Distributed(l0, balances, input, outputs[..k])
        invariant TotalsAfter(l0, balances, input, outputs[..k])
      {
        ghost var l := balances;
        var r := AddCoins(outputs[k].address, outputs[k].coins);
        DistributeOne(l0, l, balances, input, outputs, k);
        k := k + 1;
      }
      assert outputs[..k] == outputs;
    }
  }

  /** Whether the outputs add up to the input. Only denominations that occur need comparing. */
  method SumsAgree(input: seq<Coin>, outputs: seq<Transfer>) returns (agree: bool)
    ensures agree <==> forall d :: Sent(outputs, d) == AmountOf(input, d)
  {
    var denoms := (set c | c in input :: c.denom) + (set t, c | t in outputs && c in t.coins :: c.denom);

    agree := forall d :: d in denoms ==> Sent(outputs, d) == AmountOf(input, d);
    forall d | agree ensures Sent(outputs, d) == AmountOf(input, d) {
      if d !in denoms {
        forall i | 0 <= i < |input| ensures input[i].denom != d {
          assert input[i] in input;
        }
        AmountOfAbsent(input, d);
        SentAbsent(outputs, d);
      }
    }
    if !agree {
      var d :| d in denoms && Sent(outputs, d) != AmountOf(input, d);
      assert Sent(outputs, d) != AmountOf(input, d);
    }
  }

  lemma {:induction false} SentAbsent(ts: seq<Transfer>, d: Denom)
    requires forall t, c :: t in ts && c in t.coins ==> c.denom != d
    ensures Sent(ts, d) == 0
  {
    if ts != [] {
      AmountOfAbsent(ts[|ts| - 1].coins, d);
      SentAbsent(ts[..|ts| - 1], d);
    }
  }
}
