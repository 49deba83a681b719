/** Runs of a chain through fee deduction, with failing transactions rolled back. Between two fee
    deductions anything else may happen: what other modules read of the chain comes with every
    event, and ledger and grants may change by an event of their own, such as a message's transfers
    or a newly issued grant. The results keep the two kinds of change apart. */
module FeeRuns {
  import opened Outcomes
  import opened Coins
  import opened Ledgers
  import opened FeeChecker
  import opened FeeSplit
  import opened FeeDeduction

  datatype Event =
    | FeeStep(env: Env, ctx: Ctx, tx: Tx)
    | OtherStep

  /** A fee step does what `DeductFeeDecorator.Deliver` promises; another step, anything. */
  ghost predicate Step(s: FeeState, e: Event, s': FeeState) {
    e.FeeStep? ==>
      if Acceptable(e.env, e.ctx, e.tx, s) then Effect(e.env, e.ctx, e.tx, s, s') else s' == s
  }

  ghost predicate Run(states: seq<FeeState>, events: seq<Event>) {
    |states| == |events| + 1 && forall i :: 0 <= i < |events| ==> Step(states[i], events[i], states[i + 1])
  }

  predicate OnlyFees(events: seq<Event>) {
    forall i :: 0 <= i < |events| ==> events[i].FeeStep? && ValidPrices(events[i].ctx.minPrices)
  }

  /** The decorator makes such runs: delivering transactions one after the other yields one. */
  method DeliverAll(dfd: DeductFeeDecorator, events: seq<Event>) returns (ghost states: seq<FeeState>)
    requires dfd.bank.Valid() && OnlyFees(events)
    modifies dfd.bank`balances, dfd.feegrant
    ensures dfd.bank.Valid() && Run(states, events)
    ensures states[0] == old(dfd.State()) && states[|events|] == dfd.State()
  {
    states := [dfd.State()];
    for i := 0 to |events|
      invariant dfd.bank.Valid() && |states| == i + 1
      invariant states[0] == old(dfd.State()) && states[i] == dfd.State()
      invariant forall j :: 0 <= j < i ==> Step(states[j], events[j], states[j + 1])
    {
      var r := dfd.Deliver(events[i].env, events[i].ctx, events[i].tx);
      states := states + [dfd.State()];
    }
  }

  // One transaction.

  ghost predicate Passes(s: FeeState, e: Event) {
    e.FeeStep? && Acceptable(e.env, e.ctx, e.tx, s)
  }

  /** What a transaction takes from an account. */
  ghost function Taken(s: FeeState, e: Event, a: Address, d: Denom): int {
    if Passes(s, e) && a == DeductFrom(e.tx) then FeeTaken(e.env, e.ctx, e.tx, d) else 0
  }

  /** What a transaction brings an account, as one or several of the receivers. */
  ghost function Earned(s: FeeState, e: Event, a: Address, d: Denom): int {
    if Passes(s, e) && HasReceivers(e.env, e.tx) then
      Income(Receivers(e.env, e.tx), a, FeeTaken(e.env, e.ctx, e.tx, d))
    else 0
  }

  lemma StepBalances(s: FeeState, e: Event, s': FeeState, a: Address, d: Denom)
    requires e.FeeStep? && Step(s, e, s')
    ensures Bal(s'.ledger, a, d) == Bal(s.ledger, a, d) - Taken(s, e, a, d) + Earned(s, e, a, d)
  {
    if Passes(s, e) && PaysFees(e.env, e.ctx, e.tx) {
      var fee := e.env.normalize(e.tx.fee).value;
      if IsZero(fee) {
        ZeroAmount(fee, d);
      }
    }
  }

  /** The balances of one denomination changed at one account, by x. */
  ghost predicate Shifted(l: Ledger, l': Ledger, a: Address, d: Denom, x: int) {
    forall y :: Bal(l', y, d) == Bal(l, y, d) + (if y == a then x else 0)
  }

  lemma Shift(l: Ledger, a: Address, d: Denom, x: int) returns (l': Ledger)
    requires Bal(l, a, d) + x >= 0
    ensures Shifted(l, l', a, d, x) && Total(l', d) == Total(l, d) + x
  {
    l' := Put(l, a, d, Bal(l, a, d) + x);
    TotalPut(l, a, d, Bal(l, a, d) + x, d);
  }

  /** Several shifts, one after the other. */
  ghost function Change(accounts: seq<Address>, parts: seq<int>, y: Address): int
    requires |accounts| == |parts|
  {
    if accounts == [] then 0
    else (if accounts[0] == y then parts[0] else 0) + Change(accounts[1..], parts[1..], y)
  }

  ghost function SumOf(parts: seq<int>): int {
    if parts == [] then 0 else parts[0] + SumOf(parts[1..])
  }

  lemma {:induction false} Shifts(l: Ledger, accounts: seq<Address>, parts: seq<int>, d: Denom) returns (l': Ledger)
    requires |accounts| == |parts| && forall i :: 0 <= i < |parts| ==> parts[i] >= 0
    ensures forall y :: Bal(l', y, d) == Bal(l, y, d) + Change(accounts, parts, y)
    ensures Total(l', d) == Total(l, d) + SumOf(parts)
    decreases |accounts|
  {
    if accounts == [] {
      l' := l;
    } else {
      var l1 := Shift(l, accounts[0], d, parts[0]);
      l' := Shifts(l1, accounts[1..], parts[1..], d);
    }
  }

  lemma FourParts(accounts: seq<Address>, f: int, y: Address)
    requires |accounts| == 4
    ensures var parts := [Part(0, f), Part(1, f), Part(2, f), Part(3, f)];
      Change(accounts, parts, y) == Income(accounts, y, f) && SumOf(parts) == f
  {
    PartsAddUp(f);
    FourTerms(accounts, [Part(0, f), Part(1, f), Part(2, f), Part(3, f)], y);
  }

  lemma FourTerms(accounts: seq<Address>, parts: seq<int>, y: Address)
    requires |accounts| == |parts| == 4
    ensures SumOf(parts) == parts[0] + parts[1] + parts[2] + parts[3]
    ensures Change(accounts, parts, y) ==
      (if accounts[0] == y then parts[0] else 0) + (if accounts[1] == y then parts[1] else 0) +
      (if accounts[2] == y then parts[2] else 0) + (if accounts[3] == y then parts[3] else 0)
  {
    var a1, p1 := accounts[1..], parts[1..];
    var a2, p2 := a1[1..], p1[1..];
    var a3, p3 := a2[1..], p2[1..];
    assert Change(a3, p3, y) == if accounts[3] == y then parts[3] else 0;
    assert SumOf(p3) == parts[3];
    assert SumOf(p2) == parts[2] + parts[3];
    assert Change(a2, p2, y) == (if accounts[2] == y then parts[2] else 0) + Change(a3, p3, y);
    assert Change(a1, p1, y) == (if accounts[1] == y then parts[1] else 0) + Change(a2, p2, y);
  }

  lemma PaidConserves(l: Ledger, l': Ledger, from: Address, receivers: seq<Address>, fee: seq<Coin>, d: Denom)
    requires |receivers| == 4 && Paid(l, l', from, receivers, fee) && 0 <= AmountOf(fee, d)
    requires AmountOf(fee, d) <= Bal(l, from, d)
    ensures Total(l', d) == Total(l, d)
  {
    var f := AmountOf(fee, d);
    LastPartBounds(f);
    var parts := [Part(0, f), Part(1, f), Part(2, f), Part(3, f)];
    var l0 := Shift(l, from, d, -f);
    var l1 := Shifts(l0, receivers, parts, d);
    forall x ensures Bal(l1, x, d) == Bal(l', x, d) {
      FourParts(receivers, f, x);
    }
    FourParts(receivers, f, from);
    TotalOfBalances(l1, l', d);
  }

  lemma StepConserves(s: FeeState, e: Event, s': FeeState, d: Denom)
    requires e.FeeStep? && Step(s, e, s')
    ensures Total(s'.ledger, d) == Total(s.ledger, d)
  {
    if Passes(s, e) && PaysFees(e.env, e.ctx, e.tx) {
      var fee := e.env.normalize(e.tx.fee).value;
      if !IsZero(fee) {
        PaidConserves(s.ledger, s'.ledger, DeductFrom(e.tx), Receivers(e.env, e.tx), fee, d);
      }
    }
  }

  /** A transaction that passes takes its fee from `granter` for `payer`, on a limited grant. */
  ghost predicate ForPayer(s: FeeState, e: Event, granter: Address, payer: Address) {
    && Passes(s, e) && PaysFees(e.env, e.ctx, e.tx)
    && OnBehalf(e.tx) && e.tx.granter == Some(granter) && e.tx.payer == payer
    && s.grants[(granter, payer)].Limited?
  }

  /** What leaves the granter's account then, read off the balances before and after. */
  ghost function Outflow(s: FeeState, e: Event, s': FeeState, granter: Address, payer: Address, d: Denom): int {
    if ForPayer(s, e, granter, payer) then
      Bal(s.ledger, granter, d) + Earned(s, e, granter, d) - Bal(s'.ledger, granter, d)
    else 0
  }

  lemma StepCharges(s: FeeState, e: Event, s': FeeState, granter: Address, payer: Address, d: Denom)
    requires e.FeeStep? && Step(s, e, s')
    ensures Remaining(s'.grants, (granter, payer), d) ==
      Remaining(s.grants, (granter, payer), d) - Outflow(s, e, s', granter, payer, d)
  {
    StepBalances(s, e, s', granter, d);
  }

  // Runs.

  ghost function TakenInRun(states: seq<FeeState>, events: seq<Event>, n: nat, a: Address, d: Denom): int
    requires n <= |events| < |states|
  {
    if n == 0 then 0
    else TakenInRun(states, events, n - 1, a, d) + Taken(states[n - 1], events[n - 1], a, d)
  }

  ghost function EarnedInRun(states: seq<FeeState>, events: seq<Event>, n: nat, a: Address, d: Denom): int
    requires n <= |events| < |states|
  {
    if n == 0 then 0
    else EarnedInRun(states, events, n - 1, a, d) + Earned(states[n - 1], events[n - 1], a, d)
  }

  ghost function OutflowInRun(states: seq<FeeState>, events: seq<Event>, n: nat,
                              granter: Address, payer: Address, d: Denom): int
    requires n <= |events| < |states|
  {
    if n == 0 then 0
    else
      OutflowInRun(states, events, n - 1, granter, payer, d) +
      Outflow(states[n - 1], events[n - 1], states[n], granter, payer, d)
  }

  /** How much a quantity changed in the other steps. */
  ghost function Outside(states: seq<FeeState>, events: seq<Event>, n: nat, f: FeeState -> int): int
    requires n <= |events| < |states|
  {
    if n == 0 then 0
    else
      Outside(states, events, n - 1, f) + (if events[n - 1].OtherStep? then f(states[n]) - f(states[n - 1]) else 0)
  }

  lemma {:induction false} NothingOutside(states: seq<FeeState>, events: seq<Event>, n: nat, f: FeeState -> int)
    requires n <= |events| < |states| && forall i :: 0 <= i < n ==> events[i].FeeStep?
    ensures Outside(states, events, n, f) == 0
  {
    if n > 0 {
      NothingOutside(states, events, n - 1, f);
    }
  }

  ghost function TotalOf(d: Denom): FeeState -> int {
    (s: FeeState) => Total(s.ledger, d)
  }

  ghost function BalanceOf(a: Address, d: Denom): FeeState -> int {
    (s: FeeState) => Bal(s.ledger, a, d)
  }

  ghost function RemainingOf(pair: (Address, Address), d: Denom): FeeState -> int {
    (s: FeeState) => Remaining(s.grants, pair, d)
  }

  /** Fee deduction never creates or destroys coins: a total only changes in other steps. */
  lemma {:induction false} RunConserves(states: seq<FeeState>, events: seq<Event>, n: nat, d: Denom)
    requires Run(states, events) && n <= |events|
    ensures Total(states[n].ledger, d) == Total(states[0].ledger, d) + Outside(states, events, n, TotalOf(d))
  {
    if n > 0 {
      RunConserves(states, events, n - 1, d);
      if events[n - 1].FeeStep? {
        StepConserves(states[n - 1], events[n - 1], states[n], d);
      }
    }
  }

  /** An account's balance changes by what it earned minus what was taken from it, and by what other
      steps did to it. */
  lemma {:induction false} RunBalances(states: seq<FeeState>, events: seq<Event>, n: nat, a: Address, d: Denom)
    requires Run(states, events) && n <= |events|
    ensures Bal(states[n].ledger, a, d) ==
      Bal(states[0].ledger, a, d) - TakenInRun(states, events, n, a, d) + EarnedInRun(states, events, n, a, d) +
      Outside(states, events, n, BalanceOf(a, d))
  {
    if n > 0 {
      RunBalances(states, events, n - 1, a, d);
      if events[n - 1].FeeStep? {
        StepBalances(states[n - 1], events[n - 1], states[n], a, d);
      }
    }
  }

  /** The coins that left a granter's account for another payer on a limited grant are, per
      denomination, exactly what the grant lost in fee steps, over any run, with grants issued,
      raised or withdrawn in between; a grant that is used up and revoked counts as having lost all. */
  lemma {:induction false} RunCharges(states: seq<FeeState>, events: seq<Event>, n: nat,
                                      granter: Address, payer: Address, d: Denom)
    requires Run(states, events) && n <= |events|
    ensures Remaining(states[0].grants, (granter, payer), d) + Outside(states, events, n, RemainingOf((granter, payer), d))
      - Remaining(states[n].grants, (granter, payer), d) == OutflowInRun(states, events, n, granter, payer, d)
  {
    if n > 0 {
      RunCharges(states, events, n - 1, granter, payer, d);
      if events[n - 1].FeeStep? {
        StepCharges(states[n - 1], events[n - 1], states[n], granter, payer, d);
      }
    }
  }

  /** Fees never use up an unlimited grant: over any run it stays, if the other steps leave it. */
  lemma {:induction false} UnlimitedStays(states: seq<FeeState>, events: seq<Event>, n: nat, pair: (Address, Address))
    requires Run(states, events) && n <= |events|
    requires pair in states[0].grants && states[0].grants[pair].Unlimited?
    requires forall i :: 0 <= i < n && events[i].OtherStep? && pair in states[i].grants ==>
      pair in states[i + 1].grants && states[i + 1].grants[pair] == states[i].grants[pair]
    ensures pair in states[n].grants && states[n].grants[pair].Unlimited?
  {
    if n > 0 {
      UnlimitedStays(states, events, n - 1, pair);
      assert Step(states[n - 1], events[n - 1], states[n - 1 + 1]);
    }
  }

  /** The same for a run of fee steps alone: totals stay, and a grant loses exactly what left the
      granter's account. */
  lemma FeesAlone(states: seq<FeeState>, events: seq<Event>, granter: Address, payer: Address, d: Denom)
    requires Run(states, events) && OnlyFees(events)
    ensures Total(states[|events|].ledger, d) == Total(states[0].ledger, d)
    ensures Remaining(states[0].grants, (granter, payer), d) - Remaining(states[|events|].grants, (granter, payer), d) ==
      OutflowInRun(states, events, |events|, granter, payer, d)
  {
    RunConserves(states, events, |events|, d);
    RunCharges(states, events, |events|, granter, payer, d);
    NothingOutside(states, events, |events|, TotalOf(d));
    NothingOutside(states, events, |events|, RemainingOf((granter, payer), d));
  }
}
