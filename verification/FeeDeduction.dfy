/** The fee deduction step of transaction handling (app/fee_deduct.go, `AnteHandle`). */
module FeeDeduction {
  import opened Outcomes
  import opened FixedPoint
  import opened Coins
  import opened Ledgers
  import opened Bank
  import opened FeeChecker
  import opened FeeSplit

  datatype Msg =
    | CheckIn
    | UpdateGroupMembers
    | ExecuteContract(contract: string)
    | MigrateContract(contract: string)
    | UpdateAdmin(contract: string)
    | ClearAdmin(contract: string)
    | SudoContract(contract: string)
    | OtherMsg(name: string)
  {
    predicate IsWasm() {
      !CheckIn? && !UpdateGroupMembers? && !OtherMsg?
    }
  }

  datatype Tx = Tx(msgs: seq<Msg>, fee: seq<Coin>, gas: Uint64, payer: Address, granter: Option<Address>)

  datatype Ctx = Ctx(simulate: bool, height: int, checkTx: bool, minPrices: seq<DecCoin>)

  /** What the step reads of the other modules' stores. `wellFormed` is bech32 parsing; `normalize`
      prints and re-parses a coin list, and may fail. */
  datatype Env = Env(
    globalAdmin: Address, meidAdmin: Address, devOperator: Address, feePool: Address,
    proposerOwner: Option<Address>, meids: map<Address, Address>, valOwners: map<Address, Address>,
    creators: map<Address, Address>, wellFormed: Address -> bool, normalize: seq<Coin> -> Option<seq<Coin>>)

  // Fee grants.

  datatype Allowance = Unlimited | Limited(limit: map<Denom, nat>)

  type Grants = map<(Address, Address), Allowance>

  function LimitOf(limit: map<Denom, nat>, d: Denom): nat {
    if d in limit then limit[d] else 0
  }

  ghost predicate GrantAllows(grants: Grants, pair: (Address, Address), fee: seq<Coin>) {
    pair in grants &&
    (grants[pair].Limited? ==> forall d :: AmountOf(fee, d) <= LimitOf(grants[pair].limit, d))
  }

  /** What is left to spend; a grant that is gone has nothing left. */
  function Remaining(grants: Grants, pair: (Address, Address), d: Denom): nat {
    if pair in grants && grants[pair].Limited? then LimitOf(grants[pair].limit, d) else 0
  }

  /** The charge is taken off a limited grant; every other grant is as before. An unlimited grant
      stays; a limited one stays limited, and is revoked when nothing is left. */
  ghost predicate Charged(before: Grants, after: Grants, pair: (Address, Address), fee: seq<Coin>) {
    && pair in before
    && (forall p :: p != pair ==> (p in after <==> p in before) && (p in before ==> after[p] == before[p]))
    && (before[pair].Unlimited? ==> pair in after && after[pair].Unlimited?)
    && (before[pair].Limited? ==>
          && (pair in after ==> after[pair].Limited?)
          && (pair in after <==> exists d :: LimitOf(before[pair].limit, d) != AmountOf(fee, d))
          && forall d :: Remaining(after, pair, d) == Remaining(before, pair, d) - AmountOf(fee, d))
  }

  /** Contract of the fee grant keeper (x/feegrant of v0.47) for basic allowances. */
  class FeegrantKeeper {
    var grants: Grants

    constructor (grants: Grants)
      ensures this.grants == grants
    {
      this.grants := grants;
    }

    method UseGrantedFees(granter: Address, grantee: Address, fee: seq<Coin>) returns (r: Outcome)
      modifies this
      ensures r.Pass? <==> GrantAllows(old(grants), (granter, grantee), fee)
      ensures r.Pass? ==> Charged(old(grants), grants, (granter, grantee), fee)
    {
      var pair := (granter, grantee);
      if pair !in grants {
        return Fail(NotFound);
      }
      if grants[pair].Limited? {
        var limit := grants[pair].limit;
        var denoms := limit.Keys + set c | c in fee :: c.denom;
        forall d | d !in denoms ensures AmountOf(fee, d) == 0 && LimitOf(limit, d) == 0 {
          OutsideDenoms(fee, d);
        }
        if exists d :: d in denoms && AmountOf(fee, d) > LimitOf(limit, d) {
          return Fail(InsufficientFee);
        }
        var left := map d | d in denoms :: LimitOf(limit, d) - AmountOf(fee, d);
        if forall d :: d in left ==> left[d] == 0 {
          forall d ensures LimitOf(limit, d) == AmountOf(fee, d) {
            assert d in denoms ==> left[d] == 0;
          }
          grants := grants - {pair};
        } else {
          ghost var d :| d in left && left[d] != 0;
          assert LimitOf(limit, d) != AmountOf(fee, d);
          grants := grants[pair := Limited(left)];
        }
      }
      return Pass;
    }
  }

  lemma OutsideDenoms(fee: seq<Coin>, d: Denom)
    requires d !in (set c | c in fee :: c.denom)
    ensures AmountOf(fee, d) == 0
  {
  }

  // Who gets the parts.

  predicate AllWasm(msgs: seq<Msg>) {
    forall i :: 0 <= i < |msgs| ==> msgs[i].IsWasm()
  }

  /** The contract whose creator earns the last part: the one of the last message, provided all
      messages are for contracts; no message at all leaves an empty name, which does not parse. */
  function NamedContract(msgs: seq<Msg>): string {
    if msgs == [] then "" else if msgs[|msgs| - 1].IsWasm() then msgs[|msgs| - 1].contract else ""
  }

  predicate ForContract(env: Env, msgs: seq<Msg>) {
    AllWasm(msgs) && NamedContract(msgs) != "" && env.wellFormed(NamedContract(msgs))
  }

  /** A parsable contract that does not exist has nil information, on which the caller panics. */
  method ParseWasmMsgContractOwner(env: Env, msgs: seq<Msg>) returns (r: Result<Option<Address>>)
    ensures r.Err? <==> ForContract(env, msgs) && NamedContract(msgs) !in env.creators
    ensures r.Ok? ==>
      r.value == if ForContract(env, msgs) then Some(env.creators[NamedContract(msgs)]) else None
    ensures (exists i :: 0 <= i < |msgs| && (msgs[i].CheckIn? || msgs[i].UpdateGroupMembers? || msgs[i].OtherMsg?)) ==>
      r == Ok(None)
    ensures (msgs != [] &&
      forall i :: 0 <= i < |msgs| ==> !msgs[i].CheckIn? && !msgs[i].UpdateGroupMembers? && !msgs[i].OtherMsg?) ==>
      var c := msgs[|msgs| - 1].contract;
      if c == "" || !env.wellFormed(c) then r == Ok(None)
      else if c in env.creators then r == Ok(Some(env.creators[c])) else r.Err?
  {
    var allwasm := true;
    var contract := "";
    var i := 0;
    while i < |msgs|
      invariant 0 <= i <= |msgs|
      invariant allwasm <==> AllWasm(msgs[..i])
      invariant allwasm ==> contract == NamedContract(msgs[..i])
    {
      assert msgs[..i + 1] == msgs[..i] + [msgs[i]];
      match msgs[i] {
        case ExecuteContract(c) => contract := c;
        case MigrateContract(c) => contract := c;
        case UpdateAdmin(c) => contract := c;
        case ClearAdmin(c) => contract := c;
        case SudoContract(c) => contract := c;
        case _ =>
          assert !msgs[..i + 1][i].IsWasm();
          allwasm := false;
      }
      i := i + 1;
    }
    assert msgs[..i] == msgs;
    if allwasm {
      if contract == "" || !env.wellFormed(contract) {
        return Ok(None);
      }
      if contract !in env.creators {
        return Err(Panic("nil contract info"));
      }
      return Ok(Some(env.creators[contract]));
    }
    return Ok(None);
  }

  function DeductFrom(tx: Tx): Address {
    if tx.granter.Some? then tx.granter.value else tx.payer
  }

  /** The fee is taken from somebody else than the payer. */
  predicate OnBehalf(tx: Tx) {
    tx.granter.Some? && tx.granter.value != tx.payer
  }

  /** The owner of the payer's validator if the payer is registered, else of the proposer's. */
  function ValidatorOwner(env: Env, from: Address): Option<Address> {
    if from in env.meids then
      if env.meids[from] in env.valOwners then Some(env.valOwners[env.meids[from]]) else None
    else env.proposerOwner
  }

  function LastReceiver(env: Env, msgs: seq<Msg>): Option<Address> {
    if !ForContract(env, msgs) then Some(env.feePool)
    else if NamedContract(msgs) in env.creators then Some(env.creators[NamedContract(msgs)])
    else None
  }

  predicate HasReceivers(env: Env, tx: Tx) {
    ValidatorOwner(env, DeductFrom(tx)).Some? && LastReceiver(env, tx.msgs).Some?
  }

  /** The receivers of the 10, 20, 30 and 40 shares. They may coincide, also with the payer. */
  function Receivers(env: Env, tx: Tx): (r: seq<Address>)
    requires HasReceivers(env, tx)
    ensures |r| == 4
  {
    [env.devOperator, ValidatorOwner(env, DeductFrom(tx)).value, env.feePool, LastReceiver(env, tx.msgs).value]
  }

  function Outputs(receivers: seq<Address>, fee: seq<Coin>): (r: seq<Transfer>)
    requires |receivers| == 4
    ensures |r| == 4
  {
    [Transfer(receivers[0], ShareOf(0, fee)), Transfer(receivers[1], ShareOf(1, fee)),
     Transfer(receivers[2], ShareOf(2, fee)), Transfer(receivers[3], ShareOf(3, fee))]
  }

  /** What one address gets of an amount that is split among the receivers. */
  function Income(receivers: seq<Address>, x: Address, amount: int): int
    requires |receivers| == 4
  {
    (if receivers[0] == x then Part(0, amount) else 0) + (if receivers[1] == x then Part(1, amount) else 0) +
    (if receivers[2] == x then Part(2, amount) else 0) + (if receivers[3] == x then Part(3, amount) else 0)
  }

  lemma FourReceived(ts: seq<Transfer>, x: Address, d: Denom)
    requires |ts| == 4
    ensures Received(ts, x, d) ==
      (if ts[0].address == x then AmountOf(ts[0].coins, d) else 0) + (if ts[1].address == x then AmountOf(ts[1].coins, d) else 0) +
      (if ts[2].address == x then AmountOf(ts[2].coins, d) else 0) + (if ts[3].address == x then AmountOf(ts[3].coins, d) else 0)
    ensures Sent(ts, d) ==
      AmountOf(ts[0].coins, d) + AmountOf(ts[1].coins, d) + AmountOf(ts[2].coins, d) + AmountOf(ts[3].coins, d)
  {
    assert ts[..4] == ts && ts[..0] == [];
    ReceivedPrefix(ts, 3, x, d); ReceivedPrefix(ts, 2, x, d); ReceivedPrefix(ts, 1, x, d); ReceivedPrefix(ts, 0, x, d);
    SentPrefix(ts, 3, d); SentPrefix(ts, 2, d); SentPrefix(ts, 1, d); SentPrefix(ts, 0, d);
  }

  lemma OutputAmounts(receivers: seq<Address>, fee: seq<Coin>, x: Address, d: Denom)
    requires |receivers| == 4 && ValidCoins(fee)
    ensures Received(Outputs(receivers, fee), x, d) == Income(receivers, x, AmountOf(fee, d))
    ensures Sent(Outputs(receivers, fee), d) == AmountOf(fee, d)
  {
    SortedIsDistinct(fee);
    FourReceived(Outputs(receivers, fee), x, d);
    AmountOfShare(0, fee, d);
    AmountOfShare(1, fee, d);
    AmountOfShare(2, fee, d);
    AmountOfShare(3, fee, d);
    PartsAddUp(AmountOf(fee, d));
  }

  /** The transfer handed to the bank always passes the bank's own validation, if the addresses
      parse: sorted denominations, positive amounts, outputs adding up to the input. */
  lemma TransferIsValid(wellFormed: Address -> bool, from: Address, receivers: seq<Address>, fee: seq<Coin>)
    requires |receivers| == 4 && ValidCoins(fee) && fee != [] && LargeEnough(fee)
    ensures ValidTransfer(wellFormed, Transfer(from, fee), Outputs(receivers, fee)) <==>
      wellFormed(from) && forall k :: 0 <= k < 4 ==> wellFormed(receivers[k])
  {
    var outputs := Outputs(receivers, fee);
    ShareIsValid(0, fee);
    ShareIsValid(1, fee);
    ShareIsValid(2, fee);
    ShareIsValid(3, fee);
    forall d ensures Sent(outputs, d) == AmountOf(fee, d) {
      OutputAmounts(receivers, fee, from, d);
    }
    assert forall k :: 0 <= k < 4 ==> outputs[k].address == receivers[k];
  }

  // The decorator.

  datatype FeeState = FeeState(ledger: Ledger, grants: Grants)

  /** Administrators pay nothing, nor does a transaction whose first message is a check-in or a
      change of group members; later messages are not looked at. */
  predicate FreeGas(env: Env, tx: Tx) {
    tx.payer == env.globalAdmin || tx.payer == env.meidAdmin ||
    (tx.msgs != [] && (tx.msgs[0].CheckIn? || tx.msgs[0].UpdateGroupMembers?))
  }

  predicate PaysFees(env: Env, ctx: Ctx, tx: Tx) {
    !ctx.simulate && !FreeGas(env, tx)
  }

  ghost predicate Transferable(env: Env, tx: Tx, fee: seq<Coin>, l: Ledger) {
    && ValidCoins(fee) && LargeEnough(fee) && HasReceivers(env, tx)
    && env.wellFormed(DeductFrom(tx)) && (forall k :: 0 <= k < 4 ==> env.wellFormed(Receivers(env, tx)[k]))
    && Covers(l, DeductFrom(tx), fee)
  }

  /** Exactly the transactions that pass. */
  ghost predicate Acceptable(env: Env, ctx: Ctx, tx: Tx, s: FeeState) {
    && !(!ctx.simulate && ctx.height > 0 && tx.gas == 0)
    && (PaysFees(env, ctx, tx) ==>
          && FeeAccepted(tx.fee, tx.gas, ctx.checkTx, ctx.minPrices)
          && env.normalize(tx.fee).Some?
          && var fee := env.normalize(tx.fee).value;
             && (OnBehalf(tx) ==> GrantAllows(s.grants, (tx.granter.value, tx.payer), fee))
             && (!IsZero(fee) ==> Transferable(env, tx, fee, s.ledger)))
  }

  /** The amount a transaction that passes takes from its payer or granter. */
  function FeeTaken(env: Env, ctx: Ctx, tx: Tx, d: Denom): int {
    if PaysFees(env, ctx, tx) && env.normalize(tx.fee).Some? then AmountOf(env.normalize(tx.fee).value, d) else 0
  }

  /** The effect of a transaction that passes: the fee goes from one account to the four receivers,
      per denomination and whoever coincides with whom, and is charged to the grant if it is paid on
      somebody else's behalf. A simulated or free transaction changes nothing. */
  ghost predicate Effect(env: Env, ctx: Ctx, tx: Tx, s: FeeState, s': FeeState) {
    if !PaysFees(env, ctx, tx) then s' == s
    else
      && env.normalize(tx.fee).Some?
      && var fee := env.normalize(tx.fee).value;
         && (forall d :: AmountOf(fee, d) >= 0)
         && (if OnBehalf(tx) then Charged(s.grants, s'.grants, (tx.granter.value, tx.payer), fee)
             else s'.grants == s.grants)
         && (if IsZero(fee) then s'.ledger == s.ledger
             else HasReceivers(env, tx) && Paid(s.ledger, s'.ledger, DeductFrom(tx), Receivers(env, tx), fee))
  }

  ghost predicate Paid(l: Ledger, l': Ledger, from: Address, receivers: seq<Address>, fee: seq<Coin>)
    requires |receivers| == 4
  {
    forall x, d ::
      Bal(l', x, d) ==
      Bal(l, x, d) - (if x == from then AmountOf(fee, d) else 0) + Income(receivers, x, AmountOf(fee, d))
  }

  lemma DistributedIsPaid(l: Ledger, l': Ledger, from: Address, receivers: seq<Address>, fee: seq<Coin>)
    requires |receivers| == 4 && ValidCoins(fee)
    requires Distributed(l, l', Transfer(from, fee), Outputs(receivers, fee))
    ensures Paid(l, l', from, receivers, fee)
  {
    forall x, d {
      OutputAmounts(receivers, fee, x, d);
    }
  }

  lemma {:induction false} ZeroAmount(fee: seq<Coin>, d: Denom)
    requires IsZero(fee)
    ensures AmountOf(fee, d) == 0
  {
    if fee != [] {
      ZeroAmount(fee[..|fee| - 1], d);
    }
  }

  class DeductFeeDecorator {
    const bank: BankKeeper
    const feegrant: FeegrantKeeper

    constructor (bank: BankKeeper, feegrant: FeegrantKeeper)
      ensures this.bank == bank && this.feegrant == feegrant
    {
      this.bank, this.feegrant := bank, feegrant;
    }

    ghost function State(): FeeState
      reads bank, feegrant
    {
      FeeState(bank.balances, feegrant.grants)
    }

    /** The free-gas rule. The loop leaves after its first round. */
    method IsFree(env: Env, tx: Tx) returns (freeGas: bool)
      ensures freeGas <==> FreeGas(env, tx)
      ensures freeGas <==>
        || tx.payer == env.globalAdmin || tx.payer == env.meidAdmin
        || (|tx.msgs| > 0 && tx.msgs[0] in {CheckIn, UpdateGroupMembers})
    {
      freeGas := tx.payer == env.globalAdmin || tx.payer == env.meidAdmin;
      for i := 0 to |tx.msgs|
        invariant i == 0
        invariant freeGas <==> tx.payer == env.globalAdmin || tx.payer == env.meidAdmin
      {
        match tx.msgs[i] {
          case CheckIn => freeGas := true;
          case UpdateGroupMembers => freeGas := true;
          case _ =>
        }
        break;
      }
    }

    /** Splits the fee and has the bank move it. */
    method Deduct(env: Env, tx: Tx, fee: seq<Coin>) returns (r: Outcome)
      requires bank.Valid() && !IsZero(fee)
      modifies bank`balances
      ensures r.Pass? <==> Transferable(env, tx, fee, old(bank.balances))
      ensures r.Pass? ==> bank.Valid()
      ensures r.Pass? ==>
        HasReceivers(env, tx) && Paid(old(bank.balances), bank.balances, DeductFrom(tx), Receivers(env, tx), fee)
    {
      if !ValidCoins(fee) {
        return Fail(InsufficientFee);
      }
      var shares := Split(fee);
      if shares.Err? {
        return Fail(shares.error);
      }
      var from := DeductFrom(tx);
      var outputs := [Transfer(env.devOperator, shares.value.fee10)];
      var fee20Address := ValidatorOwner(env, from);
      if fee20Address.None? {
        return Fail(NotFound);
      }
      outputs := outputs + [Transfer(fee20Address.value, shares.value.fee20)];
      outputs := outputs + [Transfer(env.feePool, shares.value.fee30)];
      var owner := ParseWasmMsgContractOwner(env, tx.msgs);
      if owner.Err? {
        return Fail(owner.error);
      }
      var fee40Address := if owner.value.Some? then owner.value.value else env.feePool;
      outputs := outputs + [Transfer(fee40Address, shares.value.fee40)];
      assert outputs == Outputs(Receivers(env, tx), fee);
      TransferIsValid(env.wellFormed, from, Receivers(env, tx), fee);
      ghost var before := bank.balances;
      r := bank.InputOutputCoins(env.wellFormed, Transfer(from, fee), outputs);
      if r.Pass? {
        DistributedIsPaid(before, bank.balances, from, Receivers(env, tx), fee);
      }
    }

    /** Passes exactly the acceptable transactions, with the effect described, and hands on the
        priority. On an error the stores may be half-written; see `Deliver`. */
    method AnteHandle(env: Env, ctx: Ctx, tx: Tx) returns (r: Result<int>)
      requires bank.Valid() && ValidPrices(ctx.minPrices)
      modifies bank`balances, feegrant
      ensures r.Ok? <==> Acceptable(env, ctx, tx, old(State()))
      ensures r.Ok? ==> bank.Valid() && Effect(env, ctx, tx, old(State()), State())
      ensures r.Ok? ==>
        r.value == if PaysFees(env, ctx, tx) && tx.gas != 0 then PriorityFold(Prices(tx.fee, ToInt64(tx.gas))) else 0
    {
      if !ctx.simulate && ctx.height > 0 && tx.gas == 0 {
        return Err(InvalidGas);
      }
      var priority := 0;
      var freeGas := IsFree(env, tx);
      if !ctx.simulate && !freeGas {
        var checked := CheckTxFee(tx.fee, tx.gas, ctx.checkTx, ctx.minPrices);
        if checked.Err? {
          return Err(checked.error);
        }
        priority := checked.value;
        var parsed := env.normalize(tx.fee);
        if parsed.None? {
          return Err(InvalidCoins);
        }
        var fee := parsed.value;
        if OnBehalf(tx) {
          var used := feegrant.UseGrantedFees(tx.granter.value, tx.payer, fee);
          if used.Fail? {
            return Err(used.error);
          }
        }
        if !IsZero(fee) {
          var deducted := Deduct(env, tx, fee);
          if deducted.Fail? {
            return Err(deducted.error);
          }
          forall d ensures AmountOf(fee, d) >= 0 { AmountOfNonNegative(fee, d); }
        } else {
          forall d ensures AmountOf(fee, d) >= 0 { ZeroAmount(fee, d); }
        }
      }
      return Ok(priority);
    }

    /** A transaction as the application runs it: a failing one leaves the stores as they were. */
    method Deliver(env: Env, ctx: Ctx, tx: Tx) returns (r: Result<int>)
      requires bank.Valid() && ValidPrices(ctx.minPrices)
      modifies bank`balances, feegrant
      ensures bank.Valid()
      ensures r.Ok? <==> Acceptable(env, ctx, tx, old(State()))
      ensures if r.Ok? then Effect(env, ctx, tx, old(State()), State()) else State() == old(State())
      ensures r.Ok? ==>
        r.value == if PaysFees(env, ctx, tx) && tx.gas != 0 then PriorityFold(Prices(tx.fee, ToInt64(tx.gas))) else 0
      ensures (ctx.simulate || tx.payer in {env.globalAdmin, env.meidAdmin} ||
               (|tx.msgs| > 0 && tx.msgs[0] in {CheckIn, UpdateGroupMembers})) ==>
        (r.Err? <==> tx.gas == 0 && !ctx.simulate && ctx.height > 0) &&
        (r.Ok? ==> r.value == 0 && State() == old(State()))
    {
      var balances, grants := bank.balances, feegrant.grants;
      r := AnteHandle(env, ctx, tx);
      if r.Err? {
        bank.balances, feegrant.grants := balances, grants;
      }
    }
  }
}
