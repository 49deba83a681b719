/** What fee deduction means for those concerned, in terms of the transaction, the stores it reads and
    balances and grants before and after. `Acceptable` and `Effect` are the contract of
    `DeductFeeDecorator.Deliver`: s and s' are the stores before and after it. */
module FeeOutcomes {
  import opened Outcomes
  import opened FixedPoint
  import opened Coins
  import opened Ledgers
  import opened FeeDeduction

  // Who pays at all.

  /** A transaction of an administrator, or one that begins with a check-in or a group change, passes
      whatever its fee, the prices, its grant and its other messages, and changes nothing; so does a
      simulated one. Only zero gas stops it, unless it is simulated or before the first block. */
  lemma FreePasses(env: Env, ctx: Ctx, tx: Tx, s: FeeState, s': FeeState)
    requires
      || ctx.simulate || tx.payer == env.globalAdmin || tx.payer == env.meidAdmin
      || (tx.msgs != [] && (tx.msgs[0] == CheckIn || tx.msgs[0] == UpdateGroupMembers))
    ensures Acceptable(env, ctx, tx, s) <==> ctx.simulate || ctx.height <= 0 || tx.gas > 0
    ensures Effect(env, ctx, tx, s, s') <==> s' == s
  {
  }

  /** Neither an administrator nor at the start of a free message, and not simulated. */
  ghost predicate Pays(env: Env, ctx: Ctx, tx: Tx) {
    && !ctx.simulate && tx.payer != env.globalAdmin && tx.payer != env.meidAdmin
    && (tx.msgs == [] || (tx.msgs[0] != CheckIn && tx.msgs[0] != UpdateGroupMembers))
  }

  ghost predicate OnlyContracts(msgs: seq<Msg>) {
    msgs != [] && forall i :: 0 <= i < |msgs| ==>
      msgs[i].ExecuteContract? || msgs[i].MigrateContract? || msgs[i].UpdateAdmin? || msgs[i].ClearAdmin? || msgs[i].SudoContract?
  }

  lemma LastContract(env: Env, msgs: seq<Msg>)
    ensures !OnlyContracts(msgs) ==> LastReceiver(env, msgs) == Some(env.feePool)
    ensures OnlyContracts(msgs) ==>
      var c := msgs[|msgs| - 1].contract;
      LastReceiver(env, msgs) ==
        if c == "" || !env.wellFormed(c) then Some(env.feePool)
        else if c in env.creators then Some(env.creators[c]) else None
  {
    if OnlyContracts(msgs) {
      assert forall i :: 0 <= i < |msgs| ==> msgs[i].IsWasm();
    } else if msgs != [] {
      var i :| 0 <= i < |msgs| && !(msgs[i].ExecuteContract? || msgs[i].MigrateContract? || msgs[i].UpdateAdmin? ||
        msgs[i].ClearAdmin? || msgs[i].SudoContract?);
      assert !msgs[i].IsWasm();
    }
  }

  // What a paying transaction needs.

  /** Gas, unless there is no fee; and in CheckTx, if the node asks for any price, a coin that is worth
      at least the positive exact price of the gas in its denomination. */
  ghost predicate MempoolAccepts(ctx: Ctx, tx: Tx) {
    && (tx.gas != 0 || tx.fee == [])
    && ((ctx.checkTx && exists k :: 0 <= k < |ctx.minPrices| && ctx.minPrices[k].amount.raw != 0) ==>
          exists i, j :: 0 <= i < |tx.fee| && 0 <= j < |ctx.minPrices| && tx.fee[i].denom == ctx.minPrices[j].denom &&
            0 < ctx.minPrices[j].amount.raw * ToInt64(tx.gas) <= tx.fee[i].amount * PRECISION)
  }

  /** Whoever pays for somebody else has granted it, with a limit that suffices or without any. */
  ghost predicate GrantSuffices(tx: Tx, fee: seq<Coin>, grants: Grants) {
    (tx.granter.Some? && tx.granter.value != tx.payer) ==>
      var pair := (tx.granter.value, tx.payer);
      pair in grants &&
      (grants[pair] != Unlimited ==>
         forall d :: AmountOf(fee, d) <= if d in grants[pair].limit then grants[pair].limit[d] else 0)
  }

  /** The account that pays: the granter if one is named, even if it is the payer. */
  function Source(tx: Tx): Address {
    match tx.granter
    case Some(granter) => granter
    case None => tx.payer
  }

  /** Who earns the fifth: for a registered account the owner of its validator, for another one the
      owner of the block's proposer. */
  ghost predicate EarnsFifth(env: Env, from: Address, x: Address) {
    if from in env.meids then env.meids[from] in env.valOwners && x == env.valOwners[env.meids[from]]
    else env.proposerOwner == Some(x)
  }

  /** Who earns the last part: if all messages are for contracts and the last one names one that
      parses, the creator of that contract, who must exist; otherwise the fee pool. */
  ghost predicate EarnsLast(env: Env, msgs: seq<Msg>, x: Address) {
    if OnlyContracts(msgs) && msgs[|msgs| - 1].contract != "" && env.wellFormed(msgs[|msgs| - 1].contract) then
      msgs[|msgs| - 1].contract in env.creators && x == env.creators[msgs[|msgs| - 1].contract]
    else x == env.feePool
  }

  lemma ReceiversAre(env: Env, tx: Tx)
    ensures forall x :: EarnsFifth(env, Source(tx), x) <==> ValidatorOwner(env, DeductFrom(tx)) == Some(x)
    ensures forall x :: EarnsLast(env, tx.msgs, x) <==> LastReceiver(env, tx.msgs) == Some(x)
  {
    LastContract(env, tx.msgs);
  }

  /** Sorted coins of at least 10 each, which the source can pay, to four addresses that parse. */
  ghost predicate CanBeTaken(env: Env, tx: Tx, fee: seq<Coin>, l: Ledger) {
    && (forall i :: 0 < i < |fee| ==> Less(fee[i - 1].denom, fee[i].denom))
    && (forall i :: 0 <= i < |fee| ==> fee[i].amount >= 10)
    && (forall d :: AmountOf(fee, d) <= Bal(l, Source(tx), d))
    && env.wellFormed(Source(tx)) && env.wellFormed(env.devOperator) && env.wellFormed(env.feePool)
    && (exists x :: EarnsFifth(env, Source(tx), x) && env.wellFormed(x))
    && (exists x :: EarnsLast(env, tx.msgs, x) && env.wellFormed(x))
  }

  lemma TransferableExactlyWhen(env: Env, tx: Tx, fee: seq<Coin>, l: Ledger)
    ensures Transferable(env, tx, fee, l) <==> CanBeTaken(env, tx, fee, l)
  {
    ReceiversAre(env, tx);
    if Transferable(env, tx, fee, l) {
      var r := Receivers(env, tx);
      assert env.wellFormed(r[0]) && env.wellFormed(r[1]) && env.wellFormed(r[2]) && env.wellFormed(r[3]);
      assert EarnsFifth(env, Source(tx), r[1]) && EarnsLast(env, tx.msgs, r[3]);
    }
  }

  /** Exactly which paying transactions pass. */
  lemma PayingPassesExactlyWhen(env: Env, ctx: Ctx, tx: Tx, s: FeeState)
    requires Pays(env, ctx, tx)
    ensures Acceptable(env, ctx, tx, s) <==>
      && (ctx.height <= 0 || tx.gas > 0) && MempoolAccepts(ctx, tx)
      && env.normalize(tx.fee).Some?
      && var fee := env.normalize(tx.fee).value;
         GrantSuffices(tx, fee, s.grants) &&
         ((exists i :: 0 <= i < |fee| && fee[i].amount != 0) ==> CanBeTaken(env, tx, fee, s.ledger))
  {
    if env.normalize(tx.fee).Some? {
      TransferableExactlyWhen(env, tx, env.normalize(tx.fee).value, s.ledger);
    }
  }

  /** A registered source whose validator has no owner is refused, whoever proposed the block. */
  lemma NoOwnerNoPass(env: Env, ctx: Ctx, tx: Tx, s: FeeState)
    requires Pays(env, ctx, tx) && Source(tx) in env.meids && env.meids[Source(tx)] !in env.valOwners
    requires env.normalize(tx.fee).Some?
    requires exists i :: 0 <= i < |env.normalize(tx.fee).value| && env.normalize(tx.fee).value[i].amount != 0
    ensures !Acceptable(env, ctx, tx, s)
  {
    PayingPassesExactlyWhen(env, ctx, tx, s);
  }

  // What a paying transaction that passes does.

  lemma FourReceivers(env: Env, tx: Tx, owner: Address, last: Address)
    requires EarnsFifth(env, Source(tx), owner) && EarnsLast(env, tx.msgs, last)
    ensures HasReceivers(env, tx) && Receivers(env, tx) == [env.devOperator, owner, env.feePool, last]
    ensures DeductFrom(tx) == Source(tx)
  {
    ReceiversAre(env, tx);
  }

  /** What x has after f is taken from one account and shared out among four. */
  function After(before: int, f: int, x: Address, from: Address, dev: Address, owner: Address, pool: Address, last: Address): int {
    before - (if x == from then f else 0)
      + (if x == dev then f / 10 else 0) + (if x == owner then f / 5 else 0)
      + (if x == pool then 3 * f / 10 else 0) + (if x == last then f - f / 10 - f / 5 - 3 * f / 10 else 0)
  }

  lemma PaidInFull(l: Ledger, l': Ledger, from: Address, receivers: seq<Address>, fee: seq<Coin>, x: Address, d: Denom)
    requires |receivers| == 4
    requires if IsZero(fee) then l' == l else Paid(l, l', from, receivers, fee)
    ensures Bal(l', x, d) ==
      After(Bal(l, x, d), AmountOf(fee, d), x, from, receivers[0], receivers[1], receivers[2], receivers[3])
  {
    if IsZero(fee) {
      ZeroAmount(fee, d);
    }
  }

  /** The source pays the fee; a tenth, a fifth and three tenths, rounded down, go to the dev operator,
      the owner of the validator and the fee pool, and the rest to the last receiver. Roles of one and
      the same address add up. Grants of others, and unlimited ones, stay; a limited grant for somebody
      else loses the fee. */
  lemma WhoGetsWhat(env: Env, ctx: Ctx, tx: Tx, s: FeeState, s': FeeState, owner: Address, last: Address,
                    x: Address, d: Denom)
    requires Pays(env, ctx, tx) && Effect(env, ctx, tx, s, s')
    requires EarnsFifth(env, Source(tx), owner) && EarnsLast(env, tx.msgs, last)
    ensures env.normalize(tx.fee).Some?
    ensures var f := AmountOf(env.normalize(tx.fee).value, d);
      && f >= 0
      && Bal(s'.ledger, x, d) ==
           After(Bal(s.ledger, x, d), f, x, Source(tx), env.devOperator, owner, env.feePool, last)
  {
    FourReceivers(env, tx, owner, last);
    PaidInFull(s.ledger, s'.ledger, Source(tx), [env.devOperator, owner, env.feePool, last], env.normalize(tx.fee).value, x, d);
  }

  /** With an amount of 100 n and five different addresses: 10 n, 20 n, 30 n and 40 n. */
  lemma HundredSplit(env: Env, ctx: Ctx, tx: Tx, s: FeeState, s': FeeState, owner: Address, creator: Address,
                     d: Denom, n: nat)
    requires Pays(env, ctx, tx) && Effect(env, ctx, tx, s, s')
    requires EarnsFifth(env, Source(tx), owner) && EarnsLast(env, tx.msgs, creator)
    requires env.normalize(tx.fee).Some? && AmountOf(env.normalize(tx.fee).value, d) == 100 * n
    requires Source(tx) !in {env.devOperator, owner, env.feePool, creator} && creator != env.feePool
    requires env.devOperator !in {owner, env.feePool, creator} && owner !in {env.feePool, creator}
    ensures Bal(s'.ledger, Source(tx), d) == Bal(s.ledger, Source(tx), d) - 100 * n
    ensures Bal(s'.ledger, env.devOperator, d) == Bal(s.ledger, env.devOperator, d) + 10 * n
    ensures Bal(s'.ledger, owner, d) == Bal(s.ledger, owner, d) + 20 * n
    ensures Bal(s'.ledger, env.feePool, d) == Bal(s.ledger, env.feePool, d) + 30 * n
    ensures Bal(s'.ledger, creator, d) == Bal(s.ledger, creator, d) + 40 * n
  {
    WhoGetsWhat(env, ctx, tx, s, s', owner, creator, Source(tx), d);
    WhoGetsWhat(env, ctx, tx, s, s', owner, creator, env.devOperator, d);
    WhoGetsWhat(env, ctx, tx, s, s', owner, creator, owner, d);
    WhoGetsWhat(env, ctx, tx, s, s', owner, creator, env.feePool, d);
    WhoGetsWhat(env, ctx, tx, s, s', owner, creator, creator, d);
  }

  /** A limited grant for another payer loses the fee in every denomination, and is gone exactly when
      nothing is left; all other grants are as before. */
  lemma GrantAfter(env: Env, ctx: Ctx, tx: Tx, s: FeeState, s': FeeState, pair: (Address, Address))
    requires Pays(env, ctx, tx) && Effect(env, ctx, tx, s, s')
    ensures env.normalize(tx.fee).Some?
    ensures (tx.granter != Some(pair.0) || pair.0 == tx.payer || pair.1 != tx.payer ||
             (pair in s.grants && s.grants[pair].Unlimited?)) ==>
      (pair in s'.grants <==> pair in s.grants) && (pair in s.grants ==> s'.grants[pair] == s.grants[pair])
    ensures (tx.granter == Some(pair.0) && pair.0 != tx.payer && pair.1 == tx.payer) ==>
      pair in s.grants &&
      (s.grants[pair].Limited? ==>
         && (pair in s'.grants <==>
               exists d :: (if d in s.grants[pair].limit then s.grants[pair].limit[d] else 0)
                           != AmountOf(env.normalize(tx.fee).value, d))
         && (pair in s'.grants ==> s'.grants[pair].Limited? && forall d ::
               (if d in s'.grants[pair].limit then s'.grants[pair].limit[d] else 0) ==
               (if d in s.grants[pair].limit then s.grants[pair].limit[d] else 0)
               - AmountOf(env.normalize(tx.fee).value, d)))
  {
    var fee := env.normalize(tx.fee).value;
    if tx.granter == Some(pair.0) && pair.0 != tx.payer && pair.1 == tx.payer && s.grants[pair].Limited? {
      assert pair == (tx.granter.value, tx.payer);
      forall d
        ensures Remaining(s.grants, pair, d) == if d in s.grants[pair].limit then s.grants[pair].limit[d] else 0
        ensures Remaining(s'.grants, pair, d) == Remaining(s.grants, pair, d) - AmountOf(fee, d)
      {
      }
    }
  }
}
