/** The v47 upgrade handler as far as it changes money (app/upgrade_v47.go, lines 116-126): the
    balance pass, then the validator pass, the second only if the first went through. */
module UpgradeV47 {
  import opened Outcomes
  import opened Precision
  import opened Coins
  import opened Ledgers
  import opened Auth
  import opened Bank
  import opened Staking
  import opened ValidatorFix
  import opened ValidatorMigration
  import opened ExponentReset
  import opened Renumbering

  const MEID_ADMIN: Address := "me1jy4sl7pq7vwsmap0f4ylq7hst4nejjk3fa6avs"
  const AIR_DROP: Address := "me1w4tjt9pupkuzk0mgcz9ajp7nn96dm4uwxpvhl7"

  const TARGETS: Newcomers := Newcomers(MEID_ADMIN, AIR_DROP)

  lemma TargetsDiffer()
    ensures TARGETS.meid != TARGETS.drop
  {
  }

  /** A pool account's balance is the sum of the tokens of the validators it stands for and `other`
      coins. The bonded pool stands for the bonded validators; the pool of what is not bonded stands
      for the unbonding and unbonded ones together, and also holds the coins of unbonding entries. */
  ghost predicate PoolHolds(l: Ledger, pool: Address, d: Denom, validators: map<Address, Validator>,
                            statuses: set<BondStatus>, other: int)
  {
    Bal(l, pool, d) == PoolTokens(validators, statuses) + other
  }

  /** Both passes. Provided the new operators do not clash, a pool account that exists holds its
      validators' tokens and a hundredfold of the other coins afterwards exactly when it held the
      tokens and the other coins before. So coins that nothing rescales, like those of unbonding
      entries, are still matched exactly when there are none. */
  method Upgrade(bank: BankKeeper, staking: StakingKeeper, table: map<string, Address>)
    returns (r: Outcome, ghost accounts: seq<Account>, ghost validators: seq<Validator>)
    requires bank.Valid() && WellKeyed(bank.ak.State(), bank.ak.moduleAddress) && NewcomersAreNotModules(bank.ak, TARGETS)
    requires SelfKeyed(staking.State())
    modifies bank, bank.ak, staking
    ensures !old(Migratable(bank)) ==> r.Fail? && unchanged(staking)
    ensures old(Migratable(bank)) && staking.admin.None? ==> r.Fail?
    ensures old(Migratable(bank)) && staking.admin.Some? ==>
      && Snapshot(validators, old(staking.validators))
      && (r.Pass? <==>
            FixPrefix(ConfigOf(staking, staking.admin.value, table), old(staking.State()), validators, |validators|).Some?)
    ensures Enumerates(accounts, old(bank.ak.accounts))
    ensures r.Pass? ==> staking.admin.Some? && (accounts != [] ==> Mint in bank.ak.permissions)
    ensures r.Pass? ==> bank.ak.State() == AuthAfter(old(bank.ak.State()), bank.ak, accounts, |accounts|, TARGETS)
    ensures r.Pass? ==> bank.Valid()
    ensures r.Pass? ==> Multiplied(old(bank.balances), bank.balances, old(bank.ak.accounts).Keys)
    ensures r.Pass? ==> forall a, d :: a in old(bank.ak.accounts) ==>
      Bal(bank.balances, a, d) == 100 * Bal(old(bank.balances), a, d)
    ensures r.Pass? ==>
      FixPrefix(ConfigOf(staking, staking.admin.value, table), old(staking.State()), validators, |validators|)
      == Some(staking.State())
    ensures r.Pass? && NoClash(ConfigOf(staking, staking.admin.value, table), validators) ==>
      forall pool, d, statuses, other :: pool in old(bank.ak.accounts) ==>
        && (PoolHolds(old(bank.balances), pool, d, old(staking.validators), statuses, other) <==>
            PoolHolds(bank.balances, pool, d, staking.validators, statuses, MULTIPLIER * other))
        && (PoolHolds(old(bank.balances), pool, d, old(staking.validators), statuses, other) ==>
            (PoolHolds(bank.balances, pool, d, staking.validators, statuses, other) <==> other == 0))
  {
    validators := [];
    r, accounts := ResetExponent(bank, TARGETS);
    if r.Fail? {
      return;
    }
    r, validators := FixValidator(staking, table);
    if r.Pass? && NoClash(ConfigOf(staking, staking.admin.value, table), validators) {
      forall pool, d, statuses, other | pool in old(bank.ak.accounts)
        ensures PoolHolds(old(bank.balances), pool, d, old(staking.validators), statuses, other) <==>
                PoolHolds(bank.balances, pool, d, staking.validators, statuses, MULTIPLIER * other)
        ensures PoolHolds(old(bank.balances), pool, d, old(staking.validators), statuses, other) ==>
                (PoolHolds(bank.balances, pool, d, staking.validators, statuses, other) <==> other == 0)
      {
        PoolsKeepMatching(old(bank.balances), bank.balances, old(bank.ak.accounts).Keys,
                          ConfigOf(staking, staking.admin.value, table), old(staking.State()), validators,
                          pool, d, statuses, other);
      }
    }
  }

  /** The same on stores, whatever the order of the snapshot, for any set of bond statuses. */
  lemma PoolsKeepMatching(l: Ledger, l': Ledger, accounts: set<Address>, c: Config, s: StakingState, vs: seq<Validator>,
                          pool: Address, d: Denom, statuses: set<BondStatus>, other: int)
    requires Multiplied(l, l', accounts) && pool in accounts
    requires Snapshot(vs, s.validators) && NoClash(c, vs) && FixPrefix(c, s, vs, |vs|).Some?
    ensures PoolHolds(l, pool, d, s.validators, statuses, other) <==>
            PoolHolds(l', pool, d, FixPrefix(c, s, vs, |vs|).value.validators, statuses, MULTIPLIER * other)
    ensures PoolHolds(l, pool, d, s.validators, statuses, other) ==>
            (PoolHolds(l', pool, d, FixPrefix(c, s, vs, |vs|).value.validators, statuses, other) <==> other == 0)
  {
    TokensHundredfold(c, s, vs, statuses);
  }

  /** The numbers after the upgrade, for every order in which the accounts are visited: account 1
      has 2, accounts 2 and 3 have new numbers, the introduced accounts have 1 and 3, everybody else
      keeps theirs and no two share one. The number lookup agrees with the accounts exactly when
      number 2 was not held without number 1. */
  lemma NumbersAfterUpgrade(s: AuthState, ak: AccountKeeper, accounts: seq<Account>, t: AuthState)
    requires Mint in ak.permissions && NewcomersAreNotModules(ak, TARGETS)
    requires Coherent(s) && Bounded(s) && s.next > 3 && Enumerates(accounts, s.accounts)
    requires NewcomersFresh(s, TARGETS) && t == AuthAfter(s, ak, accounts, |accounts|, TARGETS)
    ensures Injective(t) && Bounded(t)
    ensures forall a :: a in s.accounts ==> a in t.accounts && Renumbered(s.accounts[a], t.accounts[a], s, t)
    ensures var a := "me1jy4sl7pq7vwsmap0f4ylq7hst4nejjk3fa6avs";
      1 in s.byNumber ==> a in t.accounts && t.accounts[a] == Account(a, 1, Plain(0))
    ensures var a := "me1w4tjt9pupkuzk0mgcz9ajp7nn96dm4uwxpvhl7";
      3 in s.byNumber ==> a in t.accounts && t.accounts[a] == Account(a, 3, Plain(0))
    ensures t.next ==
      s.next + (if 2 in s.byNumber then 1 else 0) + (if 3 in s.byNumber then 1 else 0)
      + (if s.accounts != map[] && ak.moduleAddress(Mint) !in s.accounts then 1 else 0)
    ensures Coherent(t) <==> (2 in s.byNumber ==> 1 in s.byNumber)
  {
    TargetsDiffer();
    NumbersAfterReset(s, ak, TARGETS, accounts, t);
    NextAfterReset(s, ak, TARGETS, accounts);
    LookupAfterReset(s, ak, TARGETS, accounts);
  }
}
