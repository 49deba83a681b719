/** Preparing an export for a restart at height zero (app/export.go, `prepForZeroHeightGenesis`):
    reward scraps go to the community pool, recorded heights are set to zero, and validators outside
    a non-empty allow list are jailed. */
module ZeroHeight {
  import opened Outcomes
  import opened Coins
  import opened Sums
  import opened Staking

  /** Amounts in units of 10^-18. */
  type DecCoins = map<Denom, nat>

  datatype Entry = Entry(creationHeight: int, completionTime: int, initialBalance: int, balance: int, id: int)
  datatype Redelegation = Redelegation(delegator: Address, source: Address, destination: Address, entries: seq<Entry>)
  datatype Unbonding = Unbonding(delegator: Address, validator: Address, entries: seq<Entry>)
  datatype SigningInfo = SigningInfo(
    startHeight: int, indexOffset: int, jailedUntil: int, tombstoned: bool, missedBlocks: int)

  type RedKey = (Address, Address, Address)
  type UbdKey = (Address, Address)

  function KeyOfRed(r: Redelegation): RedKey { (r.delegator, r.source, r.destination) }
  function KeyOfUbd(u: Unbonding): UbdKey { (u.delegator, u.validator) }

  function Amount(coins: DecCoins, d: Denom): nat {
    if d in coins then coins[d] else 0
  }

  function Plus(x: DecCoins, y: DecCoins): (r: DecCoins)
    ensures forall d :: Amount(r, d) == Amount(x, d) + Amount(y, d)
  {
    map d | d in x.Keys + y.Keys :: Amount(x, d) + Amount(y, d)
  }

  ghost function RewardIn(d: Denom): (Address, DecCoins) -> int {
    (o: Address, coins: DecCoins) => Amount(coins, d)
  }

  /** All outstanding rewards in one denomination. */
  ghost function Outstanding(rewards: map<Address, DecCoins>, d: Denom): int {
    Sum(rewards, RewardIn(d))
  }

  function Scraps(rewards: map<Address, DecCoins>, o: Address): DecCoins {
    if o in rewards then rewards[o] else map[]
  }

  /** Clearing one validator's rewards takes its scraps off the sum. */
  lemma ClearOne(rewards: map<Address, DecCoins>, o: Address, d: Denom)
    ensures Outstanding(rewards[o := map[]], d) == Outstanding(rewards, d) - Amount(Scraps(rewards, o), d)
  {
    SumPut(rewards, RewardIn(d), o, map[]);
  }

  ghost function RewardOf(owners: set<Address>, d: Denom): (Address, DecCoins) -> int {
    (o: Address, coins: DecCoins) => if o in owners then Amount(coins, d) else 0
  }

  /** The outstanding rewards of some validators. */
  ghost function OutstandingOf(rewards: map<Address, DecCoins>, owners: set<Address>, d: Denom): int {
    Sum(rewards, RewardOf(owners, d))
  }

  lemma {:induction false} OutstandingOfNobody(rewards: map<Address, DecCoins>, d: Denom)
    ensures OutstandingOf(rewards, {}, d) == 0
    decreases |rewards|
  {
    if rewards != map[] {
      var o :| o in rewards;
      SumTake(rewards, RewardOf({}, d), o);
      OutstandingOfNobody(rewards - {o}, d);
    }
  }

  lemma {:induction false} OutstandingOfOneMore(rewards: map<Address, DecCoins>, owners: set<Address>, o: Address, d: Denom)
    requires o !in owners
    ensures OutstandingOf(rewards, owners + {o}, d) ==
      OutstandingOf(rewards, owners, d) + Amount(Scraps(rewards, o), d)
    decreases |rewards|
  {
    if rewards != map[] {
      var p :| p in rewards;
      SumTake(rewards, RewardOf(owners, d), p);
      SumTake(rewards, RewardOf(owners + {o}, d), p);
      OutstandingOfOneMore(rewards - {p}, owners, o, d);
    }
  }

  /** The rewards of the validators in `done` have gone to the pool: pool and rewards together are
      what they were, the pool has grown by just those rewards, and nobody else's are touched. */
  ghost predicate Donated(pool0: DecCoins, rewards0: map<Address, DecCoins>, pool: DecCoins,
                          rewards: map<Address, DecCoins>, done: set<Address>) {
    && (forall d :: Amount(pool, d) + Outstanding(rewards, d) == Amount(pool0, d) + Outstanding(rewards0, d))
    && (forall d :: Amount(pool, d) == Amount(pool0, d) + OutstandingOf(rewards0, done, d))
    && (forall o :: o in done ==> Scraps(rewards, o) == map[])
    && (forall o :: o !in done ==> (o in rewards <==> o in rewards0) && Scraps(rewards, o) == Scraps(rewards0, o))
  }

  lemma NothingDonated(pool: DecCoins, rewards: map<Address, DecCoins>)
    ensures Donated(pool, rewards, pool, rewards, {})
  {
    forall d { OutstandingOfNobody(rewards, d); }
  }

  lemma DonateOneDenom(pool0: DecCoins, rewards0: map<Address, DecCoins>, pool: DecCoins, rewards: map<Address, DecCoins>,
                       done: set<Address>, o: Address, d: Denom)
    requires Amount(pool, d) + Outstanding(rewards, d) == Amount(pool0, d) + Outstanding(rewards0, d)
    requires Amount(pool, d) == Amount(pool0, d) + OutstandingOf(rewards0, done, d)
    requires o !in done && Scraps(rewards, o) == Scraps(rewards0, o)
    ensures var pool', rewards' := Plus(pool, Scraps(rewards, o)), rewards[o := map[]];
      && Amount(pool', d) + Outstanding(rewards', d) == Amount(pool0, d) + Outstanding(rewards0, d)
      && Amount(pool', d) == Amount(pool0, d) + OutstandingOf(rewards0, done + {o}, d)
  {
    ClearOne(rewards, o, d);
    OutstandingOfOneMore(rewards0, done, o, d);
  }

  lemma DonateOneScraps(rewards0: map<Address, DecCoins>, rewards: map<Address, DecCoins>, done: set<Address>, o: Address)
    requires forall p :: p in done ==> Scraps(rewards, p) == map[]
    requires forall p :: p !in done ==> (p in rewards <==> p in rewards0) && Scraps(rewards, p) == Scraps(rewards0, p)
    ensures var rewards' := rewards[o := map[]];
      && (forall p :: p in done + {o} ==> Scraps(rewards', p) == map[])
      && (forall p :: p !in done + {o} ==>
            (p in rewards' <==> p in rewards0) && Scraps(rewards', p) == Scraps(rewards0, p))
  {
  }

  lemma DonateOne(pool0: DecCoins, rewards0: map<Address, DecCoins>, pool: DecCoins, rewards: map<Address, DecCoins>,
                  done: set<Address>, o: Address, pool': DecCoins, rewards': map<Address, DecCoins>)
    requires Donated(pool0, rewards0, pool, rewards, done) && o !in done
    requires pool' == Plus(pool, Scraps(rewards, o)) && rewards' == rewards[o := map[]]
    ensures Donated(pool0, rewards0, pool', rewards', done + {o})
  {
    DonateOneScraps(rewards0, rewards, done, o);
    forall d
      ensures Amount(pool', d) + Outstanding(rewards', d) == Amount(pool0, d) + Outstanding(rewards0, d)
      ensures Amount(pool', d) == Amount(pool0, d) + OutstandingOf(rewards0, done + {o}, d)
    {
      DonateOneDenom(pool0, rewards0, pool, rewards, done, o, d);
    }
  }

  // The reset, store by store.

  function ZeroEntry(e: Entry): Entry {
    e.(creationHeight := 0)
  }

  function ZeroEntries(entries: seq<Entry>): seq<Entry> {
    seq(|entries|, i requires 0 <= i < |entries| => ZeroEntry(entries[i]))
  }

  /** The allow list counts only if it is not empty. */
  predicate MustJail(allowed: seq<Address>, o: Address) {
    allowed != [] && o !in allowed
  }

  function ResetValidator(v: Validator, o: Address, allowed: seq<Address>): Validator {
    v.(unbondingHeight := 0, jailed := v.jailed || MustJail(allowed, o))
  }

  ghost predicate RedelegationsReset(before: map<RedKey, Redelegation>, after: map<RedKey, Redelegation>) {
    && after.Keys == before.Keys
    && forall k :: k in before ==> after[k] == before[k].(entries := ZeroEntries(before[k].entries))
  }

  ghost predicate UnbondingsReset(before: map<UbdKey, Unbonding>, after: map<UbdKey, Unbonding>) {
    && after.Keys == before.Keys
    && forall k :: k in before ==> after[k] == before[k].(entries := ZeroEntries(before[k].entries))
  }

  ghost predicate ValidatorsReset(before: map<Address, Validator>, after: map<Address, Validator>, allowed: seq<Address>) {
    && after.Keys == before.Keys
    && forall o :: o in before ==> after[o] == ResetValidator(before[o], o, allowed)
  }

  ghost predicate SigningInfosReset(before: map<Address, SigningInfo>, after: map<Address, SigningInfo>) {
    && after.Keys == before.Keys
    && forall a :: a in before ==> after[a] == before[a].(startHeight := 0)
  }

  datatype Heights = Heights(
    redelegations: map<RedKey, Redelegation>, unbondings: map<UbdKey, Unbonding>,
    validators: map<Address, Validator>, signingInfos: map<Address, SigningInfo>)

  ghost predicate WasReset(s: Heights, t: Heights, allowed: seq<Address>) {
    && RedelegationsReset(s.redelegations, t.redelegations)
    && UnbondingsReset(s.unbondings, t.unbondings)
    && ValidatorsReset(s.validators, t.validators, allowed)
    && SigningInfosReset(s.signingInfos, t.signingInfos)
  }

  /** The reset in full, field by field: heights become zero, a non-empty list jails whom it does not
      name, and everything else is as before. */
  lemma ResetInFull(s: Heights, t: Heights, allowed: seq<Address>)
    requires WasReset(s, t, allowed)
    ensures t.redelegations.Keys == s.redelegations.Keys && t.unbondings.Keys == s.unbondings.Keys
    ensures t.validators.Keys == s.validators.Keys && t.signingInfos.Keys == s.signingInfos.Keys
    ensures forall k :: k in s.redelegations ==> var x, y := s.redelegations[k], t.redelegations[k];
      && (y.delegator, y.source, y.destination) == (x.delegator, x.source, x.destination) && |y.entries| == |x.entries|
      && forall i :: 0 <= i < |x.entries| ==> var e := x.entries[i];
           y.entries[i] == Entry(0, e.completionTime, e.initialBalance, e.balance, e.id)
    ensures forall k :: k in s.unbondings ==> var x, y := s.unbondings[k], t.unbondings[k];
      && (y.delegator, y.validator) == (x.delegator, x.validator) && |y.entries| == |x.entries|
      && forall i :: 0 <= i < |x.entries| ==> var e := x.entries[i];
           y.entries[i] == Entry(0, e.completionTime, e.initialBalance, e.balance, e.id)
    ensures forall o :: o in s.validators ==> var x, y := s.validators[o], t.validators[o];
      && (y.jailed <==> x.jailed || (allowed != [] && o !in allowed))
      && y == Validator(x.operator, x.cons, x.moniker, y.jailed, x.status, x.tokens, x.shares, x.owner, 0, x.rest)
    ensures forall a :: a in s.signingInfos ==> var x := s.signingInfos[a];
      t.signingInfos[a] == SigningInfo(0, x.indexOffset, x.jailedUntil, x.tombstoned, x.missedBlocks)
  {
    forall k | k in s.redelegations
      ensures |t.redelegations[k].entries| == |s.redelegations[k].entries|
    {
      assert t.redelegations[k] == s.redelegations[k].(entries := ZeroEntries(s.redelegations[k].entries));
    }
    forall k | k in s.unbondings
      ensures |t.unbondings[k].entries| == |s.unbondings[k].entries|
    {
      assert t.unbondings[k] == s.unbondings[k].(entries := ZeroEntries(s.unbondings[k].entries));
    }
  }

  lemma ZeroEntriesTwice(entries: seq<Entry>)
    ensures ZeroEntries(ZeroEntries(entries)) == ZeroEntries(entries)
  {
  }

  /** A second reset changes nothing. */
  lemma ResetIsIdempotent(s: Heights, t: Heights, u: Heights, allowed: seq<Address>)
    requires WasReset(s, t, allowed) && WasReset(t, u, allowed)
    ensures u == t
  {
    forall k | k in t.redelegations ensures u.redelegations[k] == t.redelegations[k] {
      ZeroEntriesTwice(s.redelegations[k].entries);
    }
    forall k | k in t.unbondings ensures u.unbondings[k] == t.unbondings[k] {
      ZeroEntriesTwice(s.unbondings[k].entries);
    }
    assert u.redelegations == t.redelegations && u.unbondings == t.unbondings;
    assert u.validators == t.validators && u.signingInfos == t.signingInfos;
  }

  /** The validators are written without touching the power index. So the index still lists exactly
      the validators that are not jailed if and only if none of those it lists had to be jailed. */
  lemma PowerIndexAgreesExactlyWhen(s: StakingState, t: StakingState, reduction: Reduction, allowed: seq<Address>)
    requires PowerAgrees(s, reduction) && t.byPower == s.byPower
    requires ValidatorsReset(s.validators, t.validators, allowed)
    ensures PowerAgrees(t, reduction) <==> forall k :: k in s.byPower ==> !MustJail(allowed, k.1)
  {
    if exists k :: k in s.byPower && MustJail(allowed, k.1) {
      var k :| k in s.byPower && MustJail(allowed, k.1);
      assert t.validators[k.1].jailed;
    }
  }

  /** A store to see it on: one listed validator, and an allow list that names somebody else. */
  lemma JailedValidatorStaysListed(v: Validator, other: Address, s: StakingState, t: StakingState)
    requires !v.jailed && v.tokens == Some(3) && other != v.operator
    requires s == StakingState(map[v.operator := v], map[], map[(3, v.operator) := v.operator], map[], map[], [])
    requires t == s.(validators := map[v.operator := ResetValidator(v, v.operator, [other])])
    ensures PowerAgrees(s, 1) && ValidatorsReset(s.validators, t.validators, [other]) && !PowerAgrees(t, 1)
  {
    assert (3, v.operator) in t.byPower && t.validators[v.operator].jailed;
  }

  // The walk over the power index that follows the reset.

  /** An entry the walk gets to, if it meets nothing bad before. */
  ghost predicate Reached(order: seq<PowerKey>, max: nat, i: nat) {
    i < |order| && i < max && forall j :: 0 <= j < i ==> order[j].0 > 0
  }

  /** The stores before and after the reset, with the index read in the given order. */
  ghost predicate ReadyToWalk(s: StakingState, t: StakingState, reduction: Reduction, allowed: seq<Address>,
                              order: seq<PowerKey>) {
    && PowerAgrees(s, reduction) && t.byPower == s.byPower
    && ValidatorsReset(s.validators, t.validators, allowed)
    && Descending(order, s.byPower)
  }

  lemma EntryAfterReset(s: StakingState, t: StakingState, reduction: Reduction, allowed: seq<Address>,
                        order: seq<PowerKey>, i: nat)
    requires ReadyToWalk(s, t, reduction, allowed, order) && i < |order|
    ensures order[i] in t.byPower
    ensures Bad(t.validators, t.byPower[order[i]]) <==> MustJail(allowed, order[i].1)
    ensures Powerful(t.validators, t.byPower[order[i]], reduction) <==> !MustJail(allowed, order[i].1) && order[i].0 > 0
  {
    assert order[i] in order;
  }

  /** If the walk passes, none of the entries it gets to had to be jailed. */
  lemma {:induction false} PassedEntries(s: StakingState, t: StakingState, reduction: Reduction, allowed: seq<Address>,
                                         order: seq<PowerKey>, max: nat, i: nat)
    requires ReadyToWalk(s, t, reduction, allowed, order) && WalkPasses(t, order, reduction, max)
    requires Reached(order, max, i)
    ensures !MustJail(allowed, order[i].1)
  {
    forall j | 0 <= j < i ensures Powerful(t.validators, t.byPower[order[j]], reduction) {
      PassedEntries(s, t, reduction, allowed, order, max, j);
      EntryAfterReset(s, t, reduction, allowed, order, j);
    }
    EntryAfterReset(s, t, reduction, allowed, order, i);
  }

  /** With a power index that was right, the walk after the reset passes exactly when none of the
      validators it gets to, the highest powers first and up to the maximum, had to be jailed. */
  lemma WalkPassesExactlyWhen(s: StakingState, t: StakingState, reduction: Reduction, allowed: seq<Address>,
                              order: seq<PowerKey>, max: nat)
    requires ReadyToWalk(s, t, reduction, allowed, order)
    ensures WalkPasses(t, order, reduction, max) <==>
      forall i: nat :: Reached(order, max, i) ==> !MustJail(allowed, order[i].1)
  {
    if WalkPasses(t, order, reduction, max) {
      forall i: nat | Reached(order, max, i) ensures !MustJail(allowed, order[i].1) {
        PassedEntries(s, t, reduction, allowed, order, max, i);
      }
    } else {
      var i :| 0 <= i < |order| && i < max && Bad(t.validators, t.byPower[order[i]]) &&
        forall j :: 0 <= j < i ==> Powerful(t.validators, t.byPower[order[j]], reduction);
      forall j | 0 <= j < i ensures order[j].0 > 0 {
        EntryAfterReset(s, t, reduction, allowed, order, j);
      }
      EntryAfterReset(s, t, reduction, allowed, order, i);
      assert Reached(order, max, i);
    }
  }

  /** Every validator the walk gets to, of those first in the order up to the maximum and up to one
      without power, is on the list. */
  ghost predicate AllReachedAllowed(order: seq<PowerKey>, max: nat, allowed: seq<Address>) {
    forall i :: 0 <= i < |order| && i < max && (forall j :: 0 <= j < i ==> order[j].0 > 0) ==> order[i].1 in allowed
  }

  /** The same in terms of the list: an empty one stops nothing, another must name them all. */
  lemma WalkPassesAllowed(s: StakingState, t: StakingState, reduction: Reduction, allowed: seq<Address>,
                          order: seq<PowerKey>, max: nat)
    requires ReadyToWalk(s, t, reduction, allowed, order)
    ensures WalkPasses(t, order, reduction, max) <==> allowed == [] || AllReachedAllowed(order, max, allowed)
  {
    WalkPassesExactlyWhen(s, t, reduction, allowed, order, max);
    forall i: nat
      ensures Reached(order, max, i) <==> i < |order| && i < max && forall j :: 0 <= j < i ==> order[j].0 > 0
    {
    }
  }

  /** Whatever the order among equal powers: if the index fits the maximum, omitting one validator
      that has power stops the walk. */
  lemma OmittedPowerStopsWalk(s: StakingState, t: StakingState, reduction: Reduction, allowed: seq<Address>,
                              order: seq<PowerKey>, max: nat, k: PowerKey)
    requires ReadyToWalk(s, t, reduction, allowed, order)
    requires |order| <= max && k in s.byPower && k.0 > 0 && MustJail(allowed, k.1)
    ensures !WalkPasses(t, order, reduction, max)
  {
    var i :| 0 <= i < |order| && order[i] == k;
    WalkPassesExactlyWhen(s, t, reduction, allowed, order, max);
    assert Reached(order, max, i);
  }

  class Exporter {
    const staking: StakingKeeper
    /** Validators whose `AfterValidatorCreated` hook fails, on which the export panics. */
    const hookRejects: set<Address>

    var communityPool: DecCoins
    var outstanding: map<Address, DecCoins>
    var redelegations: map<RedKey, Redelegation>
    var unbondings: map<UbdKey, Unbonding>
    var signingInfos: map<Address, SigningInfo>

    constructor (staking: StakingKeeper, hookRejects: set<Address>, communityPool: DecCoins,
                 outstanding: map<Address, DecCoins>, redelegations: map<RedKey, Redelegation>,
                 unbondings: map<UbdKey, Unbonding>, signingInfos: map<Address, SigningInfo>)
      ensures this.staking == staking && this.hookRejects == hookRejects
      ensures this.communityPool == communityPool && this.outstanding == outstanding
      ensures this.redelegations == redelegations && this.unbondings == unbondings
      ensures this.signingInfos == signingInfos
    {
      this.staking, this.hookRejects := staking, hookRejects;
      this.communityPool, this.outstanding := communityPool, outstanding;
      this.redelegations, this.unbondings, this.signingInfos := redelegations, unbondings, signingInfos;
    }

    /** Records are stored under their own keys. */
    ghost predicate Valid()
      reads this, staking
    {
      && SelfKeyed(staking.State())
      && (forall k :: k in redelegations ==> KeyOfRed(redelegations[k]) == k)
      && (forall k :: k in unbondings ==> KeyOfUbd(unbondings[k]) == k)
    }

    ghost function HeightsNow(): Heights
      reads this, staking
    {
      Heights(redelegations, unbondings, staking.validators, signingInfos)
    }

    /** Distribution's hook starts a validator's outstanding rewards afresh. */
    method AfterValidatorCreated(o: Address) returns (r: Outcome)
      modifies this`outstanding
      ensures r.Pass? <==> o !in hookRejects
      ensures r.Pass? ==> outstanding == old(outstanding)[o := map[]]
    {
      if o in hookRejects {
        return Fail(Panic("hook failed"));
      }
      outstanding := outstanding[o := map[]];
      return Pass;
    }

    /** Moves every validator's unwithdrawn rewards to the community pool: the pool and the
        outstanding rewards together stay the same, no validator has any rewards left, and rewards
        recorded for anybody else are untouched. */
    method ReinitializeValidators() returns (r: Outcome)
      modifies this`communityPool, this`outstanding
      ensures r.Pass? <==> staking.validators.Keys !! hookRejects
      ensures r.Pass? ==>
        Donated(old(communityPool), old(outstanding), communityPool, outstanding, staking.validators.Keys)
      ensures r.Pass? ==> forall d ::
        Amount(communityPool, d) + Outstanding(outstanding, d) == Amount(old(communityPool), d) + Outstanding(old(outstanding), d)
      ensures r.Pass? ==> forall o :: o in staking.validators && o in outstanding ==> outstanding[o] == map[]
      ensures r.Pass? ==> forall o :: o !in staking.validators ==>
        (o in outstanding <==> o in old(outstanding)) && (o in outstanding ==> outstanding[o] == old(outstanding)[o])
    {
      ghost var pool0, rewards0 := communityPool, outstanding;
      var rest := staking.validators.Keys;
      ghost var done := {};
      NothingDonated(pool0, rewards0);
      while rest != {}
        invariant done + rest == staking.validators.Keys && done !! rest
        invariant done !! hookRejects
        invariant Donated(pool0, rewards0, communityPool, outstanding, done)
      {
        var o :| o in rest;
        var scraps := Scraps(outstanding, o);
        DonateOne(pool0, rewards0, communityPool, outstanding, done, o, Plus(communityPool, scraps), outstanding[o := map[]]);
        communityPool := Plus(communityPool, scraps);
        r := AfterValidatorCreated(o);
        if r.Fail? {
          return;
        }
        rest := rest - {o};
        done := done + {o};
      }
      assert done == staking.validators.Keys;
      r := Pass;
    }

    /** Zeroes the creation heights of one record, entry by entry. */
    method ZeroEach(list: seq<Entry>) returns (entries: seq<Entry>)
      ensures entries == ZeroEntries(list)
    {
      entries := list;
      for i := 0 to |entries|
        invariant |entries| == |list|
        invariant forall j :: 0 <= j < i ==> entries[j] == ZeroEntry(list[j])
        invariant forall j :: i <= j < |list| ==> entries[j] == list[j]
      {
        entries := entries[i := entries[i].(creationHeight := 0)];
      }
    }

    method ResetRedelegations()
      requires Valid()
      modifies this`redelegations
      ensures RedelegationsReset(old(redelegations), redelegations)
    {
      var rest := redelegations.Keys;
      while rest != {}
        invariant rest <= old(redelegations).Keys == redelegations.Keys
        invariant forall k :: k in redelegations ==>
          redelegations[k] ==
          if k in rest then old(redelegations)[k]
          else old(redelegations)[k].(entries := ZeroEntries(old(redelegations)[k].entries))
      {
        var k :| k in rest;
        var red := redelegations[k];
        var entries := ZeroEach(red.entries);
        red := red.(entries := entries);
        redelegations := redelegations[KeyOfRed(red) := red];
        rest := rest - {k};
      }
    }

    method ResetUnbondings()
      requires Valid()
      modifies this`unbondings
      ensures UnbondingsReset(old(unbondings), unbondings)
    {
      var rest := unbondings.Keys;
      while rest != {}
        invariant rest <= old(unbondings).Keys == unbondings.Keys
        invariant forall k :: k in unbondings ==>
          unbondings[k] ==
          if k in rest then old(unbondings)[k]
          else old(unbondings)[k].(entries := ZeroEntries(old(unbondings)[k].entries))
      {
        var k :| k in rest;
        var ubd := unbondings[k];
        var entries := ZeroEach(ubd.entries);
        ubd := ubd.(entries := entries);
        unbondings := unbondings[KeyOfUbd(ubd) := ubd];
        rest := rest - {k};
      }
    }

    method ResetOne(v: Validator, o: Address, apply: bool, allowedMap: map<Address, bool>, ghost allowed: seq<Address>)
      returns (validator: Validator)
      requires apply <==> allowed != []
      requires o in allowedMap && allowedMap[o] <==> o in allowed
      ensures validator == ResetValidator(v, o, allowed)
    {
      validator := v.(unbondingHeight := 0);
      if apply && !(o in allowedMap && allowedMap[o]) {
        validator := validator.(jailed := true);
      }
    }

    /** Only the validator records are written; in particular not the power index. */
    method ResetValidators(apply: bool, allowedMap: map<Address, bool>, ghost allowed: seq<Address>)
      requires Valid()
      requires apply <==> allowed != []
      requires forall o :: o in allowedMap && allowedMap[o] <==> o in allowed
      modifies staking`validators
      ensures ValidatorsReset(old(staking.validators), staking.validators, allowed)
      ensures staking.validators.Keys == old(staking.validators).Keys
      ensures forall o :: o in staking.validators ==>
        staking.validators[o] == old(staking.validators)[o].(
          unbondingHeight := 0,
          jailed := if allowed == [] || o in allowed then old(staking.validators)[o].jailed else true)
    {
      var rest := staking.validators.Keys;
      while rest != {}
        invariant rest <= old(staking.validators).Keys == staking.validators.Keys
        invariant forall o :: o in staking.validators ==>
          staking.validators[o] ==
          if o in rest then old(staking.validators)[o]
          else ResetValidator(old(staking.validators)[o], o, allowed)
      {
        var o :| o in rest;
        var validator := ResetOne(staking.validators[o], o, apply, allowedMap, allowed);
        staking.SetValidator(validator);
        rest := rest - {o};
      }
    }

    method ResetSigningInfos()
      modifies this`signingInfos
      ensures SigningInfosReset(old(signingInfos), signingInfos)
    {
      var rest := signingInfos.Keys;
      while rest != {}
        invariant rest <= old(signingInfos).Keys == signingInfos.Keys
        invariant forall a :: a in signingInfos ==>
          signingInfos[a] ==
          if a in rest then old(signingInfos)[a] else old(signingInfos)[a].(startHeight := 0)
      {
        var a :| a in rest;
        signingInfos := signingInfos[a := signingInfos[a].(startHeight := 0)];
        rest := rest - {a};
      }
    }

    /** The allow list as a lookup table. An address that does not parse ends the process. */
    method AllowedMap(wellFormed: Address -> bool, allowed: seq<Address>) returns (r: Result<map<Address, bool>>)
      ensures r.Ok? <==> forall i :: 0 <= i < |allowed| ==> wellFormed(allowed[i])
      ensures r.Ok? ==> forall o :: o in r.value && r.value[o] <==> o in allowed
    {
      var allowedMap: map<Address, bool> := map[];
      for i := 0 to |allowed|
        invariant forall j :: 0 <= j < i ==> wellFormed(allowed[j])
        invariant forall o :: o in allowedMap ==> allowedMap[o]
        invariant forall o :: o in allowedMap <==> o in allowed[..i]
      {
        if !wellFormed(allowed[i]) {
          return Err(InvalidAddress);
        }
        allowedMap := allowedMap[allowed[i] := true];
      }
      return Ok(allowedMap);
    }

    /** The steps before the walk over the power index. */
    method ResetStores(allowed: seq<Address>, allowedMap: map<Address, bool>) returns (r: Outcome)
      requires Valid()
      requires forall o :: o in allowedMap && allowedMap[o] <==> o in allowed
      modifies this, staking`validators
      ensures signingInfos == old(signingInfos)
      ensures r.Pass? <==> old(staking.validators).Keys !! hookRejects
      ensures r.Pass? ==> RedelegationsReset(old(redelegations), redelegations)
      ensures r.Pass? ==> UnbondingsReset(old(unbondings), unbondings)
      ensures r.Pass? ==> ValidatorsReset(old(staking.validators), staking.validators, allowed)
      ensures r.Pass? ==>
        Donated(old(communityPool), old(outstanding), communityPool, outstanding, old(staking.validators).Keys)
    {
      r := ReinitializeValidators();
      if r.Pass? {
        ResetRedelegations();
        ResetUnbondings();
        ResetValidators(|allowed| > 0, allowedMap, allowed);
      }
    }

    ghost predicate Parses(wellFormed: Address -> bool, allowed: seq<Address>) {
      forall i :: 0 <= i < |allowed| ==> wellFormed(allowed[i])
    }

    /** The export's steps in their order. A bad allow list is noticed before anything is written. It
        completes exactly when the list parses, no hook fails and the walk over the power index,
        which comes after the jailing, passes: with an index that was right, when none of the
        validators the walk gets to had to be jailed. */
    method PrepForZeroHeightGenesis(wellFormed: Address -> bool, allowed: seq<Address>)
      returns (r: Outcome, ghost order: seq<PowerKey>)
      requires Valid()
      modifies this, staking`validators
      ensures !Parses(wellFormed, allowed) ==> r.Fail? && unchanged(this) && unchanged(staking)
      ensures !(old(staking.validators).Keys !! hookRejects) ==> r.Fail?
      ensures Parses(wellFormed, allowed) && old(staking.validators).Keys !! hookRejects ==>
        && Descending(order, staking.byPower)
        && ValidatorsReset(old(staking.validators), staking.validators, allowed)
        && (r.Pass? <==> WalkPasses(staking.State(), order, staking.reduction, staking.maxValidators))
      ensures Parses(wellFormed, allowed) && old(staking.validators).Keys !! hookRejects ==>
        old(PowerAgrees(staking.State(), staking.reduction)) ==>
        (r.Pass? <==> allowed == [] || AllReachedAllowed(order, staking.maxValidators, allowed))
      ensures old(PowerAgrees(staking.State(), staking.reduction)) && allowed == [] ==>
        (r.Pass? <==> old(staking.validators).Keys !! hookRejects)
      ensures r.Pass? ==> WasReset(old(HeightsNow()), HeightsNow(), allowed)
      ensures r.Pass? ==>
        Donated(old(communityPool), old(outstanding), communityPool, outstanding, old(staking.validators).Keys)
    {
      order := [];
      var allowedMap := AllowedMap(wellFormed, allowed);
      if allowedMap.Err? {
        return Fail(allowedMap.error), order;
      }
      r := ResetStores(allowed, allowedMap.value);
      if r.Fail? {
        return;
      }
      r, order := staking.ApplyAndReturnValidatorSetUpdates();
      if old(PowerAgrees(staking.State(), staking.reduction)) {
        WalkPassesAllowed(old(staking.State()), staking.State(), staking.reduction, allowed, order, staking.maxValidators);
      }
      if r.Pass? {
        ResetSigningInfos();
      }
    }
  }
}
