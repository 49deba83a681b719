/** The store after the second pass of the v47 upgrade, field by field and index by index, for a pass
    that went through without a clash. */
module MigratedStore {
  import opened Outcomes
  import opened Precision
  import opened FixedPoint
  import opened Coins
  import opened Staking
  import opened ValidatorFix
  import opened ValidatorMigration

  /** The second pass went through on a well-kept store. */
  ghost predicate PassedCleanly(c: Config, s: StakingState, vs: seq<Validator>, t: StakingState) {
    && Snapshot(vs, s.validators) && SelfKeyed(s) && NoClash(c, vs)
    && FixPrefix(c, s, vs, |vs|) == Some(t)
  }

  lemma ScaledExactly(c: Config, v: Validator)
    ensures Scaled(c, v).tokens == if v.tokens.Some? then Some(100 * v.tokens.value) else None
    ensures Scaled(c, v).shares == if v.shares.Some? then Some(Dec(100 * v.shares.value.raw)) else None
  {
    if v.shares.Some? {
      MulByWholeIsExact(v.shares.value, MULTIPLIER);
    }
  }

  lemma StakeScaledExactly(stake: Stake)
    ensures ScaledStake(stake).shares == if stake.shares.Some? then Some(Dec(100 * stake.shares.value.raw)) else None
    ensures ScaledStake(stake).amount == if stake.amount.Some? then Some(100 * stake.amount.value) else None
  {
    if stake.shares.Some? {
      MulByWholeIsExact(stake.shares.value, MULTIPLIER);
    }
  }

  lemma Relocated(c: Config, s: StakingState, vs: seq<Validator>, t: StakingState, j: nat)
    requires PassedCleanly(c, s, vs, t) && j < |vs|
    ensures NewOperator(c, vs[j]) in t.validators && t.validators[NewOperator(c, vs[j])] == Migrated(c, vs[j])
  {
    NoClashIsOneToOne(c, s, vs, t);
  }

  /** A validator is found under the operator that the table has for its moniker, or under its own if
      there is none, with tokens and shares a hundredfold, owned by the dev operator, and the same
      in every other field; nil fields stay nil. */
  lemma ValidatorAfterPass(c: Config, s: StakingState, vs: seq<Validator>, t: StakingState, j: nat, o: Address)
    requires PassedCleanly(c, s, vs, t) && j < |vs|
    requires o == if vs[j].moniker in c.table then c.table[vs[j].moniker] else vs[j].operator
    ensures o in t.validators
    ensures var v, w := vs[j], t.validators[o];
      && w == Validator(o, v.cons, v.moniker, v.jailed, v.status, w.tokens, w.shares, c.devOperator,
                        v.unbondingHeight, v.rest)
      && w.tokens == (if v.tokens.Some? then Some(100 * v.tokens.value) else None)
      && w.shares == (if v.shares.Some? then Some(Dec(100 * v.shares.value.raw)) else None)
  {
    Relocated(c, s, vs, t, j);
    ScaledExactly(c, vs[j].(operator := o));
  }

  /** So is the admin's stake in it: shares and amount a hundredfold, staker and the rest the same. */
  lemma StakeAfterPass(c: Config, s: StakingState, vs: seq<Validator>, t: StakingState, j: nat, o: Address)
    requires PassedCleanly(c, s, vs, t) && j < |vs|
    requires o == if vs[j].moniker in c.table then c.table[vs[j].moniker] else vs[j].operator
    ensures (c.admin, vs[j].operator) in s.stakes && (c.admin, o) in t.stakes
    ensures var x, y := s.stakes[(c.admin, vs[j].operator)], t.stakes[(c.admin, o)];
      && y == Stake(c.admin, o, y.shares, y.amount, x.rest)
      && y.shares == (if x.shares.Some? then Some(Dec(100 * x.shares.value.raw)) else None)
      && y.amount == (if x.amount.Some? then Some(100 * x.amount.value) else None)
  {
    TakenStakeIsMigrated(c, s, vs, j, t);
    var x := s.stakes[(c.admin, vs[j].operator)];
    StakeScaledExactly(x.(validator := o));
  }

  /** Nobody else's stakes change, and none is added. */
  lemma OtherStakesAfterPass(c: Config, s: StakingState, vs: seq<Validator>, t: StakingState, k: (Address, Address))
    requires PassedCleanly(c, s, vs, t) && k.0 != c.admin
    ensures k in t.stakes <==> k in s.stakes
    ensures k in s.stakes ==> t.stakes[k] == s.stakes[k]
  {
    StakesFollow(c, s, vs, |vs|);
  }

  lemma FromBefore(c: Config, vs: seq<Validator>, m: map<Address, Validator>, o: Address)
    requires OneToOne(c, vs, m) && o in m
    ensures exists j :: 0 <= j < |vs| && o == if vs[j].moniker in c.table then c.table[vs[j].moniker] else vs[j].operator
  {
    var j :| 0 <= j < |vs| && NewOperator(c, vs[j]) == o;
    assert o == if vs[j].moniker in c.table then c.table[vs[j].moniker] else vs[j].operator;
  }

  /** Every validator found afterwards comes from one of before. */
  lemma NobodyElseAfterPass(c: Config, s: StakingState, vs: seq<Validator>, t: StakingState, o: Address)
    requires PassedCleanly(c, s, vs, t) && o in t.validators
    ensures exists j :: 0 <= j < |vs| && o == if vs[j].moniker in c.table then c.table[vs[j].moniker] else vs[j].operator
  {
    NoClashIsOneToOne(c, s, vs, t);
    FromBefore(c, vs, t.validators, o);
  }

  lemma IndexedOnce(s: StakingState, reduction: Reduction, o: Address)
    requires ConsAgrees(s) && PowerAgrees(s, reduction) && o in s.validators
    requires s.validators[o].cons.Some? && s.validators[o].tokens.Some?
    ensures var v := s.validators[o];
      && v.cons.value in s.byCons && s.byCons[v.cons.value] == o
      && (forall p :: (p, o) in s.byPower <==> !v.jailed && p == v.tokens.value / reduction)
  {
  }

  /** The power index has one entry for each validator that is not jailed, at the power of a
      hundredfold tokens, and none for the others; the consensus address leads to the new operator. */
  lemma IndexesAfterPass(c: Config, s: StakingState, vs: seq<Validator>, t: StakingState, j: nat, o: Address)
    requires PassedCleanly(c, s, vs, t) && ConsAgrees(s) && PowerAgrees(s, c.reduction) && j < |vs|
    requires o == if vs[j].moniker in c.table then c.table[vs[j].moniker] else vs[j].operator
    ensures vs[j].tokens.Some? && vs[j].cons.Some?
    ensures vs[j].cons.value in t.byCons && t.byCons[vs[j].cons.value] == o
    ensures forall p :: (p, o) in t.byPower <==> !vs[j].jailed && p == 100 * vs[j].tokens.value / c.reduction
  {
    RewritableEach(c, s, vs, j, |vs|);
    IndexesAgree(c, s, vs, |vs|, t);
    ValidatorAfterPass(c, s, vs, t, j, o);
    IndexedOnce(t, c.reduction, o);
  }

  lemma HooksOfEach(c: Config, vs: seq<Validator>, j: nat, lastPower: map<Address, int>, created: seq<Address>, s: StakingState)
    requires j < |vs| && lastPower == s.lastPower - OldOperators(vs[..|vs|])
    requires created == s.created + NewOperators(c, vs[..|vs|])
    ensures vs[j].operator !in lastPower
    ensures |created| == |s.created| + |vs| && created[|s.created| + j] == NewOperator(c, vs[j])
  {
    assert vs[..|vs|] == vs && vs[j] in vs;
  }

  /** The power in the last block is forgotten, and the new operator is announced to the hooks in the
      validator's turn. */
  lemma HooksAfterPass(c: Config, s: StakingState, vs: seq<Validator>, t: StakingState, j: nat, o: Address)
    requires FixPrefix(c, s, vs, |vs|) == Some(t) && j < |vs|
    requires o == if vs[j].moniker in c.table then c.table[vs[j].moniker] else vs[j].operator
    ensures vs[j].operator !in t.lastPower
    ensures |t.created| == |s.created| + |vs| && t.created[|s.created| + j] == o
  {
    PowersAndHooks(c, s, vs, |vs|, t);
    HooksOfEach(c, vs, j, t.lastPower, t.created, s);
  }
}
