/** The second pass of the v47 upgrade (app/upgrade_v47.go, `fixValidator`): every validator gets
    the operator address its moniker stands for, its tokens, shares and the admin's stake are
    multiplied by 100, and the indexes are rewritten, one validator at a time, on the live store. */
module ValidatorFix {
  import opened Outcomes
  import opened Precision
  import opened FixedPoint
  import opened Coins
  import opened Staking

  /** What the pass reads but does not write. `table` maps the monikers "node1" to "node27" to
      their new operator addresses. */
  datatype Config = Config(
    admin: Address, devOperator: Address, reduction: Reduction, dropsCons: bool,
    hookRejects: set<Address>, table: map<string, Address>)

  /** The operator a validator ends up with; an unlisted moniker keeps its own. */
  function NewOperator(c: Config, v: Validator): Address {
    if v.moniker in c.table then c.table[v.moniker] else v.operator
  }

  /** Owner replaced, tokens and shares a hundredfold; nil fields stay nil. */
  function Scaled(c: Config, v: Validator): Validator {
    v.(owner := c.devOperator,
       tokens := if v.tokens.Some? then Some(v.tokens.value * MULTIPLIER) else None,
       shares := if v.shares.Some? then Some(v.shares.value.Mul(NewDec(MULTIPLIER))) else None)
  }

  function ScaledStake(stake: Stake): Stake {
    stake.(shares := if stake.shares.Some? then Some(stake.shares.value.Mul(NewDec(MULTIPLIER))) else None,
           amount := if stake.amount.Some? then Some(stake.amount.value * MULTIPLIER) else None)
  }

  function Migrated(c: Config, v: Validator): Validator {
    Scaled(c, v.(operator := NewOperator(c, v)))
  }

  function MigratedStake(c: Config, v: Validator, stake: Stake): Stake {
    ScaledStake(if v.moniker in c.table then stake.(validator := c.table[v.moniker]) else stake)
  }

  /** A validator's entries are taken out ... */
  function TakenOut(c: Config, s: StakingState, v: Validator): StakingState
    requires v.tokens.Some?
  {
    s.(validators := s.validators - {v.operator},
       byCons := ConsWithout(s.byCons, s.validators, v.operator, c.dropsCons),
       byPower := s.byPower - {KeyOf(v, c.reduction)},
       lastPower := s.lastPower - {v.operator})
  }

  /** ... and the migrated ones put in. */
  function PutIn(c: Config, s: StakingState, v: Validator, stake: Stake): StakingState
    requires v.tokens.Some? && v.cons.Some?
  {
    s.(validators := s.validators[v.operator := v],
       byCons := s.byCons[v.cons.value := v.operator],
       byPower := if v.jailed then s.byPower else s.byPower[KeyOf(v, c.reduction) := v.operator],
       stakes := s.stakes[(stake.staker, stake.validator) := stake],
       created := s.created + [v.operator])
  }

  function Rewritten(c: Config, s: StakingState, v: Validator, stake: Stake): StakingState
    requires v.tokens.Some? && v.cons.Some?
  {
    PutIn(c, TakenOut(c, s, v), Migrated(c, v), MigratedStake(c, v, stake))
  }

  predicate Rewritable(c: Config, s: StakingState, v: Validator) {
    (c.admin, v.operator) in s.stakes && v.tokens.Some? && v.cons.Some? && NewOperator(c, v) !in c.hookRejects
  }

  /** The store after the first i validators of the snapshot, if none of them fails. */
  function FixPrefix(c: Config, s: StakingState, vs: seq<Validator>, i: nat): Option<StakingState>
    requires i <= |vs|
    decreases i, 1
  {
    if i == 0 then Some(s) else FixLast(c, s, vs, i)
  }

  /** What the i-th visit makes of the store that the visits before it left. */
  function FixLast(c: Config, s: StakingState, vs: seq<Validator>, i: nat): Option<StakingState>
    requires 0 < i <= |vs|
    decreases i, 0
  {
    var before, v := FixPrefix(c, s, vs, i - 1), vs[i - 1];
    if before.Some? && Rewritable(c, before.value, v) then
      Some(Rewritten(c, before.value, v, before.value.stakes[(c.admin, v.operator)]))
    else None
  }

  /** The moniker switch. */
  method Rename(table: map<string, Address>, v: Validator, s: Stake) returns (validator: Validator, stake: Stake)
    ensures validator == v.(operator := if v.moniker in table then table[v.moniker] else v.operator)
    ensures stake == s.(validator := if v.moniker in table then table[v.moniker] else s.validator)
  {
    validator, stake := v, s;
    if v.moniker in table {
      validator := validator.(operator := table[v.moniker]);
      stake := stake.(validator := table[v.moniker]);
    }
  }

  ghost function ConfigOf(k: StakingKeeper, admin: Address, table: map<string, Address>): Config {
    Config(admin, k.devOperator, k.reduction, k.dropsCons, k.hookRejects, table)
  }

  method ScaleStake(s: Stake) returns (stake: Stake)
    ensures stake == ScaledStake(s)
  {
    stake := s;
    if stake.shares.Some? {
      stake := stake.(shares := Some(stake.shares.value.Mul(NewDec(MULTIPLIER))));
    }
    if stake.amount.Some? {
      stake := stake.(amount := Some(stake.amount.value * MULTIPLIER));
    }
  }

  method ScaleValidator(v: Validator) returns (validator: Validator)
    ensures validator == v.(
      tokens := if v.tokens.Some? then Some(v.tokens.value * MULTIPLIER) else None,
      shares := if v.shares.Some? then Some(v.shares.value.Mul(NewDec(MULTIPLIER))) else None)
  {
    validator := v;
    if validator.tokens.Some? {
      validator := validator.(tokens := Some(validator.tokens.value * MULTIPLIER));
    }
    if validator.shares.Some? {
      validator := validator.(shares := Some(validator.shares.value.Mul(NewDec(MULTIPLIER))));
    }
  }

  /** The first half of an iteration: the old entries go. */
  method TakeOut(k: StakingKeeper, ghost c: Config, validator: Validator) returns (r: Outcome)
    requires c.dropsCons == k.dropsCons && c.reduction == k.reduction
    modifies k
    ensures r.Pass? <==> validator.tokens.Some?
    ensures r.Pass? ==> k.State() == TakenOut(c, old(k.State()), validator)
  {
    k.RemoveValidatorKeys(validator.operator);
    k.DeleteLastValidatorPower(validator.operator);
    r := k.DeleteValidatorByPowerIndex(validator);
  }

  /** The second half, for the renamed validator and stake: scale, and write the new entries. */
  method PutBack(k: StakingKeeper, ghost c: Config, v: Validator, s: Stake) returns (r: Outcome)
    requires c.devOperator == k.devOperator && c.reduction == k.reduction && v.tokens.Some?
    modifies k
    ensures r.Pass? <==> v.cons.Some? && v.operator !in k.hookRejects
    ensures r.Pass? ==> k.State() == PutIn(c, old(k.State()), Scaled(c, v), ScaledStake(s))
  {
    var stake := ScaleStake(s);
    k.SetStake(stake);
    var validator := v.(owner := k.devOperator);
    r := k.SetValidatorByConsAddr(validator);
    if r.Fail? {
      return;
    }
    validator := ScaleValidator(validator);
    k.SetValidator(validator);
    k.SetValidatorByPowerIndex(validator);
    r := k.AfterValidatorCreated(validator.operator);
  }

  /** One iteration of the loop, in the source's order. */
  method FixOne(k: StakingKeeper, ghost c: Config, admin: Address, table: map<string, Address>, v: Validator)
    returns (r: Outcome)
    requires c == ConfigOf(k, admin, table)
    modifies k
    ensures r.Pass? <==> Rewritable(c, old(k.State()), v)
    ensures r.Pass? ==> k.State() == Rewritten(c, old(k.State()), v, old(k.stakes)[(admin, v.operator)])
  {
    var found := k.GetStake(admin, v.operator);
    if found.None? {
      return Fail(NotFound);
    }
    r := TakeOut(k, c, v);
    if r.Fail? {
      return;
    }
    var validator, stake := Rename(table, v, found.value);
    r := PutBack(k, c, validator, stake);
  }

  lemma FixNext(c: Config, s: StakingState, vs: seq<Validator>, i: nat, t: StakingState)
    requires i < |vs| && FixPrefix(c, s, vs, i) == Some(t)
    ensures FixPrefix(c, s, vs, i + 1) ==
      if Rewritable(c, t, vs[i]) then Some(Rewritten(c, t, vs[i], t.stakes[(c.admin, vs[i].operator)])) else None
  {
  }

  method FixAt(k: StakingKeeper, ghost c: Config, admin: Address, table: map<string, Address>,
               validators: seq<Validator>, i: nat, ghost s: StakingState) returns (r: Outcome)
    requires c == ConfigOf(k, admin, table) && i < |validators|
    requires FixPrefix(c, s, validators, i) == Some(k.State())
    modifies k
    ensures FixPrefix(c, s, validators, i + 1) == if r.Pass? then Some(k.State()) else None
  {
    FixNext(c, s, validators, i, k.State());
    r := FixOne(k, c, admin, table, validators[i]);
  }

  method FixEach(k: StakingKeeper, ghost c: Config, admin: Address, table: map<string, Address>, validators: seq<Validator>)
    returns (r: Outcome)
    requires c == ConfigOf(k, admin, table)
    modifies k
    ensures FixPrefix(c, old(k.State()), validators, |validators|) == if r.Pass? then Some(k.State()) else None
  {
    ghost var s, t := k.State(), FixPrefix(c, k.State(), validators, 0);
    var i := 0;
    while i < |validators|
      invariant 0 <= i <= |validators|
      invariant t == FixPrefix(c, s, validators, i) && t == Some(k.State())
    {
      r := FixAt(k, c, admin, table, validators, i, s);
      t := FixPrefix(c, s, validators, i + 1);
      if r.Fail? {
        FixStopped(c, s, validators, i + 1, |validators|);
        return;
      }
      i := i + 1;
    }
    r := Pass;
  }

  /** The whole second pass, on the snapshot taken at its start. */
  method FixValidator(k: StakingKeeper, table: map<string, Address>) returns (r: Outcome, ghost list: seq<Validator>)
    requires SelfKeyed(k.State())
    modifies k
    ensures k.admin.None? ==> r.Fail?
    ensures k.admin.Some? ==> Snapshot(list, old(k.validators))
    ensures k.admin.Some? ==>
      (r.Pass? <==> FixPrefix(ConfigOf(k, k.admin.value, table), old(k.State()), list, |list|).Some?)
    ensures r.Pass? ==>
      FixPrefix(ConfigOf(k, k.admin.value, table), old(k.State()), list, |list|) == Some(k.State())
  {
    list := [];
    if k.admin.None? {
      return Fail(NotFound), list;
    }
    var validators := k.GetAllValidators();
    list := validators;
    r := FixEach(k, ConfigOf(k, k.admin.value, table), k.admin.value, table, validators);
  }

  /** A failed iteration ends the pass. */
  lemma {:induction false} FixStopped(c: Config, s: StakingState, vs: seq<Validator>, i: nat, j: nat)
    requires i <= j <= |vs| && FixPrefix(c, s, vs, i).None?
    ensures FixPrefix(c, s, vs, j).None?
    decreases j
  {
    if i < j {
      FixStopped(c, s, vs, i, j - 1);
    }
  }
}
