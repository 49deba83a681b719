/** Contract of the chain's staking keeper, as far as the v47 upgrade and the genesis export use
    it: validators by operator, the index by consensus address, the index by power of the validators
    that are not jailed, the powers of the last block, and the stakes. */
module Staking {
  import opened Outcomes
  import opened FixedPoint
  import opened Coins

  datatype BondStatus = Unbonded | Unbonding | Bonded

  /** `tokens` and `shares` may be nil, and `cons` may fail to unpack; `rest` stands for the fields
      that nothing here touches. */
  datatype Validator = Validator(
    operator: Address,
    cons: Option<Address>,
    moniker: string,
    jailed: bool,
    status: BondStatus,
    tokens: Option<nat>,
    shares: Option<Dec>,
    owner: Address,
    unbondingHeight: int,
    rest: string)

  datatype Stake = Stake(staker: Address, validator: Address, shares: Option<Dec>, amount: Option<int>, rest: string)

  type PowerKey = (int, Address)

  datatype StakingState = StakingState(
    validators: map<Address, Validator>,
    byCons: map<Address, Address>,
    byPower: map<PowerKey, Address>,
    lastPower: map<Address, int>,
    stakes: map<(Address, Address), Stake>,
    created: seq<Address>)

  type Reduction = x: int | x > 0 witness 1

  /** `TokensToConsensusPower`, by which the power index is keyed. */
  function Power(v: Validator, reduction: Reduction): int
    requires v.tokens.Some?
  {
    v.tokens.value / reduction
  }

  function KeyOf(v: Validator, reduction: Reduction): PowerKey
    requires v.tokens.Some?
  {
    (Power(v, reduction), v.operator)
  }

  ghost predicate SelfKeyed(s: StakingState) {
    && (forall o :: o in s.validators ==> s.validators[o].operator == o)
    && (forall k :: k in s.stakes ==> (s.stakes[k].staker, s.stakes[k].validator) == k)
  }

  /** The consensus-address index lists every validator that has such an address, and no other. */
  ghost predicate ConsAgrees(s: StakingState) {
    && (forall x :: x in s.byCons ==> s.byCons[x] in s.validators && s.validators[s.byCons[x]].cons == Some(x))
    && (forall o :: o in s.validators && s.validators[o].cons.Some? ==>
          s.validators[o].cons.value in s.byCons && s.byCons[s.validators[o].cons.value] == o)
  }

  /** The power index lists exactly the validators that are not jailed, each at its power. */
  ghost predicate PowerAgrees(s: StakingState, reduction: Reduction) {
    && (forall k :: k in s.byPower ==>
          && s.byPower[k] == k.1 && k.1 in s.validators && !s.validators[k.1].jailed
          && s.validators[k.1].tokens.Some? && k.0 == Power(s.validators[k.1], reduction))
    && (forall o :: o in s.validators && !s.validators[o].jailed && s.validators[o].tokens.Some? ==>
          (Power(s.validators[o], reduction), o) in s.byPower)
  }

  /** `list` holds every validator exactly once, in some order. */
  ghost predicate Snapshot(list: seq<Validator>, validators: map<Address, Validator>) {
    && (forall i :: 0 <= i < |list| ==> list[i].operator in validators && validators[list[i].operator] == list[i])
    && (forall i, j :: 0 <= i < j < |list| ==> list[i].operator != list[j].operator)
    && (forall o :: o in validators ==> exists i :: 0 <= i < |list| && list[i].operator == o)
  }

  /** The consensus index once a validator's keys are removed. */
  function ConsWithout(byCons: map<Address, Address>, validators: map<Address, Validator>, o: Address, drops: bool):
    map<Address, Address>
  {
    if drops && o in validators && validators[o].cons.Some? then byCons - {validators[o].cons.value} else byCons
  }

  // Walking the power index.

  /** The keys of the power index, the highest power first; equal powers in whatever order. */
  ghost predicate Descending(order: seq<PowerKey>, byPower: map<PowerKey, Address>) {
    && (forall k :: k in byPower <==> k in order)
    && (forall i, j :: 0 <= i < j < |order| ==> order[i] != order[j] && order[i].0 >= order[j].0)
  }

  /** An entry the walk panics on: of a validator that is missing or jailed, or has nil tokens. */
  predicate Bad(validators: map<Address, Validator>, o: Address) {
    o !in validators || validators[o].jailed || validators[o].tokens.None?
  }

  /** An entry after which the walk goes on. */
  predicate Powerful(validators: map<Address, Validator>, o: Address, reduction: Reduction) {
    !Bad(validators, o) && Power(validators[o], reduction) > 0
  }

  /** The walk looks at no more than the maximum of entries and ends at the first without power. It
      passes if it meets no bad entry until then. */
  ghost predicate WalkPasses(s: StakingState, order: seq<PowerKey>, reduction: Reduction, max: nat)
    requires forall k :: k in order ==> k in s.byPower
  {
    forall i :: 0 <= i < |order| && i < max ==>
      (forall j :: 0 <= j < i ==> Powerful(s.validators, s.byPower[order[j]], reduction)) ==>
      !Bad(s.validators, s.byPower[order[i]])
  }

  lemma {:induction false} HighestExists(keys: set<PowerKey>)
    requires keys != {}
    ensures exists k :: k in keys && forall j :: j in keys ==> j.0 <= k.0
  {
    var k :| k in keys;
    if keys - {k} == {} {
      assert keys == {k};
    } else {
      HighestExists(keys - {k});
      var h :| h in keys - {k} && forall j :: j in keys - {k} ==> j.0 <= h.0;
      var top := if h.0 < k.0 then k else h;
      assert top in keys && forall j :: j in keys ==> j.0 <= top.0;
    }
  }

  class StakingKeeper {
    const admin: Option<Address>
    const devOperator: Address
    const reduction: Reduction
    const maxValidators: nat
    /** `RemoveValidatorKeys` lives outside the repository. Whether it also drops the consensus
        index entry is left open; results hold for both readings unless they fix one. */
    const dropsCons: bool
    /** New operators for which an `AfterValidatorCreated` hook returns an error. */
    const hookRejects: set<Address>

    var validators: map<Address, Validator>
    var byCons: map<Address, Address>
    var byPower: map<PowerKey, Address>
    var lastPower: map<Address, int>
    var stakes: map<(Address, Address), Stake>
    var created: seq<Address>

    constructor (admin: Option<Address>, devOperator: Address, reduction: Reduction, maxValidators: nat,
                 dropsCons: bool, hookRejects: set<Address>, s: StakingState)
      ensures State() == s && this.admin == admin && this.devOperator == devOperator
      ensures this.reduction == reduction && this.maxValidators == maxValidators
      ensures this.dropsCons == dropsCons && this.hookRejects == hookRejects
    {
      this.admin, this.devOperator, this.reduction := admin, devOperator, reduction;
      this.maxValidators, this.dropsCons, this.hookRejects := maxValidators, dropsCons, hookRejects;
      validators, byCons, byPower := s.validators, s.byCons, s.byPower;
      lastPower, stakes, created := s.lastPower, s.stakes, s.created;
    }

    ghost function State(): StakingState
      reads this
    {
      StakingState(validators, byCons, byPower, lastPower, stakes, created)
    }

    /** A snapshot of all validators, in whatever order the store yields them. */
    method GetAllValidators() returns (list: seq<Validator>)
      requires SelfKeyed(State())
      ensures Snapshot(list, validators)
    {
      list := [];
      var rest := validators.Keys;
      while rest != {}
        invariant rest <= validators.Keys
        invariant forall i :: 0 <= i < |list| ==>
          list[i].operator in validators && list[i].operator !in rest && validators[list[i].operator] == list[i]
        invariant forall i, j :: 0 <= i < j < |list| ==> list[i].operator != list[j].operator
        invariant forall o :: o in validators ==> o in rest || exists i :: 0 <= i < |list| && list[i].operator == o
      {
        var o :| o in rest;
        var longer := list + [validators[o]];
        forall p | p in validators ensures p in rest - {o} || exists i :: 0 <= i < |longer| && longer[i].operator == p {
          if p == o {
            assert longer[|list|].operator == p;
          } else if p !in rest {
            var i :| 0 <= i < |list| && list[i].operator == p;
            assert longer[i].operator == p;
          }
        }
        list := longer;
        rest := rest - {o};
      }
    }

    method RemoveValidatorKeys(o: Address)
      modifies this`validators, this`byCons
      ensures validators == old(validators) - {o}
      ensures byCons == ConsWithout(old(byCons), old(validators), o, dropsCons)
    {
      if dropsCons && o in validators && validators[o].cons.Some? {
        byCons := byCons - {validators[o].cons.value};
      }
      validators := validators - {o};
    }

    method DeleteLastValidatorPower(o: Address)
      modifies this`lastPower
      ensures lastPower == old(lastPower) - {o}
    {
      lastPower := lastPower - {o};
    }

    /** Nil tokens make the key computation panic. */
    method DeleteValidatorByPowerIndex(v: Validator) returns (r: Outcome)
      modifies this`byPower
      ensures r.Pass? <==> v.tokens.Some?
      ensures r.Pass? ==> byPower == old(byPower) - {KeyOf(v, reduction)}
    {
      if v.tokens.None? {
        return Fail(Panic("nil tokens"));
      }
      byPower := byPower - {KeyOf(v, reduction)};
      return Pass;
    }

    /** A jailed validator is not put into the power index. */
    method SetValidatorByPowerIndex(v: Validator)
      requires v.tokens.Some?
      modifies this`byPower
      ensures byPower == if v.jailed then old(byPower) else old(byPower)[KeyOf(v, reduction) := v.operator]
    {
      if v.jailed {
        return;
      }
      byPower := byPower[KeyOf(v, reduction) := v.operator];
    }

    method SetValidator(v: Validator)
      modifies this`validators
      ensures validators == old(validators)[v.operator := v]
    {
      validators := validators[v.operator := v];
    }

    method SetValidatorByConsAddr(v: Validator) returns (r: Outcome)
      modifies this`byCons
      ensures r.Pass? <==> v.cons.Some?
      ensures r.Pass? ==> byCons == old(byCons)[v.cons.value := v.operator]
    {
      if v.cons.None? {
        return Fail(NotFound);
      }
      byCons := byCons[v.cons.value := v.operator];
      return Pass;
    }

    method GetStake(staker: Address, o: Address) returns (stake: Option<Stake>)
      ensures stake == if (staker, o) in stakes then Some(stakes[(staker, o)]) else None
    {
      stake := if (staker, o) in stakes then Some(stakes[(staker, o)]) else None;
    }

    method SetStake(stake: Stake)
      modifies this`stakes
      ensures stakes == old(stakes)[(stake.staker, stake.validator) := stake]
    {
      stakes := stakes[(stake.staker, stake.validator) := stake];
    }

    method AfterValidatorCreated(o: Address) returns (r: Outcome)
      modifies this`created
      ensures r.Pass? <==> o !in hookRejects
      ensures r.Pass? ==> created == old(created) + [o]
    {
      if o in hookRejects {
        return Fail(NotFound);
      }
      created := created + [o];
      return Pass;
    }

    /** The store's iterator over the power index. */
    method PowersDescending() returns (order: seq<PowerKey>)
      ensures Descending(order, byPower)
    {
      order := [];
      var rest := byPower.Keys;
      while rest != {}
        invariant rest <= byPower.Keys
        invariant forall k :: k in byPower <==> k in rest || k in order
        invariant forall i :: 0 <= i < |order| ==> order[i] !in rest
        invariant forall i, k :: 0 <= i < |order| && k in rest ==> k.0 <= order[i].0
        invariant forall i, j :: 0 <= i < j < |order| ==> order[i] != order[j] && order[i].0 >= order[j].0
      {
        HighestExists(rest);
        var k :| k in rest && forall j :: j in rest ==> j.0 <= k.0;
        order := order + [k];
        rest := rest - {k};
      }
    }

    /** The part of the validator set update that can stop it: the walk over the power index, which
        panics on a jailed validator. It returns the order of the walk; the changes made on the way
        are not modelled. */
    method ApplyAndReturnValidatorSetUpdates() returns (r: Outcome, order: seq<PowerKey>)
      ensures Descending(order, byPower)
      ensures r.Pass? <==> WalkPasses(State(), order, reduction, maxValidators)
    {
      order := PowersDescending();
      var count := 0;
      while count < |order| && count < maxValidators
        invariant 0 <= count <= |order|
        invariant forall j :: 0 <= j < count ==> Powerful(validators, byPower[order[j]], reduction)
      {
        assert order[count] in order;
        var o := byPower[order[count]];
        if Bad(validators, o) {
          return Fail(Panic("should never retrieve a jailed validator from the power store")), order;
        }
        if Power(validators[o], reduction) == 0 {
          assert !Powerful(validators, byPower[order[count]], reduction);
          break;
        }
        count := count + 1;
      }
      r := Pass;
    }
  }
}
