/** What the second pass of the v47 upgrade achieves, for every snapshot order: when it re-keys the
    validators one to one, and that then the indexes, stakes and token sums follow. */
module ValidatorMigration {
  import opened Outcomes
  import opened Precision
  import opened FixedPoint
  import opened Coins
  import opened Sums
  import opened Staking
  import opened ValidatorFix

  /** No two validators get the same operator, and nobody gets the operator of one that is still to
      come. Taking over the old operator of one already visited is harmless. */
  ghost predicate NoClash(c: Config, vs: seq<Validator>) {
    forall i, j :: 0 <= i < j < |vs| ==>
      NewOperator(c, vs[i]) != NewOperator(c, vs[j]) && NewOperator(c, vs[i]) != vs[j].operator
  }

  /** Every validator is stored, migrated, under its new operator, and nothing else is. */
  ghost predicate OneToOne(c: Config, vs: seq<Validator>, m: map<Address, Validator>) {
    && (forall j :: 0 <= j < |vs| ==> NewOperator(c, vs[j]) in m && m[NewOperator(c, vs[j])] == Migrated(c, vs[j]))
    && (forall o :: o in m ==> exists j :: 0 <= j < |vs| && NewOperator(c, vs[j]) == o)
  }

  // Half-way through, the first i validators are migrated and the rest are not.

  function Operators(vs: seq<Validator>): seq<Address> {
    seq(|vs|, j requires 0 <= j < |vs| => vs[j].operator)
  }

  function KeysAt(c: Config, vs: seq<Validator>, i: nat): seq<Address>
    requires i <= |vs|
    ensures |KeysAt(c, vs, i)| == |vs|
  {
    if i == 0 then Operators(vs) else KeysAt(c, vs, i - 1)[i - 1 := NewOperator(c, vs[i - 1])]
  }

  function ValuesAt(c: Config, vs: seq<Validator>, i: nat): seq<Validator>
    requires i <= |vs|
    ensures |ValuesAt(c, vs, i)| == |vs|
  {
    if i == 0 then vs else ValuesAt(c, vs, i - 1)[i - 1 := Migrated(c, vs[i - 1])]
  }

  lemma {:induction false} EntryAt(c: Config, vs: seq<Validator>, i: nat, j: nat)
    requires i <= |vs| && j < |vs|
    ensures KeysAt(c, vs, i)[j] == if j < i then NewOperator(c, vs[j]) else vs[j].operator
    ensures ValuesAt(c, vs, i)[j] == if j < i then Migrated(c, vs[j]) else vs[j]
  {
    if i > 0 {
      EntryAt(c, vs, i - 1, j);
    }
  }

  lemma SnapshotLists(c: Config, vs: seq<Validator>, m: map<Address, Validator>)
    requires Snapshot(vs, m)
    ensures Lists(m, KeysAt(c, vs, 0), ValuesAt(c, vs, 0))
  {
  }

  lemma ListsOneMore(c: Config, s0: StakingState, vs: seq<Validator>, i: nat, m: map<Address, Validator>)
    requires Snapshot(vs, s0.validators) && NoClash(c, vs) && i < |vs|
    requires Lists(m, KeysAt(c, vs, i), ValuesAt(c, vs, i))
    ensures Lists((m - {vs[i].operator})[NewOperator(c, vs[i]) := Migrated(c, vs[i])],
                  KeysAt(c, vs, i + 1), ValuesAt(c, vs, i + 1))
  {
    var keys, k := KeysAt(c, vs, i), NewOperator(c, vs[i]);
    EntryAt(c, vs, i, i);
    forall j | 0 <= j < |keys| && j != i ensures keys[j] != k {
      EntryAt(c, vs, i, j);
    }
    Rekey(m, keys, ValuesAt(c, vs, i), i, k, Migrated(c, vs[i]));
  }

  lemma PrefixValidators(c: Config, s: StakingState, vs: seq<Validator>, i: nat)
    requires i < |vs| && FixPrefix(c, s, vs, i + 1).Some?
    ensures FixPrefix(c, s, vs, i).Some?
    ensures FixPrefix(c, s, vs, i + 1).value.validators ==
      (FixPrefix(c, s, vs, i).value.validators - {vs[i].operator})[NewOperator(c, vs[i]) := Migrated(c, vs[i])]
  {
  }

  lemma {:induction false} ListsRun(c: Config, s: StakingState, vs: seq<Validator>, i: nat,
                                     m: map<Address, Validator>, keys: seq<Address>, values: seq<Validator>)
    requires Snapshot(vs, s.validators) && NoClash(c, vs) && i <= |vs|
    requires FixPrefix(c, s, vs, i).Some? && m == FixPrefix(c, s, vs, i).value.validators
    requires keys == KeysAt(c, vs, i) && values == ValuesAt(c, vs, i)
    ensures Lists(m, keys, values)
  {
    if i == 0 {
      SnapshotLists(c, vs, s.validators);
    } else {
      var k := i - 1;
      PrefixValidators(c, s, vs, k);
      var m0 := FixPrefix(c, s, vs, k).value.validators;
      ListsRun(c, s, vs, k, m0, KeysAt(c, vs, k), ValuesAt(c, vs, k));
      ListsOneMore(c, s, vs, k, m0);
      assert m == (m0 - {vs[k].operator})[NewOperator(c, vs[k]) := Migrated(c, vs[k])];
    }
  }

  lemma ListedIsOneToOne(c: Config, vs: seq<Validator>, m: map<Address, Validator>, keys: seq<Address>, values: seq<Validator>)
    requires Lists(m, keys, values) && keys == KeysAt(c, vs, |vs|) && values == ValuesAt(c, vs, |vs|)
    ensures OneToOne(c, vs, m)
  {
    forall j | 0 <= j < |vs| ensures NewOperator(c, vs[j]) in m && m[NewOperator(c, vs[j])] == Migrated(c, vs[j]) {
      EntryAt(c, vs, |vs|, j);
      assert keys[j] in m;
    }
    forall o | o in m ensures exists j :: 0 <= j < |vs| && NewOperator(c, vs[j]) == o {
      var j :| 0 <= j < |keys| && keys[j] == o;
      EntryAt(c, vs, |vs|, j);
      assert NewOperator(c, vs[j]) == o;
    }
  }

  lemma NoClashIsOneToOne(c: Config, s: StakingState, vs: seq<Validator>, t: StakingState)
    requires Snapshot(vs, s.validators) && NoClash(c, vs) && FixPrefix(c, s, vs, |vs|) == Some(t)
    ensures OneToOne(c, vs, t.validators)
  {
    ListsRun(c, s, vs, |vs|, t.validators, KeysAt(c, vs, |vs|), ValuesAt(c, vs, |vs|));
    ListedIsOneToOne(c, vs, t.validators, KeysAt(c, vs, |vs|), ValuesAt(c, vs, |vs|));
  }

  /** A record deleted at step j and not rewritten later is missing at the end. */
  lemma {:induction false} StaysDeleted(c: Config, s: StakingState, vs: seq<Validator>, j: nat, k: nat, t: StakingState)
    requires j < k <= |vs| && FixPrefix(c, s, vs, k) == Some(t)
    requires forall n :: j <= n < k ==> NewOperator(c, vs[n]) != vs[j].operator
    ensures vs[j].operator !in t.validators
    decreases k
  {
    var t0 := FixPrefix(c, s, vs, k - 1).value;
    PrefixValidators(c, s, vs, k - 1);
    if j + 1 < k {
      StaysDeleted(c, s, vs, j, k - 1, t0);
    }
  }

  lemma OneToOneIsInjective(c: Config, s: StakingState, vs: seq<Validator>, m: map<Address, Validator>)
    requires Snapshot(vs, s.validators) && ConsAgrees(s) && OneToOne(c, vs, m)
    requires forall i :: 0 <= i < |vs| ==> vs[i].cons.Some?
    ensures forall i, j :: 0 <= i < j < |vs| ==> NewOperator(c, vs[i]) != NewOperator(c, vs[j])
  {
  }

  lemma AllReadable(c: Config, s: StakingState, vs: seq<Validator>)
    requires FixPrefix(c, s, vs, |vs|).Some?
    ensures forall i :: 0 <= i < |vs| ==> vs[i].cons.Some?
  {
    forall i | 0 <= i < |vs| ensures vs[i].cons.Some? {
      RewritableEach(c, s, vs, i, |vs|);
    }
  }

  lemma TakenOperatorIsLost(c: Config, s: StakingState, vs: seq<Validator>, i: nat, j: nat, t: StakingState)
    requires i < j < |vs| && FixPrefix(c, s, vs, |vs|) == Some(t)
    requires NewOperator(c, vs[i]) == vs[j].operator
    requires forall n :: j <= n < |vs| ==> NewOperator(c, vs[i]) != NewOperator(c, vs[n])
    ensures NewOperator(c, vs[i]) !in t.validators
  {
    StaysDeleted(c, s, vs, j, |vs|, t);
  }

  lemma KeptOperatorIsFree(c: Config, s: StakingState, vs: seq<Validator>, i: nat, j: nat, t: StakingState)
    requires i < j < |vs| && FixPrefix(c, s, vs, |vs|) == Some(t)
    requires forall k, n :: 0 <= k < n < |vs| ==> NewOperator(c, vs[k]) != NewOperator(c, vs[n])
    requires NewOperator(c, vs[i]) in t.validators
    ensures NewOperator(c, vs[i]) != vs[j].operator
  {
    if NewOperator(c, vs[i]) == vs[j].operator {
      TakenOperatorIsLost(c, s, vs, i, j, t);
    }
  }

  lemma OneToOneIsNoClash(c: Config, s: StakingState, vs: seq<Validator>, t: StakingState)
    requires Snapshot(vs, s.validators) && ConsAgrees(s)
    requires FixPrefix(c, s, vs, |vs|) == Some(t) && OneToOne(c, vs, t.validators)
    ensures NoClash(c, vs)
  {
    AllReadable(c, s, vs);
    OneToOneIsInjective(c, s, vs, t.validators);
    forall i, j | 0 <= i < j < |vs| ensures NewOperator(c, vs[i]) != vs[j].operator {
      KeptOperatorIsFree(c, s, vs, i, j, t);
    }
  }

  lemma {:induction false} RewritableEach(c: Config, s: StakingState, vs: seq<Validator>, j: nat, i: nat)
    requires j < i <= |vs| && FixPrefix(c, s, vs, i).Some?
    ensures FixPrefix(c, s, vs, j).Some? && Rewritable(c, FixPrefix(c, s, vs, j).value, vs[j])
    decreases i
  {
    if j + 1 < i {
      RewritableEach(c, s, vs, j, i - 1);
    }
  }

  /** A pass that goes through loses no validator, merges none and leaves none over exactly when the
      new operators do not clash in the order of the snapshot. */
  lemma OneToOneExactlyWhen(c: Config, s: StakingState, vs: seq<Validator>, t: StakingState)
    requires Snapshot(vs, s.validators) && ConsAgrees(s) && FixPrefix(c, s, vs, |vs|) == Some(t)
    ensures OneToOne(c, vs, t.validators) <==> NoClash(c, vs)
  {
    if NoClash(c, vs) {
      NoClashIsOneToOne(c, s, vs, t);
    } else if OneToOne(c, vs, t.validators) {
      OneToOneIsNoClash(c, s, vs, t);
    }
  }

  // What a clash can do: two validators, of which the first takes over the second's operator.

  predicate IsNode(v: Validator, tokens: nat) {
    v.cons.Some? && !v.jailed && v.tokens == Some(tokens)
  }

  function TwoNodes(a: Validator, b: Validator, x: Stake, y: Stake): StakingState
    requires IsNode(a, 7) && IsNode(b, 5)
  {
    StakingState(map[a.operator := a, b.operator := b], map[a.cons.value := a.operator, b.cons.value := b.operator],
                 map[(7, a.operator) := a.operator, (5, b.operator) := b.operator], map[],
                 map[(x.staker, a.operator) := x, (y.staker, b.operator) := y], [])
  }

  ghost predicate Clashing(c: Config, a: Validator, b: Validator, x: Stake, y: Stake) {
    && IsNode(a, 7) && IsNode(b, 5) && a.operator != b.operator && a.cons != b.cons
    && x.staker == y.staker == c.admin && x.validator == a.operator && y.validator == b.operator
    && c.reduction == 1 && c.hookRejects == {}
    && a.moniker in c.table && c.table[a.moniker] == b.operator
    && b.moniker in c.table && c.table[b.moniker] != a.operator && c.table[b.moniker] != b.operator
  }

  /** The store it happens to is well kept. */
  lemma TwoNodesWellKept(c: Config, a: Validator, b: Validator, x: Stake, y: Stake)
    requires Clashing(c, a, b, x, y)
    ensures var s := TwoNodes(a, b, x, y);
      SelfKeyed(s) && ConsAgrees(s) && PowerAgrees(s, 1) && Snapshot([a, b], s.validators) && !NoClash(c, [a, b])
  {
    var vs := [a, b];
    assert vs[0] == a && vs[1] == b && NewOperator(c, vs[0]) == vs[1].operator;
  }

  lemma FirstClashVisit(c: Config, s: StakingState, a: Validator, b: Validator, x: Stake, y: Stake, t: StakingState)
    requires Clashing(c, a, b, x, y) && s == TwoNodes(a, b, x, y) && t == Rewritten(c, s, a, x)
    ensures t.validators == map[b.operator := Migrated(c, a)]
    ensures (700, b.operator) in t.byPower && t.byPower[(700, b.operator)] == b.operator
    ensures (c.admin, b.operator) in t.stakes && t.stakes[(c.admin, b.operator)] == MigratedStake(c, a, x)
  {
  }

  lemma SecondClashVisit(c: Config, s: StakingState, a: Validator, b: Validator, x: Stake, y: Stake,
                         stake: Stake, t: StakingState)
    requires Clashing(c, a, b, x, y) && stake == MigratedStake(c, a, x) && t == Rewritten(c, s, b, stake)
    requires s.validators == map[b.operator := Migrated(c, a)]
    requires (700, b.operator) in s.byPower && s.byPower[(700, b.operator)] == b.operator
    ensures t.validators == map[c.table[b.moniker] := Migrated(c, b)] && !PowerAgrees(t, 1)
    ensures (c.admin, c.table[b.moniker]) in t.stakes
    ensures t.stakes[(c.admin, c.table[b.moniker])] == MigratedStake(c, b, stake)
  {
    assert (700, b.operator) in t.byPower && b.operator !in t.validators;
  }

  lemma TwoVisits(c: Config, s: StakingState, vs: seq<Validator>, t1: StakingState, t: StakingState)
    requires |vs| == 2 && Rewritable(c, s, vs[0]) && Rewritable(c, t1, vs[1])
    requires t1 == Rewritten(c, s, vs[0], s.stakes[(c.admin, vs[0].operator)])
    requires t == Rewritten(c, t1, vs[1], t1.stakes[(c.admin, vs[1].operator)])
    ensures FixPrefix(c, s, vs, 2) == Some(t)
  {
    FixNext(c, s, vs, 0, s);
    FixNext(c, s, vs, 1, t1);
  }

  /** A new operator that a later validator still holds, in that well-kept store: no error is raised, the
      first validator disappears, the power index goes wrong, and the second one's stake is lost. */
  lemma ClashLosesValidator(c: Config, a: Validator, b: Validator, x: Stake, y: Stake,
                            s: StakingState, t1: StakingState, t: StakingState)
    requires Clashing(c, a, b, x, y) && s == TwoNodes(a, b, x, y)
    requires t1 == Rewritten(c, s, a, x) && t == Rewritten(c, t1, b, MigratedStake(c, a, x))
    ensures FixPrefix(c, s, [a, b], 2) == Some(t)
    ensures t.validators == map[c.table[b.moniker] := Migrated(c, b)] && !PowerAgrees(t, 1)
    ensures (c.admin, c.table[b.moniker]) in t.stakes
    ensures t.stakes[(c.admin, c.table[b.moniker])] == MigratedStake(c, b, MigratedStake(c, a, x))
  {
    FirstClashVisit(c, s, a, b, x, y, t1);
    SecondClashVisit(c, t1, a, b, x, y, MigratedStake(c, a, x), t);
    TwoVisits(c, s, [a, b], t1, t);
  }

  /** The situation the upgrade is written for: listed monikers are distinct and stand for different
      operators that nobody had before. A validator whose moniker is not listed does no harm. */
  lemma PlannedUpgradeHasNoClash(c: Config, s: StakingState, vs: seq<Validator>)
    requires Snapshot(vs, s.validators)
    requires forall i, j :: 0 <= i < j < |vs| && vs[i].moniker in c.table ==> vs[i].moniker != vs[j].moniker
    requires forall i :: 0 <= i < |vs| && vs[i].moniker in c.table ==> c.table[vs[i].moniker] !in s.validators
    requires forall m, n :: m in c.table && n in c.table && c.table[m] == c.table[n] ==> m == n
    ensures NoClash(c, vs)
  {
  }

  // The secondary indexes.

  lemma ConsStep(c: Config, s: StakingState, v: Validator, stake: Stake)
    requires ConsAgrees(s) && v.operator in s.validators && s.validators[v.operator] == v
    requires NewOperator(c, v) == v.operator || NewOperator(c, v) !in s.validators
    requires v.tokens.Some? && v.cons.Some?
    ensures ConsAgrees(Rewritten(c, s, v, stake))
  {
  }

  lemma PowerStep(c: Config, s: StakingState, v: Validator, stake: Stake)
    requires PowerAgrees(s, c.reduction) && v.operator in s.validators && s.validators[v.operator] == v
    requires NewOperator(c, v) == v.operator || NewOperator(c, v) !in s.validators
    requires v.tokens.Some? && v.cons.Some?
    ensures PowerAgrees(Rewritten(c, s, v, stake), c.reduction)
  {
    var t := Rewritten(c, s, v, stake);
    forall k | k in t.byPower
      ensures t.byPower[k] == k.1 && k.1 in t.validators && !t.validators[k.1].jailed
      ensures t.validators[k.1].tokens.Some? && k.0 == Power(t.validators[k.1], c.reduction)
    {
      if !v.jailed && k == KeyOf(Migrated(c, v), c.reduction) {
      } else {
        assert k in s.byPower && k != KeyOf(v, c.reduction);
      }
    }
  }

  /** At its turn a validator is still stored as the snapshot has it, and its new operator is free. */
  lemma Turn(c: Config, s: StakingState, vs: seq<Validator>, i: nat)
    requires Snapshot(vs, s.validators) && NoClash(c, vs) && i < |vs| && FixPrefix(c, s, vs, i).Some?
    ensures var m := FixPrefix(c, s, vs, i).value.validators;
      && vs[i].operator in m && m[vs[i].operator] == vs[i]
      && (NewOperator(c, vs[i]) == vs[i].operator || NewOperator(c, vs[i]) !in m)
  {
    var m, keys := FixPrefix(c, s, vs, i).value.validators, KeysAt(c, vs, i);
    ListsRun(c, s, vs, i, m, keys, ValuesAt(c, vs, i));
    EntryAt(c, vs, i, i);
    assert keys[i] in m;
    if NewOperator(c, vs[i]) in m {
      var j :| 0 <= j < |keys| && keys[j] == NewOperator(c, vs[i]);
      EntryAt(c, vs, i, j);
    }
  }

  lemma {:induction false} ConsAgreesAlong(c: Config, s: StakingState, vs: seq<Validator>, i: nat, t: StakingState)
    requires Snapshot(vs, s.validators) && NoClash(c, vs) && i <= |vs| && FixPrefix(c, s, vs, i) == Some(t)
    requires ConsAgrees(s)
    ensures ConsAgrees(t)
  {
    if i > 0 {
      var k := i - 1;
      var t0 := FixPrefix(c, s, vs, k).value;
      ConsAgreesAlong(c, s, vs, k, t0);
      Turn(c, s, vs, k);
      FixNext(c, s, vs, k, t0);
      ConsStep(c, t0, vs[k], t0.stakes[(c.admin, vs[k].operator)]);
    }
  }

  lemma {:induction false} PowerAgreesAlong(c: Config, s: StakingState, vs: seq<Validator>, i: nat, t: StakingState)
    requires Snapshot(vs, s.validators) && NoClash(c, vs) && i <= |vs| && FixPrefix(c, s, vs, i) == Some(t)
    requires PowerAgrees(s, c.reduction)
    ensures PowerAgrees(t, c.reduction)
  {
    if i > 0 {
      var k := i - 1;
      var t0 := FixPrefix(c, s, vs, k).value;
      PowerAgreesAlong(c, s, vs, k, t0);
      Turn(c, s, vs, k);
      FixNext(c, s, vs, k, t0);
      PowerStep(c, t0, vs[k], t0.stakes[(c.admin, vs[k].operator)]);
    }
  }

  /** Without a clash both indexes agree with the validators after every iteration, and at the end. */
  lemma IndexesAgree(c: Config, s: StakingState, vs: seq<Validator>, i: nat, t: StakingState)
    requires Snapshot(vs, s.validators) && NoClash(c, vs) && i <= |vs| && FixPrefix(c, s, vs, i) == Some(t)
    requires ConsAgrees(s) && PowerAgrees(s, c.reduction)
    ensures ConsAgrees(t) && PowerAgrees(t, c.reduction)
  {
    ConsAgreesAlong(c, s, vs, i, t);
    PowerAgreesAlong(c, s, vs, i, t);
  }

  lemma PrefixCons(c: Config, s: StakingState, vs: seq<Validator>, i: nat, t: StakingState)
    requires i < |vs| && FixPrefix(c, s, vs, i + 1) == Some(t) && !c.dropsCons
    ensures FixPrefix(c, s, vs, i).Some? && vs[i].cons.Some?
    ensures t.byCons == FixPrefix(c, s, vs, i).value.byCons[vs[i].cons.value := NewOperator(c, vs[i])]
  {
  }

  ghost predicate ConsDistinct(vs: seq<Validator>) {
    forall i, j :: 0 <= i < j < |vs| && vs[i].cons.Some? ==> vs[i].cons != vs[j].cons
  }

  lemma ConsDiffer(s: StakingState, vs: seq<Validator>)
    requires Snapshot(vs, s.validators) && ConsAgrees(s)
    ensures ConsDistinct(vs)
  {
    forall i, j | 0 <= i < j < |vs| && vs[i].cons.Some? ensures vs[i].cons != vs[j].cons {
      assert vs[i].operator != vs[j].operator;
      assert s.byCons[vs[i].cons.value] == vs[i].operator;
    }
  }

  ghost predicate ConsEntry(c: Config, v: Validator, byCons: map<Address, Address>) {
    v.cons.Some? ==> v.cons.value in byCons && byCons[v.cons.value] == NewOperator(c, v)
  }

  lemma ConsEntryNext(c: Config, vs: seq<Validator>, i: nat, k: nat,
                      before: map<Address, Address>, after: map<Address, Address>)
    requires ConsDistinct(vs) && i <= k < |vs| && vs[k].cons.Some?
    requires after == before[vs[k].cons.value := NewOperator(c, vs[k])]
    requires i < k ==> ConsEntry(c, vs[i], before)
    ensures ConsEntry(c, vs[i], after)
  {
  }

  /** A written consensus entry is never written again. */
  lemma {:induction false} ConsEntryStays(c: Config, s: StakingState, vs: seq<Validator>, i: nat, k: nat,
                                          byCons: map<Address, Address>)
    requires ConsDistinct(vs) && !c.dropsCons
    requires i < k <= |vs| && FixPrefix(c, s, vs, k).Some? && byCons == FixPrefix(c, s, vs, k).value.byCons
    ensures ConsEntry(c, vs[i], byCons)
    decreases k
  {
    PrefixCons(c, s, vs, k - 1, FixPrefix(c, s, vs, k).value);
    var before := FixPrefix(c, s, vs, k - 1).value.byCons;
    if i < k - 1 {
      ConsEntryStays(c, s, vs, i, k - 1, before);
    }
    ConsEntryNext(c, vs, i, k - 1, before, byCons);
  }

  lemma ConsEntriesAreInjective(c: Config, s: StakingState, vs: seq<Validator>, t: StakingState)
    requires Snapshot(vs, s.validators) && ConsAgrees(s) && ConsAgrees(t)
    requires forall i :: 0 <= i < |vs| ==>
      vs[i].cons.Some? && vs[i].cons.value in t.byCons && t.byCons[vs[i].cons.value] == NewOperator(c, vs[i])
    ensures forall i :: 0 <= i < |vs| ==> NewOperator(c, vs[i]) in t.validators
    ensures forall i, j :: 0 <= i < j < |vs| ==> NewOperator(c, vs[i]) != NewOperator(c, vs[j])
  {
    ConsDiffer(s, vs);
    forall i, j | 0 <= i < j < |vs| ensures NewOperator(c, vs[i]) != NewOperator(c, vs[j]) {
      assert t.validators[NewOperator(c, vs[i])].cons == vs[i].cons;
      assert t.validators[NewOperator(c, vs[j])].cons == vs[j].cons;
    }
  }

  /** If removal leaves the consensus entries alone, that index is right at the end exactly when the
      new operators do not clash. */
  lemma ConsAgreesExactlyWhen(c: Config, s: StakingState, vs: seq<Validator>, t: StakingState)
    requires Snapshot(vs, s.validators) && ConsAgrees(s) && !c.dropsCons
    requires FixPrefix(c, s, vs, |vs|) == Some(t)
    ensures ConsAgrees(t) <==> NoClash(c, vs)
  {
    if NoClash(c, vs) {
      ConsAgreesAlong(c, s, vs, |vs|, t);
    } else if ConsAgrees(t) {
      AllReadable(c, s, vs);
      ConsDiffer(s, vs);
      forall i | 0 <= i < |vs|
        ensures vs[i].cons.value in t.byCons && t.byCons[vs[i].cons.value] == NewOperator(c, vs[i])
      {
        ConsEntryStays(c, s, vs, i, |vs|, t.byCons);
      }
      ConsEntriesAreInjective(c, s, vs, t);
      forall i, j | 0 <= i < j < |vs| ensures NewOperator(c, vs[i]) != vs[j].operator {
        KeptOperatorIsFree(c, s, vs, i, j, t);
      }
    }
  }

  // The stakes.

  /** The admin's stakes in the first i validators are found, migrated, under their new operators. */
  ghost predicate MigratedStakes(c: Config, s: StakingState, vs: seq<Validator>, i: nat, m: map<(Address, Address), Stake>)
    requires i <= |vs|
  {
    forall j :: 0 <= j < i ==>
      && (c.admin, vs[j].operator) in s.stakes
      && (c.admin, NewOperator(c, vs[j])) in m
      && m[(c.admin, NewOperator(c, vs[j]))] == MigratedStake(c, vs[j], s.stakes[(c.admin, vs[j].operator)])
  }

  /** A record that no new operator took over is as before, and there are no others. */
  ghost predicate OtherStakesKept(c: Config, s: StakingState, vs: seq<Validator>, i: nat, m: map<(Address, Address), Stake>)
    requires i <= |vs|
  {
    && (forall k :: k in s.stakes && (forall j :: 0 <= j < i ==> k != (c.admin, NewOperator(c, vs[j]))) ==>
          k in m && m[k] == s.stakes[k])
    && (forall k :: k in m ==> k in s.stakes || exists j :: 0 <= j < i && k == (c.admin, NewOperator(c, vs[j])))
  }

  ghost predicate StakesAt(c: Config, s: StakingState, vs: seq<Validator>, i: nat, m: map<(Address, Address), Stake>)
    requires i <= |vs|
  {
    MigratedStakes(c, s, vs, i, m) && OtherStakesKept(c, s, vs, i, m)
  }

  lemma MigratedStakeKey(c: Config, v: Validator, stake: Stake)
    requires stake.staker == c.admin && stake.validator == v.operator
    ensures (MigratedStake(c, v, stake).staker, MigratedStake(c, v, stake).validator) == (c.admin, NewOperator(c, v))
  {
  }

  /** The stake a validator's turn finds is the one from before the pass. */
  lemma StakeUntouched(c: Config, s: StakingState, vs: seq<Validator>, i: nat, m: map<(Address, Address), Stake>)
    requires NoClash(c, vs) && i < |vs| && StakesAt(c, s, vs, i, m)
    ensures var k := (c.admin, vs[i].operator);
      (k in m <==> k in s.stakes) && (k in m ==> m[k] == s.stakes[k])
  {
  }

  lemma MigratedStakesStep(c: Config, s: StakingState, vs: seq<Validator>, i: nat, m: map<(Address, Address), Stake>,
                           stake: Stake)
    requires NoClash(c, vs) && i < |vs| && MigratedStakes(c, s, vs, i, m)
    requires (c.admin, vs[i].operator) in s.stakes
    requires stake == MigratedStake(c, vs[i], s.stakes[(c.admin, vs[i].operator)])
    ensures MigratedStakes(c, s, vs, i + 1, m[(c.admin, NewOperator(c, vs[i])) := stake])
  {
  }

  lemma OtherStakesStep(c: Config, s: StakingState, vs: seq<Validator>, i: nat, m: map<(Address, Address), Stake>,
                        stake: Stake)
    requires i < |vs| && OtherStakesKept(c, s, vs, i, m)
    ensures OtherStakesKept(c, s, vs, i + 1, m[(c.admin, NewOperator(c, vs[i])) := stake])
  {
  }

  lemma PrefixStakes(c: Config, s: StakingState, vs: seq<Validator>, i: nat)
    requires i < |vs| && FixPrefix(c, s, vs, i + 1).Some?
    ensures FixPrefix(c, s, vs, i).Some?
    ensures var m := FixPrefix(c, s, vs, i).value.stakes;
      && (c.admin, vs[i].operator) in m
      && var stake := MigratedStake(c, vs[i], m[(c.admin, vs[i].operator)]);
         FixPrefix(c, s, vs, i + 1).value.stakes == m[(stake.staker, stake.validator) := stake]
  {
  }

  lemma {:induction false} StakesFollow(c: Config, s: StakingState, vs: seq<Validator>, i: nat)
    requires SelfKeyed(s) && NoClash(c, vs) && i <= |vs| && FixPrefix(c, s, vs, i).Some?
    ensures StakesAt(c, s, vs, i, FixPrefix(c, s, vs, i).value.stakes)
  {
    if i > 0 {
      var k := i - 1;
      PrefixStakes(c, s, vs, k);
      StakesFollow(c, s, vs, k);
      var m, before := FixPrefix(c, s, vs, k).value.stakes, (c.admin, vs[k].operator);
      var stake := MigratedStake(c, vs[k], m[before]);
      StakeUntouched(c, s, vs, k, m);
      MigratedStakeKey(c, vs[k], m[before]);
      MigratedStakesStep(c, s, vs, k, m, stake);
      OtherStakesStep(c, s, vs, k, m, stake);
    }
  }

  /** One of the first i validators is given the operator o. */
  ghost predicate Taken(c: Config, vs: seq<Validator>, i: nat, o: Address)
    requires i <= |vs|
  {
    exists n :: 0 <= n < i && NewOperator(c, vs[n]) == o
  }

  /** The n-th is the last of them. */
  ghost predicate LastTaker(c: Config, vs: seq<Validator>, i: nat, n: nat, o: Address)
    requires i <= |vs|
  {
    n < i && NewOperator(c, vs[n]) == o && forall k :: n < k < i ==> NewOperator(c, vs[k]) != o
  }

  /** The admin's stake at o was written at the n-th validator's turn, out of the one found then. */
  ghost predicate WrittenBy(c: Config, s: StakingState, vs: seq<Validator>, n: nat, o: Address, m: map<(Address, Address), Stake>)
    requires n < |vs|
  {
    && FixPrefix(c, s, vs, n).Some? && (c.admin, o) in m
    && (c.admin, vs[n].operator) in FixPrefix(c, s, vs, n).value.stakes
    && m[(c.admin, o)] == MigratedStake(c, vs[n], FixPrefix(c, s, vs, n).value.stakes[(c.admin, vs[n].operator)])
  }

  ghost predicate StakesKeyed(m: map<(Address, Address), Stake>) {
    forall k :: k in m ==> (m[k].staker, m[k].validator) == k
  }

  lemma {:induction false} StakesStayKeyed(c: Config, s: StakingState, vs: seq<Validator>, i: nat, m: map<(Address, Address), Stake>)
    requires SelfKeyed(s) && i <= |vs| && FixPrefix(c, s, vs, i).Some? && m == FixPrefix(c, s, vs, i).value.stakes
    ensures StakesKeyed(m)
  {
    if i > 0 {
      PrefixStakes(c, s, vs, i - 1);
      StakesStayKeyed(c, s, vs, i - 1, FixPrefix(c, s, vs, i - 1).value.stakes);
    }
  }

  /** A turn writes one record, at the new operator. */
  lemma StakeWritten(c: Config, s: StakingState, vs: seq<Validator>, i: nat,
                     m: map<(Address, Address), Stake>, m': map<(Address, Address), Stake>)
    requires SelfKeyed(s) && i < |vs| && FixPrefix(c, s, vs, i + 1).Some? && m' == FixPrefix(c, s, vs, i + 1).value.stakes
    requires FixPrefix(c, s, vs, i).Some? && m == FixPrefix(c, s, vs, i).value.stakes
    ensures (c.admin, vs[i].operator) in m
    ensures m' == m[(c.admin, NewOperator(c, vs[i])) := MigratedStake(c, vs[i], m[(c.admin, vs[i].operator)])]
  {
    PrefixStakes(c, s, vs, i);
    StakesStayKeyed(c, s, vs, i, m);
    MigratedStakeKey(c, vs[i], m[(c.admin, vs[i].operator)]);
  }

  ghost predicate StakeBy(c: Config, before: map<(Address, Address), Stake>, vs: seq<Validator>, i: nat, o: Address,
                          m: map<(Address, Address), Stake>)
    requires i <= |vs|
  {
    && ((c.admin, o) in m <==> (c.admin, o) in before || Taken(c, vs, i, o))
    && ((c.admin, o) in before && !Taken(c, vs, i, o) ==> m[(c.admin, o)] == before[(c.admin, o)])
  }

  lemma StakeByNext(c: Config, before: map<(Address, Address), Stake>, vs: seq<Validator>, i: nat, o: Address,
                    m: map<(Address, Address), Stake>, stake: Stake)
    requires i < |vs| && StakeBy(c, before, vs, i, o, m)
    ensures StakeBy(c, before, vs, i + 1, o, m[(c.admin, NewOperator(c, vs[i])) := stake])
  {
    assert Taken(c, vs, i + 1, o) <==> Taken(c, vs, i, o) || NewOperator(c, vs[i]) == o;
  }

  /** Records are overwritten and added, but never deleted, clash or not. */
  lemma {:induction false} StakeAt(c: Config, s: StakingState, vs: seq<Validator>, i: nat, o: Address,
                                   m: map<(Address, Address), Stake>)
    requires SelfKeyed(s) && i <= |vs| && FixPrefix(c, s, vs, i).Some? && m == FixPrefix(c, s, vs, i).value.stakes
    ensures StakeBy(c, s.stakes, vs, i, o, m)
  {
    if i > 0 {
      var k := i - 1;
      PrefixStakes(c, s, vs, k);
      var before := FixPrefix(c, s, vs, k).value.stakes;
      StakeAt(c, s, vs, k, o, before);
      StakeWritten(c, s, vs, k, before, m);
      StakeByNext(c, s.stakes, vs, k, o, before, MigratedStake(c, vs[k], before[(c.admin, vs[k].operator)]));
    }
  }

  lemma {:induction false} LastTakerWrites(c: Config, s: StakingState, vs: seq<Validator>, i: nat, n: nat, o: Address,
                                           m: map<(Address, Address), Stake>)
    requires SelfKeyed(s) && i <= |vs| && FixPrefix(c, s, vs, i).Some? && m == FixPrefix(c, s, vs, i).value.stakes
    requires LastTaker(c, vs, i, n, o)
    ensures WrittenBy(c, s, vs, n, o, m)
  {
    PrefixStakes(c, s, vs, i - 1);
    var before := FixPrefix(c, s, vs, i - 1).value.stakes;
    StakeWritten(c, s, vs, i - 1, before, m);
    if n < i - 1 {
      LastTakerWrites(c, s, vs, i - 1, n, o, before);
    }
  }

  lemma OldStakeThere(c: Config, s: StakingState, vs: seq<Validator>, j: nat, t: StakingState)
    requires SelfKeyed(s) && FixPrefix(c, s, vs, |vs|) == Some(t) && j < |vs|
    ensures (c.admin, vs[j].operator) in t.stakes
  {
    RewritableEach(c, s, vs, j, |vs|);
    StakeAt(c, s, vs, j, vs[j].operator, FixPrefix(c, s, vs, j).value.stakes);
    StakeAt(c, s, vs, |vs|, vs[j].operator, t.stakes);
  }

  /** The admin's record at an operator is never deleted. If no validator is given that operator, it
      is as before; otherwise it is the migrated record of the last validator that was. This holds
      for every pass that goes through, so also at every validator's old operator. */
  lemma OldStakeSurvives(c: Config, s: StakingState, vs: seq<Validator>, o: Address, t: StakingState)
    requires SelfKeyed(s) && FixPrefix(c, s, vs, |vs|) == Some(t)
    ensures !Taken(c, vs, |vs|, o) ==>
      ((c.admin, o) in t.stakes <==> (c.admin, o) in s.stakes) &&
      ((c.admin, o) in s.stakes ==> t.stakes[(c.admin, o)] == s.stakes[(c.admin, o)])
    ensures Taken(c, vs, |vs|, o) ==>
      exists n: nat :: LastTaker(c, vs, |vs|, n, o) && WrittenBy(c, s, vs, n, o, t.stakes)
    ensures forall j :: 0 <= j < |vs| ==> (c.admin, vs[j].operator) in t.stakes
  {
    StakeAt(c, s, vs, |vs|, o, t.stakes);
    if Taken(c, vs, |vs|, o) {
      LastTakerExists(c, vs, |vs|, o);
      var n: nat :| LastTaker(c, vs, |vs|, n, o);
      LastTakerWrites(c, s, vs, |vs|, n, o, t.stakes);
    }
    forall j | 0 <= j < |vs| ensures (c.admin, vs[j].operator) in t.stakes {
      OldStakeThere(c, s, vs, j, t);
    }
  }

  lemma {:induction false} LastTakerExists(c: Config, vs: seq<Validator>, i: nat, o: Address)
    requires i <= |vs| && Taken(c, vs, i, o)
    ensures exists n: nat :: LastTaker(c, vs, i, n, o)
  {
    if NewOperator(c, vs[i - 1]) == o {
      assert LastTaker(c, vs, i, i - 1, o);
    } else {
      assert Taken(c, vs, i - 1, o);
      LastTakerExists(c, vs, i - 1, o);
      var n: nat :| LastTaker(c, vs, i - 1, n, o);
      assert LastTaker(c, vs, i, n, o);
    }
  }

  /** Without a clash that record is the migrated one from before the pass. */
  lemma TakenStakeIsMigrated(c: Config, s: StakingState, vs: seq<Validator>, n: nat, t: StakingState)
    requires SelfKeyed(s) && NoClash(c, vs) && FixPrefix(c, s, vs, |vs|) == Some(t) && n < |vs|
    ensures (c.admin, vs[n].operator) in s.stakes && (c.admin, NewOperator(c, vs[n])) in t.stakes
    ensures t.stakes[(c.admin, NewOperator(c, vs[n]))] ==
            MigratedStake(c, vs[n], s.stakes[(c.admin, vs[n].operator)])
  {
    StakesFollow(c, s, vs, |vs|);
  }

  // Powers of the last block, and created hooks.

  function NewOperators(c: Config, vs: seq<Validator>): seq<Address> {
    seq(|vs|, j requires 0 <= j < |vs| => NewOperator(c, vs[j]))
  }

  lemma PrefixPowersAndHooks(c: Config, s: StakingState, vs: seq<Validator>, i: nat)
    requires i < |vs| && FixPrefix(c, s, vs, i + 1).Some?
    ensures FixPrefix(c, s, vs, i).Some?
    ensures FixPrefix(c, s, vs, i + 1).value.lastPower == FixPrefix(c, s, vs, i).value.lastPower - {vs[i].operator}
    ensures FixPrefix(c, s, vs, i + 1).value.created == FixPrefix(c, s, vs, i).value.created + [NewOperator(c, vs[i])]
  {
  }

  function OldOperators(vs: seq<Validator>): set<Address> {
    set v | v in vs :: v.operator
  }

  lemma OneMoreOperator(c: Config, vs: seq<Validator>, i: nat)
    requires i < |vs|
    ensures OldOperators(vs[..i + 1]) == OldOperators(vs[..i]) + {vs[i].operator}
    ensures NewOperators(c, vs[..i + 1]) == NewOperators(c, vs[..i]) + [NewOperator(c, vs[i])]
  {
  }

  /** The last block's powers of all validators are gone, and every new operator was announced to
      the hooks once, in the order of the snapshot. No condition is needed for that. */
  lemma {:induction false} PowersAndHooks(c: Config, s: StakingState, vs: seq<Validator>, i: nat, t: StakingState)
    requires i <= |vs| && FixPrefix(c, s, vs, i) == Some(t)
    ensures t.lastPower == s.lastPower - OldOperators(vs[..i])
    ensures t.created == s.created + NewOperators(c, vs[..i])
  {
    if i > 0 {
      var k := i - 1;
      PrefixPowersAndHooks(c, s, vs, k);
      PowersAndHooks(c, s, vs, k, FixPrefix(c, s, vs, k).value);
      OneMoreOperator(c, vs, k);
    }
  }

  // Success, sums and ratios.

  /** When a validator's turn goes through. The stake it asks for may also be one that an earlier
      validator's turn has put there. */
  ghost predicate Movable(c: Config, s: StakingState, vs: seq<Validator>, j: nat)
    requires j < |vs|
  {
    && vs[j].tokens.Some? && vs[j].cons.Some? && NewOperator(c, vs[j]) !in c.hookRejects
    && ((c.admin, vs[j].operator) in s.stakes || Taken(c, vs, j, vs[j].operator))
  }

  lemma NextSucceeds(c: Config, s: StakingState, vs: seq<Validator>, i: nat)
    requires SelfKeyed(s) && i < |vs|
    ensures FixPrefix(c, s, vs, i + 1).Some? <==> FixPrefix(c, s, vs, i).Some? && Movable(c, s, vs, i)
  {
    if FixPrefix(c, s, vs, i).Some? {
      StakeAt(c, s, vs, i, vs[i].operator, FixPrefix(c, s, vs, i).value.stakes);
    }
  }

  /** Steps that each go on only if all before did go on to the end only if all can. */
  lemma {:induction false} AllOrNothing(alive: seq<bool>, able: seq<bool>, i: nat)
    requires |alive| == |able| + 1 && alive[0] && i <= |able|
    requires forall k :: 0 <= k < |able| ==> (alive[k + 1] <==> alive[k] && able[k])
    ensures alive[i] <==> forall j :: 0 <= j < i ==> able[j]
  {
    if i > 0 {
      AllOrNothing(alive, able, i - 1);
      assert alive[i - 1 + 1] <==> alive[i - 1] && able[i - 1];
    }
  }

  /** The pass goes through exactly when no validator has nil tokens or an unreadable key, no hook
      objects, and the admin has a stake in every validator by the time it is visited. So if the
      stakes are all there at the start, a clash raises no error; and without a clash they must be. */
  lemma SucceedsExactlyWhen(c: Config, s: StakingState, vs: seq<Validator>)
    requires SelfKeyed(s)
    ensures FixPrefix(c, s, vs, |vs|).Some? <==> forall j :: 0 <= j < |vs| ==> Movable(c, s, vs, j)
    ensures (forall j :: 0 <= j < |vs| ==> Rewritable(c, s, vs[j])) ==> FixPrefix(c, s, vs, |vs|).Some?
    ensures NoClash(c, vs) && FixPrefix(c, s, vs, |vs|).Some? ==> forall j :: 0 <= j < |vs| ==> Rewritable(c, s, vs[j])
  {
    var n := |vs|;
    var alive := seq(n + 1, i requires 0 <= i <= n => FixPrefix(c, s, vs, i).Some?);
    var able := seq(n, i requires 0 <= i < n => Movable(c, s, vs, i));
    forall k | 0 <= k < n ensures alive[k + 1] <==> alive[k] && able[k] {
      NextSucceeds(c, s, vs, k);
    }
    AllOrNothing(alive, able, n);
    assert forall j :: 0 <= j < n ==> (able[j] <==> Movable(c, s, vs, j));
    if NoClash(c, vs) {
      forall j | 0 <= j < n ensures Movable(c, s, vs, j) <==> Rewritable(c, s, vs[j]) {
      }
    }
  }

  function TokensOf(v: Validator, statuses: set<BondStatus>): nat {
    if v.status in statuses && v.tokens.Some? then v.tokens.value else 0
  }

  ghost function TokensWith(statuses: set<BondStatus>): Validator -> int {
    (v: Validator) => TokensOf(v, statuses)
  }

  ghost function EntryTokensWith(statuses: set<BondStatus>): (Address, Validator) -> int {
    (o: Address, v: Validator) => TokensOf(v, statuses)
  }

  /** The recorded tokens of all validators of some bond statuses. */
  ghost function PoolTokens(m: map<Address, Validator>, statuses: set<BondStatus>): int {
    Sum(m, EntryTokensWith(statuses))
  }

  lemma ListedTokensHundredfold(c: Config, vs: seq<Validator>, statuses: set<BondStatus>)
    ensures ListTotal(ValuesAt(c, vs, |vs|), TokensWith(statuses)) == MULTIPLIER * ListTotal(vs, TokensWith(statuses))
  {
    var values := ValuesAt(c, vs, |vs|);
    forall j | 0 <= j < |vs| ensures TokensWith(statuses)(values[j]) == MULTIPLIER * TokensWith(statuses)(vs[j]) {
      EntryAt(c, vs, |vs|, j);
      assert TokensOf(Migrated(c, vs[j]), statuses) == MULTIPLIER * TokensOf(vs[j], statuses);
    }
    ListTotalScaled(vs, TokensWith(statuses), values, TokensWith(statuses), MULTIPLIER);
  }

  lemma PoolTokensOfList(m: map<Address, Validator>, keys: seq<Address>, values: seq<Validator>, statuses: set<BondStatus>)
    requires Lists(m, keys, values)
    ensures PoolTokens(m, statuses) == ListTotal(values, TokensWith(statuses))
  {
    SumIsListTotal(m, keys, values, TokensWith(statuses), EntryTokensWith(statuses));
  }

  /** No validator's tokens are lost on the way. */
  lemma TokensHundredfold(c: Config, s: StakingState, vs: seq<Validator>, statuses: set<BondStatus>)
    requires Snapshot(vs, s.validators) && NoClash(c, vs) && FixPrefix(c, s, vs, |vs|).Some?
    ensures PoolTokens(FixPrefix(c, s, vs, |vs|).value.validators, statuses) == MULTIPLIER * PoolTokens(s.validators, statuses)
  {
    var m, keys, values := FixPrefix(c, s, vs, |vs|).value.validators, KeysAt(c, vs, |vs|), ValuesAt(c, vs, |vs|);
    SnapshotLists(c, vs, s.validators);
    PoolTokensOfList(s.validators, KeysAt(c, vs, 0), vs, statuses);
    ListsRun(c, s, vs, |vs|, m, keys, values);
    PoolTokensOfList(m, keys, values, statuses);
    ListedTokensHundredfold(c, vs, statuses);
  }

  /** Tokens per share and the admin's part of the shares are what they were (cross-multiplied);
      a nil field stays nil. */
  lemma RatiosPreserved(c: Config, v: Validator, stake: Stake)
    ensures Migrated(c, v).shares.Some? <==> v.shares.Some?
    ensures MigratedStake(c, v, stake).shares.Some? <==> stake.shares.Some?
    ensures v.tokens.Some? && v.shares.Some? ==>
      Migrated(c, v).tokens.value * v.shares.value.raw == v.tokens.value * Migrated(c, v).shares.value.raw
    ensures stake.shares.Some? && v.shares.Some? ==>
      MigratedStake(c, v, stake).shares.value.raw * v.shares.value.raw ==
      stake.shares.value.raw * Migrated(c, v).shares.value.raw
  {
    if v.shares.Some? {
      MulByWholeIsExact(v.shares.value, MULTIPLIER);
    }
    if stake.shares.Some? {
      MulByWholeIsExact(stake.shares.value, MULTIPLIER);
    }
  }
}
