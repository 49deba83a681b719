/** What the second pass of the v47 upgrade does to the shares behind a validator: the validator's
    shares grow a hundredfold and follow it to its new operator, but of the stakes in it only the
    admin's does. */
module ShareBacking {
  import opened Outcomes
  import opened Precision
  import opened FixedPoint
  import opened Coins
  import opened Sums
  import opened Staking
  import opened ValidatorFix
  import opened ValidatorMigration
  import opened MigratedStore

  type Stakes = map<(Address, Address), Stake>

  function RawShares(stake: Stake): int {
    if stake.shares.Some? then stake.shares.value.raw else 0
  }

  ghost function EntryAt(o: Address): ((Address, Address), Stake) -> int {
    (k: (Address, Address), stake: Stake) => if k.1 == o then RawShares(stake) else 0
  }

  ghost function EntryOfOthers(admin: Address, o: Address): ((Address, Address), Stake) -> int {
    (k: (Address, Address), stake: Stake) => if k.1 == o && k.0 != admin then RawShares(stake) else 0
  }

  /** The shares of all stakes at an operator, and of those that are not the admin's. */
  ghost function SharesAt(m: Stakes, o: Address): int {
    Sum(m, EntryAt(o))
  }

  ghost function OthersAt(m: Stakes, admin: Address, o: Address): int {
    Sum(m, EntryOfOthers(admin, o))
  }

  ghost function AdminsAt(m: Stakes, admin: Address, o: Address): int {
    if (admin, o) in m then RawShares(m[(admin, o)]) else 0
  }

  /** The shares of the validator at an operator are what the stakes at that operator add up to. */
  ghost predicate SharesBacked(s: StakingState, o: Address) {
    o in s.validators && s.validators[o].shares.Some? && s.validators[o].shares.value.raw == SharesAt(s.stakes, o)
  }

  lemma SharesSplit(m: Stakes, admin: Address, o: Address)
    ensures SharesAt(m, o) == AdminsAt(m, admin, o) + OthersAt(m, admin, o)
  {
    var k := (admin, o);
    var rest := m - {k};
    forall h | h in rest ensures EntryAt(o)(h, rest[h]) == EntryOfOthers(admin, o)(h, rest[h]) {
      assert h == (h.0, h.1);
    }
    SumPointwise(rest, EntryOfOthers(admin, o), EntryAt(o));
    if k in m {
      SumTake(m, EntryAt(o), k);
      SumTake(m, EntryOfOthers(admin, o), k);
    } else {
      assert rest == m;
    }
  }

  /** Nobody else's stakes change, clash or not. */
  lemma {:induction false} OthersStay(c: Config, s: StakingState, vs: seq<Validator>, i: nat, o: Address, m: Stakes)
    requires SelfKeyed(s) && i <= |vs| && FixPrefix(c, s, vs, i).Some? && m == FixPrefix(c, s, vs, i).value.stakes
    ensures OthersAt(m, c.admin, o) == OthersAt(s.stakes, c.admin, o)
  {
    if i > 0 {
      var k := i - 1;
      PrefixStakes(c, s, vs, k);
      var before := FixPrefix(c, s, vs, k).value.stakes;
      OthersStay(c, s, vs, k, o, before);
      StakeWritten(c, s, vs, k, before, m);
      SumPut(before, EntryOfOthers(c.admin, o), (c.admin, NewOperator(c, vs[k])),
             MigratedStake(c, vs[k], before[(c.admin, vs[k].operator)]));
    }
  }

  lemma AdminsHundredfold(c: Config, s: StakingState, vs: seq<Validator>, j: nat, t: StakingState)
    requires PassedCleanly(c, s, vs, t) && j < |vs|
    ensures AdminsAt(t.stakes, c.admin, NewOperator(c, vs[j])) == 100 * AdminsAt(s.stakes, c.admin, vs[j].operator)
  {
    StakeAfterPass(c, s, vs, t, j, NewOperator(c, vs[j]));
  }

  /** If a validator's shares were backed by its stakes, they are again exactly when the others' shares
      at its new operator are a hundredfold of their shares at its old one. */
  lemma BackedExactlyWhen(c: Config, s: StakingState, vs: seq<Validator>, j: nat, t: StakingState)
    requires PassedCleanly(c, s, vs, t)
    requires j < |vs| && SharesBacked(s, vs[j].operator)
    ensures SharesBacked(t, NewOperator(c, vs[j])) <==>
      OthersAt(s.stakes, c.admin, NewOperator(c, vs[j])) == MULTIPLIER * OthersAt(s.stakes, c.admin, vs[j].operator)
  {
    var o := NewOperator(c, vs[j]);
    ValidatorAfterPass(c, s, vs, t, j, o);
    AdminsHundredfold(c, s, vs, j, t);
    OthersStay(c, s, vs, |vs|, o, t.stakes);
    SharesSplit(s.stakes, c.admin, vs[j].operator);
    SharesSplit(t.stakes, c.admin, o);
  }

  /** Somebody other than the admin has shares at an operator. */
  ghost predicate OthersHold(m: Stakes, admin: Address, o: Address) {
    exists k :: k in m && k.0 != admin && k.1 == o && RawShares(m[k]) != 0
  }

  lemma {:induction false} SumNotNegative<K, V>(m: map<K, V>, f: (K, V) -> int)
    requires forall k :: k in m ==> f(k, m[k]) >= 0
    ensures Sum(m, f) >= 0
    ensures Sum(m, f) == 0 <==> forall k :: k in m ==> f(k, m[k]) == 0
    decreases |m|
  {
    if m != map[] {
      var k :| k in m;
      SumTake(m, f, k);
      var rest := m - {k};
      SumNotNegative(rest, f);
      assert forall j :: j in m ==> j == k || (j in rest && rest[j] == m[j]);
      assert forall j :: j in rest ==> j in m && rest[j] == m[j];
    }
  }

  lemma OthersHoldNothing(m: Stakes, admin: Address, o: Address)
    requires forall k :: k in m ==> RawShares(m[k]) >= 0
    ensures OthersAt(m, admin, o) >= 0
    ensures OthersAt(m, admin, o) == 0 <==> !OthersHold(m, admin, o)
  {
    SumNotNegative(m, EntryOfOthers(admin, o));
    assert forall k :: k in m ==>
      (EntryOfOthers(admin, o)(k, m[k]) != 0 <==> k.0 != admin && k.1 == o && RawShares(m[k]) != 0);
  }

  /** New operators that nobody else has a stake at, other than the validator's own old one. */
  ghost predicate NewOperatorsUnstaked(c: Config, s: StakingState, vs: seq<Validator>) {
    forall j :: 0 <= j < |vs| && NewOperator(c, vs[j]) != vs[j].operator ==>
      !OthersHold(s.stakes, c.admin, NewOperator(c, vs[j]))
  }

  lemma BackedEach(c: Config, s: StakingState, vs: seq<Validator>, j: nat, t: StakingState)
    requires PassedCleanly(c, s, vs, t)
    requires j < |vs| && SharesBacked(s, vs[j].operator) && NewOperatorsUnstaked(c, s, vs)
    requires forall k :: k in s.stakes ==> RawShares(s.stakes[k]) >= 0
    ensures SharesBacked(t, NewOperator(c, vs[j])) <==> !OthersHold(s.stakes, c.admin, vs[j].operator)
  {
    BackedExactlyWhen(c, s, vs, j, t);
    OthersHoldNothing(s.stakes, c.admin, vs[j].operator);
    OthersHoldNothing(s.stakes, c.admin, NewOperator(c, vs[j]));
  }

  ghost function Unheld(m: Stakes, admin: Address): Address -> bool {
    o => !OthersHold(m, admin, o)
  }

  ghost function Backed(t: StakingState): Address -> bool {
    o => SharesBacked(t, o)
  }

  lemma EachBacked(c: Config, s: StakingState, vs: seq<Validator>, t: StakingState)
    requires PassedCleanly(c, s, vs, t)
    requires (forall o :: o in s.validators ==> SharesBacked(s, o)) && NewOperatorsUnstaked(c, s, vs)
    requires forall k :: k in s.stakes ==> RawShares(s.stakes[k]) >= 0
    ensures forall j :: 0 <= j < |vs| ==>
      (Backed(t)(NewOperators(c, vs)[j]) <==> Unheld(s.stakes, c.admin)(Operators(vs)[j]))
  {
    forall j | 0 <= j < |vs|
      ensures Backed(t)(NewOperators(c, vs)[j]) <==> Unheld(s.stakes, c.admin)(Operators(vs)[j])
    {
      BackedEach(c, s, vs, j, t);
    }
  }

  /** A property of all validators, told through the list of their operators before and after. */
  lemma AllThroughLists(before: set<Address>, olds: seq<Address>, was: Address -> bool,
                        after: set<Address>, news: seq<Address>, now: Address -> bool)
    requires |olds| == |news| && (forall o :: o in before <==> o in olds) && (forall o :: o in after <==> o in news)
    requires forall j :: 0 <= j < |olds| ==> (now(news[j]) <==> was(olds[j]))
    ensures (forall o :: o in after ==> now(o)) <==> (forall o :: o in before ==> was(o))
  {
    if forall o :: o in after ==> now(o) {
      forall o | o in before ensures was(o) {
        var j :| 0 <= j < |olds| && olds[j] == o;
        assert news[j] in after;
      }
    } else {
      var o :| o in after && !now(o);
      var j :| 0 <= j < |news| && news[j] == o;
      assert olds[j] in before;
    }
  }

  lemma OldOperatorsListed(vs: seq<Validator>, m: map<Address, Validator>)
    requires Snapshot(vs, m)
    ensures forall o :: o in m.Keys <==> o in Operators(vs)
  {
    forall o | o in m ensures o in Operators(vs) {
      var j :| 0 <= j < |vs| && vs[j].operator == o;
      assert Operators(vs)[j] == o;
    }
  }

  lemma NewOperatorsListed(c: Config, vs: seq<Validator>, m: map<Address, Validator>)
    requires OneToOne(c, vs, m)
    ensures forall o :: o in m.Keys <==> o in NewOperators(c, vs)
  {
    forall o | o in m ensures o in NewOperators(c, vs) {
      var j :| 0 <= j < |vs| && NewOperator(c, vs[j]) == o;
      assert NewOperators(c, vs)[j] == o;
    }
  }

  lemma NewOperatorsAfterPass(c: Config, s: StakingState, vs: seq<Validator>, t: StakingState)
    requires Snapshot(vs, s.validators) && NoClash(c, vs) && FixPrefix(c, s, vs, |vs|) == Some(t)
    ensures forall o :: o in t.validators.Keys <==> o in NewOperators(c, vs)
  {
    NoClashIsOneToOne(c, s, vs, t);
    NewOperatorsListed(c, vs, t.validators);
  }

  /** With the upgrade as it is planned, all validators' shares stay backed exactly when nobody but the
      admin had shares in any of them. */
  lemma AllBackedExactlyWhen(c: Config, s: StakingState, vs: seq<Validator>, t: StakingState)
    requires PassedCleanly(c, s, vs, t)
    requires (forall o :: o in s.validators ==> SharesBacked(s, o)) && NewOperatorsUnstaked(c, s, vs)
    requires forall k :: k in s.stakes ==> RawShares(s.stakes[k]) >= 0
    ensures (forall o :: o in t.validators ==> SharesBacked(t, o)) <==>
            (forall o :: o in s.validators ==> !OthersHold(s.stakes, c.admin, o))
  {
    OldOperatorsListed(vs, s.validators);
    NewOperatorsAfterPass(c, s, vs, t);
    EachBacked(c, s, vs, t);
    AllThroughLists(s.validators.Keys, Operators(vs), Unheld(s.stakes, c.admin),
                    t.validators.Keys, NewOperators(c, vs), Backed(t));
    assert forall o :: Unheld(s.stakes, c.admin)(o) <==> !OthersHold(s.stakes, c.admin, o);
    assert forall o :: Backed(t)(o) <==> SharesBacked(t, o);
  }

  // One validator, in which the admin and somebody else have a stake each.

  function SharedNode(v: Validator, x: Stake, y: Stake): StakingState
    requires IsNode(v, 7)
  {
    StakingState(map[v.operator := v], map[v.cons.value := v.operator], map[(7, v.operator) := v.operator], map[],
                 map[(x.staker, v.operator) := x, (y.staker, v.operator) := y], [])
  }

  ghost predicate Shared(c: Config, v: Validator, x: Stake, y: Stake) {
    && IsNode(v, 7) && c.reduction == 1 && v.shares == Some(Dec(5)) && x.shares == Some(Dec(3)) && y.shares == Some(Dec(2))
    && x.staker == c.admin != y.staker && x.validator == y.validator == v.operator
    && v.moniker in c.table && c.table[v.moniker] != v.operator && c.table[v.moniker] !in c.hookRejects
  }

  lemma SharesOfTwo(o: Address, x: Stake, y: Stake)
    requires x.staker != y.staker
    ensures SharesAt(map[(x.staker, o) := x, (y.staker, o) := y], o) == RawShares(x) + RawShares(y)
  {
    var one: Stakes := map[(x.staker, o) := x];
    var none: Stakes := map[];
    SumPut(none, EntryAt(o), (x.staker, o), x);
    SumPut(one, EntryAt(o), (y.staker, o), y);
    assert none[(x.staker, o) := x] == one;
    assert one[(y.staker, o) := y] == map[(x.staker, o) := x, (y.staker, o) := y];
  }

  lemma SharedNodeHolders(c: Config, v: Validator, x: Stake, y: Stake, s: StakingState)
    requires Shared(c, v, x, y) && s == SharedNode(v, x, y)
    ensures OthersAt(s.stakes, c.admin, c.table[v.moniker]) == 0 && OthersAt(s.stakes, c.admin, v.operator) != 0
  {
    OthersHoldNothing(s.stakes, c.admin, c.table[v.moniker]);
    OthersHoldNothing(s.stakes, c.admin, v.operator);
    assert (y.staker, v.operator) in s.stakes;
  }

  lemma SharedNodeWellKept(c: Config, v: Validator, x: Stake, y: Stake, s: StakingState)
    requires Shared(c, v, x, y) && s == SharedNode(v, x, y)
    ensures SelfKeyed(s) && ConsAgrees(s) && PowerAgrees(s, 1) && Snapshot([v], s.validators) && SharesBacked(s, v.operator)
  {
    SharesOfTwo(v.operator, x, y);
    assert [v][0] == v;
  }

  lemma SharedNodeMigrates(c: Config, v: Validator, x: Stake, y: Stake, s: StakingState)
    requires Shared(c, v, x, y) && s == SharedNode(v, x, y)
    ensures NoClash(c, [v]) && FixPrefix(c, s, [v], 1) == Some(Rewritten(c, s, v, x))
  {
    FixNext(c, s, [v], 0, s);
  }

  /** In that well-kept store the pass goes through, and the validator's shares are not backed any
      more. */
  lemma SharedNodeLosesBacking(c: Config, v: Validator, x: Stake, y: Stake, s: StakingState, t: StakingState)
    requires Shared(c, v, x, y) && s == SharedNode(v, x, y) && t == Rewritten(c, s, v, x)
    ensures SelfKeyed(s) && ConsAgrees(s) && PowerAgrees(s, 1) && Snapshot([v], s.validators) && SharesBacked(s, v.operator)
    ensures FixPrefix(c, s, [v], 1) == Some(t) && !SharesBacked(t, c.table[v.moniker])
  {
    SharedNodeWellKept(c, v, x, y, s);
    SharedNodeMigrates(c, v, x, y, s);
    SharedNodeHolders(c, v, x, y, s);
    BackedExactlyWhen(c, s, [v], 0, t);
  }
}
