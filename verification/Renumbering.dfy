/** What the v47 upgrade does to account numbers (app/upgrade_v47.go, lines 171-207), as a function
    on the auth store, and when the result is consistent. Nothing is assumed about the order in
    which accounts are visited. */
module Renumbering {
  import opened Coins
  import opened Auth

  /** The two accounts the upgrade introduces. */
  datatype Newcomers = Newcomers(meid: Address, drop: Address)

  function MoveToNext(s: AuthState, acc: Account): AuthState {
    WithAccount(s.(next := s.next + 1), acc.(number := s.next))
  }

  function MoveSecond(s: AuthState, acc: Account): (AuthState, Account) {
    if acc.number == 2 then (MoveToNext(s, acc), acc.(number := s.next)) else (s, acc)
  }

  function ReplaceFirst(s: AuthState, acc: Account, meid: Address): (AuthState, Account) {
    if acc.number == 1 then
      var demoted := acc.(number := 2);
      (WithAccount(WithAccount(s, NewBaseAccount(meid).(number := 1)), demoted), demoted)
    else (s, acc)
  }

  function ReplaceThird(s: AuthState, acc: Account, drop: Address): AuthState {
    if acc.number == 3 then WithAccount(MoveToNext(s, acc), NewBaseAccount(drop).(number := 3)) else s
  }

  /** One iteration: `acc` is the snapshot's copy, whose number the three tests see change. */
  function RenumberStep(s: AuthState, acc: Account, who: Newcomers): AuthState {
    var (s1, acc1) := MoveSecond(s, acc);
    var (s2, acc2) := ReplaceFirst(s1, acc1, who.meid);
    ReplaceThird(s2, acc2, who.drop)
  }

  function RenumberPrefix(s: AuthState, list: seq<Account>, i: nat, who: Newcomers): AuthState
    requires i <= |list|
  {
    if i == 0 then s else RenumberStep(RenumberPrefix(s, list, i - 1, who), list[i - 1], who)
  }

  function Addresses(list: seq<Account>): set<Address> {
    set acc | acc in list :: acc.address
  }

  /** The list visits accounts of the store once each, among them those numbered 1, 2 and 3. */
  ghost predicate Visits(list: seq<Account>, s: AuthState) {
    && (forall i :: 0 <= i < |list| ==> list[i].address in s.accounts && s.accounts[list[i].address] == list[i])
    && (forall i, j :: 0 <= i < j < |list| ==> list[i].address != list[j].address)
    && (forall n :: n in {1, 2, 3} && n in s.byNumber ==> s.byNumber[n] in Addresses(list))
  }

  /** Which of the accounts numbered 1, 2 and 3 have been visited. */
  datatype Progress = Progress(first: bool, second: bool, third: bool)

  function Visited(s: AuthState, done: set<Address>): Progress {
    Progress(1 in s.byNumber && s.byNumber[1] in done,
             2 in s.byNumber && s.byNumber[2] in done,
             3 in s.byNumber && s.byNumber[3] in done)
  }

  ghost predicate Possible(s: AuthState, p: Progress) {
    && (p.first ==> 1 in s.byNumber) && (p.second ==> 2 in s.byNumber) && (p.third ==> 3 in s.byNumber)
  }

  /** The number lookup at that moment; n2 and n3 are the numbers that the old second and third
      accounts were given. */
  function LookupForm(s: AuthState, p: Progress, n2: nat, n3: nat, who: Newcomers): map<nat, Address>
    requires Possible(s, p)
  {
    var m1 := if p.first then s.byNumber[1 := who.meid][2 := s.byNumber[1]] else s.byNumber;
    var m2 := if p.second then m1[n2 := s.byNumber[2]] else m1;
    if p.third then m2[n3 := s.byNumber[3]][3 := who.drop] else m2
  }

  /** The accounts at that moment. */
  function AccountsForm(s: AuthState, p: Progress, n2: nat, n3: nat, who: Newcomers): map<Address, Account>
    requires Coherent(s) && Possible(s, p)
  {
    var m1 := if p.first then
                s.accounts[who.meid := NewBaseAccount(who.meid).(number := 1)]
                          [s.byNumber[1] := s.accounts[s.byNumber[1]].(number := 2)]
              else s.accounts;
    var m2 := if p.second then m1[s.byNumber[2] := s.accounts[s.byNumber[2]].(number := n2)] else m1;
    if p.third then
      m2[s.byNumber[3] := s.accounts[s.byNumber[3]].(number := n3)]
        [who.drop := NewBaseAccount(who.drop).(number := 3)]
    else m2
  }

  /** The numbers handed out are new and different. */
  ghost predicate Allotted(s: AuthState, p: Progress, n2: nat, n3: nat, next: nat) {
    && next == s.next + (if p.second then 1 else 0) + (if p.third then 1 else 0)
    && (p.second ==> s.next <= n2 < next)
    && (p.third ==> s.next <= n3 < next)
    && (p.second && p.third ==> n2 != n3)
  }

  /** The addresses of the newcomers that will be introduced are not taken. */
  ghost predicate NewcomersFresh(s: AuthState, who: Newcomers) {
    (1 in s.byNumber ==> who.meid !in s.accounts) && (3 in s.byNumber ==> who.drop !in s.accounts)
  }

  /** Account 2 is only ever vacated for account 1, so without an account 1 its lookup goes stale. */
  ghost predicate SecondIsRefilled(s: AuthState) {
    2 in s.byNumber ==> 1 in s.byNumber
  }

  ghost predicate InForm(s: AuthState, p: Progress, t: AuthState, n2: nat, n3: nat, who: Newcomers)
    requires Coherent(s)
  {
    && Possible(s, p)
    && t.byNumber == LookupForm(s, p, n2, n3, who)
    && Allotted(s, p, n2, n3, t.next)
    && (NewcomersFresh(s, who) ==> t.accounts == AccountsForm(s, p, n2, n3, who))
  }

  lemma FirstLookup(s: AuthState, p: Progress, n2: nat, n3: nat, who: Newcomers)
    requires Possible(s, p) && !p.first && 1 in s.byNumber
    requires (p.second ==> n2 > 3) && (p.third ==> n3 > 3)
    ensures LookupForm(s, p.(first := true), n2, n3, who) ==
      LookupForm(s, p, n2, n3, who)[1 := who.meid][2 := s.byNumber[1]]
  {
  }

  lemma FirstAccounts(s: AuthState, p: Progress, n2: nat, n3: nat, who: Newcomers)
    requires Coherent(s) && Possible(s, p) && !p.first && 1 in s.byNumber
    requires who.meid != who.drop && NewcomersFresh(s, who)
    ensures var x := s.byNumber[1];
      AccountsForm(s, p.(first := true), n2, n3, who) ==
      AccountsForm(s, p, n2, n3, who)[who.meid := NewBaseAccount(who.meid).(number := 1)]
                                     [x := s.accounts[x].(number := 2)]
  {
  }

  lemma FirstVisited(s: AuthState, p: Progress, t: AuthState, n2: nat, n3: nat, who: Newcomers)
    requires Coherent(s) && s.next > 3 && who.meid != who.drop
    requires InForm(s, p, t, n2, n3, who) && !p.first && 1 in s.byNumber
    requires s.accounts[s.byNumber[1]].address == s.byNumber[1]
    ensures InForm(s, p.(first := true), RenumberStep(t, s.accounts[s.byNumber[1]], who), n2, n3, who)
  {
    FirstLookup(s, p, n2, n3, who);
    if NewcomersFresh(s, who) {
      FirstAccounts(s, p, n2, n3, who);
    }
  }

  lemma SecondVisited(s: AuthState, p: Progress, t: AuthState, n2: nat, n3: nat, who: Newcomers)
    requires Coherent(s) && s.next > 3
    requires InForm(s, p, t, n2, n3, who) && !p.second && 2 in s.byNumber
    requires s.accounts[s.byNumber[2]].address == s.byNumber[2]
    ensures InForm(s, p.(second := true), RenumberStep(t, s.accounts[s.byNumber[2]], who), t.next, n3, who)
  {
  }

  lemma ThirdVisited(s: AuthState, p: Progress, t: AuthState, n2: nat, n3: nat, who: Newcomers)
    requires Coherent(s) && s.next > 3
    requires InForm(s, p, t, n2, n3, who) && !p.third && 3 in s.byNumber
    requires s.accounts[s.byNumber[3]].address == s.byNumber[3]
    ensures InForm(s, p.(third := true), RenumberStep(t, s.accounts[s.byNumber[3]], who), n2, t.next, who)
  {
  }

  /** One visit keeps the closed forms. The account's number says which of n2 and n3 it fixes. */
  lemma StepKeepsForm(s: AuthState, done: set<Address>, t: AuthState, acc: Account, n2: nat, n3: nat, who: Newcomers)
    returns (m2: nat, m3: nat)
    requires Coherent(s) && s.next > 3 && who.meid != who.drop
    requires acc.address in s.accounts && s.accounts[acc.address] == acc && acc.address !in done
    requires InForm(s, Visited(s, done), t, n2, n3, who)
    ensures InForm(s, Visited(s, done + {acc.address}), RenumberStep(t, acc, who), m2, m3, who)
  {
    var p := Visited(s, done);
    m2 := if acc.number == 2 then t.next else n2;
    m3 := if acc.number == 3 then t.next else n3;
    assert s.byNumber[acc.number] == acc.address;
    assert Visited(s, done + {acc.address}) ==
      Progress(p.first || acc.number == 1, p.second || acc.number == 2, p.third || acc.number == 3);
    if acc.number == 1 {
      FirstVisited(s, p, t, n2, n3, who);
    } else if acc.number == 2 {
      SecondVisited(s, p, t, n2, n3, who);
    } else if acc.number == 3 {
      ThirdVisited(s, p, t, n2, n3, who);
    } else {
      assert RenumberStep(t, acc, who) == t;
    }
  }

  lemma AddressesGrow(list: seq<Account>, i: nat)
    requires i < |list|
    requires forall j, k :: 0 <= j < k < |list| ==> list[j].address != list[k].address
    ensures Addresses(list[..i + 1]) == Addresses(list[..i]) + {list[i].address}
    ensures list[i].address !in Addresses(list[..i])
  {
  }

  lemma {:induction false} Form(s: AuthState, list: seq<Account>, i: nat, who: Newcomers, t: AuthState)
    returns (n2: nat, n3: nat)
    requires Coherent(s) && s.next > 3 && who.meid != who.drop
    requires Visits(list, s) && i <= |list| && t == RenumberPrefix(s, list, i, who)
    ensures InForm(s, Visited(s, Addresses(list[..i])), t, n2, n3, who)
  {
    n2, n3 := 0, 0;
    if i > 0 {
      var t0, done := RenumberPrefix(s, list, i - 1, who), Addresses(list[..i - 1]);
      n2, n3 := Form(s, list, i - 1, who, t0);
      AddressesGrow(list, i - 1);
      n2, n3 := StepKeepsForm(s, done, t0, list[i - 1], n2, n3, who);
    } else {
      assert Visited(s, Addresses(list[..0])) == Progress(false, false, false);
    }
  }

  /** Which numbers are held at all. */
  function Held(s: AuthState): Progress {
    Progress(1 in s.byNumber, 2 in s.byNumber, 3 in s.byNumber)
  }

  lemma FinalForm(s: AuthState, list: seq<Account>, who: Newcomers) returns (n2: nat, n3: nat)
    requires Coherent(s) && s.next > 3 && who.meid != who.drop
    requires Visits(list, s)
    ensures InForm(s, Held(s), RenumberPrefix(s, list, |list|, who), n2, n3, who)
  {
    n2, n3 := Form(s, list, |list|, who, RenumberPrefix(s, list, |list|, who));
    assert list[..|list|] == list;
    assert Visited(s, Addresses(list)) == Held(s);
  }

  ghost predicate Renumbered(acc: Account, acc': Account, s: AuthState, t: AuthState) {
    && acc'.address == acc.address && acc'.kind == acc.kind
    && (if acc.number == 1 then acc'.number == 2
        else if acc.number == 2 || acc.number == 3 then s.next <= acc'.number < t.next
        else acc'.number == acc.number)
  }

  /** Account 1 becomes 2, accounts 2 and 3 get numbers never given out before, the newcomers get
      1 and 3, and nobody else is renumbered. */
  ghost predicate NumbersMoved(s: AuthState, t: AuthState, who: Newcomers) {
    && (forall a :: a in s.accounts ==> a in t.accounts && Renumbered(s.accounts[a], t.accounts[a], s, t))
    && (1 in s.byNumber ==> who.meid in t.accounts && t.accounts[who.meid] == NewBaseAccount(who.meid).(number := 1))
    && (3 in s.byNumber ==> who.drop in t.accounts && t.accounts[who.drop] == NewBaseAccount(who.drop).(number := 3))
    && (forall a :: a in t.accounts && a !in s.accounts ==>
          (a == who.meid && 1 in s.byNumber) || (a == who.drop && 3 in s.byNumber))
  }

  lemma FormMovesAccount(s: AuthState, t: AuthState, n2: nat, n3: nat, who: Newcomers, a: Address)
    requires Coherent(s) && who.meid != who.drop && NewcomersFresh(s, who)
    requires InForm(s, Held(s), t, n2, n3, who) && a in s.accounts
    ensures a in t.accounts && Renumbered(s.accounts[a], t.accounts[a], s, t)
  {
    assert s.byNumber[s.accounts[a].number] == a;
  }

  lemma FormMovesNumbers(s: AuthState, t: AuthState, n2: nat, n3: nat, who: Newcomers)
    requires Coherent(s) && who.meid != who.drop && NewcomersFresh(s, who)
    requires InForm(s, Held(s), t, n2, n3, who)
    ensures NumbersMoved(s, t, who)
  {
    forall a | a in s.accounts ensures a in t.accounts && Renumbered(s.accounts[a], t.accounts[a], s, t) {
      FormMovesAccount(s, t, n2, n3, who, a);
    }
  }

  /** The number an account of `s` ends up with. */
  function NewNumber(n: nat, n2: nat, n3: nat): nat {
    if n == 1 then 2 else if n == 2 then n2 else if n == 3 then n3 else n
  }

  lemma FormNumbers(s: AuthState, t: AuthState, n2: nat, n3: nat, who: Newcomers)
    requires Coherent(s) && who.meid != who.drop && NewcomersFresh(s, who)
    requires InForm(s, Held(s), t, n2, n3, who)
    ensures forall a :: a in s.accounts ==>
      a in t.accounts && t.accounts[a].number == NewNumber(s.accounts[a].number, n2, n3)
  {
  }

  lemma OldNumbersStayDifferent(s: AuthState, a: Address, b: Address, n2: nat, n3: nat, next: nat)
    requires Coherent(s) && Bounded(s) && s.next > 3 && Allotted(s, Held(s), n2, n3, next)
    requires a in s.accounts && b in s.accounts
    ensures NewNumber(s.accounts[a].number, n2, n3) == NewNumber(s.accounts[b].number, n2, n3) ==> a == b
    ensures NewNumber(s.accounts[a].number, n2, n3) < next
    ensures 1 in s.byNumber ==> NewNumber(s.accounts[a].number, n2, n3) != 1
    ensures 3 in s.byNumber ==> NewNumber(s.accounts[a].number, n2, n3) != 3
  {
  }

  lemma MovedNumbersAreInjective(s: AuthState, t: AuthState, n2: nat, n3: nat, who: Newcomers)
    requires Coherent(s) && Bounded(s) && s.next > 3 && who.meid != who.drop && NewcomersFresh(s, who)
    requires InForm(s, Held(s), t, n2, n3, who)
    ensures Injective(t)
    ensures forall a :: a in t.accounts ==> t.accounts[a].number < t.next
  {
    FormMovesNumbers(s, t, n2, n3, who);
    FormNumbers(s, t, n2, n3, who);
    forall a, b | a in t.accounts && b in t.accounts && t.accounts[a].number == t.accounts[b].number
      ensures a == b
    {
      if a in s.accounts {
        OldNumbersStayDifferent(s, a, if b in s.accounts then b else a, n2, n3, t.next);
      } else if b in s.accounts {
        OldNumbersStayDifferent(s, b, b, n2, n3, t.next);
      }
    }
    forall a | a in t.accounts ensures t.accounts[a].number < t.next {
      if a in s.accounts {
        OldNumbersStayDifferent(s, a, a, n2, n3, t.next);
      }
    }
  }

  lemma FormIsBounded(s: AuthState, t: AuthState, n2: nat, n3: nat, who: Newcomers)
    requires Coherent(s) && Bounded(s) && s.next > 3
    requires InForm(s, Held(s), t, n2, n3, who)
    ensures forall n :: n in t.byNumber ==> n < t.next
  {
  }

  /** The final numbering, for every visiting order: it is as described by `NumbersMoved`, no two
      accounts share a number, and the next number is still above all of them. */
  lemma FinalNumbers(s: AuthState, list: seq<Account>, who: Newcomers)
    requires Coherent(s) && Bounded(s) && s.next > 3 && who.meid != who.drop
    requires NewcomersFresh(s, who) && Visits(list, s)
    ensures var t := RenumberPrefix(s, list, |list|, who);
      NumbersMoved(s, t, who) && Injective(t) && Bounded(t)
  {
    var n2, n3 := FinalForm(s, list, who);
    FormMovesNumbers(s, RenumberPrefix(s, list, |list|, who), n2, n3, who);
    MovedNumbersAreInjective(s, RenumberPrefix(s, list, |list|, who), n2, n3, who);
    FormIsBounded(s, RenumberPrefix(s, list, |list|, who), n2, n3, who);
  }

  lemma FormListsAccounts(s: AuthState, t: AuthState, n2: nat, n3: nat, who: Newcomers, a: Address)
    requires Coherent(s) && Bounded(s) && s.next > 3 && who.meid != who.drop
    requires NewcomersFresh(s, who) && SecondIsRefilled(s)
    requires InForm(s, Held(s), t, n2, n3, who) && a in t.accounts
    ensures t.accounts[a].number in t.byNumber && t.byNumber[t.accounts[a].number] == a
  {
    if a in s.accounts {
      assert s.byNumber[s.accounts[a].number] == a;
    }
  }

  lemma FormFindsAccounts(s: AuthState, t: AuthState, n2: nat, n3: nat, who: Newcomers, n: nat)
    requires Coherent(s) && Bounded(s) && s.next > 3 && who.meid != who.drop
    requires NewcomersFresh(s, who) && SecondIsRefilled(s)
    requires InForm(s, Held(s), t, n2, n3, who) && n in t.byNumber
    ensures t.byNumber[n] in t.accounts && t.accounts[t.byNumber[n]].number == n
  {
  }

  lemma FormIsCoherent(s: AuthState, t: AuthState, n2: nat, n3: nat, who: Newcomers)
    requires Coherent(s) && Bounded(s) && s.next > 3 && who.meid != who.drop
    requires NewcomersFresh(s, who) && SecondIsRefilled(s)
    requires InForm(s, Held(s), t, n2, n3, who)
    ensures Coherent(t)
  {
    forall a | a in t.accounts
      ensures t.accounts[a].number in t.byNumber && t.byNumber[t.accounts[a].number] == a
    {
      FormListsAccounts(s, t, n2, n3, who, a);
    }
    forall n | n in t.byNumber ensures t.byNumber[n] in t.accounts && t.accounts[t.byNumber[n]].number == n {
      FormFindsAccounts(s, t, n2, n3, who, n);
    }
  }

  /** A newcomer whose address is taken, or an account 2 with no account 1 to follow it, is found
      under two numbers. */
  lemma FormIsIncoherent(s: AuthState, t: AuthState, n2: nat, n3: nat, who: Newcomers)
    requires Coherent(s) && Bounded(s) && s.next > 3
    requires InForm(s, Held(s), t, n2, n3, who)
    requires !(NewcomersFresh(s, who) && SecondIsRefilled(s))
    ensures !Coherent(t)
  {
    var m, n;
    if !SecondIsRefilled(s) {
      m, n := 2, n2;
    } else {
      var a := if 1 in s.byNumber && who.meid in s.accounts then who.meid else who.drop;
      m := if a == who.meid && 1 in s.byNumber then 1 else 3;
      var k := s.accounts[a].number;
      assert s.byNumber[k] == a;
      n := if k == 1 then 2 else if k == 2 then n2 else if k == 3 then n3 else k;
    }
    assert m in t.byNumber && n in t.byNumber && t.byNumber[m] == t.byNumber[n] && m != n;
  }

  /** The lookup from numbers to accounts ends up right exactly when the newcomers' addresses were
      free and number 2, if held, had an account 1 to pass it on to. */
  lemma LookupCoherentExactlyWhen(s: AuthState, list: seq<Account>, who: Newcomers)
    requires Coherent(s) && Bounded(s) && s.next > 3 && who.meid != who.drop
    requires Visits(list, s)
    ensures Coherent(RenumberPrefix(s, list, |list|, who)) <==> NewcomersFresh(s, who) && SecondIsRefilled(s)
  {
    var n2, n3 := FinalForm(s, list, who);
    if NewcomersFresh(s, who) && SecondIsRefilled(s) {
      FormIsCoherent(s, RenumberPrefix(s, list, |list|, who), n2, n3, who);
    } else {
      FormIsIncoherent(s, RenumberPrefix(s, list, |list|, who), n2, n3, who);
    }
  }
}
