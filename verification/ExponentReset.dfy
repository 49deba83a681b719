/** The first pass of the v47 upgrade (app/upgrade_v47.go, `resetExponent`): every account's
    balances are multiplied by 100 by minting the difference through the mint module, and in the
    same loop the accounts numbered 1, 2 and 3 are renumbered. */
module ExponentReset {
  import opened Outcomes
  import opened Precision
  import opened Coins
  import opened Ledgers
  import opened Auth
  import opened Bank
  import opened Renumbering
  import opened AppConfig

  /** The bank lets this account receive: a module account needs a configured name, any other
      account must not be blocked. */
  ghost predicate CanReceive(bank: BankKeeper, acc: Account)
    reads bank, bank.ak
  {
    match acc.kind
    case ModuleKind(name, _) => bank.ak.Usable(name)
    case Plain(_) => !bank.IsBlocked(acc.address)
  }

  /** What a caller can check before the upgrade to know that the pass will go through. */
  ghost predicate Migratable(bank: BankKeeper)
    reads bank, bank.ak
  {
    bank.ak.accounts == map[] ||
    (bank.CanMint(Mint) &&
     forall a :: a in bank.ak.accounts ==> Accepts(bank, bank.ak.accounts[a]))
  }

  ghost predicate NewcomersAreNotModules(ak: AccountKeeper, who: Newcomers) {
    forall n :: ak.moduleAddress(n) != who.meid && ak.moduleAddress(n) != who.drop
  }

  function MintAccount(ak: AccountKeeper): AccountKind
    requires Mint in ak.permissions
  {
    ModuleKind(Mint, ak.permissions[Mint])
  }

  /** The coins missing to a hundredfold balance. */
  method MissingCoins(balances: seq<Coin>) returns (mint: seq<Coin>)
    requires ValidCoins(balances)
    ensures ValidCoins(mint)
    ensures forall d :: AmountOf(mint, d) == (MULTIPLIER - 1) * AmountOf(balances, d)
  {
    mint := [];
    var i := 0;
    while i < |balances|
      invariant 0 <= i == |mint| <= |balances|
      invariant forall k :: 0 <= k < i ==>
        mint[k] == Coin(balances[k].denom, (MULTIPLIER - 1) * balances[k].amount)
      invariant forall d :: AmountOf(mint, d) == (MULTIPLIER - 1) * AmountOf(balances[..i], d)
    {
      var balance := balances[i];
      var missing := Coin(balance.denom, balance.amount * MULTIPLIER - balance.amount);
      forall d ensures AmountOf(mint + [missing], d) == (MULTIPLIER - 1) * AmountOf(balances[..i + 1], d) {
        AmountOfAppend(mint, missing, d);
        AmountOfPrefix(balances, i, d);
      }
      mint := mint + [missing];
      i := i + 1;
    }
    assert balances[..i] == balances;
  }

  lemma MintedAndSent(l: Ledger, l1: Ledger, l2: Ledger, mint: Address, to: Address, cs: seq<Coin>)
    requires forall d :: AmountOf(cs, d) == (MULTIPLIER - 1) * Bal(l, to, d)
    requires Credited(l, l1, mint, cs) && Moved(l1, l2, mint, to, cs)
    ensures forall x, d :: Bal(l2, x, d) == (if x == to then MULTIPLIER else 1) * Bal(l, x, d)
  {
  }

  lemma CreditCovers(l: Ledger, l1: Ledger, a: Address, cs: seq<Coin>)
    requires Credited(l, l1, a, cs)
    ensures Covers(l1, a, cs)
  {
  }

  /** One account's balances become a hundredfold, whether it is a plain account, another module's
      or the mint module's own; nobody else's change. */
  method Rescale(bank: BankKeeper, acc: Account) returns (r: Outcome)
    requires bank.Valid() && WellKeyed(bank.ak.State(), bank.ak.moduleAddress)
    requires acc.address in bank.ak.accounts
    requires acc.kind.ModuleKind? ==> acc.address == bank.ak.moduleAddress(acc.kind.name)
    modifies bank, bank.ak
    ensures WellKeyed(bank.ak.State(), bank.ak.moduleAddress)
    ensures r.Pass? <==> old(bank.CanMint(Mint) && CanReceive(bank, acc))
    ensures r.Pass? ==> bank.Valid()
    ensures r.Pass? ==> forall x, d ::
      Bal(bank.balances, x, d) == (if x == acc.address then MULTIPLIER else 1) * Bal(old(bank.balances), x, d)
    ensures r.Pass? ==> forall d ::
      SupplyOf(bank.supply, d) == SupplyOf(old(bank.supply), d) + (MULTIPLIER - 1) * Bal(old(bank.balances), acc.address, d)
    ensures r.Pass? ==>
      bank.ak.State() == WithModule(old(bank.ak.State()), bank.ak.moduleAddress(Mint), MintAccount(bank.ak))
  {
    var before := bank.GetAllBalances(acc.address);
    var mint := MissingCoins(before);
    r := bank.MintCoins(Mint, mint);
    if r.Fail? {
      return;
    }
    ghost var minted := bank.balances;
    CreditCovers(old(bank.balances), minted, bank.ak.moduleAddress(Mint), mint);
    match acc.kind {
      case ModuleKind(name, _) => r := bank.SendCoinsFromModuleToModule(Mint, name, mint);
      case Plain(_) => r := bank.SendCoinsFromModuleToAccount(Mint, acc.address, mint);
    }
    if r.Pass? {
      MintedAndSent(old(bank.balances), minted, bank.balances, bank.ak.moduleAddress(Mint), acc.address, mint);
    }
  }

  /** The renumbering part of the loop body, statement by statement. */
  method Renumber(ak: AccountKeeper, who: Newcomers, snapshot: Account)
    modifies ak
    ensures ak.State() == RenumberStep(old(ak.State()), snapshot, who)
  {
    var account := snapshot;
    if account.number == 2 {
      var n := ak.NextAccountNumber();
      account := account.(number := n);
      ak.SetAccount(account);
    }
    if account.number == 1 {
      var meidAdmin := NewBaseAccount(who.meid);
      meidAdmin := meidAdmin.(number := 1);
      ak.SetAccount(meidAdmin);
      account := account.(number := 2);
      ak.SetAccount(account);
    }
    if account.number == 3 {
      var n := ak.NextAccountNumber();
      account := account.(number := n);
      ak.SetAccount(account);
      var airDrop := NewBaseAccount(who.drop);
      airDrop := airDrop.(number := 3);
      ak.SetAccount(airDrop);
    }
  }

  /** The auth store as the first mint leaves it: with a mint module account. */
  function Prepared(s: AuthState, ak: AccountKeeper): AuthState
    requires Mint in ak.permissions
  {
    WithModule(s, ak.moduleAddress(Mint), MintAccount(ak))
  }

  /** One iteration of the loop. */
  method Visit(bank: BankKeeper, who: Newcomers, acc: Account) returns (r: Outcome)
    requires bank.Valid() && WellKeyed(bank.ak.State(), bank.ak.moduleAddress)
    requires acc.address in bank.ak.accounts
    requires acc.kind.ModuleKind? ==> acc.address == bank.ak.moduleAddress(acc.kind.name)
    modifies bank, bank.ak
    ensures r.Pass? <==> old(bank.CanMint(Mint) && CanReceive(bank, acc))
    ensures r.Pass? ==> bank.Valid() && VisitEffect(old(StoresOf(bank)), StoresOf(bank), bank.ak, acc, who)
  {
    r := Rescale(bank, acc);
    if r.Pass? {
      Renumber(bank.ak, who, acc);
    }
  }

  /** The accounts in `done` have their balances multiplied, nobody else has. */
  ghost predicate Multiplied(l0: Ledger, l: Ledger, done: set<Address>) {
    forall a, d :: Bal(l, a, d) == (if a in done then MULTIPLIER else 1) * Bal(l0, a, d)
  }

  ghost predicate SupplyGrown(l0: Ledger, s0: map<Denom, nat>, s: map<Denom, nat>, done: set<Address>) {
    forall d :: SupplyOf(s, d) == SupplyOf(s0, d) + (MULTIPLIER - 1) * HeldBy(l0, done, d)
  }

  lemma SupplyGrowsByOne(l0: Ledger, s0: map<Denom, nat>, s: map<Denom, nat>, s': map<Denom, nat>,
                         done: set<Address>, a: Address)
    requires SupplyGrown(l0, s0, s, done) && a !in done
    requires forall d :: SupplyOf(s', d) == SupplyOf(s, d) + (MULTIPLIER - 1) * Bal(l0, a, d)
    ensures SupplyGrown(l0, s0, s', done + {a})
  {
    forall d ensures SupplyOf(s', d) == SupplyOf(s0, d) + (MULTIPLIER - 1) * HeldBy(l0, done + {a}, d) {
      HeldByOneMore(l0, done, a, d);
    }
  }

  lemma MultipliedOneMore(l0: Ledger, l: Ledger, l': Ledger, done: set<Address>, a: Address)
    requires Multiplied(l0, l, done) && a !in done
    requires forall x, d :: Bal(l', x, d) == (if x == a then MULTIPLIER else 1) * Bal(l, x, d)
    ensures Multiplied(l0, l', done + {a})
  {
  }

  lemma EnumeratesAll(list: seq<Account>, accounts: map<Address, Account>)
    requires Enumerates(list, accounts)
    ensures Addresses(list) == accounts.Keys
  {
  }

  /** Accounts other than the newcomers stay, and stay of the same kind. */
  ghost predicate KindsKept(s: AuthState, t: AuthState, who: Newcomers) {
    forall a :: a in s.accounts ==>
      a in t.accounts && (a != who.meid && a != who.drop ==> t.accounts[a].kind == s.accounts[a].kind)
  }

  lemma StepKeepsKinds(s: AuthState, t: AuthState, acc: Account, who: Newcomers)
    requires acc.address in s.accounts && s.accounts[acc.address] == acc
    requires KindsKept(s, t, who)
    ensures KindsKept(s, RenumberStep(t, acc, who), who)
  {
  }

  lemma StepKeepsKeys(t: AuthState, acc: Account, moduleAddress: ModuleName -> Address, who: Newcomers)
    requires WellKeyed(t, moduleAddress)
    requires acc.kind.ModuleKind? ==> acc.address == moduleAddress(acc.kind.name)
    ensures WellKeyed(RenumberStep(t, acc, who), moduleAddress)
  {
  }

  lemma {:induction false} RunKeepsKinds(s: AuthState, list: seq<Account>, i: nat, moduleAddress: ModuleName -> Address,
                                          who: Newcomers)
    requires i <= |list| && WellKeyed(s, moduleAddress)
    requires forall k :: 0 <= k < |list| ==> list[k].address in s.accounts && s.accounts[list[k].address] == list[k]
    ensures KindsKept(s, RenumberPrefix(s, list, i, who), who)
    ensures WellKeyed(RenumberPrefix(s, list, i, who), moduleAddress)
  {
    if i > 0 {
      RunKeepsKinds(s, list, i - 1, moduleAddress, who);
      StepKeepsKinds(s, RenumberPrefix(s, list, i - 1, who), list[i - 1], who);
      StepKeepsKeys(RenumberPrefix(s, list, i - 1, who), list[i - 1], moduleAddress, who);
    }
  }

  /** The auth store after i iterations. */
  function AuthAfter(s: AuthState, ak: AccountKeeper, list: seq<Account>, i: nat, who: Newcomers): AuthState
    requires i <= |list| && (i > 0 ==> Mint in ak.permissions)
  {
    if i == 0 then s else RenumberPrefix(Prepared(s, ak), list, i, who)
  }

  /** The mint account, once there, stays; so a later iteration adds nothing to `Prepared`. */
  lemma AuthAfterOneMore(s: AuthState, ak: AccountKeeper, list: seq<Account>, i: nat, who: Newcomers)
    requires i < |list| && Mint in ak.permissions && WellKeyed(s, ak.moduleAddress) && Enumerates(list, s.accounts)
    ensures AuthAfter(s, ak, list, i + 1, who) ==
      RenumberStep(Prepared(AuthAfter(s, ak, list, i, who), ak), list[i], who)
  {
    if i > 0 {
      RunKeepsKinds(Prepared(s, ak), list, i, ak.moduleAddress, who);
    } else {
      assert RenumberPrefix(Prepared(s, ak), list, 0, who) == Prepared(s, ak);
    }
  }

  lemma AuthAfterKeeps(s: AuthState, ak: AccountKeeper, list: seq<Account>, i: nat, who: Newcomers)
    requires i <= |list| && (i > 0 ==> Mint in ak.permissions)
    requires WellKeyed(s, ak.moduleAddress) && Enumerates(list, s.accounts)
    ensures WellKeyed(AuthAfter(s, ak, list, i, who), ak.moduleAddress) && KindsKept(s, AuthAfter(s, ak, list, i, who), who)
    ensures i > 0 ==> KindsKept(Prepared(s, ak), AuthAfter(s, ak, list, i, who), who)
  {
    if i > 0 {
      RunKeepsKinds(Prepared(s, ak), list, i, ak.moduleAddress, who);
    }
  }

  predicate Accepts(bank: BankKeeper, acc: Account) {
    match acc.kind
    case ModuleKind(name, _) => name in bank.ak.permissions
    case Plain(_) => !bank.IsBlocked(acc.address)
  }

  /** The stores the pass works on. */
  datatype Stores = Stores(auth: AuthState, balances: Ledger, supply: map<Denom, nat>)

  ghost function StoresOf(bank: BankKeeper): Stores
    reads bank, bank.ak
  {
    Stores(bank.ak.State(), bank.balances, bank.supply)
  }

  /** After i iterations. */
  ghost predicate Advanced(s0: Stores, s: Stores, ak: AccountKeeper, list: seq<Account>, i: nat, who: Newcomers)
    requires i <= |list|
  {
    && (i > 0 ==> Mint in ak.permissions)
    && s.auth == AuthAfter(s0.auth, ak, list, i, who)
    && Multiplied(s0.balances, s.balances, Addresses(list[..i]))
    && SupplyGrown(s0.balances, s0.supply, s.supply, Addresses(list[..i]))
  }

  /** What one visit does to the stores. */
  ghost predicate VisitEffect(s: Stores, s': Stores, ak: AccountKeeper, acc: Account, who: Newcomers)
    requires Mint in ak.permissions
  {
    && s'.auth == RenumberStep(Prepared(s.auth, ak), acc, who)
    && (forall x, d ::
          Bal(s'.balances, x, d) == (if x == acc.address then MULTIPLIER else 1) * Bal(s.balances, x, d))
    && (forall d ::
          SupplyOf(s'.supply, d) == SupplyOf(s.supply, d) + (MULTIPLIER - 1) * Bal(s.balances, acc.address, d))
  }

  lemma AdvancedOneMore(s0: Stores, s: Stores, s': Stores, ak: AccountKeeper, list: seq<Account>, i: nat, who: Newcomers)
    requires i < |list| && Mint in ak.permissions && WellKeyed(s0.auth, ak.moduleAddress)
    requires Enumerates(list, s0.auth.accounts)
    requires Advanced(s0, s, ak, list, i, who) && VisitEffect(s, s', ak, list[i], who)
    ensures Advanced(s0, s', ak, list, i + 1, who)
  {
    AuthAfterOneMore(s0.auth, ak, list, i, who);
    var done, a := Addresses(list[..i]), list[i].address;
    AddressesGrow(list, i);
    MultipliedOneMore(s0.balances, s.balances, s'.balances, done, a);
    assert forall d :: Bal(s.balances, a, d) == Bal(s0.balances, a, d);
    SupplyGrowsByOne(s0.balances, s0.supply, s.supply, s'.supply, done, a);
  }

  /** The mint module could mint in the store the pass began with. */
  ghost predicate CouldMint(ak: AccountKeeper, s: AuthState) {
    && Mint in ak.permissions
    && (ak.moduleAddress(Mint) in s.accounts ==> s.accounts[ak.moduleAddress(Mint)].kind.ModuleKind?)
    && Minter in if ak.moduleAddress(Mint) in s.accounts && s.accounts[ak.moduleAddress(Mint)].kind.ModuleKind?
                 then s.accounts[ak.moduleAddress(Mint)].kind.permissions else ak.permissions[Mint]
  }

  lemma BeforeVisit(bank: BankKeeper, who: Newcomers, list: seq<Account>, i: nat, s0: Stores)
    requires i < |list| && WellKeyed(s0.auth, bank.ak.moduleAddress) && NewcomersAreNotModules(bank.ak, who)
    requires Enumerates(list, s0.auth.accounts) && Advanced(s0, StoresOf(bank), bank.ak, list, i, who)
    ensures WellKeyed(bank.ak.State(), bank.ak.moduleAddress)
    ensures list[i].address in bank.ak.accounts
    ensures list[i].kind.ModuleKind? ==> list[i].address == bank.ak.moduleAddress(list[i].kind.name)
    ensures CanReceive(bank, list[i]) <==> Accepts(bank, list[i])
  {
    AuthAfterKeeps(s0.auth, bank.ak, list, i, who);
    assert s0.auth.accounts[list[i].address] == list[i];
  }

  /** Minting stays as possible, or as impossible, as it was at the start. */
  lemma MintingUnchanged(bank: BankKeeper, who: Newcomers, list: seq<Account>, i: nat, s0: Stores)
    requires i <= |list| && WellKeyed(s0.auth, bank.ak.moduleAddress) && NewcomersAreNotModules(bank.ak, who)
    requires Enumerates(list, s0.auth.accounts) && Advanced(s0, StoresOf(bank), bank.ak, list, i, who)
    ensures bank.CanMint(Mint) <==> CouldMint(bank.ak, s0.auth)
  {
    AuthAfterKeeps(s0.auth, bank.ak, list, i, who);
    if i > 0 {
      var mint := bank.ak.moduleAddress(Mint);
      assert bank.ak.accounts[mint].kind == Prepared(s0.auth, bank.ak).accounts[mint].kind;
    }
  }

  method Iterate(bank: BankKeeper, who: Newcomers, list: seq<Account>, i: nat, ghost s0: Stores) returns (r: Outcome)
    requires i < |list| && WellKeyed(s0.auth, bank.ak.moduleAddress) && NewcomersAreNotModules(bank.ak, who)
    requires Enumerates(list, s0.auth.accounts)
    requires bank.Valid() && Advanced(s0, StoresOf(bank), bank.ak, list, i, who)
    modifies bank, bank.ak
    ensures r.Pass? <==> CouldMint(bank.ak, s0.auth) && Accepts(bank, list[i])
    ensures r.Pass? ==> bank.Valid() && Advanced(s0, StoresOf(bank), bank.ak, list, i + 1, who)
  {
    BeforeVisit(bank, who, list, i, s0);
    MintingUnchanged(bank, who, list, i, s0);
    ghost var s := StoresOf(bank);
    r := Visit(bank, who, list[i]);
    if r.Pass? {
      AdvancedOneMore(s0, s, StoresOf(bank), bank.ak, list, i, who);
    }
  }

  method IterateAll(bank: BankKeeper, who: Newcomers, list: seq<Account>, ghost s0: Stores) returns (r: Outcome)
    requires WellKeyed(s0.auth, bank.ak.moduleAddress) && NewcomersAreNotModules(bank.ak, who)
    requires Enumerates(list, s0.auth.accounts) && bank.Valid() && StoresOf(bank) == s0
    modifies bank, bank.ak
    ensures r.Pass? <==> list == [] || (CouldMint(bank.ak, s0.auth) && forall j :: 0 <= j < |list| ==> Accepts(bank, list[j]))
    ensures r.Pass? ==> bank.Valid() && Advanced(s0, StoresOf(bank), bank.ak, list, |list|, who)
  {
    AdvancedStarts(s0, bank.ak, list, who);
    var i := 0;
    while i < |list|
      invariant 0 <= i <= |list|
      invariant bank.Valid() && Advanced(s0, StoresOf(bank), bank.ak, list, i, who)
      invariant i > 0 ==> CouldMint(bank.ak, s0.auth)
      invariant forall j :: 0 <= j < i ==> Accepts(bank, list[j])
    {
      r := Iterate(bank, who, list, i, s0);
      if r.Fail? {
        return;
      }
      i := i + 1;
    }
    r := Pass;
  }

  /** The whole first pass. It goes through exactly when every account can receive; then every
      listed account has 100 times its old balance in every denomination, every other balance is
      what it was, and the recorded supply has grown by 99 times what the listed accounts held. */
  method ResetExponent(bank: BankKeeper, who: Newcomers) returns (r: Outcome, ghost list: seq<Account>)
    requires bank.Valid() && WellKeyed(bank.ak.State(), bank.ak.moduleAddress) && NewcomersAreNotModules(bank.ak, who)
    modifies bank, bank.ak
    ensures Enumerates(list, old(bank.ak.accounts))
    ensures r.Pass? <==> old(Migratable(bank))
    ensures r.Pass? ==> bank.Valid() && WellKeyed(bank.ak.State(), bank.ak.moduleAddress)
    ensures r.Pass? ==> Multiplied(old(bank.balances), bank.balances, old(bank.ak.accounts).Keys)
    ensures r.Pass? ==> SupplyGrown(old(bank.balances), old(bank.supply), bank.supply, old(bank.ak.accounts).Keys)
    ensures r.Pass? ==>
      && (list != [] ==> Mint in bank.ak.permissions)
      && bank.ak.State() == AuthAfter(old(bank.ak.State()), bank.ak, list, |list|, who)
  {
    ghost var s0 := StoresOf(bank);
    var all := bank.ak.GetAllAccounts();
    list := all;
    AcceptsEach(bank, s0.auth.accounts, all);
    r := IterateAll(bank, who, all, s0);
    if r.Pass? {
      AdvancedEnds(s0, StoresOf(bank), bank.ak, all, who);
    }
  }

  lemma AdvancedStarts(s0: Stores, ak: AccountKeeper, list: seq<Account>, who: Newcomers)
    ensures Advanced(s0, s0, ak, list, 0, who)
  {
    assert Addresses(list[..0]) == {};
    forall d { HeldByNone(s0.balances, d); }
  }

  lemma AdvancedEnds(s0: Stores, s: Stores, ak: AccountKeeper, list: seq<Account>, who: Newcomers)
    requires Advanced(s0, s, ak, list, |list|, who)
    requires WellKeyed(s0.auth, ak.moduleAddress) && Enumerates(list, s0.auth.accounts)
    ensures WellKeyed(s.auth, ak.moduleAddress)
    ensures Multiplied(s0.balances, s.balances, s0.auth.accounts.Keys)
    ensures SupplyGrown(s0.balances, s0.supply, s.supply, s0.auth.accounts.Keys)
  {
    assert list[..|list|] == list;
    EnumeratesAll(list, s0.auth.accounts);
    AuthAfterKeeps(s0.auth, ak, list, |list|, who);
  }

  lemma AcceptsEach(bank: BankKeeper, accounts: map<Address, Account>, list: seq<Account>)
    requires Enumerates(list, accounts)
    ensures (forall a :: a in accounts ==> Accepts(bank, accounts[a])) <==>
            forall j :: 0 <= j < |list| ==> Accepts(bank, list[j])
    ensures list == [] <==> accounts == map[]
  {
    if forall j :: 0 <= j < |list| ==> Accepts(bank, list[j]) {
      forall a | a in accounts ensures Accepts(bank, accounts[a]) {
        var j :| 0 <= j < |list| && list[j].address == a;
      }
    }
    if list != [] {
      assert list[0].address in accounts;
    }
  }

  /** When every balance belongs to an account, the whole supply is multiplied. */
  lemma SupplyHundredfold(s0: Stores, s: Stores)
    requires Backed(s0.balances, s0.supply)
    requires SupplyGrown(s0.balances, s0.supply, s.supply, s0.auth.accounts.Keys)
    requires forall k :: k in s0.balances ==> k.0 in s0.auth.accounts
    ensures forall d :: SupplyOf(s.supply, d) == MULTIPLIER * SupplyOf(s0.supply, d)
  {
    forall d ensures SupplyOf(s.supply, d) == MULTIPLIER * SupplyOf(s0.supply, d) {
      HeldByAll(s0.balances, s0.auth.accounts.Keys, d);
    }
  }

  lemma PreparedIsConsistent(s: AuthState, ak: AccountKeeper, who: Newcomers)
    requires Mint in ak.permissions && NewcomersAreNotModules(ak, who)
    requires Coherent(s) && Bounded(s) && s.next > 3
    ensures var p := Prepared(s, ak);
      && Coherent(p) && Bounded(p) && s.next <= p.next && Held(p) == Held(s)
      && (forall n :: n in {1, 2, 3} && n in s.byNumber ==> p.byNumber[n] == s.byNumber[n])
      && (NewcomersFresh(p, who) <==> NewcomersFresh(s, who))
  {
  }

  lemma PreparedIsVisited(s: AuthState, ak: AccountKeeper, who: Newcomers, list: seq<Account>)
    requires Mint in ak.permissions && NewcomersAreNotModules(ak, who)
    requires Coherent(s) && Bounded(s) && s.next > 3 && Enumerates(list, s.accounts)
    ensures Visits(list, Prepared(s, ak))
  {
  }

  lemma MovedFromPrepared(s: AuthState, p: AuthState, t: AuthState, mint: Address, who: Newcomers)
    requires s.next <= p.next && Held(p) == Held(s) && NumbersMoved(p, t, who)
    requires forall a :: a in s.accounts ==> a in p.accounts && p.accounts[a] == s.accounts[a]
    requires forall a :: a in p.accounts ==> a in s.accounts || a == mint
    ensures forall a :: a in s.accounts ==> a in t.accounts && Renumbered(s.accounts[a], t.accounts[a], s, t)
    ensures 1 in s.byNumber ==> who.meid in t.accounts && t.accounts[who.meid] == Account(who.meid, 1, Plain(0))
    ensures 3 in s.byNumber ==> who.drop in t.accounts && t.accounts[who.drop] == Account(who.drop, 3, Plain(0))
    ensures forall a :: a in t.accounts && a !in s.accounts ==>
      (a == who.meid && 1 in s.byNumber) || (a == who.drop && 3 in s.byNumber) || a == mint
  {
  }

  /** The numbering after the pass, for every order in which the store yields the accounts. */
  lemma NumbersAfterReset(s: AuthState, ak: AccountKeeper, who: Newcomers, list: seq<Account>, t: AuthState)
    requires Mint in ak.permissions && NewcomersAreNotModules(ak, who)
    requires Coherent(s) && Bounded(s) && s.next > 3 && Enumerates(list, s.accounts)
    requires who.meid != who.drop && NewcomersFresh(s, who)
    requires t == AuthAfter(s, ak, list, |list|, who)
    ensures Injective(t) && Bounded(t)
    ensures forall a :: a in s.accounts ==> a in t.accounts && Renumbered(s.accounts[a], t.accounts[a], s, t)
    ensures 1 in s.byNumber ==> who.meid in t.accounts && t.accounts[who.meid] == Account(who.meid, 1, Plain(0))
    ensures 3 in s.byNumber ==> who.drop in t.accounts && t.accounts[who.drop] == Account(who.drop, 3, Plain(0))
    ensures forall a :: a in t.accounts && a !in s.accounts ==>
      (a == who.meid && 1 in s.byNumber) || (a == who.drop && 3 in s.byNumber) || a == ak.moduleAddress(Mint)
  {
    if list == [] {
      EnumeratesAll(list, s.accounts);
    } else {
      var p := Prepared(s, ak);
      PreparedIsConsistent(s, ak, who);
      PreparedIsVisited(s, ak, who, list);
      FinalNumbers(p, list, who);
      MovedFromPrepared(s, p, t, ak.moduleAddress(Mint), who);
    }
  }

  /** How many numbers the pass hands out: one for the old second account, one for the old third, and
      one for the mint module's account if that is missing. */
  lemma NextAfterReset(s: AuthState, ak: AccountKeeper, who: Newcomers, list: seq<Account>)
    requires Mint in ak.permissions && NewcomersAreNotModules(ak, who)
    requires Coherent(s) && Bounded(s) && s.next > 3 && Enumerates(list, s.accounts) && who.meid != who.drop
    ensures AuthAfter(s, ak, list, |list|, who).next ==
      s.next + (if 2 in s.byNumber then 1 else 0) + (if 3 in s.byNumber then 1 else 0)
      + (if s.accounts != map[] && ak.moduleAddress(Mint) !in s.accounts then 1 else 0)
  {
    EnumeratesAll(list, s.accounts);
    if list == [] {
      assert s.accounts.Keys == {};
    } else {
      assert list[0].address in s.accounts;
      PreparedIsConsistent(s, ak, who);
      PreparedIsVisited(s, ak, who, list);
      var n2, n3 := FinalForm(Prepared(s, ak), list, who);
    }
  }

  /** The number lookup is right after the pass exactly when the two new addresses were free and
      number 2, if held, had an account 1 to pass it on to. */
  lemma LookupAfterReset(s: AuthState, ak: AccountKeeper, who: Newcomers, list: seq<Account>)
    requires Mint in ak.permissions && NewcomersAreNotModules(ak, who)
    requires Coherent(s) && Bounded(s) && s.next > 3 && Enumerates(list, s.accounts) && who.meid != who.drop
    ensures Coherent(AuthAfter(s, ak, list, |list|, who)) <==> NewcomersFresh(s, who) && SecondIsRefilled(s)
  {
    if list == [] {
      EnumeratesAll(list, s.accounts);
    } else {
      PreparedIsConsistent(s, ak, who);
      PreparedIsVisited(s, ak, who, list);
      LookupCoherentExactlyWhen(Prepared(s, ak), list, who);
    }
  }

  /** A store with an account 2 but no account 1: number 2 still leads to the account that left it. */
  lemma StaleLookupExample(ak: AccountKeeper, who: Newcomers, a: Address)
    requires Mint in ak.permissions && NewcomersAreNotModules(ak, who)
    requires a != ak.moduleAddress(Mint)
    ensures var acc := Account(a, 2, Plain(0));
      var s := AuthState(map[a := acc], map[2 := a], 4);
      var t := AuthAfter(s, ak, [acc], 1, who);
      Coherent(s) && Bounded(s) && 2 in t.byNumber && t.byNumber[2] == a && a in t.accounts && t.accounts[a].number == 5
  {
    var acc := Account(a, 2, Plain(0));
    var s := AuthState(map[a := acc], map[2 := a], 4);
    assert RenumberPrefix(Prepared(s, ak), [acc], 0, who) == Prepared(s, ak);
  }

  /** With the application's own permissions and blocked addresses, the pass goes through exactly
      when the mint account can mint, every module account has a configured name, and no plain
      account sits at a configured module's address, except governance's, which is not blocked. */
  lemma ConfiguredChainMigrates(bank: BankKeeper)
    requires bank.ak.permissions == MACC_PERMS
    requires forall a :: a in bank.blocked && bank.blocked[a] <==>
      a != bank.ak.moduleAddress(Gov) && exists n :: n in MACC_PERMS && bank.ak.moduleAddress(n) == a
    requires WellKeyed(bank.ak.State(), bank.ak.moduleAddress) && bank.ak.accounts != map[]
    ensures Migratable(bank) <==>
      && (var mint := bank.ak.moduleAddress(Mint);
          mint in bank.ak.accounts ==>
            bank.ak.accounts[mint].kind.ModuleKind? && Minter in bank.ak.accounts[mint].kind.permissions)
      && (forall a :: a in bank.ak.accounts && bank.ak.accounts[a].kind.ModuleKind? ==>
            bank.ak.accounts[a].kind.name in MACC_PERMS)
      && (forall a, n :: a in bank.ak.accounts && bank.ak.accounts[a].kind.Plain? && n in MACC_PERMS ==>
            a == bank.ak.moduleAddress(n) ==> a == bank.ak.moduleAddress(Gov))
  {
  }
}
