/** Contract of the SDK's account keeper (x/auth of v0.47): accounts by address, a lookup from
    account number to address, and the next number. `SetAccount` only ever overwrites: it never
    removes the lookup entry of a number the account held before. */
module Auth {
  import opened Outcomes
  import opened Coins

  datatype Permission = Minter | Burner | StakingPermission

  /** Module names the application gives permissions to, and any other. */
  datatype ModuleName =
    | FeeCollector | Distribution | ReceiveMintReward | TreasuryPool | Mint
    | BondedPool | NotBondedPool | BondedStakePool | NotBondedStakePool | StakePool
    | MeidNFTPool | FixedDepositPrincipalPool | Gov | IbcTransfer | Nft | IbcFee | InterchainAccounts | Wasm
    | OtherModule(name: string)

  /** A module account carries the permissions it was created with. */
  datatype AccountKind = Plain(sequence: nat) | ModuleKind(name: ModuleName, permissions: set<Permission>)

  datatype Account = Account(address: Address, number: nat, kind: AccountKind)

  datatype AuthState = AuthState(accounts: map<Address, Account>, byNumber: map<nat, Address>, next: nat)

  /** `NewBaseAccountWithAddress`, which leaves the number at zero. */
  function NewBaseAccount(a: Address): Account {
    Account(a, 0, Plain(0))
  }

  function WithAccount(s: AuthState, acc: Account): AuthState {
    s.(accounts := s.accounts[acc.address := acc], byNumber := s.byNumber[acc.number := acc.address])
  }

  /** Makes sure a module account exists; a new one takes the next number. */
  function WithModule(s: AuthState, a: Address, kind: AccountKind): AuthState {
    if a in s.accounts then s
    else WithAccount(s.(next := s.next + 1), Account(a, s.next, kind))
  }

  /** The lookup and the accounts say the same. */
  ghost predicate Coherent(s: AuthState) {
    && (forall a :: a in s.accounts ==> s.accounts[a].number in s.byNumber && s.byNumber[s.accounts[a].number] == a)
    && (forall n :: n in s.byNumber ==> s.byNumber[n] in s.accounts && s.accounts[s.byNumber[n]].number == n)
  }

  /** Numbers given out are below the next one. */
  ghost predicate Bounded(s: AuthState) {
    && (forall a :: a in s.accounts ==> s.accounts[a].number < s.next)
    && (forall n :: n in s.byNumber ==> n < s.next)
  }

  ghost predicate Injective(s: AuthState) {
    forall a, b :: a in s.accounts && b in s.accounts && s.accounts[a].number == s.accounts[b].number ==> a == b
  }

  /** Accounts are stored at their own address, and module accounts at their module's. */
  ghost predicate WellKeyed(s: AuthState, moduleAddress: ModuleName -> Address) {
    forall a :: a in s.accounts ==>
      && s.accounts[a].address == a
      && (s.accounts[a].kind.ModuleKind? ==> a == moduleAddress(s.accounts[a].kind.name))
  }

  /** `list` holds every account exactly once, in some order. */
  ghost predicate Enumerates(list: seq<Account>, accounts: map<Address, Account>) {
    && (forall i :: 0 <= i < |list| ==> list[i].address in accounts && accounts[list[i].address] == list[i])
    && (forall i, j :: 0 <= i < j < |list| ==> list[i].address != list[j].address)
    && (forall a :: a in accounts ==> exists i :: 0 <= i < |list| && list[i].address == a)
  }

  class AccountKeeper {
    const permissions: map<ModuleName, set<Permission>>
    const moduleAddress: ModuleName -> Address

    var accounts: map<Address, Account>
    var byNumber: map<nat, Address>
    var next: nat

    constructor (permissions: map<ModuleName, set<Permission>>, moduleAddress: ModuleName -> Address)
      ensures this.permissions == permissions && this.moduleAddress == moduleAddress
      ensures State() == AuthState(map[], map[], 0)
    {
      this.permissions, this.moduleAddress := permissions, moduleAddress;
      accounts, byNumber, next := map[], map[], 0;
    }

    ghost function State(): AuthState
      reads this
    {
      AuthState(accounts, byNumber, next)
    }

    method SetAccount(acc: Account)
      modifies this`accounts, this`byNumber
      ensures State() == WithAccount(old(State()), acc)
    {
      accounts := accounts[acc.address := acc];
      byNumber := byNumber[acc.number := acc.address];
    }

    method NextAccountNumber() returns (n: nat)
      modifies this`next
      ensures n == old(next) && next == n + 1
    {
      n := next;
      next := next + 1;
    }

    /** A snapshot of all accounts, in whatever order the store yields them. */
    method GetAllAccounts() returns (list: seq<Account>)
      requires WellKeyed(State(), moduleAddress)
      ensures Enumerates(list, accounts)
    {
      list := [];
      var rest := accounts.Keys;
      while rest != {}
        invariant rest <= accounts.Keys
        invariant forall i :: 0 <= i < |list| ==>
          list[i].address in accounts && list[i].address !in rest && accounts[list[i].address] == list[i]
        invariant forall i, j :: 0 <= i < j < |list| ==> list[i].address != list[j].address
        invariant forall a :: a in accounts ==> a in rest || exists i :: 0 <= i < |list| && list[i].address == a
      {
        var a :| a in rest;
        var longer := list + [accounts[a]];
        forall b | b in accounts ensures b in rest - {a} || exists i :: 0 <= i < |longer| && longer[i].address == b {
          if b == a {
            assert longer[|list|].address == b;
          } else if b !in rest {
            var i :| 0 <= i < |list| && list[i].address == b;
            assert longer[i].address == b;
          }
        }
        list := longer;
        rest := rest - {a};
      }
    }

    /** The keeper knows the module, and no plain account sits at the module's address. */
    ghost predicate Usable(name: ModuleName)
      reads this
    {
      name in permissions && (moduleAddress(name) in accounts ==> accounts[moduleAddress(name)].kind.ModuleKind?)
    }

    /** Finds or creates a module's account. An unknown module gives a nil account, on which the
        bank panics; a plain account at a module's address panics here. */
    method GetModuleAccount(name: ModuleName) returns (r: Result<Account>)
      requires WellKeyed(State(), moduleAddress)
      modifies this
      ensures r.Ok? <==> old(Usable(name))
      ensures r.Err? ==> State() == old(State())
      ensures r.Ok? ==> State() == WithModule(old(State()), moduleAddress(name), ModuleKind(name, permissions[name]))
      ensures r.Ok? ==> moduleAddress(name) in accounts && r.value == accounts[moduleAddress(name)]
      ensures r.Ok? ==> r.value.address == moduleAddress(name) && r.value.kind.ModuleKind?
      ensures WellKeyed(State(), moduleAddress)
    {
      if name !in permissions {
        return Err(Panic("module account does not exist"));
      }
      var a := moduleAddress(name);
      if a in accounts {
        if !accounts[a].kind.ModuleKind? {
          return Err(Panic("account is not a module account"));
        }
      } else {
        var n := NextAccountNumber();
        SetAccount(Account(a, n, ModuleKind(name, permissions[name])));
      }
      return Ok(accounts[a]);
    }
  }
}
