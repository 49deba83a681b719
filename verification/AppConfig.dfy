/** Module account permissions and the blocked-address set derived from them (app/app.go). */
module AppConfig {
  import opened Coins
  import opened Auth

  const MACC_PERMS: map<ModuleName, set<Permission>> := map[
    FeeCollector := {},
    Distribution := {},
    ReceiveMintReward := {},
    TreasuryPool := {},
    Mint := {Minter},
    BondedPool := {Burner, StakingPermission},
    NotBondedPool := {Burner, StakingPermission},
    BondedStakePool := {Burner, StakingPermission},
    NotBondedStakePool := {Burner, StakingPermission},
    StakePool := {StakingPermission},
    MeidNFTPool := {Minter, Burner},
    FixedDepositPrincipalPool := {},
    Gov := {Burner},
    IbcTransfer := {Minter, Burner},
    Nft := {},
    IbcFee := {},
    InterchainAccounts := {},
    Wasm := {Burner}
  ]

  /** Every named module is configured and no other is; who may mint, burn and stake. */
  lemma WhoMayDoWhat(n: ModuleName)
    ensures n in MACC_PERMS <==> !n.OtherModule?
    ensures n in MACC_PERMS ==>
      && (Minter in MACC_PERMS[n] <==> n in {Mint, MeidNFTPool, IbcTransfer})
      && (Burner in MACC_PERMS[n] <==>
            n in {BondedPool, NotBondedPool, BondedStakePool, NotBondedStakePool, MeidNFTPool, Gov, IbcTransfer, Wasm})
      && (StakingPermission in MACC_PERMS[n] <==>
            n in {BondedPool, NotBondedPool, BondedStakePool, NotBondedStakePool, StakePool})
  {
  }

  /** A copy of the permission map, made entry by entry. */
  method GetMaccPerms(perms: map<ModuleName, set<Permission>>) returns (dup: map<ModuleName, set<Permission>>)
    ensures dup == perms
  {
    dup := map[];
    var rest := perms.Keys;
    while rest != {}
      invariant rest <= perms.Keys
      invariant dup.Keys == perms.Keys - rest
      invariant forall n :: n in dup ==> dup[n] == perms[n]
    {
      var n :| n in rest;
      dup := dup[n := perms[n]];
      rest := rest - {n};
    }
  }

  /** The addresses that may not receive plain transfers: every module's, except governance's. */
  method BlockedAddresses(perms: map<ModuleName, set<Permission>>, moduleAddress: ModuleName -> Address)
    returns (blocked: map<Address, bool>)
    ensures forall a :: a in blocked && blocked[a] <==>
      a != moduleAddress(Gov) && exists n :: n in perms && moduleAddress(n) == a
  {
    blocked := map[];
    var copy := GetMaccPerms(perms);
    var rest := copy.Keys;
    while rest != {}
      invariant rest <= perms.Keys
      invariant forall a :: a in blocked ==> blocked[a] && exists n :: n in perms && moduleAddress(n) == a
      invariant forall n :: n in perms ==> n in rest || moduleAddress(n) in blocked
    {
      var n :| n in rest;
      blocked := blocked[moduleAddress(n) := true];
      rest := rest - {n};
    }
    blocked := blocked - {moduleAddress(Gov)};
  }
}
