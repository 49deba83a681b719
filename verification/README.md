# Verified model of the chain's state transformers

ME Hub is a Cosmos SDK application. Three pieces of hand-written Go in its `app` package change the
chain's state in ways that matter for everybody's money, and this project models them in Dafny and
proves what they do:

* the **v47 upgrade** (`app/upgrade_v47.go`): one pass multiplies every account's balances by 100
  and renumbers the accounts numbered 1, 2 and 3 on the way; a second pass gives every validator a
  new operator address and multiplies its tokens, its shares and the admin's stake by 100;
* **fee deduction** (`app/fee_deduct.go`): who pays nothing, what the mempool admits, which priority
  a transaction gets, how a fee is split 10/20/30/40 between receivers that may coincide, and what
  is charged to a fee grant;
* the **zero-height export** (`app/export.go`): reward scraps go to the community pool, recorded
  heights are set to zero, and validators outside a non-empty allow list are jailed;

and, from `app/app.go`, the module permissions and the blocked-address set, on which the success of
the upgrade depends.

`dafny verify dfyconfig.toml` checks the whole project.

## How it is built

| file | what it holds |
|---|---|
| `Outcomes.dfy`, `Precision.dfy`, `FixedPoint.dfy`, `Coins.dfy`, `Sums.dfy`, `Ledgers.dfy` | results, the upgrade's factor, 18-digit decimals with the SDK's rounding, sorted coin lists, sums over maps, the balance store |
| `Auth.dfy`, `Bank.dfy`, `Staking.dfy` | the keepers the Go code calls, as classes |
| `AppConfig.dfy` | module permissions and blocked addresses |
| `ExponentReset.dfy`, `Renumbering.dfy` | first pass of the upgrade: the loop, and the numbering it leaves |
| `ValidatorFix.dfy`, `ValidatorMigration.dfy`, `MigratedStore.dfy` | second pass: the loop, what it achieves, and the store it leaves, field by field |
| `ShareBacking.dfy` | what the second pass does to the shares behind a validator |
| `UpgradeV47.dfy` | both passes together |
| `FeeChecker.dfy`, `FeeSplit.dfy`, `FeeDeduction.dfy`, `FeeOutcomes.dfy`, `FeeRuns.dfy` | admission and priority, the split, the ante handler, what it means for each account, whole runs of transactions |
| `ZeroHeight.dfy` | the export |

The Go code works by changing stores in loops, and so do the methods here. Each loop is proved
against what it is for, or against a function on the stores whose properties are then lemmas;
`MigratedStore`, `FeeOutcomes` and `ZeroHeight.ResetInFull` say once more, without those functions,
what the stores hold afterwards. Where
a store is iterated, the order is left open: results hold for every order. A Go panic, an error
return and a `log.Fatal` are all failures; what a failing keeper call leaves half-written is not
relied on, because its caller drops the state.

## What is assumed of the keepers

The keepers come from a fork of the Cosmos SDK that is not in the repository. Their contracts are
those of SDK v0.47, stated as method contracts and implemented by small bodies:

* bank: balances are kept per account and denomination and zero entries are deleted; `MintCoins`
  needs the permission stored in the module's account and creates that account if it is missing;
  sending to a module needs a configured name, sending to a plain account needs an unblocked
  address; the many-receiver transfer validates, debits, then credits in turn;
* auth: `SetAccount` writes the account and the number lookup and deletes nothing;
* staking: keyed stores with set and delete; the power index is keyed by power and operator, and
  jailed validators are not put into it. `ApplyAndReturnValidatorSetUpdates` walks that index from
  the highest power down, up to the maximum number of validators or the first without power, and
  panics on a jailed one; the status changes it makes on the way are not modelled.
  `RemoveValidatorKeys` exists only in the fork: it is taken
  to delete the operator's record, and whether it also drops the consensus-address entry is a
  constant that may have either value, except that `ValidatorMigration.ConsAgreesExactlyWhen` is
  about a removal that leaves the entry;
* fee distribution: `FeeToReceivers` (`app/fee_deduct.go:207`, declared in
  `app/expected_keepers.go:22`) is a method of the fork; it is taken to do what the bank's
  `InputOutputCoins` does with the same input and outputs;
* fee grants: basic allowances, limited or unlimited, revoked when nothing is left;
* distribution: `AfterValidatorCreated` starts a validator's outstanding rewards afresh;
* bech32 parsing and the print-and-reparse of fee coins are arbitrary functions; the 27 operator
  addresses are an arbitrary table from monikers; module addresses are an arbitrary function that
  does not hit the two addresses the upgrade introduces;
* stores are well kept at the start: records sit under their own keys, the recorded supply is what
  the balances add up to, a node's minimum gas prices are sorted and not negative. Every result
  that needs more says so;
* the application works on a cached store and drops it when the ante handler fails, which is what
  `Deliver` adds to `AnteHandle`.

## Findings

* **Number lookup.** After the upgrade the lookup from account number to account is right exactly
  when the two introduced addresses were unused and number 2, if held, came with an account 1
  (`ExponentReset.LookupAfterReset`). A chain with an account 2 but no account 1 keeps a stale entry.
* **Validator clashes.** The second pass keeps every validator exactly when no new operator is given
  twice and none equals the operator of a validator still to be visited
  (`ValidatorMigration.OneToOneExactlyWhen`); otherwise a validator disappears without an error.
  `ValidatorMigration.ClashLosesValidator` shows it in a well-kept store, where the power index goes
  wrong too and a stake is lost.
* **Old stakes stay.** The admin's stake record at a validator's old operator is never deleted. It is
  unchanged unless that operator is given to a validator, and then it is what the last of these
  visits made of the stake found in it (`ValidatorMigration.OldStakeSurvives`); without a clash that
  is the validator's own migrated stake (`ValidatorMigration.TakenStakeIsMigrated`). So a renamed
  validator whose old operator nobody takes over leaves its old record behind beside the new one.
* **Other stakers.** A validator's shares are multiplied and follow it to its new operator, but of the
  stakes in it only the admin's does. Where shares were what the stakes add up to, they still are,
  for all validators, exactly when nobody but the admin had shares in any of them
  (`ShareBacking.AllBackedExactlyWhen`, with no stakes waiting at the new operators;
  `ShareBacking.BackedExactlyWhen` without that). `ShareBacking.SharedNodeLosesBacking` is a case
  where they are not.
* **Missing stakes.** A clash never raises an error, and can even hide one: a validator in which the
  admin has no stake passes if an earlier validator was given its operator
  (`ValidatorMigration.SucceedsExactlyWhen`).
* **Pools.** A pool account keeps matching its validators' tokens, whatever bond statuses it stands
  for. Coins that it holds beside them, such as those of unbonding entries, are multiplied in the
  pool but not in the entries, so the match is kept exactly when there were none
  (`UpgradeV47.PoolsKeepMatching`).
* **Last powers.** The powers of the last block are deleted for every validator and not written
  again (`ValidatorMigration.PowersAndHooks`).
* **Priority.** A coin with a price of zero resets the running minimum, so the priority is the least
  price after the last such coin. It is the least price of all exactly when every coin is worth at
  least one unit per gas or the last one is not (`FeeChecker.OverallMinimumExactlyWhen`); a fee of 5
  and 100 at gas 10 is a case where it is not (`FeeChecker.ZeroPriceForgotten`).
* **Wrapped gas.** Gas from 2^63 on is converted to a negative number. The decorator for basic
  validation, which would refuse it, is commented out (`app/ante.go:56`); what is left is the set-up
  decorator (`app/ante.go:52`), which refuses gas above the block's maximum if the consensus
  parameters set one. Where they do not, the priority is negative exactly when some coin is worth at
  least one unit per unit of the wrapped gas without its price being cut to MaxInt64
  (`FeeChecker.WrappedGasNegativeExactlyWhen`).
* **Power index after export.** Jailing for the allow list leaves the power index untouched, so the
  index still lists jailed validators unless every validator in it was allowed
  (`ZeroHeight.PowerIndexAgreesExactlyWhen`). The validator set update that follows panics when it
  comes across one, so the export completes exactly when the validators that the update gets to are
  all allowed (`ZeroHeight.WalkPassesExactlyWhen`, `ZeroHeight.OmittedPowerStopsWalk`).

Where code and comments differ, the model follows the code: the minimum fee is 10, though the error
says "greater than 10" (`app/fee_deduct.go:152-153`); several contract messages in one transaction
are accepted and the last one names the contract, though the comment asks for a single message
(`app/fee_deduct.go:41-63`); only the first message is looked at for free gas, because the loop
breaks after one round (`app/fee_deduct.go:98-106`); the export walks validators by operator
address, not "by power", and updates no counters (`app/export.go:160-180`).

## Model

| member | source | states |
|---|---|---|
| ExponentReset.ResetExponent | app/upgrade_v47.go:141-210 | the pass goes through exactly when the mint account can mint and every account can receive; then every listed account, the mint account included, has 100 times its balance in every denomination, no other balance changes, the supply grows by 99 times what the listed accounts held and stays backed by the balances |
| ExponentReset.Rescale | app/upgrade_v47.go:144-164 | one account's balances become a hundredfold through the mint account, also when it is the mint account itself; the exact condition for success |
| ExponentReset.MissingCoins | app/upgrade_v47.go:145-149 | the coins to mint are valid and amount to 99 times the balance in every denomination |
| ExponentReset.Renumber | app/upgrade_v47.go:171-207 | the three number tests, in order on the snapshot's copy, change the account store as the step function says |
| ExponentReset.SupplyHundredfold | app/upgrade_v47.go:144-164 | if every balance belongs to an account, the supply is exactly a hundredfold |
| ExponentReset.NumbersAfterReset | app/upgrade_v47.go:142-208 | for every visiting order: no two accounts share a number, the next number is above all, old 1 has 2, old 2 and 3 have fresh numbers, the newcomers have 1 and 3, everybody else is unchanged, nobody else is added but the mint account |
| ExponentReset.NextAfterReset | app/upgrade_v47.go:171-207 | exactly how many numbers the pass hands out: one each for the old second and third account, and one for a missing mint account |
| ExponentReset.LookupAfterReset | app/upgrade_v47.go:172-207 | the number lookup agrees with the accounts at the end if and only if the newcomers were fresh and number 2 was not held without number 1 |
| ExponentReset.StaleLookupExample | app/upgrade_v47.go:172-179 | with an account 2 and no account 1, number 2 still leads to the account that left it |
| ExponentReset.ConfiguredChainMigrates | app/app.go:1089-1100 | with the application's permissions and a blocked map as `BlockedAddresses` builds it, the pass goes through exactly when the mint account can mint, module accounts have configured names and no plain account sits at a blocked module address |
| Renumbering.FinalNumbers | app/upgrade_v47.go:171-207 | the final numbering of any list that visits accounts 1, 2 and 3, in any order, is injective and bounded and moves the numbers as intended |
| Renumbering.LookupCoherentExactlyWhen | app/upgrade_v47.go:172-207 | coherence of the lookup after the loop, in both directions, on the account store alone |
| AppConfig.GetMaccPerms | app/app.go:1079-1086 | the copy equals the permission map |
| AppConfig.BlockedAddresses | app/app.go:1089-1100 | an address is blocked exactly when it is a configured module's and not governance's |
| AppConfig.WhoMayDoWhat | app/app.go:235-254 | which modules are configured, and which of them may mint, burn and stake |
| ValidatorFix.Rename | app/upgrade_v47.go:263-345 | validator and stake get the moniker's operator, and keep theirs if the moniker is not listed |
| ValidatorFix.TakeOut | app/upgrade_v47.go:260-262 | record, last power and power entry are removed; nil tokens fail |
| ValidatorFix.PutBack | app/upgrade_v47.go:347-373 | the scaled stake and validator are written to all stores, except the power index for a jailed validator; exact conditions for success |
| ValidatorFix.FixOne | app/upgrade_v47.go:252-373 | one iteration succeeds exactly for a rewritable validator and then changes the store as the step function says |
| ValidatorFix.FixValidator | app/upgrade_v47.go:212-376 | the pass is the fold of these steps over a snapshot of all validators, and fails without an admin |
| ValidatorMigration.OneToOneExactlyWhen | app/upgrade_v47.go:251-374 | after a pass that went through, the validator store is the one-to-one image of the old one if and only if the new operators do not clash in visiting order |
| ValidatorMigration.TwoNodesWellKept | app/upgrade_v47.go:251-262 | two validators, the first taking over the second's operator before its turn, in a store whose keys and both indexes are right |
| ValidatorMigration.ClashLosesValidator | app/upgrade_v47.go:252-369 | in that store the pass goes through, only the second validator is left, the power index is wrong, and its stake is the first one's |
| ValidatorMigration.PlannedUpgradeHasNoClash | app/upgrade_v47.go:263-345 | distinct listed monikers, an injective table and new operators nobody had exclude clashes, whatever the order; unlisted monikers are allowed |
| ValidatorMigration.IndexesAgree | app/upgrade_v47.go:260-369 | without a clash the consensus-address index and the power index of validators not jailed agree exactly with the validators after every iteration |
| ValidatorMigration.ConsAgreesExactlyWhen | app/upgrade_v47.go:260-369 | if removing a validator's keys leaves the consensus index alone, that index agrees at the end if and only if the new operators do not clash |
| ValidatorMigration.StakesFollow | app/upgrade_v47.go:253-353 | without a clash the admin's stakes are found scaled at the new operators, every other record is untouched, there are no others |
| ValidatorMigration.OldStakeSurvives | app/upgrade_v47.go:253-353 | for every pass that goes through and every operator, the admin's record there is as before if no validator was given the operator, else the migrated record of the last one that was; at the old operators it is always there |
| ValidatorMigration.TakenStakeIsMigrated | app/upgrade_v47.go:253-353 | without a clash the record at a new operator is the migrated one from before the pass |
| ValidatorMigration.PowersAndHooks | app/upgrade_v47.go:261-371 | last powers of all visited validators are gone and each new operator was announced once, in order |
| ValidatorMigration.SucceedsExactlyWhen | app/upgrade_v47.go:251-374 | clash or not, the pass goes through exactly when no validator has nil tokens or an unreadable key, no hook objects, and each has a stake of the admin at the start or its operator was given to an earlier one; with all stakes there a clash raises no error |
| ValidatorMigration.TokensHundredfold | app/upgrade_v47.go:362-368 | without a clash, for each set of bond statuses the validators' tokens add up to 100 times what they did |
| ValidatorMigration.RatiosPreserved | app/upgrade_v47.go:347-367 | tokens per share and the admin's part of the shares are preserved, nil fields stay nil |
| MigratedStore.ValidatorAfterPass | app/upgrade_v47.go:263-369 | without a clash a validator is found under the operator the table has for its moniker, else under its own, with tokens and shares times 100, the dev operator as owner, every other field as before |
| MigratedStore.StakeAfterPass | app/upgrade_v47.go:253-353 | the admin's stake in it is found there too, shares and amount times 100, staker and the rest as before, nil fields nil |
| MigratedStore.OtherStakesAfterPass | app/upgrade_v47.go:253-353 | nobody else's stakes change and none is added |
| MigratedStore.NobodyElseAfterPass | app/upgrade_v47.go:251-369 | every validator found afterwards comes from one of before |
| MigratedStore.IndexesAfterPass | app/upgrade_v47.go:260-369 | its consensus address leads to the new operator; the power index has one entry for it, at the power of 100 times its tokens, exactly if it is not jailed |
| MigratedStore.HooksAfterPass | app/upgrade_v47.go:261-371 | its power in the last block is gone and its new operator is announced in its turn, clash or not |
| UpgradeV47.Upgrade | app/upgrade_v47.go:116-126 | the second pass runs only if the first went through; if operators do not clash, a pool account holds its validators' tokens, of any bond statuses, and a hundredfold of some other coins exactly when it held the tokens and those coins before; coins that are not rescaled are still matched exactly when there are none |
| UpgradeV47.PoolsKeepMatching | app/upgrade_v47.go:116-126 | the same as a statement on stores, in both directions, for the bonded pool and for the pool of unbonding and unbonded validators |
| ShareBacking.BackedExactlyWhen | app/upgrade_v47.go:253-369 | if a validator's shares were what its stakes add up to, they are again if and only if the others' shares at the new operator are a hundredfold of theirs at the old one |
| ShareBacking.AllBackedExactlyWhen | app/upgrade_v47.go:253-369 | with nobody else's stakes at the new operators, all validators' shares stay backed if and only if nobody but the admin had shares in any of them |
| ShareBacking.OthersStay | app/upgrade_v47.go:253-353 | clash or not, the others' shares at every operator are what they were |
| ShareBacking.SharedNodeLosesBacking | app/upgrade_v47.go:253-369 | a well-kept store with one validator and a second staker, where the shares are not backed afterwards |
| UpgradeV47.NumbersAfterUpgrade | app/upgrade_v47.go:171-207 | for the two addresses the upgrade really introduces: which account has which number, no number twice, the next number, and the exact condition for the lookup |
| FixedPoint.MulByWholeIsExact | app/upgrade_v47.go:347-349 | multiplying a decimal by a whole number loses nothing, although the multiplication rounds |
| FixedPoint.ChopIsNearest | app/upgrade_v47.go:347-349 | the rounding of a product goes to the nearest integer, and to the even one of two |
| FixedPoint.CeilIsLeastUpperInteger | app/fee_deduct.go:246 | `Ceil().RoundInt()` is the least integer not below the decimal |
| FeeChecker.GetTxPriority | app/fee_deduct.go:263-277 | the loop computes the fold of the saturated, truncated prices; zero gas fails unless the fee is empty |
| FeeChecker.GasPriceIsQuotient | app/fee_deduct.go:266-270 | for positive gas a coin's price is the whole quotient of amount and gas, or MaxInt64 if that is larger |
| FeeChecker.PriorityIsMinAfterLastZero | app/fee_deduct.go:264-276 | the fold is the least price after the last zero price, zero if there is none |
| FeeChecker.PriorityOfRealGas | app/fee_deduct.go:263-277 | within 0..MaxInt64; zero exactly for an empty fee or a last coin worth less than the gas; the overall minimum when every coin is worth at least the gas |
| FeeChecker.OverallMinimumExactlyWhen | app/fee_deduct.go:263-277 | the priority is the least of all prices if and only if every coin is worth at least the gas or the last one is not |
| FeeChecker.ZeroPriceForgotten | app/fee_deduct.go:263-277 | a fee and gas with prices 0 and 10 whose priority is 10 |
| FeeChecker.WrappedGasNegativeExactlyWhen | app/fee_deduct.go:255-274 | for every gas that wraps, the priority is negative if and only if some coin is worth at least one unit per unit of the wrapped gas and its price is not cut to MaxInt64 |
| FeeChecker.WrappedGasGivesNegativePriority | app/fee_deduct.go:255-274 | a concrete gas value whose conversion wraps and gives priority -10 |
| FeeChecker.RequiredFees | app/fee_deduct.go:239-247 | the thresholds, slot by slot; a negative one fails |
| FeeChecker.RequiredFeeIsLeast | app/fee_deduct.go:243-246 | each threshold is the least integer at or above the exact product of price and gas |
| FeeChecker.AnyGTEIsAdmitted | app/fee_deduct.go:249 | meeting a threshold is the same as some coin being worth at least its positive exact price |
| FeeChecker.CheckTxFee | app/fee_deduct.go:224-257 | in CheckTx with a price to meet, accepted exactly when some coin is worth at least its positive exact price and the gas is not zero; otherwise exactly when the gas is not zero or there is no fee; then the priority |
| FeeChecker.AdmissionMonotoneInFee | app/fee_deduct.go:249-251 | raising amounts or adding coins never loses admission |
| FeeChecker.AdmissionAntitoneInGas | app/fee_deduct.go:243-251 | asking for less gas never loses admission |
| FeeSplit.RatesAreFloors | app/fee_deduct.go:147-157 | the fixed-point shares are the floors of a tenth, a fifth and three tenths |
| FeeSplit.LastPartBounds | app/fee_deduct.go:158 | ten times the last part is between 4f and 4f + 24, the upper bound exactly for a final digit 9 |
| FeeSplit.Split | app/fee_deduct.go:142-159 | the four lists hold the floors of a tenth, a fifth and three tenths and the rest, coin by coin; it fails exactly if some amount is below 10 |
| FeeSplit.ShareIsValid | app/fee_deduct.go:151-159 | each share of a valid fee is sorted with positive amounts |
| FeeSplit.AmountOfShare | app/fee_deduct.go:151-159 | per denomination a share is the part of the fee's amount |
| FeeDeduction.ParseWasmMsgContractOwner | app/fee_deduct.go:40-73 | nobody if some message is not for a contract; otherwise the creator of the last message's contract if that parses, and failure exactly if it does not exist |
| FeeDeduction.TransferIsValid | app/fee_deduct.go:160-207 | the transfer built for a valid fee always passes the bank's validation, if the addresses parse |
| FeeDeduction.OutputAmounts | app/fee_deduct.go:160-205 | the outputs add up to the fee, and bring each address its parts even if receivers coincide |
| FeeDeduction.DeductFeeDecorator.IsFree | app/fee_deduct.go:96-106 | administrators, or a check-in or group change as the first message |
| FeeDeduction.DeductFeeDecorator.Deduct | app/fee_deduct.go:135-210 | exactly when it succeeds, and each address's net change as parts received minus fee paid |
| FeeDeduction.DeductFeeDecorator.AnteHandle | app/fee_deduct.go:75-220 | exactly which transactions pass, their effect on balances and grants, the priority; simulated and free transactions change nothing |
| FeeDeduction.DeductFeeDecorator.Deliver | app/fee_deduct.go:75-220 | which transactions pass, their effect and priority, with a failing transaction rolled back |
| FeeOutcomes.FreePasses | app/fee_deduct.go:80-108 | simulated transactions, administrators' and those that begin with a check-in or a group change pass whatever their fee, grant and other messages, and change nothing; only zero gas can stop them |
| FeeOutcomes.PayingPassesExactlyWhen | app/fee_deduct.go:80-207 | exactly which other transactions pass, in terms of gas, prices, grant, amounts of at least 10, balance and the four receivers |
| FeeOutcomes.NoOwnerNoPass | app/fee_deduct.go:173-179 | a registered payer whose validator has no owner is refused |
| FeeOutcomes.WhoGetsWhat | app/fee_deduct.go:113-207 | each balance afterwards: the source loses the fee; the dev operator, the validator's owner (the payer's if registered, else the proposer's), the fee pool and the last contract's creator (else the fee pool) get their parts, added up if they coincide |
| FeeOutcomes.HundredSplit | app/fee_deduct.go:142-205 | of 100 n, five different addresses lose 100 n and gain 10 n, 20 n, 30 n and 40 n |
| FeeOutcomes.GrantAfter | app/fee_deduct.go:119-133 | which grants stay, and what a limited one for somebody else loses and when it goes |
| FeeDeduction.FeegrantKeeper.UseGrantedFees | app/fee_deduct.go:127 | a charge within the limit is taken off the grant in every denomination, and the grant is revoked exactly when nothing is left |
| FeeRuns.DeliverAll | app/fee_deduct.go:75-220 | delivering transactions one after the other yields a run in the sense of the next rows |
| FeeRuns.RunConserves | app/fee_deduct.go:135-207 | over any run a denomination's total changes only in steps that are not fee deductions |
| FeeRuns.RunBalances | app/fee_deduct.go:135-207 | over any run an account's balance changes by what it earned minus what was taken from it, and by the other steps |
| FeeRuns.RunCharges | app/fee_deduct.go:121-133 | over any run, with grants issued or withdrawn in between, the coins that left a granter's account for another payer on a limited grant equal, per denomination, what the grant lost in fee steps |
| FeeRuns.UnlimitedStays | app/fee_deduct.go:121-133 | over any run an unlimited grant stays one, if the other steps leave it |
| FeeRuns.FeesAlone | app/fee_deduct.go:121-207 | in a run of fee deductions alone totals stay, and a grant loses exactly what left the granter's account |
| ZeroHeight.Exporter.AllowedMap | app/export.go:51-66 | the lookup table holds exactly the listed addresses; a malformed one fails |
| ZeroHeight.Exporter.ReinitializeValidators | app/export.go:104-116 | pool plus outstanding rewards is conserved, the pool grows by exactly the validators' rewards, theirs become zero, nobody else's change |
| ZeroHeight.Exporter.ResetRedelegations | app/export.go:143-149 | every entry's creation height is zero, everything else is kept |
| ZeroHeight.Exporter.ResetUnbondings | app/export.go:152-158 | the same for unbonding delegations |
| ZeroHeight.Exporter.ResetValidators | app/export.go:162-180 | every unbonding height is zero; an empty allow list leaves every jailed flag, another one jails whom it does not name; nothing else is written |
| ZeroHeight.Exporter.ResetSigningInfos | app/export.go:195-202 | every start height is zero, everything else is kept |
| Staking.StakingKeeper.ApplyAndReturnValidatorSetUpdates | app/export.go:187 | the walk over the power index passes exactly when it meets no jailed, missing or token-less validator within the maximum and before the first without power |
| ZeroHeight.WalkPassesExactlyWhen | app/export.go:162-190 | after the reset that walk passes if and only if none of the validators it gets to had to be jailed |
| ZeroHeight.WalkPassesAllowed | app/export.go:51-190 | the same in terms of the list: an empty one stops nothing, another must name every validator the walk gets to |
| ZeroHeight.OmittedPowerStopsWalk | app/export.go:162-190 | if the index fits the maximum, omitting a validator with power stops the walk, whatever the order among equal powers |
| ZeroHeight.Exporter.PrepForZeroHeightGenesis | app/export.go:50-203 | the modelled steps in order: they complete exactly when the list parses, no hook fails and the walk over the power index passes, which with a right index means that the list is empty or names every validator the walk gets to; then the whole reset and the conservation of rewards |
| ZeroHeight.ResetIsIdempotent | app/export.go:143-202 | a second reset changes nothing |
| ZeroHeight.ResetInFull | app/export.go:143-202 | the reset field by field: heights zero, jailed by a non-empty list that omits, everything else as before |
| ZeroHeight.PowerIndexAgreesExactlyWhen | app/export.go:166-180 | the power index still agrees with the validators if and only if no validator it lists had to be jailed |
| ZeroHeight.JailedValidatorStaysListed | app/export.go:166-180 | a store with one listed validator and an allow list that omits it, where the index is wrong afterwards |

## Left out

- `ts-client/`, `cmd/`, `docs/`, `x/checkin` and the wiring in `app/app.go`: generated or plumbing, with no property beyond single calls.
- Parameter key tables, module migrations, consensus parameters and `fixGovParams` around the two passes of the upgrade: calls into code outside the repository.
- The 27 concrete operator addresses: a table from monikers stands for them, and results say what they need of it.
- Integers are unbounded: the bit-length panics of the SDK's big integers, powers beyond 64 bits and the wrap-around of the account number counter are not modelled. Gas is a 64-bit number whose conversion wraps.
- Denominations are taken to be syntactically valid, so the panics of `NewCoin` and `AmountOf` on malformed names do not occur. `AmountOf` adds up matching entries; the SDK's binary search agrees with it on the sorted lists it is used on.
- Vesting locks, send restrictions, and the creation of accounts for receivers that have none: not part of the balance store.
- Fee grants with periods, expiry or message filters; only basic allowances are modelled.
- Events, logging, gas metering, signatures and the later steps of the ante handler chain.
- ZeroHeight.Exporter.PrepForZeroHeightGenesis: covers the steps of the repository itself; invariant assertion, withdrawal of commissions and rewards, the reinitialisation of delegations and the status changes of `ApplyAndReturnValidatorSetUpdates` belong to other modules; they may change stores between these steps or fail themselves.
- Staking.StakingKeeper.ApplyAndReturnValidatorSetUpdates: only whether the walk passes; the status changes and the returned updates belong to another module.
- Hooks are modelled by whether they object and, in the export, by the reset of outstanding rewards.
- ExponentReset.LookupAfterReset: is for stores that are consistent before the upgrade and whose next number is above 3, since below that the fixed numbers 1, 2 and 3 could still be handed out.
