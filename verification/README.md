# The Marinade ledger machine

A Dafny model of the on-chain liquid-staking program, with proofs about its money. Lamports under the
program's control sit in four buckets (active, cooling down for delayed unstakes, cooling down for
emergencies, and the reserve), which are denormalised sums over a list of stake records and a list of
validators. A resumable upgrader re-derives the sums while users and cranks keep working. mSOL are shares
of the buckets less what is owed on tickets; a pool with a SOL and an mSOL leg trades them. About twenty
instructions can be issued by anybody in any order.

## How it is built

- `Base`, `Calc`, `Sums`: checked machine arithmetic, floored shares and fees, sums under list updates.
- `Model`, `Ledger`, `Instructions`: the state as one value, the moves of stake between buckets, and what each
  instruction makes of the state, with the error it fails with.
- `Machine`: steps of users, cranks, managers, administrators and of the world around (rewards, slashes, tips,
  outside deactivation, donations, outside burns, foreign accounts, a monotone clock), and runs of them.
- `Program`: the program as it runs, a class with one field per state field, whose methods change them step by
  step with local copies and write-backs as the source does; each is proved against its instruction, and
  `Execute` against the machine's step.
- `RecordList`, `Codec`, `StakeStorage`, `ValidatorStorage`: the list in the byte buffer of an account, the layout of
  its records, and the two lists of records stored in it.
- `Books`, `BooksSteps`, `Invariant`, `Safety`, `FromStart`: the ledger invariant, by phase of the upgrader, kept by
  every move, every instruction and every run.
- `Upgrade`, `Progress`, `Disturbances`, `Balances`, `Batches`: the delinquent upgrade, what it promises, how it gets
  done, and what a disturbance does to it.
- `Shapes`, `Backing`: which fields the updates touch; what really backs the virtual numbers.
- `Price`, `Rounds`, `Pool`, `Tickets`, `Scheduler`, `Managers`: the claims about price, round trips, pool, tickets,
  targets and the managers' limit.
- `Amounts`, `Deposits`, `Rewards`, `Updates`, `Deltas`, `Guards`: what each instruction pays, mints, moves and refuses,
  exactly, in floors, sums and comparisons of the fields and not in the functions that compute them.
- `Examples`: concrete states for the claims that hold only under a condition.

## Where a claim needs its condition

- The upgrade can be disturbed. `update_deactivated` on a record marked `Active` lowers the validator's balance but
  leaves the upgrader's counters (update.rs:569-592). `Disturbances.UpgradeSucceedsIff` says of every run that the
  upgrade ends as promised if and only if no such update was accepted while the upgrader still needed the record, and
  every record was visited. The two phases go wrong differently. While validators are iterated the upgrade is jammed
  for good: `Disturbances.JammedForever`, with four steps that do it in `Examples.DisturbedNeverDone`. While stakes are
  iterated the removed record stays counted as visited, so that the phase never ends or ends with a record skipped
  (`Disturbances.OvercountedEndsBadly`), after which the upgrade may well be done, with wrong balances:
  `Examples.SkippedRecordEndsDone`.
- The first depositor can gain. With no mSOL in circulation shares are minted one to one whatever the reserve
  holds (calc.rs:23-26): `Rounds.NoGainByDepositIff`, `Examples.FirstDepositorGains`.
- A withdrawal of stake that pays the treasury can lower the price by less than one base unit:
  `Price.WithdrawStakeKeepsPriceIff`, `Examples.TreasuryWithdrawalDips`; over a run, `Price.PriceFallsByUnits`.
- A provider of liquidity can gain. When all LP tokens were burned and funds are left, shares are minted one to one
  too: `Pool.NoGainByLiquidityIff`, `Examples.NextProviderGains`.
- The reserve on the books can underflow. `claim` and `stake_reserve` decide on the lamports that are in the reserve
  (claim.rs:100-110, stake_reserve.rs:126), the latter also on those still cooling down, and then subtract from the
  reserve on the books (state/mod.rs:280-282), which does not know of lamports given since the last update. It is the
  only subtraction from the books that can fail. `Safety.StepKeeps` and `FromStart.LedgerFromStart` say for every step
  of every run that it does exactly then; `Tickets.ClaimIsPaidIff`, `Scheduler.StakeFailsIff` and
  `Scheduler.StakeSucceedsIff` give the conditions of the two instructions; `Examples.GiftIsNotStaked` and
  `Examples.GiftIsNotClaimed` are concrete.
- The comment at deactivate_stake.rs:227 says the split exceeds twice the minimum stake. The code does not ask for it:
  it does exactly when both the deficit and the validator's excess do (`Scheduler.SplitIs`), and a split may be a
  single lamport (`Examples.OneLamportIsSplit`).
- Above 100% the managers' limit can wrap around: `Managers.LimitIsPartIff`, `Managers.LimitCanWrapToZero`.

## Conventions

Program fields are natural numbers; every addition and subtraction the program performs on them goes through
`Add`, `Sub` or `Add32`, which fail where a checked `u64` or `u32` panics. `SameError` does not tell apart which of
several panics of one instruction comes first. `treasury` parameters say whether the treasury account can receive mSOL.

## Model

| member | source | states |
|---|---|---|
| Upgrade.UpgradeNeverStuck | liquid-staking-program-main/programs/marinade-finance/src/instructions/crank/update.rs:274-294 | From books that never heard of delinquent stakes, after any interleaving of any steps with no accepted disturbance: the next step fails on a subtraction from any of the four buckets or on a self-check of the program only if it is a claim short of the reserve on the books; both cooling buckets are 0 and every record is active while validators are iterated; when it is done each validator's balance is the sum of its active records and the three stake buckets are the sums of theirs |
| Disturbances.UpgradeSucceedsIff | liquid-staking-program-main/programs/marinade-finance/src/instructions/crank/update.rs:569-592 | For every run from such books: finishing it with batches that reach the end of the validator list completes the upgrade, with everything it promises kept at every point of the run, if and only if no update took an active record away from the upgrader and every record of the start was visited |
| Disturbances.UpgradeEndsWellIff | liquid-staking-program-main/programs/marinade-finance/src/instructions/crank/update.rs:274-294 | A run, of whatever steps, that got the upgrade done kept the promise of UpgradeNeverStuck at every point exactly when no disturbing update was accepted in it |
| Disturbances.DisturbedPromiseIsLost | liquid-staking-program-main/programs/marinade-finance/src/instructions/crank/update.rs:569-592 | Without a disturbance every run, finished or not, keeps the promise; after one, no continuation whatever is done with the promise kept |
| Progress.FirstPhaseEndsIff | liquid-staking-program-main/programs/marinade-finance/src/instructions/crank/update.rs:282-294 | The first phase of a calm run is over exactly when every record that was unvisited has been visited, whatever is interleaved; until then some record is still unvisited and the visited count is below the list length |
| Progress.UpgradeCompletesIff | liquid-staking-program-main/programs/marinade-finance/src/instructions/crank/finalize_delinquent_upgrade.rs:21-72 | Batches that reach the end of the list after a calm run complete the upgrade exactly when the run visited as many records as the start had |
| Progress.UnvisitedAdvances | liquid-staking-program-main/programs/marinade-finance/src/instructions/crank/update.rs:470-505 | While stakes are iterated, the update of any unvisited record succeeds and leaves exactly one fewer unvisited, unless the numbers leave `u64` |
| Progress.FinalizeAdvances | liquid-staking-program-main/programs/marinade-finance/src/instructions/crank/finalize_delinquent_upgrade.rs:21-72 | In the validator phase a batch of any size always succeeds, and either the upgrade is done or the cursor is exactly that many validators further |
| Disturbances.StepKeepsOvercount | liquid-staking-program-main/programs/marinade-finance/src/instructions/crank/update.rs:569-592 | Once more records count as visited than are active, no step of any kind brings the count back, and the first phase can only end with a record skipped |
| Disturbances.OvercountedEndsBadly | liquid-staking-program-main/programs/marinade-finance/src/instructions/crank/update.rs:282-294 | So such an upgrade is never done, or went on to the validators without having visited every record |
| Disturbances.BooksBreakIff | liquid-staking-program-main/programs/marinade-finance/src/instructions/crank/update.rs:569-592 | An update of a deactivated stake breaks the ledger invariant of the upgrade if and only if it hits an active record while stakes are iterated, or a non-empty one of a validator not yet visited |
| Disturbances.DisturbanceJams | liquid-staking-program-main/programs/marinade-finance/src/instructions/crank/update.rs:569-592 | Such an update in the validator phase leaves more delinquent balance than the unvisited validators can give up |
| Disturbances.JammedForever | liquid-staking-program-main/programs/marinade-finance/src/instructions/crank/finalize_delinquent_upgrade.rs:55-70 | From a jammed state no run of any steps ever completes the upgrade |
| Disturbances.JamIsCaught | liquid-staking-program-main/programs/marinade-finance/src/instructions/crank/finalize_delinquent_upgrade.rs:55-70 | The batch that would finish a jammed upgrade fails on a subtraction or on the upgrader's own check |
| Examples.DisturbedNeverDone | liquid-staking-program-main/programs/marinade-finance/src/instructions/crank/update.rs:569-592 | A concrete start of the upgrade and four concrete steps after which no run whatever finishes it |
| Examples.SkippedRecordEndsDone | liquid-staking-program-main/programs/marinade-finance/src/instructions/crank/update.rs:282-294 | A concrete start with two records and five concrete steps that get the upgrade done with one record never visited: its validator shows a balance no active record stands for, and the program refuses every update of it as an active stake |
| Balances.RunAddsUp | liquid-staking-program-main/programs/marinade-finance/src/instructions/crank/finalize_delinquent_upgrade.rs:30-71 | With no exclusions, in every phase of every run: the validators' balances sum to the total active balance plus the outstanding delinquent balance; when the upgrade is done, to the total |
| Balances.UpdateDeactivatedAddsUp | liquid-staking-program-main/programs/marinade-finance/src/instructions/crank/update.rs:569-680 | The removal of an active record in mid-upgrade keeps that sum too |
| Batches.BatchesAreOnePass | liquid-staking-program-main/programs/marinade-finance/src/instructions/crank/finalize_delinquent_upgrade.rs:21-72 | Any sequence of batch sizes leaves the same validator list and phase as one pass over their total |
| Batches.BatchesVisitOnce | liquid-staking-program-main/programs/marinade-finance/src/instructions/crank/finalize_delinquent_upgrade.rs:30-71 | Every sequence of batches succeeds from balanced books, takes over each validator it reaches exactly once and no other, and ends when the sizes reach the end |
| Batches.PassSplits | liquid-staking-program-main/programs/marinade-finance/src/instructions/crank/finalize_delinquent_upgrade.rs:30-53 | A pass over a + b validators equals a pass over a and one over b, in success and in failure |
| Batches.ListIsFrozen | liquid-staking-program-main/programs/marinade-finance/src/instructions/management/add_validator.rs:50-55 | Adding and removing validators is refused until the upgrade is done, so the visited prefix cannot move |
| BooksSteps.AllVisited | liquid-staking-program-main/programs/marinade-finance/src/instructions/crank/update.rs:282-287 | When the visited count reaches the list length, both cooling buckets are 0 and the re-derived total equals the total, so the check cannot fail |
| BooksSteps.FinalizeFromIs | liquid-staking-program-main/programs/marinade-finance/src/instructions/crank/finalize_delinquent_upgrade.rs:30-53 | What a batch does to every slot of the validator list, visited or not |
| BooksSteps.FinalizeFromBalance | liquid-staking-program-main/programs/marinade-finance/src/instructions/crank/finalize_delinquent_upgrade.rs:30-53 | Every gap is covered by the balance left, which stays the sum of the gaps ahead |
| BooksSteps.ReleaseCooledKeeps | liquid-staking-program-main/programs/marinade-finance/src/instructions/crank/update.rs:652-690 | Taking a removed record out of its bucket with `min`, and the rest out of the total as delinquent, keeps the invariant in all phases and never underflows |
| BooksSteps.UpgradeRecordKeeps | liquid-staking-program-main/programs/marinade-finance/src/instructions/crank/update.rs:470-505 | Classifying an unknown record keeps the invariant; neither guard can fail |
| BooksSteps.PushActiveKeeps | liquid-staking-program-main/programs/marinade-finance/src/instructions/user/deposit_stake_account.rs:141-166 | A deposit entered as visited keeps the invariant in all three phases |
| FromStart.LedgerFromStart | liquid-staking-program-main/programs/marinade-finance/src/instructions/admin/initialize.rs:148-194 | From `initialize`, after any run: validator balances, the three stake buckets and the score total are the sums over the records, keys are distinct, `Deactivating` means natively deactivating; and the next step fails on a subtraction from any of the four buckets or on a self-check if and only if it is a claim or a staking short of the reserve on the books |
| FromStart.MinimumFromStart | liquid-staking-program-main/programs/marinade-finance/src/instructions/crank/stake_reserve.rs:201-218 | From `initialize`, with the minimum fixed and no slash, every active record in every reachable state holds at least the minimum stake |
| FromStart.CanonicalKeepsMinimum | liquid-staking-program-main/programs/marinade-finance/src/instructions/crank/create_canonical_stake.rs:111-126 | Moving a stake to its canonical account creates no active record below the minimum, because a natively active record is recorded as active |
| Safety.StepKeeps | liquid-staking-program-main/programs/marinade-finance/src/state/mod.rs:208-217 | Each of the 23 kinds of steps keeps the ledger invariant; it fails on one of the program's subtractions from the books, reserve included, or self-checks if and only if it is a claim or a staking that the lamports in the reserve cover and the reserve on the books does not, and then on that subtraction |
| Safety.RunKeeps | liquid-staking-program-main/programs/marinade-finance/src/state/mod.rs:208-217 | The invariant over whole runs without a disturbance |
| Safety.InitializeKeeps | liquid-staking-program-main/programs/marinade-finance/src/instructions/admin/initialize.rs:127-194 | The first state satisfies it, with nothing to upgrade |
| Safety.BeforeUpgradeIsBalanced | liquid-staking-program-main/programs/marinade-finance/src/state/delinquent_upgrader.rs:18-26 | The default upgrader over books that matched native reality satisfies it, whichever stakes went delinquent unnoticed |
| Invariant.PartialUnstakeKeeps | liquid-staking-program-main/programs/marinade-finance/src/instructions/management/partial_unstake.rs:168-284 | Whole and split moves to the emergency bucket keep the ledger |
| Invariant.DeactivateStakeKeeps | liquid-staking-program-main/programs/marinade-finance/src/instructions/crank/deactivate_stake.rs:181-319 | Whole and split moves to the delayed bucket keep the ledger; the split assertion holds |
| Invariant.EmergencyUnstakeKeeps | liquid-staking-program-main/programs/marinade-finance/src/instructions/management/emergency_unstake.rs:94-137 | A whole record moves to the emergency bucket |
| Invariant.MergeStakesKeeps | liquid-staking-program-main/programs/marinade-finance/src/instructions/crank/merge_stakes.rs:189-229 | Two records become one with the extra delegation, everywhere at once |
| Invariant.CreateCanonicalStakeKeeps | liquid-staking-program-main/programs/marinade-finance/src/instructions/crank/create_canonical_stake.rs:195-209 | Push then swap-remove keeps the ledger |
| Invariant.RemoveValidatorKeeps | liquid-staking-program-main/programs/marinade-finance/src/instructions/management/remove_validator.rs:49-71 | The score subtraction cannot underflow, and a removed validator has no active stake |
| Invariant.ClaimKeeps | liquid-staking-program-main/programs/marinade-finance/src/instructions/delayed_unstake/claim.rs:112-137 | Neither ticket total can underflow; the reserve on the books does exactly when it is below the ticket and the lamports in the reserve are not |
| Invariant.StakeReserveKeeps | liquid-staking-program-main/programs/marinade-finance/src/instructions/crank/stake_reserve.rs:126-218 | Staking keeps the ledger, and its subtraction from the reserve on the books underflows exactly when that is below what is to be staked and the lamports in the reserve are not |
| Amounts.LinearFeeIff | liquid-staking-program-main/programs/marinade-finance/src/state/liq_pool.rs:67-77 | The pool's fee is exactly the minimum from the target on, and below it the maximum less the floored part of the difference that the liquidity is of the target |
| Amounts.FeeFalls | liquid-staking-program-main/programs/marinade-finance/src/state/liq_pool.rs:66-77 | It is the maximum on an empty pool and never rises with liquidity |
| Books.OutsideKeepsBalanced | liquid-staking-program-main/programs/marinade-finance/src/state/mod.rs:208-217 | Rewards, slashes, tips, donations and outside deactivations leave the books balanced |
| Shapes.UpdateDeactivatedEffect | liquid-staking-program-main/programs/marinade-finance/src/instructions/crank/update.rs:569-691 | After the reserve is synchronised the total under control changes by exactly lamports less rent less the recorded delegation, in every phase, status and emergency value; and which fields change at all |
| Shapes.UpdateActiveEffect | liquid-staking-program-main/programs/marinade-finance/src/instructions/crank/update.rs:341-443 | What an accepted update of an active stake sets, field by field |
| Updates.UpdateActiveBooks | liquid-staking-program-main/programs/marinade-finance/src/instructions/crank/update.rs:376-505 | What an accepted update of an active stake makes of its validator and of the upgrader, for a record visited for the first time and for any other |
| Updates.UpdateDeactivatedBooks | liquid-staking-program-main/programs/marinade-finance/src/instructions/crank/update.rs:569-691 | What a removal takes off the validator, the total and each bucket, what becomes delinquent, and how the upgrader goes on, by status and phase |
| Guards.UpdatesAreAccepted | liquid-staking-program-main/programs/marinade-finance/src/instructions/crank/update.rs:307-341 | With sound books an update on the right slots is accepted, or the numbers leave the machine's integers |
| Guards.DeactivateStakeIff | liquid-staking-program-main/programs/marinade-finance/src/instructions/crank/deactivate_stake.rs:86-319 | Exactly when the deactivating crank accepts a call |
| Guards.PartialUnstakeIff | liquid-staking-program-main/programs/marinade-finance/src/instructions/management/partial_unstake.rs:83-284 | Exactly when a partial unstake is accepted |
| Guards.EmergencyUnstakeIff | liquid-staking-program-main/programs/marinade-finance/src/instructions/management/emergency_unstake.rs:51-137 | Exactly when an emergency unstake is accepted |
| Guards.MergeStakesIff | liquid-staking-program-main/programs/marinade-finance/src/instructions/crank/merge_stakes.rs:64-270 | Exactly when a merge is accepted, and every field and both accounts after it |
| Guards.CreateCanonicalIff | liquid-staking-program-main/programs/marinade-finance/src/instructions/crank/create_canonical_stake.rs:66-224 | Exactly when a stake moves to its canonical account, and what it does |
| Guards.AddValidatorIff | liquid-staking-program-main/programs/marinade-finance/src/instructions/management/add_validator.rs:50-76 | Exactly when a validator is added: listed nowhere, with room for it and its score |
| Guards.RemoveValidatorIff | liquid-staking-program-main/programs/marinade-finance/src/instructions/management/remove_validator.rs:47-93 | Exactly when one is removed: done upgrading, and no active balance; the score is always covered |
| Guards.SetValidatorScoreIff | liquid-staking-program-main/programs/marinade-finance/src/instructions/management/set_validator_score.rs:27-57 | Exactly when a score is set, and the total after it |
| Guards.InitializeIff | liquid-staking-program-main/programs/marinade-finance/src/instructions/admin/initialize.rs:127-194 | The bounds of every setting in numbers, and that the program starts empty, open and at par |
| Backing.RunBacked | liquid-staking-program-main/programs/marinade-finance/src/instructions/crank/update.rs:147-172 | Over any run with donations and outside burns: virtual reserve plus rent is really in the reserve, virtual supply is never below the real one, ticket balance and count are the sum and number of the open tickets |
| Backing.UpdateAssertionHolds | liquid-staking-program-main/programs/marinade-finance/src/instructions/crank/update.rs:440-443 | The equality asserted at the end of `update_active` always holds |
| Price.PriceNeverFalls | liquid-staking-program-main/programs/marinade-finance/src/state/mod.rs:229-251 | Over any run without slashes, treasury-paying withdrawals and empty supply, the price of mSOL never falls |
| Price.PriceFallsByUnits | liquid-staking-program-main/programs/marinade-finance/src/instructions/user/withdraw_stake_account.rs:175-225 | Over any slash-free run with mSOL in circulation, treasury-paying withdrawals included: after k of them, each leaving at least m base units of mSOL in circulation, the price is at least (m - k) / m of what it was |
| Price.StepKeepsPrice | liquid-staking-program-main/programs/marinade-finance/src/instructions/crank/update.rs:264-272 | The same for every kind of step, cross-multiplied and exact |
| Price.WithdrawStakeAlmostKeepsPrice | liquid-staking-program-main/programs/marinade-finance/src/instructions/user/withdraw_stake_account.rs:175-225 | A withdrawal of stake loses less than the value of one base unit of mSOL, and nothing without a treasury |
| Price.WithdrawStakeKeepsPriceIff | liquid-staking-program-main/programs/marinade-finance/src/instructions/user/withdraw_stake_account.rs:219-225 | It keeps the price exactly if nobody but the user is paid, or the fee rounds to nothing, or the shares of the split come out whole; otherwise it does not |
| Examples.TreasuryWithdrawalDips | liquid-staking-program-main/programs/marinade-finance/src/instructions/user/withdraw_stake_account.rs:219-225 | A concrete withdrawal after which the price is lower |
| Price.DepositKeepsPrice | liquid-staking-program-main/programs/marinade-finance/src/instructions/user/deposit.rs:120-223 | Full, partial and no fill |
| Price.OrderUnstakeKeepsPrice | liquid-staking-program-main/programs/marinade-finance/src/instructions/delayed_unstake/order_unstake.rs:58-93 | Burning at the floored value |
| Price.UpdateActiveKeepsPrice | liquid-staking-program-main/programs/marinade-finance/src/instructions/crank/update.rs:376-419 | Both fee mints are at the price before what they tax is booked |
| Price.ClaimKeepsVirtual | liquid-staking-program-main/programs/marinade-finance/src/instructions/delayed_unstake/claim.rs:112-137 | A claim leaves the lamports behind mSOL as they were |
| Amounts.WorthIff | liquid-staking-program-main/programs/marinade-finance/src/state/mod.rs:229-251 | mSOL is worth exactly the floored part of everything under control less the tickets that it is of the supply, and one to one without supply |
| Amounts.BuysIff | liquid-staking-program-main/programs/marinade-finance/src/state/mod.rs:240-247 | Lamports buy exactly the floored part of the supply that they are of what is behind it |
| Amounts.OrderUnstakeIff | liquid-staking-program-main/programs/marinade-finance/src/instructions/delayed_unstake/order_unstake.rs:42-107 | Exactly when an order is accepted, and what it does: the ticket holds what the mSOL is worth less the floored fee, and is for the present epoch unless stake was moved in it; supply and holding fall by the mSOL, tickets grow by the ticket |
| Amounts.LiquidUnstakeIff | liquid-staking-program-main/programs/marinade-finance/src/instructions/liq_pool/liquid_unstake.rs:60-149 | Exactly when the pool buys, and what it pays: what the mSOL less the fee is worth, the fee being that at the liquidity left when the whole value is taken; the treasury's cut of the fee does not go to the pool |
| Amounts.AddLiquidityIff | liquid-staking-program-main/programs/marinade-finance/src/instructions/liq_pool/add_liquidity.rs:65-149 | Exactly when liquidity is accepted, and the LP tokens minted for it: its floored part of both legs, one to one without LP tokens or value |
| Amounts.RemoveLiquidityIff | liquid-staking-program-main/programs/marinade-finance/src/instructions/liq_pool/remove_liquidity.rs:68-160 | Exactly when liquidity is given back, and how much: the floored part of each leg |
| Deposits.DepositIff | liquid-staking-program-main/programs/marinade-finance/src/instructions/user/deposit.rs:89-223 | Exactly when a deposit is accepted, and every field after it: what the lamports less the fee buy comes out of the pool, whole for all the lamports or its whole leg at its worth, and the rest is deposited and minted under the cap |
| Deposits.DepositStakeIff | liquid-staking-program-main/programs/marinade-finance/src/instructions/user/deposit_stake_account.rs:75-291 | Exactly when a stake account is accepted, and every field after it, by phase of the upgrade |
| Deposits.WithdrawStakeIff | liquid-staking-program-main/programs/marinade-finance/src/instructions/user/withdraw_stake_account.rs:104-352 | Exactly when stake is given back, and every field after it: the value less the fee is split off with both parts at the minimum, and with a treasury only what that buys is burned |
| Rewards.SyncIs | liquid-staking-program-main/programs/marinade-finance/src/instructions/crank/update.rs:141-198 | Synchronising takes the reserve from its lamports and the supply from what exists, and closes deposits when more exists than was known |
| Rewards.UpdateActiveRewards | liquid-staking-program-main/programs/marinade-finance/src/instructions/crank/update.rs:341-443 | The protocol is minted exactly what its part of the swept lamports and then of the growth buys at the price before the growth is booked; nothing without a treasury; the price left is the floored worth of one |
| Rewards.UpdateDeactivatedRewards | liquid-staking-program-main/programs/marinade-finance/src/instructions/crank/update.rs:594-700 | The same for what a retired account held beyond its record |
| Scheduler.StakingRun | liquid-staking-program-main/programs/marinade-finance/src/instructions/crank/stake_reserve.rs:126-218 | Over any run of `stake_reserve` in one window: constant total target; effective calls bounded by delta over the minimum and by validators plus extra runs; at most one validator lifted above its target, by less than the minimum, and then nothing is left to stake |
| Scheduler.StakeReserveEffect | liquid-staking-program-main/programs/marinade-finance/src/instructions/crank/stake_reserve.rs:126-292 | An effective call stakes at least the minimum and leaves 0 or at least the minimum; it brings the validator exactly to its target, or leaves nothing to stake; any other call moves no stake |
| Deltas.DeltaIs | liquid-staking-program-main/programs/marinade-finance/src/state/mod.rs:254-274 | In the lamports themselves: there is something to stake exactly when the reserve beyond its rent and the delayed bucket exceed the tickets, and then the difference; something to unstake exactly when they fall short even with the emergency bucket, and then the difference |
| Deltas.TargetIs | liquid-staking-program-main/programs/marinade-finance/src/state/validator_system.rs:264-277 | A validator's target is its floored share, by score, of the balance all validators together should have |
| Deltas.WindowIs | liquid-staking-program-main/programs/marinade-finance/src/instructions/crank/stake_reserve.rs:171-177 | The cranks are allowed in the last slots of the epoch, as many as set |
| Deltas.StakesExactly | liquid-staking-program-main/programs/marinade-finance/src/instructions/crank/stake_reserve.rs:165-218 | Exactly what an allowed and accepted staking call does: nothing when nothing is lacking, or less than the minimum is there to stake, or less than the minimum is lacking and enough would be left; otherwise the validator gets what it lacks, or all there is when less than the minimum would remain |
| Deltas.OtherwiseIdle | liquid-staking-program-main/programs/marinade-finance/src/instructions/crank/stake_reserve.rs:126-165 | Any other accepted staking call changes nothing |
| Deltas.StakingLeavesLittle | liquid-staking-program-main/programs/marinade-finance/src/instructions/crank/stake_reserve.rs:126-218 | Once a run of staking calls was allowed and accepted on every validator, less than the minimum stake for each validator is left to be staked |
| Deltas.CoveredIsLeftAlone | liquid-staking-program-main/programs/marinade-finance/src/instructions/crank/deactivate_stake.rs:126-133 | While the reserve and both cooling buckets cover the tickets the deactivating crank refuses every call |
| Deltas.UnstakedIsLacking | liquid-staking-program-main/programs/marinade-finance/src/instructions/crank/deactivate_stake.rs:126-233 | Over any run of it, what is unstaked is less than what the tickets lacked, both buckets counted, and twice the minimum |
| Deltas.UnstakesExactly | liquid-staking-program-main/programs/marinade-finance/src/instructions/crank/deactivate_stake.rs:169-319 | Exactly when an accepted call unstakes nothing, the whole record, or a part of it, and which part |
| Scheduler.StakeFailsIff | liquid-staking-program-main/programs/marinade-finance/src/instructions/crank/stake_reserve.rs:126-218 | Exactly when a staking call fails for want of lamports: past its guards, what it wants to stake is more than the reserve holds (the transfer fails), or only more than the reserve on the books (the subtraction after it fails) |
| Scheduler.StakeSucceedsIff | liquid-staking-program-main/programs/marinade-finance/src/instructions/crank/stake_reserve.rs:95-292 | Exactly when a staking call is accepted: nothing is to be staked now or into this validator, or what is to be staked is in the reserve on the books and fits the list and the balances |
| Scheduler.SyncedIsRarelyShort | liquid-staking-program-main/programs/marinade-finance/src/state/mod.rs:250-274 | Right after a synchronisation no claim is short of the reserve on the books, and a staking only if more is cooling down than tickets ask for |
| Scheduler.TargetsFit | liquid-staking-program-main/programs/marinade-finance/src/state/validator_system.rs:264-277 | The floored targets of all validators sum to at most the total target |
| Scheduler.UnstakingRun | liquid-staking-program-main/programs/marinade-finance/src/instructions/crank/deactivate_stake.rs:126-233 | Over any run of `deactivate_stake`: what is ever unstaked exceeds the deficit by less than twice the minimum, it all enters the delayed bucket, and no validator falls twice the minimum or more below its target |
| Scheduler.DeactivateStakeEffect | liquid-staking-program-main/programs/marinade-finance/src/instructions/crank/deactivate_stake.rs:169-233 | The same bounds for one call; the assertion on the split never fires |
| Scheduler.SplitIs | liquid-staking-program-main/programs/marinade-finance/src/instructions/crank/deactivate_stake.rs:169-233 | A split takes exactly the smaller of the deficit and what the validator is above its target, off the record and into the new one; so it exceeds twice the minimum if and only if both do |
| Rounds.NoGainByDepositIff | liquid-staking-program-main/programs/marinade-finance/src/instructions/user/deposit.rs:120-203 | A deposit and the unstaking of everything received pays back at most the deposit, in full, partial and no fill, if and only if mSOL was in circulation or nothing was behind it or the fee took everything |
| Rounds.NoWayBackGains | liquid-staking-program-main/programs/marinade-finance/src/instructions/liq_pool/liquid_unstake.rs:80-96 | So neither a ticket nor the pool pays back more than was deposited |
| Examples.FirstDepositorGains | liquid-staking-program-main/programs/marinade-finance/src/calc.rs:23-31 | The concrete exception: with 100 lamports in the reserve and no mSOL, 50 deposited are worth 150 |
| Examples.GiftIsNotStaked | liquid-staking-program-main/programs/marinade-finance/src/instructions/crank/stake_reserve.rs:126-218 | From `initialize`, one validator and one gift to the reserve make the staking crank fail on its subtraction from the reserve on the books |
| Examples.OneLamportIsSplit | liquid-staking-program-main/programs/marinade-finance/src/instructions/crank/deactivate_stake.rs:223-233 | A concrete state in which one lamport is split off |
| Pool.DepositKeepsPool | liquid-staking-program-main/programs/marinade-finance/src/instructions/user/deposit.rs:130-181 | A deposit never lowers the computed value of the pool |
| Pool.LiquidUnstakeKeepsPool | liquid-staking-program-main/programs/marinade-finance/src/instructions/liq_pool/liquid_unstake.rs:80-149 | Nor does unstaking through it, whatever the treasury takes |
| Pool.AddKeepsShareValue | liquid-staking-program-main/programs/marinade-finance/src/instructions/liq_pool/add_liquidity.rs:102-114 | Adding liquidity never lowers the value per LP token |
| Pool.RemoveKeepsLegs | liquid-staking-program-main/programs/marinade-finance/src/instructions/liq_pool/remove_liquidity.rs:92-101 | Removing liquidity never lowers either leg per remaining LP token |
| Pool.NoGainByLiquidityIff | liquid-staking-program-main/programs/marinade-finance/src/instructions/liq_pool/add_liquidity.rs:102-149 | Adding liquidity and removing the minted tokens returns at most what was added, despite the floored valuation, if and only if the pool had LP tokens before, or was worth nothing, or nothing was added |
| Examples.NextProviderGains | liquid-staking-program-main/programs/marinade-finance/src/calc.rs:23-31 | The concrete exception: with all LP tokens burned and 100 lamports left, 50 added come back as 150 |
| Tickets.TicketsStayCovered | liquid-staking-program-main/programs/marinade-finance/src/instructions/delayed_unstake/order_unstake.rs:77-79 | In slash-free runs the total under control covers the ticket balance |
| Tickets.ClaimIsPaidIff | liquid-staking-program-main/programs/marinade-finance/src/instructions/delayed_unstake/claim.rs:51-137 | Exactly when a claim is paid: due, and within the virtual reserve; the ticket totals are never in the way, lamports given but not yet synchronised are |
| Examples.GiftIsNotClaimed | liquid-staking-program-main/programs/marinade-finance/src/instructions/delayed_unstake/claim.rs:112-137 | A concrete state in which a due ticket fails although the reserve holds its lamports beyond the rent |
| Tickets.PaidAfterAnUnbegunEpoch | liquid-staking-program-main/programs/marinade-finance/src/instructions/delayed_unstake/order_unstake.rs:96-107 | A ticket is for the first epoch from its order on in which no stake had been moved yet, seen by an observer of the stakes and not of the program's marks; when it is paid that epoch is over |
| Tickets.PaidFromStart | liquid-staking-program-main/programs/marinade-finance/src/instructions/delayed_unstake/claim.rs:69-83 | The same for every run from `initialize`, with nothing noted at first |
| Tickets.StakeReserveMarks | liquid-staking-program-main/programs/marinade-finance/src/instructions/crank/stake_reserve.rs:290-292 | The epoch is marked exactly when stake is moved |
| Tickets.DeactivateStakeMarks | liquid-staking-program-main/programs/marinade-finance/src/instructions/crank/deactivate_stake.rs:294-295 | The same for the deactivating crank |
| Managers.PartialUnstakeExactly | liquid-staking-program-main/programs/marinade-finance/src/instructions/management/partial_unstake.rs:142-284 | An accepted call moves nothing while the validator is at most the minimum above its target; otherwise the smaller of what is desired and what the validator is above its target, or the whole record when less than the minimum would remain |
| Managers.TargetIsKept | liquid-staking-program-main/programs/marinade-finance/src/instructions/management/partial_unstake.rs:142-165 | It moves nothing if and only if the validator is at most the minimum above its target; a split never takes it below its target, a whole record less than the minimum below |
| Managers.EmergencyUnstakeExactly | liquid-staking-program-main/programs/marinade-finance/src/instructions/management/emergency_unstake.rs:94-137 | An emergency takes the whole record, from a validator without score only |
| Managers.MovesStayWithinLimit | liquid-staking-program-main/programs/marinade-finance/src/state/mod.rs:292-305 | Over any run within an epoch, whatever is interleaved: when a move of the managers is accepted, all stake they really moved in the epoch, that move included, is within the limit at what is then under control |
| Managers.RunCounts | liquid-staking-program-main/programs/marinade-finance/src/state/mod.rs:292-305 | What the program counts as moved in the epoch is exactly what the managers moved |
| Managers.LimitIsPartIff | liquid-staking-program-main/programs/marinade-finance/src/state/fee.rs:43-46 | The limit is the floored part of what is under control if and only if that part fits 64 bits, as it does up to 100%; otherwise it is its low 64 bits |
| Managers.LimitCanWrapToZero | liquid-staking-program-main/programs/marinade-finance/src/state/fee.rs:43-46 | At 200% of 2^63 lamports nothing may be moved at all |
| RecordList.List.Get | liquid-staking-program-main/programs/marinade-finance/src/state/list.rs:84-91 | Reads exactly the slot, or refuses the index |
| RecordList.List.Set | liquid-staking-program-main/programs/marinade-finance/src/state/list.rs:93-101 | Writes the item over the front of its slot; every other slot and the rest of this one stay |
| RecordList.List.Push | liquid-staking-program-main/programs/marinade-finance/src/state/list.rs:103-114 | Appends one slot up to the capacity; all others stay |
| RecordList.List.Remove | liquid-staking-program-main/programs/marinade-finance/src/state/list.rs:116-131 | Swap-remove of the slots |
| RecordList.List.InitAccount | liquid-staking-program-main/programs/marinade-finance/src/state/list.rs:45-59 | Only a blank account takes the discriminator |
| RecordList.SlotInBounds | liquid-staking-program-main/programs/marinade-finance/src/state/list.rs:73-91 | Every slot below the capacity lies in the account and its offset fits a `u32` |
| RecordList.SlotAfterWrite | liquid-staking-program-main/programs/marinade-finance/src/state/list.rs:93-131 | What each slot holds after a write to one of them |
| RecordList.CapacityOfBytesFor | liquid-staking-program-main/programs/marinade-finance/src/state/list.rs:37-43 | An account sized for n items holds n |
| Codec.StakeRoundTrip | liquid-staking-program-main/programs/marinade-finance/src/state/stake_system.rs:27-40 | A stake record comes back from its bytes, whatever follows them in the slot |
| Codec.StakeEncodingIsUnique | liquid-staking-program-main/programs/marinade-finance/src/state/stake_system.rs:10-40 | What decodes is the encoding of the result: no second encoding is accepted |
| Codec.ValidatorRoundTrip | liquid-staking-program-main/programs/marinade-finance/src/state/validator_system.rs:8-20 | The same round trip for validator records |
| Codec.ValidatorEncodingIsUnique | liquid-staking-program-main/programs/marinade-finance/src/state/validator_system.rs:8-20 | And their encoding is the only one accepted |
| StakeStorage.StakeRecords.Add | liquid-staking-program-main/programs/marinade-finance/src/state/stake_system.rs:192-214 | On records: append, up to the capacity |
| StakeStorage.StakeRecords.GetChecked | liquid-staking-program-main/programs/marinade-finance/src/state/stake_system.rs:223-236 | The record at the index if its address is the caller's |
| StakeStorage.StakeRecords.Set | liquid-staking-program-main/programs/marinade-finance/src/state/stake_system.rs:238-242 | One record replaced |
| StakeStorage.StakeRecords.Remove | liquid-staking-program-main/programs/marinade-finance/src/state/stake_system.rs:243-247 | Swap-remove of records |
| StakeStorage.StakeRecords.Supersede | liquid-staking-program-main/programs/marinade-finance/src/instructions/crank/create_canonical_stake.rs:195-209 | Pushing the canonical record and removing the source writes over the source's slot |
| ValidatorStorage.ValidatorRecords.Add | liquid-staking-program-main/programs/marinade-finance/src/state/validator_system.rs:172-188 | On records: append up to the capacity, and the total of the scores stays their sum |
| ValidatorStorage.ValidatorRecords.GetChecked | liquid-staking-program-main/programs/marinade-finance/src/state/validator_system.rs:237-250 | The record at the index if its vote account is the caller's |
| ValidatorStorage.ValidatorRecords.Set | liquid-staking-program-main/programs/marinade-finance/src/state/validator_system.rs:253-262 | One record replaced |
| ValidatorStorage.ValidatorRecords.Remove | liquid-staking-program-main/programs/marinade-finance/src/state/validator_system.rs:209-228 | Swap-remove of a validator without stake; the total of the scores stays their sum and its subtraction cannot underflow |
| ValidatorStorage.ValidatorRecords.FinalizeFrom | liquid-staking-program-main/programs/marinade-finance/src/instructions/crank/finalize_delinquent_upgrade.rs:30-53 | The validator loop of the upgrade on the bytes of the list is the ledger's pass over the records, in success and in failure |
| Sums.PushThenRemoveReplaces | liquid-staking-program-main/programs/marinade-finance/src/instructions/crank/create_canonical_stake.rs:195-209 | The same on any sequence |
| Sums.SumSwapRemove | liquid-staking-program-main/programs/marinade-finance/src/state/list.rs:116-131 | A swap-remove takes exactly the removed item's weight off every sum |
| Program.State.PayTicket | liquid-staking-program-main/programs/marinade-finance/src/instructions/delayed_unstake/claim.rs:112-137 | The ticket leaves both totals and the reserve pays |
| Program.State.BookSplit | liquid-staking-program-main/programs/marinade-finance/src/instructions/crank/deactivate_stake.rs:235-319 | Record, new record, validator, total and bucket of a split |
| Program.State.BookWhole | liquid-staking-program-main/programs/marinade-finance/src/instructions/management/emergency_unstake.rs:111-137 | Record, validator, total and bucket of a whole move |
| Program.State.JoinStakes | liquid-staking-program-main/programs/marinade-finance/src/instructions/crank/merge_stakes.rs:189-251 | The booking of a merge and the return of the rent |
| Calc.Proportional | liquid-staking-program-main/programs/marinade-finance/src/calc.rs:10-16 | The floored quotient, when it fails, and the amount itself for a zero denominator |
| Calc.FeeApply | liquid-staking-program-main/programs/marinade-finance/src/state/fee.rs:43-46 | At most 100% it is the floored part and no more than the amount; above that it is cut to 64 bits |
| Calc.FeeCentsApply | liquid-staking-program-main/programs/marinade-finance/src/state/fee.rs:109-112 | The same in cents of a basis point |
| Program.State.Execute | liquid-staking-program-main/programs/marinade-finance/src/lib.rs:50-282 | One transaction: the state becomes the machine's next state, a failure changes nothing and has the machine's error, and the ledger invariant is kept |
| Program.State.Process | liquid-staking-program-main/programs/marinade-finance/src/lib.rs:61-282 | The dispatch: every instruction does what its specification says, and fails when and how that fails |
| Program.State.Deposit | liquid-staking-program-main/programs/marinade-finance/src/instructions/user/deposit.rs:89-243 | The state after a deposit, or its failure, equals the specification's |
| Program.State.FillOrder | liquid-staking-program-main/programs/marinade-finance/src/instructions/user/deposit.rs:130-223 | The pool's swap, the deposit into the reserve and the mint |
| Program.State.DepositStakeAccount | liquid-staking-program-main/programs/marinade-finance/src/instructions/user/deposit_stake_account.rs:75-324 | The same for a deposited stake account, in all phases of the upgrade |
| Program.State.EnterStake | liquid-staking-program-main/programs/marinade-finance/src/instructions/user/deposit_stake_account.rs:136-291 | Validator and upgrader, authorities, list, mint and total of a deposited stake, each with the error it fails with |
| Program.State.TrackDeposit | liquid-staking-program-main/programs/marinade-finance/src/instructions/user/deposit_stake_account.rs:144-166 | The part of the upgrader, by phase |
| Program.State.WithdrawStakeAccount | liquid-staking-program-main/programs/marinade-finance/src/instructions/user/withdraw_stake_account.rs:104-375 | Terms, burn, split and booking |
| Program.State.GiveStake | liquid-staking-program-main/programs/marinade-finance/src/instructions/user/withdraw_stake_account.rs:240-352 | Burn, split and booking of given stake |
| Program.State.OrderUnstake | liquid-staking-program-main/programs/marinade-finance/src/instructions/delayed_unstake/order_unstake.rs:42-124 | Burn and ticket |
| Program.State.Claim | liquid-staking-program-main/programs/marinade-finance/src/instructions/delayed_unstake/claim.rs:87-152 | Guards, totals, payment |
| Program.State.LiquidUnstake | liquid-staking-program-main/programs/marinade-finance/src/instructions/liq_pool/liquid_unstake.rs:60-185 | Fee, payment, treasury cut |
| Program.State.AddLiquidity | liquid-staking-program-main/programs/marinade-finance/src/instructions/liq_pool/add_liquidity.rs:65-166 | LP supply synchronised, pool valued, tokens minted |
| Program.State.RemoveLiquidity | liquid-staking-program-main/programs/marinade-finance/src/instructions/liq_pool/remove_liquidity.rs:68-180 | LP supply synchronised, both legs paid, tokens burned |
| Program.State.Begin | liquid-staking-program-main/programs/marinade-finance/src/instructions/crank/update.rs:141-198 | Synchronisation of reserve and supply, then the two lookups |
| Program.State.UpdateActive | liquid-staking-program-main/programs/marinade-finance/src/instructions/crank/update.rs:307-466 | The whole update, with its local copies written back at the end |
| Program.State.DelinquentUpgrade | liquid-staking-program-main/programs/marinade-finance/src/instructions/crank/update.rs:470-505 | The classification of an unknown record |
| Program.State.BookChange | liquid-staking-program-main/programs/marinade-finance/src/instructions/crank/update.rs:376-419 | A reward or a loss on validator, total and upgrader |
| Program.State.UpdateDeactivated | liquid-staking-program-main/programs/marinade-finance/src/instructions/crank/update.rs:548-709 | The whole removal |
| Program.State.DetectDelinquent | liquid-staking-program-main/programs/marinade-finance/src/instructions/crank/update.rs:569-592 | The emergency procedure for a stake deactivated by others |
| Program.State.ReleaseDelinquent | liquid-staking-program-main/programs/marinade-finance/src/instructions/crank/update.rs:652-672 | While stakes are visited, what the bucket does not hold of a removed record moves from the active total to the delinquent balance |
| Program.State.Release | liquid-staking-program-main/programs/marinade-finance/src/instructions/crank/update.rs:647-680 | The bucket, delinquent balance and total after a removal |
| Program.State.CheckUpgradeProgression | liquid-staking-program-main/programs/marinade-finance/src/instructions/crank/update.rs:274-294 | The change to the validator phase |
| Program.State.FinalizeUpgrade | liquid-staking-program-main/programs/marinade-finance/src/instructions/crank/finalize_delinquent_upgrade.rs:21-72 | The resumable loop, proved against the recursive pass |
| Program.State.StakeReserve | liquid-staking-program-main/programs/marinade-finance/src/instructions/crank/stake_reserve.rs:95-320 | Sizing and funding of new stake |
| Program.State.DeactivateStake | liquid-staking-program-main/programs/marinade-finance/src/instructions/crank/deactivate_stake.rs:85-319 | Sizing, whole or split |
| Program.State.PartialUnstake | liquid-staking-program-main/programs/marinade-finance/src/instructions/management/partial_unstake.rs:83-287 | Capped unstake, whole or split |
| Program.State.EmergencyUnstake | liquid-staking-program-main/programs/marinade-finance/src/instructions/management/emergency_unstake.rs:51-140 | A whole record to the emergency bucket |
| Program.State.MergeStakes | liquid-staking-program-main/programs/marinade-finance/src/instructions/crank/merge_stakes.rs:64-270 | Two records into one |
| Program.State.CreateCanonicalStake | liquid-staking-program-main/programs/marinade-finance/src/instructions/crank/create_canonical_stake.rs:66-224 | The record is replaced in place |
| Program.State.RemoveValidator | liquid-staking-program-main/programs/marinade-finance/src/instructions/management/remove_validator.rs:47-93 | Swap-remove and score total |
| Program.State.Initialize | liquid-staking-program-main/programs/marinade-finance/src/instructions/admin/initialize.rs:127-194 | The first state, and the refusal of each wrong setting in the order of the source |

## Left out

- Account constraints, signers, program-derived addresses and bump seeds, discriminators other than the list's: addresses are opaque keys, so the derivation of the canonical stake address is not checked.
- Calls to the stake, token and system programs are steps on the account records with their obvious guards: a withdrawal waits for an epoch after the deactivation, a deactivation wants a live stake, a split leaves the source its rent and wants an unused address, a merge adds at most the rent of the source.
- Activation, deactivation and cooldown curves of native stake, and the stake program's own minimum delegation.
- Wallets: all mSOL outside the pool is one balance, and users' SOL is unlimited.
- Tickets are a list, swap-removed when paid; their beneficiaries and accounts are not modelled.
- Lockups of deposited stake accounts, rent movements of the duplication flags, rent refunds of unused split accounts, and the operational account.
- Events, logging, compute units, text and floating-point forms of fees.
- config_marinade, config_lp, config_validator_system, change_authority, pause and resume, reallocation of the lists: single setters, present only as one step that sets any accepted configuration and never shrinks a list below its contents.
- The redelegation fields and events: the instruction is not in this program.
- The class of Program.dfy keeps its lists as sequences with a capacity. StakeStorage.dfy and ValidatorStorage.dfy prove the same operations on the bytes, and the upgrade's loop is proved on both, but the other instructions are not written out on the bytes.
- A failed `Set` or `Push` whose item is too long may have written part of the slot before it aborts; the aborted transaction discards that, and the model's write does nothing.
- Program.State.WithdrawStakeAccount: asks for a positive minimum stake, which the configuration guarantees.
- ValidatorStorage.ValidatorRecords.Add: when the total of the scores overflows after the push, nothing is said of the list; the aborted transaction discards it.
- Guards.DeactivateStakeIff: takes the total active balance to be a `u64`, as it is.
- Upgrade.UpgradeNeverStuck: a list without records waits in its first phase until the next deposit or update; nothing is claimed about when somebody calls.
- Price.PriceNeverFalls: leaves out runs through an empty supply, where there is no price.
