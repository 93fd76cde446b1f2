/** What each instruction does to the system, or the error it fails with. A failed
    instruction changes nothing: the runtime discards its writes.

    Parameters that name a list slot (`i` for stakes, `j` for validators) come with the address
    the caller passes, as in the program. `treasury` says whether the treasury account can
    receive mSOL; `newKey` is the address of the account the instruction creates. */
module Instructions {
  import opened Base
  import opened Calc
  import opened Sums
  import opened Model
  import opened Ledger

  // ---------------------------------------------------------------- users

  function Deposit(s: System, lamports: u64): Result<System> {
    if s.cfg.paused then Failure(ProgramIsPaused) else
    :- Require(lamports >= s.cfg.minDeposit, DepositAmountIsTooLow);
    :- Require(MintSupply(s) <= s.supply, UnregisteredMsolMinted);
    var order :- MsolFromLamports(s, SatSub(lamports, FeeCentsApply(s.cfg.depositFee, lamports)));
    var swapped := Min(order, s.msolLeg);
    var solSwapped :- if swapped == 0 then Success(0)
                      else if order == swapped then Success(lamports)
                      else MsolToSol(s, swapped);
    var deposited :- Sub(lamports, solSwapped);
    :- if deposited > 0 then CheckStakingCap(s, deposited) else Pass;
    FillOrder(s, order, swapped, solSwapped, deposited)
  }

  /** The pool sells `swapped` mSOL for `solSwapped`; the rest is deposited, and minted. */
  function FillOrder(s: System, order: nat, swapped: nat, solSwapped: nat, deposited: nat): Result<System>
    requires swapped <= s.msolLeg && swapped <= order
  {
    var swap := s.(msolLeg := s.msolLeg - swapped, msolHeld := s.msolHeld + swapped, solLeg := s.solLeg + solSwapped);
    var funded :- AddToReserve(swap, deposited);
    MintMsol(funded, order - swapped)
  }

  function AddToReserve(s: System, lamports: nat): Result<System> {
    if lamports == 0 then Success(s)
    else
      var reserve :- Add(s.reserve, lamports);
      Success(s.(reserve := reserve, reserveLamports := s.reserveLamports + lamports))
  }

  function DepositStakeAccount(s: System, account: Key, j: nat): Result<System> {
    if s.cfg.paused then Failure(ProgramIsPaused) else
    :- Require(MintSupply(s) <= s.supply, UnregisteredMsolMinted);
    var _ :- CheckedVirtual(s);
    :- Require(account in s.native, StakeNotDelegated);
    var stake := s.native[account];
    :- Require(stake.Live(), RequiredActiveStake);
    :- Require(s.clock.epoch >= stake.activationEpoch, DepositingNotActivatedStake);
    :- Require(stake.stake >= s.cfg.minStake, TooLowDelegationInDepositingStake);
    :- Require(stake.lamports == stake.stake + stake.rent, WrongStakeBalance);
    :- CheckStakingCap(s, stake.stake);
    :- FindValidator(s, j, stake.voter);
    EnterStake(s, account, j)
  }

  /** An accepted stake becomes an active record, for which its owner is paid in mSOL. */
  function EnterStake(s: System, account: Key, j: nat): Result<System>
    requires account in s.native && j < |s.validators|
  {
    var stake := s.native[account];
    var _ :- Tracked(s.upgrader, s.validators[j], stake.stake, j);
    :- Require(!stake.ours, RedepositingMarinadeStake);
    :- Require(|s.stakes| < s.cfg.stakeCapacity, ListOverflow);
    var msol :- MsolFromLamports(s, SatSub(stake.stake, FeeCentsApply(s.cfg.depositStakeFee, stake.stake)));
    var booked :- PushActive(s.(native := s.native[account := stake.(ours := true)]), account, stake.stake, j);
    MintMsol(booked, msol)
  }

  /** The lamports split off for the user and the mSOL burned for them; the rest of the mSOL is
      the treasury's fee. */
  function WithdrawTerms(s: System, msol: u64, delegated: nat, treasury: bool): Result<(nat, nat)> {
    var value :- MsolToSol(s, msol);
    :- Require(value >= s.cfg.minWithdraw, WithdrawAmountIsTooLow);
    var split :- Sub(value, FeeCentsApply(s.cfg.withdrawStakeFee, value));
    :- Require(split >= s.cfg.minStake, WithdrawStakeLamportsIsTooLow);
    :- Require(delegated >= split, SelectedStakeAccountHasNotEnoughFunds);
    :- Require(delegated - split >= s.cfg.minStake, StakeAccountRemainderTooLow);
    if treasury then
      var back :- MsolFromLamports(s, split);
      Success((split, Min(msol, back)))
    else Success((split, msol))
  }

  /** The mSOL is burned, and the user owns the account split off from the record. */
  function GiveStake(s: System, i: nat, account: Key, j: nat, split: nat, burned: nat, newKey: Key): Result<System>
    requires i < |s.stakes| && j < |s.validators| && split <= s.stakes[i].delegated
  {
    var paid :- BurnMsol(s, burned);
    var shared :- SplitNative(paid, account, newKey, split);
    var given := shared.(native := shared.native[newKey := shared.native[newKey].(ours := false)]);
    BookDelegation(given, i, j, s.stakes[i].delegated - split, s.stakes[i].updateEpoch)
  }

  function WithdrawStakeAccount(s: System, i: nat, account: Key, j: nat, msol: u64, newKey: Key, treasury: bool)
    : Result<System>
  {
    if newKey in s.native then Failure(AccountAlreadyInUse) else
    :- Require(!s.cfg.paused, ProgramIsPaused);
    :- Require(s.cfg.withdrawStakeEnabled, WithdrawStakeAccountIsNotEnabled);
    :- Require(s.upgrader.Done?, DelinquentUpgraderIsNotDone);
    var _ :- CheckedVirtual(s);
    :- Require(msol <= s.msolHeld, NotEnoughUserFunds);
    :- FindStake(s, i, account);
    var record := s.stakes[i];
    :- Require(record.status == Active, RequiredActiveStake);
    :- Require(!record.emergency, StakeAccountIsEmergencyUnstaking);
    :- Require(account in s.native, StakeNotDelegated);
    :- Require(s.native[account].Live(), RequiredActiveStake);
    :- Require(j < |s.validators|, ListIndexOutOfBounds);
    :- CheckStakeAmountAndValidator(s, account, record.delegated, s.validators[j].vote);
    var (split, burned) :- WithdrawTerms(s, msol, record.delegated, treasury);
    GiveStake(s, i, account, j, split, burned, newKey)
  }

  function OrderUnstake(s: System, msol: u64, newKey: Key): Result<System> {
    if exists t :: t in s.tickets && t.id == newKey then Failure(AccountAlreadyInUse) else
    :- Require(!s.cfg.paused, ProgramIsPaused);
    :- Require(msol <= s.msolHeld, NotEnoughUserFunds);
    var value :- MsolToSol(s, msol);
    var amount :- Sub(value, FeeCentsApply(s.cfg.delayedUnstakeFee, value));
    :- Require(amount >= s.cfg.minWithdraw, WithdrawAmountIsTooLow);
    IssueTicket(s, msol, amount, newKey)
  }

  function IssueTicket(s: System, msol: u64, amount: nat, newKey: Key): Result<System> {
    var balance :- Add(s.ticketBalance, amount);
    var count :- Add(s.ticketCount, 1);
    var burned :- BurnMsol(s.(ticketBalance := balance, ticketCount := count), msol);
    var created :- Add(s.clock.epoch, if s.clock.epoch == s.deltaEpoch then 1 else 0);
    Success(burned.(tickets := s.tickets + [Ticket(newKey, amount, created)]))
  }

  function CheckTicket(s: System, t: Ticket): Guard {
    if t.amount == 0 then Fail(ReusingDelayedUnstakeTicket)
    else if t.createdEpoch + WAIT_EPOCHS > U64_MAX then Fail(Overflow)
    else if s.clock.epoch < t.createdEpoch + WAIT_EPOCHS then Fail(TicketNotDue)
    else Require(t.createdEpoch + WAIT_EPOCHS == s.clock.epoch ==> s.clock.secondsIntoEpoch >= EXTRA_WAIT_SECONDS,
                 TicketNotReady)
  }

  /** `k` is the position of the ticket among the open ones. */
  function Claim(s: System, k: nat): Result<System> {
    if s.cfg.paused then Failure(ProgramIsPaused) else
    :- Require(k < |s.tickets|, CallFailed);
    var amount := s.tickets[k].amount;
    :- CheckTicket(s, s.tickets[k]);
    var available :- Sub(s.reserveLamports, s.cfg.tokenRent);
    :- Require(amount <= available, TicketNotReady);
    PayTicket(s, k, amount)
  }

  function PayTicket(s: System, k: nat, amount: nat): Result<System>
    requires k < |s.tickets| && amount <= s.reserveLamports
  {
    var balance :- Sub(s.ticketBalance, amount);
    var count :- Sub(s.ticketCount, 1);
    :- Require(amount <= s.reserve, ReserveUnderflow);
    Success(s.(ticketBalance := balance, ticketCount := count, tickets := SwapRemove(s.tickets, k),
               reserve := s.reserve - amount, reserveLamports := s.reserveLamports - amount))
  }

  // ---------------------------------------------------------------- liquidity pool

  /** The fee falls linearly from its maximum at no liquidity to its minimum at the target. */
  function LinearFee(cfg: Config, lamports: nat): Result<nat> {
    if lamports >= cfg.lpTarget then Success(cfg.lpMinFee)
    else
      var cut :- Proportional(SatSub(cfg.lpMaxFee, cfg.lpMinFee), lamports, cfg.lpTarget);
      Sub(cfg.lpMaxFee, cut)
  }

  function LiquidUnstake(s: System, msol: u64, treasury: bool): Result<System> {
    if s.cfg.paused then Failure(ProgramIsPaused) else
    :- Require(msol <= s.msolHeld, NotEnoughUserFunds);
    var available := SatSub(s.solLeg, s.cfg.tokenRent);
    var wanted :- MsolToSol(s, msol);
    var basisPoints :- if wanted >= available then Success(s.cfg.lpMaxFee) else LinearFee(s.cfg, available - wanted);
    var fee := FeeApply(basisPoints, msol);
    var sold :- Sub(msol, fee);
    var paid :- MsolToSol(s, sold);
    var needed :- Add(paid, s.cfg.tokenRent);
    :- Require(needed <= s.solLeg, InsufficientLiquidity);
    :- Require(paid >= s.cfg.minWithdraw, WithdrawAmountIsTooLow);
    SellToPool(s, msol, paid, if treasury then FeeApply(s.cfg.treasuryCut, fee) else 0)
  }

  /** The pool pays, and the treasury's cut of the fee does not go to it. */
  function SellToPool(s: System, msol: nat, paid: nat, cut: nat): Result<System>
    requires paid <= s.solLeg && msol <= s.msolHeld
  {
    var toPool :- Sub(msol, cut);
    Success(s.(solLeg := s.solLeg - paid, msolLeg := s.msolLeg + toPool, msolHeld := s.msolHeld - toPool))
  }

  /** The SOL the pool can pay out, and what its mSOL is worth. */
  function PoolValue(s: System): Result<nat> {
    var available :- Sub(s.solLeg, s.cfg.tokenRent);
    var legValue :- MsolToSol(s, s.msolLeg);
    Add(available, legValue)
  }

  function AddLiquidity(s: System, lamports: u64): Result<System> {
    if s.cfg.paused then Failure(ProgramIsPaused) else
    :- Require(lamports >= s.cfg.minDeposit, DepositAmountIsTooLow);
    var after :- Add(s.solLeg, lamports);
    :- Require(after <= s.cfg.liquidityCap, LiquidityIsCapped);
    :- Require(s.lpMint <= s.lpSupply, UnregisteredLPMinted);
    var poolValue :- PoolValue(s);
    var shares :- SharesFromValue(lamports, poolValue, s.lpMint);
    var supply :- Add(s.lpMint, shares);
    Success(s.(solLeg := after, lpMint := supply, lpSupply := supply))
  }

  function RemoveLiquidity(s: System, tokens: u64): Result<System> {
    if s.cfg.paused then Failure(ProgramIsPaused) else
    :- Require(tokens <= s.lpMint, NotEnoughUserFunds);
    var supply := if s.lpMint > s.lpSupply then s.lpSupply else s.lpMint;
    var available :- Sub(s.solLeg, s.cfg.tokenRent);
    var solOut :- Proportional(tokens, available, supply);
    var msolOut :- Proportional(tokens, s.msolLeg, supply);
    var msolValue :- MsolToSol(s, msolOut);
    var value :- Add(solOut, msolValue);
    :- Require(value >= s.cfg.minWithdraw, WithdrawAmountIsTooLow);
    PayShare(s, tokens, solOut, msolOut, supply)
  }

  /** Both legs pay, and the shares are burned. */
  function PayShare(s: System, tokens: nat, solOut: nat, msolOut: nat, supply: nat): Result<System>
    requires tokens <= s.lpMint
  {
    if solOut > s.solLeg || msolOut > s.msolLeg then Failure(CallFailed) else
    var left :- Sub(supply, tokens);
    Success(s.(solLeg := s.solLeg - solOut, msolLeg := s.msolLeg - msolOut, msolHeld := s.msolHeld + msolOut,
               lpMint := s.lpMint - tokens, lpSupply := left))
  }

  // ---------------------------------------------------------------- update cranks

  /** The common opening of both updates: synchronise, then find the record and its validator. */
  function Begin(s: System, i: nat, account: Key, j: nat): Result<System> {
    if s.cfg.paused then Failure(ProgramIsPaused) else
    var _ :- CheckedVirtual(s);
    var _ :- Add(s.reserve, s.cfg.tokenRent);
    :- FindStake(s, i, account);
    :- Require(account in s.native, StakeNotDelegated);
    :- FindValidator(s, j, s.native[account].voter);
    Success(Sync(s))
  }

  /** Lamports above the delegation are withdrawn to the reserve. */
  function SweepExtra(s: System, account: Key, extra: nat, treasury: bool): Result<System>
    requires account in s.native && extra <= s.native[account].lamports
  {
    if extra == 0 then Success(s)
    else
      var reserve :- Add(s.reserve, extra);
      var stake := s.native[account];
      var swept := s.(reserve := reserve, reserveLamports := s.reserveLamports + extra,
                      native := s.native[account := stake.(lamports := stake.lamports - extra)]);
      if treasury then MintProtocolFees(swept, extra) else Success(swept)
  }

  /** The price is set; the reserve must still be the real one. */
  function PriceAndAdvance(s: System): Result<System> {
    var priced :- UpdatePrice(s);
    :- Require(priced.reserve + priced.cfg.tokenRent == priced.reserveLamports, AssertionFailed);
    NextPhase(priced)
  }

  function BookAndPrice(s: System, i: nat, j: nat, delegated: nat): Result<System>
    requires i < |s.stakes| && j < |s.validators|
  {
    var booked :- BookDelegation(s, i, j, delegated, s.clock.epoch);
    PriceAndAdvance(booked)
  }

  /** The growth of the delegation is taxed at the price before it, then booked; the loss is booked. */
  function BookActive(s: System, i: nat, j: nat, delegated: nat, treasury: bool): Result<System>
    requires i < |s.stakes| && j < |s.validators|
  {
    var minted :- if delegated >= s.stakes[i].delegated && treasury
                  then MintProtocolFees(s, delegated - s.stakes[i].delegated) else Success(s);
    BookAndPrice(minted, i, j, delegated)
  }

  /** What an update does to an active stake after its opening. */
  function RefreshActive(s: System, i: nat, account: Key, j: nat, treasury: bool): Result<System>
    requires i < |s.stakes| && j < |s.validators| && account in s.native
  {
    var stake := s.native[account];
    var upgraded :- UpgradeRecord(s, i, j);
    var balance :- Sub(stake.lamports, stake.rent);
    var swept :- SweepExtra(upgraded, account, SatSub(balance, stake.stake), treasury);
    BookActive(swept, i, j, stake.stake, treasury)
  }

  function UpdateActive(s: System, i: nat, account: Key, j: nat, treasury: bool): Result<System> {
    if s.cfg.paused then Failure(ProgramIsPaused) else
    :- Require(!s.upgrader.IteratingValidators?, DelinquentUpgraderIsNotDone);
    var begun :- Begin(s, i, account, j);
    :- Require(s.native[account].Live(), RequiredActiveStake);
    :- Require(s.stakes[i].status != Deactivating, RequiredActiveStake);
    RefreshActive(begun, i, account, j, treasury)
  }

  /** A stake recorded as active that somebody else deactivated is treated as an emergency. */
  function DetectDelinquent(s: System, i: nat, j: nat): Result<System>
    requires i < |s.stakes| && j < |s.validators|
  {
    if s.stakes[i].status != Active then Success(s)
    else
      :- Require(!s.stakes[i].emergency, StakeAccountIsEmergencyUnstaking);
      StartCooling(s, i, j, true)
  }

  /** Everything goes to the reserve, and the rent on to the operational account. The stake
      program allows it once the deactivation is over. */
  function WithdrawAll(s: System, account: Key): Result<System>
    requires account in s.native
  {
    var stake := s.native[account];
    :- Require(s.clock.epoch > stake.deactivationEpoch, CallFailed);
    var reserve :- Add(s.reserve, stake.lamports);
    :- Require(stake.rent <= reserve, ReserveUnderflow);
    var left :- Sub(s.reserveLamports + stake.lamports, stake.rent);
    Success(s.(reserve := reserve - stake.rent, reserveLamports := left))
  }

  /** What came in since the last update is taxed, and everything is withdrawn. */
  function CollectStake(s: System, i: nat, treasury: bool): Result<System>
    requires i < |s.stakes| && s.stakes[i].account in s.native
  {
    var account := s.stakes[i].account;
    var balance :- Sub(s.native[account].lamports, s.native[account].rent);
    var minted :- if balance >= s.stakes[i].delegated && treasury
                  then MintProtocolFees(s, balance - s.stakes[i].delegated) else Success(s);
    WithdrawAll(minted, account)
  }

  /** The stake is collected, and its record and its account are gone. */
  function RetireStake(s: System, i: nat, treasury: bool): Result<System>
    requires i < |s.stakes| && s.stakes[i].account in s.native
  {
    var collected :- CollectStake(s, i, treasury);
    var released :- ReleaseCooled(collected, i);
    CloseRecord(released, s.stakes[i].account)
  }

  /** The price is set without the stake, whose account is gone. */
  function CloseRecord(s: System, account: Key): Result<System> {
    var priced :- UpdatePrice(s);
    NextPhase(priced.(native := priced.native - {account}))
  }

  function UpdateDeactivated(s: System, i: nat, account: Key, j: nat, treasury: bool): Result<System> {
    var begun :- Begin(s, i, account, j);
    :- Require(!s.native[account].Live(), RequiredDeactivatingStake);
    var detected :- DetectDelinquent(begun, i, j);
    RetireStake(detected, i, treasury)
  }

  function FinalizeUpgrade(s: System, maxValidators: u32): Result<System> {
    if s.cfg.paused then Failure(ProgramIsPaused) else
    :- Require(s.upgrader.IteratingValidators?, UpgradingInvariantViolation);
    FinalizeBatch(s, maxValidators)
  }

  // ---------------------------------------------------------------- stake-delta cranks

  /** How much one call stakes into a validator, or 0 for nothing: up to its target, and all that
      is left when less than the minimum would remain. */
  function StakeAmount(delta: nat, balance: nat, target: nat, minStake: nat): nat {
    if balance >= target then 0
    else
      var wanted := Min(target - balance, delta);
      var amount := if delta - wanted < minStake then delta else wanted;
      if amount < minStake then 0 else amount
  }

  /** A new account is funded from the reserve, delegated and recorded. */
  function StakeInto(s: System, j: nat, amount: nat, newKey: Key): Result<System>
    requires j < |s.validators|
  {
    if amount > s.reserveLamports then Failure(CallFailed) else
    :- Require(amount <= s.reserve, ReserveUnderflow);
    :- Require(|s.stakes| < s.cfg.stakeCapacity, ListOverflow);
    var stake :=
      StakeAccount(s.validators[j].vote, amount, s.clock.epoch, NEVER, amount + s.stakeRent, s.stakeRent, true);
    var booked :- PushActive(s.(reserve := s.reserve - amount, reserveLamports := s.reserveLamports - amount,
                                native := s.native[newKey := stake]),
                             newKey, amount, j);
    Success(Touch(booked, j))
  }

  /** Any stake-delta activity marks the epoch, for the validator and for the whole system. */
  function Touch(s: System, j: nat): System
    requires j < |s.validators|
  {
    s.(deltaEpoch := s.clock.epoch, validators := s.validators[j := s.validators[j].(deltaEpoch := s.clock.epoch)])
  }

  function StakeReserve(s: System, j: nat, vote: Key, newKey: Key): Result<System> {
    if newKey in s.native then Failure(AccountAlreadyInUse) else
    :- Require(!s.cfg.paused, ProgramIsPaused);
    :- Require(s.upgrader.Done?, DelinquentUpgraderIsNotDone);
    var delta := StakeDelta(s);
    :- Require(delta <= U64_MAX && -delta <= U64_MAX, Overflow);
    if delta <= 0 then Success(s)
    else
      :- FindValidator(s, j, vote);
      var v := s.validators[j];
      var again := v.deltaEpoch == s.clock.epoch;
      if again && s.extraRuns == 0 then Success(s)
      else
        var counted := if again then s.(extraRuns := s.extraRuns - 1) else s;
        :- Require(InDeltaWindow(s), TooEarlyForStakeDelta);
        var target :- ValidatorTarget(s, v, Min(s.active + delta, U64_MAX));
        var amount := StakeAmount(delta, v.active, target, s.cfg.minStake);
        if amount == 0 then Success(counted) else StakeInto(counted, j, amount, newKey)
  }

  /** The whole stake of a record is deactivated. */
  function CoolWhole(s: System, i: nat, j: nat, emergency: bool): Result<System>
    requires i < |s.stakes| && j < |s.validators|
  {
    var stopped :- DeactivateNative(s, s.stakes[i].account);
    StartCooling(stopped, i, j, emergency)
  }

  /** A part of the stake of a record is split into a new account and deactivated there. */
  function CoolPart(s: System, i: nat, j: nat, amount: nat, newKey: Key, emergency: bool): Result<System>
    requires i < |s.stakes| && j < |s.validators|
  {
    if |s.stakes| >= s.cfg.stakeCapacity then Failure(ListOverflow) else
    var shared :- SplitNative(s, s.stakes[i].account, newKey, amount);
    var stopped :- DeactivateNative(shared, newKey);
    SplitCooling(stopped, i, j, amount, newKey, emergency)
  }

  function DeactivateStake(s: System, i: nat, account: Key, j: nat, newKey: Key): Result<System> {
    if newKey in s.native then Failure(AccountAlreadyInUse) else
    :- Require(!s.cfg.paused, ProgramIsPaused);
    :- FindStake(s, i, account);
    var record := s.stakes[i];
    :- Require(s.upgrader.Done?, DelinquentUpgraderIsNotDone);
    :- Require(record.status == Active, RequiredActiveStake);
    :- Require(!record.emergency, StakeAccountIsEmergencyUnstaking);
    :- Require(j < |s.validators|, ListIndexOutOfBounds);
    var v := s.validators[j];
    :- Require(InDeltaWindow(s), TooEarlyForStakeDelta);
    var delta := StakeDelta(s);
    :- Require(delta < 0, UnstakingOnPositiveDelta);
    var deficit: nat := -delta;
    :- Require(deficit <= U64_MAX, Overflow);
    :- CheckStakeAmountAndValidator(s, account, record.delegated, v.vote);
    var target :- ValidatorTarget(s, v, SatSub(s.active, deficit));
    UnstakeToward(s, i, j, target, deficit, newKey)
  }

  /** Toward the target, and no more than the deficit; whole when less than twice the minimum would remain. */
  function UnstakeToward(s: System, i: nat, j: nat, target: nat, deficit: nat, newKey: Key): Result<System>
    requires i < |s.stakes| && j < |s.validators|
  {
    var record, v := s.stakes[i], s.validators[j];
    if v.active <= target then Success(s)
    else
      var accountTarget := SatSub(record.delegated, Min(v.active - target, deficit));
      var twice :- Add(s.cfg.minStake, s.cfg.minStake);
      if accountTarget < twice then CoolWhole(s.(deltaEpoch := s.clock.epoch), i, j, false)
      else if v.deltaEpoch == s.clock.epoch then Success(s)
      else
        var split: nat := record.delegated - accountTarget;
        :- Require(accountTarget < record.delegated && split <= deficit, AssertionFailed);
        var cooled :- CoolPart(s, i, j, split, newKey, false);
        Success(Touch(cooled, j))
  }

  // ---------------------------------------------------------------- validator manager

  function PartialUnstake(s: System, i: nat, account: Key, j: nat, desired: u64, newKey: Key): Result<System> {
    if newKey in s.native then Failure(AccountAlreadyInUse) else
    :- Require(!s.cfg.paused, ProgramIsPaused);
    :- Require(s.upgrader.Done?, DelinquentUpgraderIsNotDone);
    :- Require(desired >= s.cfg.minStake, DesiredUnstakeAmountTooLow);
    :- Require(j < |s.validators|, ListIndexOutOfBounds);
    var v := s.validators[j];
    :- FindStake(s, i, account);
    var record := s.stakes[i];
    :- Require(record.status == Active, RequiredActiveStake);
    :- Require(!record.emergency, StakeAccountIsEmergencyUnstaking);
    :- CheckStakeAmountAndValidator(s, account, record.delegated, v.vote);
    var totalTarget := s.active + StakeDelta(s);
    :- Require(0 <= totalTarget <= U64_MAX, Overflow);
    var target :- ValidatorTarget(s, v, totalTarget);
    MoveToward(s, i, account, j, target, desired, newKey)
  }

  /** As much as is desired, and no more than the validator is above its target; whole when less than the
      minimum would remain. */
  function MoveToward(s: System, i: nat, account: Key, j: nat, target: nat, desired: nat, newKey: Key): Result<System>
    requires i < |s.stakes| && j < |s.validators|
  {
    var record, v := s.stakes[i], s.validators[j];
    var enough :- Add(target, s.cfg.minStake);
    if v.active <= enough then Success(s)
    else
      var amount := Min(desired, v.active - target);
      if SatSub(record.delegated, amount) < s.cfg.minStake then
        var stopped :- DeactivateNative(s, account);
        var moved :- OnStakeMoved(stopped, record.delegated);
        StartCooling(moved, i, j, true)
      else MovePart(s, i, account, j, amount, newKey)
  }

  /** A part of a stake is split off and deactivated by the managers. */
  function MovePart(s: System, i: nat, account: Key, j: nat, amount: nat, newKey: Key): Result<System>
    requires i < |s.stakes| && j < |s.validators|
  {
    if |s.stakes| >= s.cfg.stakeCapacity then Failure(ListOverflow) else
    var shared :- SplitNative(s, account, newKey, amount);
    var stopped :- DeactivateNative(shared, newKey);
    var moved :- OnStakeMoved(stopped, amount);
    SplitCooling(moved, i, j, amount, newKey, true)
  }

  function EmergencyUnstake(s: System, i: nat, account: Key, j: nat): Result<System> {
    if s.cfg.paused then Failure(ProgramIsPaused) else
    :- Require(s.upgrader.Done?, DelinquentUpgraderIsNotDone);
    :- FindStake(s, i, account);
    var record := s.stakes[i];
    :- Require(record.status == Active, RequiredActiveStake);
    :- Require(!record.emergency, StakeAccountIsEmergencyUnstaking);
    :- Require(j < |s.validators|, ListIndexOutOfBounds);
    :- Require(s.validators[j].score == 0, EmergencyUnstakingFromNonZeroScoredValidator);
    :- CheckStakeAmountAndValidator(s, account, record.delegated, s.validators[j].vote);
    var moved :- OnStakeMoved(s, record.delegated);
    CoolWhole(moved, i, j, true)
  }

  function AddValidator(s: System, vote: Key, score: u32): Result<System> {
    if vote in s.flags then Failure(AccountAlreadyInUse) else
    :- Require(!s.cfg.paused, ProgramIsPaused);
    :- Require(s.upgrader.Done?, DelinquentUpgraderIsNotDone);
    :- Require(|s.validators| < s.cfg.validatorCapacity, ListOverflow);
    var total :- Add32(s.totalScore, score);
    Success(s.(validators := s.validators + [ValidatorRecord(vote, 0, score, NEVER, 0)],
               totalScore := total, flags := s.flags + {vote}))
  }

  function RemoveValidator(s: System, j: nat, vote: Key): Result<System> {
    if s.cfg.paused then Failure(ProgramIsPaused) else
    :- Require(s.upgrader.Done?, DelinquentUpgraderIsNotDone);
    :- FindValidator(s, j, vote);
    :- Require(s.validators[j].active == 0, RemovingValidatorWithBalance);
    var total :- Sub(s.totalScore, s.validators[j].score);
    Success(s.(validators := SwapRemove(s.validators, j), totalScore := total, flags := s.flags - {vote}))
  }

  function SetValidatorScore(s: System, j: nat, vote: Key, score: u32): Result<System> {
    if s.cfg.paused then Failure(ProgramIsPaused) else
    :- FindValidator(s, j, vote);
    var without :- Sub(s.totalScore, s.validators[j].score);
    var total :- Add32(without, score);
    Success(s.(validators := s.validators[j := s.validators[j].(score := score)], totalScore := total))
  }

  // ---------------------------------------------------------------- housekeeping cranks

  /** `extra` is what the stake program delegates on top when activating stakes are merged: it
      comes out of the rent of the source account. */
  function MergeStakes(s: System, c: nat, canonical: Key, i: nat, account: Key, j: nat, extra: nat): Result<System> {
    if s.cfg.paused then Failure(ProgramIsPaused) else
    :- Require(s.upgrader.Done?, DelinquentUpgraderIsNotDone);
    :- Require(j < |s.validators|, ListIndexOutOfBounds);
    var vote := s.validators[j].vote;
    :- FindStake(s, c, canonical);
    :- Require(canonical in s.native, StakeNotDelegated);
    :- Require(s.stakes[c].status == Active && s.native[canonical].Live(), DestinationStakeMustNotBeDeactivating);
    :- Require(s.stakes[c].delegated == s.native[canonical].stake, DestinationStakeMustBeUpdated);
    :- Require(s.native[canonical].voter == vote, InvalidDestinationStakeDelegation);
    :- FindStake(s, i, account);
    :- Require(account in s.native, StakeNotDelegated);
    var source := s.native[account];
    :- Require(s.stakes[i].status == Active && source.Live(), SourceStakeMustNotBeDeactivating);
    :- Require(s.stakes[i].delegated == source.stake, SourceStakeMustBeUpdated);
    :- Require(source.lamports == source.stake + source.rent, SourceStakeMustBeUpdated);
    :- Require(source.voter == vote, InvalidSourceStakeDelegation);
    :- Require(canonical != account && extra <= source.rent, CallFailed);
    JoinStakes(s, c, i, j, extra)
  }

  /** The source account is merged into the canonical one, and what is left of its rent returned. */
  function JoinStakes(s: System, c: nat, i: nat, j: nat, extra: nat): Result<System>
    requires c < |s.stakes| && i < |s.stakes| && c != i && j < |s.validators|
    requires s.stakes[c].account in s.native && s.stakes[i].account in s.native
    requires extra <= s.native[s.stakes[i].account].rent <= s.native[s.stakes[i].account].lamports
  {
    var canonical, account := s.stakes[c].account, s.stakes[i].account;
    var merged :- MergeRecords(s, c, i, j, extra);
    var target, source := s.native[canonical], s.native[account];
    var returned := source.rent - extra;
    var joined := target.(stake := target.stake + source.stake + extra,
                          lamports := target.lamports + source.lamports - returned);
    Success(merged.(native := s.native[canonical := joined] - {account}))
  }

  /** The whole stake moves to the validator's canonical account, which does not exist yet. */
  function CreateCanonicalStake(s: System, i: nat, account: Key, j: nat, newKey: Key): Result<System> {
    if s.cfg.paused then Failure(ProgramIsPaused) else
    :- Require(s.upgrader.Done?, DelinquentUpgraderIsNotDone);
    :- Require(j < |s.validators|, ListIndexOutOfBounds);
    :- Require(newKey !in s.native, AccountAlreadyInUse);
    :- FindStake(s, i, account);
    :- Require(account in s.native, StakeNotDelegated);
    var source := s.native[account];
    :- Require(source.Live(), SourceStakeMustNotBeDeactivating);
    :- Require(s.stakes[i].delegated == source.stake, SourceStakeMustBeUpdated);
    :- Require(source.lamports == source.stake + source.rent, SourceStakeMustBeUpdated);
    :- Require(source.voter == s.validators[j].vote, InvalidSourceStakeDelegation);
    var moved :- MoveRecord(s.(native := s.native[newKey := source]), i, newKey);
    Success(moved.(native := moved.native - {account}))
  }
}
