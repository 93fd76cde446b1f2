/** The accounts the program works on, and the quantities state/mod.rs derives from them. */
module Model {
  import opened Base
  import opened Calc

  /** An account address. Only equality is used. */
  type Key = nat

  /** The deactivation epoch of a stake account nobody deactivated. */
  const NEVER: nat := U64_MAX

  const PRICE_DENOMINATOR: nat := 0x1_0000_0000
  const WAIT_EPOCHS: nat := 1
  const EXTRA_WAIT_SECONDS: int := 1800

  // ---------------------------------------------------------------- program accounts

  datatype StakeStatus = Unknown | Active | Deactivating

  datatype StakeRecord = StakeRecord(
    account: Key, delegated: nat, updateEpoch: nat, emergency: bool, status: StakeStatus)

  /** `upgrading` is the balance the delinquent upgrader re-derives. */
  datatype ValidatorRecord = ValidatorRecord(
    vote: Key, active: nat, score: nat, deltaEpoch: nat, upgrading: nat)

  datatype Upgrader =
    | IteratingStakes(visited: nat, activeBalance: nat, delinquentBalance: nat)
    | IteratingValidators(visited: nat, balanceLeft: nat)
    | Done

  /** Everything the administrators set and no instruction of the ledger changes, except
      that a supply warning closes `stakingCap`. Fees are in basis points or in cents of one. */
  datatype Config = Config(
    paused: bool, tokenRent: nat,
    minDeposit: nat, minWithdraw: nat, stakingCap: nat, minStake: nat, slotsForDelta: nat,
    rewardFee: nat, depositFee: nat, depositStakeFee: nat, delayedUnstakeFee: nat,
    withdrawStakeFee: nat, withdrawStakeEnabled: bool, maxStakeMoved: nat,
    lpTarget: nat, lpMaxFee: nat, lpMinFee: nat, treasuryCut: nat, liquidityCap: nat,
    stakeCapacity: nat, validatorCapacity: nat)

  // ---------------------------------------------------------------- outside accounts

  /** A delegated stake account. `ours` says that both its authorities are the program's. */
  datatype StakeAccount = StakeAccount(
    voter: Key, stake: nat, activationEpoch: nat, deactivationEpoch: nat,
    lamports: nat, rent: nat, ours: bool)
  {
    predicate Live() {
      deactivationEpoch == NEVER
    }
  }

  datatype Ticket = Ticket(id: Key, amount: nat, createdEpoch: nat)

  datatype Clock = Clock(epoch: nat, slot: nat, lastSlotOfEpoch: nat, secondsIntoEpoch: int)

  /** The program's state account with its two lists, and the accounts it moves funds on.
      `msolHeld` is all mSOL outside the pool's leg, so the mint's supply is msolLeg + msolHeld. */
  datatype System = System(
    cfg: Config, clock: Clock,
    active: nat, delayed: nat, emergency: nat, reserve: nat,
    supply: nat, price: nat, ticketCount: nat, ticketBalance: nat, totalScore: nat,
    deltaEpoch: nat, extraRuns: nat, moveEpoch: nat, moved: nat,
    upgrader: Upgrader, stakes: seq<StakeRecord>, validators: seq<ValidatorRecord>, lpSupply: nat,
    reserveLamports: nat, stakeRent: nat, solLeg: nat, msolLeg: nat, msolHeld: nat, lpMint: nat,
    native: map<Key, StakeAccount>, tickets: seq<Ticket>, flags: set<Key>)

  // ---------------------------------------------------------------- derived quantities

  function MintSupply(s: System): nat {
    s.msolLeg + s.msolHeld
  }

  function CoolingDown(s: System): nat {
    s.delayed + s.emergency
  }

  function TotalLamports(s: System): nat {
    s.active + CoolingDown(s) + s.reserve
  }

  /** Lamports that back mSOL: what is under control less what is owed on tickets, never below 0. */
  function VirtualStaked(s: System): nat {
    SatSub(TotalLamports(s), s.ticketBalance)
  }

  function CheckedTotal(s: System): Result<nat> {
    if TotalLamports(s) <= U64_MAX then Success(TotalLamports(s)) else Failure(Overflow)
  }

  function CheckedVirtual(s: System): Result<nat> {
    if TotalLamports(s) <= U64_MAX then Success(VirtualStaked(s)) else Failure(Overflow)
  }

  function MsolFromLamports(s: System, lamports: nat): Result<nat> {
    var staked :- CheckedVirtual(s);
    SharesFromValue(lamports, staked, s.supply)
  }

  function MsolToSol(s: System, msol: nat): Result<nat> {
    var staked :- CheckedVirtual(s);
    ValueFromShares(msol, staked, s.supply)
  }

  function CheckStakingCap(s: System, incoming: nat): Guard {
    if TotalLamports(s) + incoming > U64_MAX then Fail(Overflow)
    else Require(TotalLamports(s) + incoming <= s.cfg.stakingCap, StakingIsCapped)
  }

  /** Positive: lamports to stake; negative: lamports to unstake. Stakes cooling down for an
      emergency only ever reduce what must be unstaked. */
  function StakeDelta(s: System): int {
    var raw := SatSub(s.reserveLamports, s.cfg.tokenRent) + s.delayed - s.ticketBalance;
    if raw >= 0 then raw
    else if raw + s.emergency <= 0 then raw + s.emergency else 0
  }

  function ValidatorTarget(s: System, validator: ValidatorRecord, totalTarget: nat): Result<nat> {
    if s.totalScore == 0 then Success(0) else Proportional(totalTarget, validator.score, s.totalScore)
  }

  /** The last slots of the epoch, in which stake may be moved toward its targets. */
  predicate InDeltaWindow(s: System) {
    s.clock.slot >= SatSub(s.clock.lastSlotOfEpoch, s.cfg.slotsForDelta)
  }

  // ---------------------------------------------------------------- lookups and guards

  function FindStake(s: System, i: nat, account: Key): Guard {
    if i >= |s.stakes| then Fail(ListIndexOutOfBounds)
    else Require(s.stakes[i].account == account, WrongStakeAccountOrIndex)
  }

  function FindValidator(s: System, j: nat, vote: Key): Guard {
    if j >= |s.validators| then Fail(ListIndexOutOfBounds)
    else Require(s.validators[j].vote == vote, WrongValidatorAccountOrIndex)
  }

  /** The stake account is delegated to the validator and holds exactly the recorded stake. */
  function CheckStakeAmountAndValidator(s: System, account: Key, recorded: nat, vote: Key): Guard {
    if account !in s.native then Fail(StakeNotDelegated)
    else if s.native[account].voter != vote then Fail(WrongValidatorAccountOrIndex)
    else Require(s.native[account].stake == recorded, StakeAccountNotUpdatedYet)
  }

  // ---------------------------------------------------------------- scalar updates

  /** The virtual reserve and supply take the real values; a supply minted elsewhere closes deposits. */
  function Sync(s: System): System {
    s.(reserve := SatSub(s.reserveLamports, s.cfg.tokenRent),
       supply := MintSupply(s),
       cfg := if MintSupply(s) > s.supply then s.cfg.(stakingCap := 0) else s.cfg)
  }

  function MintMsol(s: System, amount: nat): Result<System> {
    if amount == 0 then Success(s) else
    var supply :- Add(s.supply, amount);
    Success(s.(supply := supply, msolHeld := s.msolHeld + amount))
  }

  function BurnMsol(s: System, amount: nat): Result<System> {
    if amount > s.msolHeld then Failure(NotEnoughUserFunds) else
    var supply :- Sub(s.supply, amount);
    Success(s.(supply := supply, msolHeld := s.msolHeld - amount))
  }

  /** The protocol's part of what came in, minted to the treasury at the price before it is booked. */
  function MintProtocolFees(s: System, incoming: nat): Result<System> {
    var msol :- MsolFromLamports(s, FeeApply(s.cfg.rewardFee, incoming));
    MintMsol(s, msol)
  }

  function UpdatePrice(s: System): Result<System> {
    var price :- MsolToSol(s, PRICE_DENOMINATOR);
    Success(s.(price := price))
  }

  function OnStakeMoved(s: System, amount: nat): Result<System> {
    var before := if s.clock.epoch != s.moveEpoch then 0 else s.moved;
    var moved :- Add(before, amount);
    var total :- CheckedTotal(s);
    :- Require(moved <= FeeApply(s.cfg.maxStakeMoved, total), MovingStakeIsCapped);
    Success(s.(moveEpoch := s.clock.epoch, moved := moved))
  }

  // ---------------------------------------------------------------- stake program calls

  /** The stake program's deactivation; it refuses an account already deactivating. */
  function DeactivateNative(s: System, account: Key): Result<System> {
    if account !in s.native || !s.native[account].Live() then Failure(CallFailed)
    else Success(s.(native := s.native[account := s.native[account].(deactivationEpoch := s.clock.epoch)]))
  }

  /** The stake program's split into a new account that keeps voter and authorities; the source
      keeps its rent. */
  function SplitNative(s: System, from: Key, to: Key, amount: nat): Result<System> {
    if from !in s.native || to in s.native || s.native[from].stake < amount
       || s.native[from].lamports < amount + s.native[from].rent
    then Failure(CallFailed)
    else
      var source := s.native[from];
      var left := source.(stake := source.stake - amount, lamports := source.lamports - amount);
      var split := source.(stake := amount, lamports := amount + s.stakeRent, rent := s.stakeRent);
      Success(s.(native := s.native[from := left][to := split]))
  }
}
