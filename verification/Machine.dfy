/** The ledger machine: anybody may issue any instruction in any order, and the accounts
    around the program change on their own. */
module Machine {
  import opened Base
  import opened Calc
  import opened Model
  import opened Ledger
  import opened Instructions

  datatype Step =
    | DoDeposit(lamports: u64)
    | DoDepositStake(account: Key, j: nat)
    | DoWithdrawStake(i: nat, account: Key, j: nat, msol: u64, newKey: Key, treasury: bool)
    | DoOrderUnstake(msol: u64, newKey: Key)
    | DoClaim(k: nat)
    | DoLiquidUnstake(msol: u64, treasury: bool)
    | DoAddLiquidity(lamports: u64)
    | DoRemoveLiquidity(tokens: u64)
    | DoUpdateActive(i: nat, account: Key, j: nat, treasury: bool)
    | DoUpdateDeactivated(i: nat, account: Key, j: nat, treasury: bool)
    | DoFinalizeUpgrade(maxValidators: u32)
    | DoStakeReserve(j: nat, vote: Key, newKey: Key)
    | DoDeactivateStake(i: nat, account: Key, j: nat, newKey: Key)
    | DoPartialUnstake(i: nat, account: Key, j: nat, desired: u64, newKey: Key)
    | DoEmergencyUnstake(i: nat, account: Key, j: nat)
    | DoAddValidator(vote: Key, score: u32)
    | DoRemoveValidator(j: nat, vote: Key)
    | DoSetScore(j: nat, vote: Key, score: u32)
    | DoMergeStakes(c: nat, canonical: Key, i: nat, account: Key, j: nat, extra: nat)
    | DoCreateCanonical(i: nat, account: Key, j: nat, newKey: Key)
    | Configure(cfg: Config)
    | SetExtraRuns(runs: u32)
    | Around(event: Event)

  /** What happens to the accounts without the program. */
  datatype Event =
    | Tick(clock: Clock)
    | DonateToReserve(amount: nat)
    | DonateSolToPool(amount: nat)
    | DonateMsolToPool(amount: nat)
    | BurnMsolOutside(amount: nat)
    | BurnLpOutside(amount: nat)
    | Reward(account: Key, amount: nat)
    | Slash(account: Key, amount: nat)
    | Tip(account: Key, amount: nat)
    | StopDelinquent(account: Key)
    | ForeignStake(account: Key, stake: StakeAccount)
    | CloseForeign(account: Key)

  /** What the administrators' instructions accept. The limit on moved stake is unbounded. */
  predicate ConfigOk(cfg: Config) {
    && cfg.minStake >= MIN_STAKE_LOWER_LIMIT
    && cfg.rewardFee <= MAX_BASIS_POINTS
    && cfg.depositFee <= MAX_BP_CENTS && cfg.depositStakeFee <= MAX_BP_CENTS
    && cfg.delayedUnstakeFee <= MAX_BP_CENTS && cfg.withdrawStakeFee <= MAX_BP_CENTS
    && cfg.lpMinFee <= cfg.lpMaxFee <= MAX_BASIS_POINTS && cfg.treasuryCut <= MAX_BASIS_POINTS
    && cfg.lpTarget > 0
  }

  const MIN_STAKE_LOWER_LIMIT: nat := 10_000_000

  /** An event that cannot happen in this state is a failure and changes nothing. */
  function Happen(s: System, e: Event): Result<System> {
    match e
    case Tick(clock) =>
      if s.clock.epoch <= clock.epoch < NEVER then Success(s.(clock := clock)) else Failure(CallFailed)
    case DonateToReserve(amount) => Success(s.(reserveLamports := s.reserveLamports + amount))
    case DonateSolToPool(amount) => Success(s.(solLeg := s.solLeg + amount))
    case DonateMsolToPool(amount) =>
      if amount <= s.msolHeld then Success(s.(msolLeg := s.msolLeg + amount, msolHeld := s.msolHeld - amount))
      else Failure(CallFailed)
    case BurnMsolOutside(amount) =>
      if amount <= s.msolHeld then Success(s.(msolHeld := s.msolHeld - amount)) else Failure(CallFailed)
    case BurnLpOutside(amount) =>
      if amount <= s.lpMint then Success(s.(lpMint := s.lpMint - amount)) else Failure(CallFailed)
    case Reward(account, amount) =>
      if account !in s.native then Failure(CallFailed)
      else var a := s.native[account];
        Success(s.(native := s.native[account := a.(stake := a.stake + amount, lamports := a.lamports + amount)]))
    case Slash(account, amount) =>
      if account !in s.native || amount > s.native[account].stake
         || s.native[account].rent + amount > s.native[account].lamports then Failure(CallFailed)
      else var a := s.native[account];
        Success(s.(native := s.native[account := a.(stake := a.stake - amount, lamports := a.lamports - amount)]))
    case Tip(account, amount) =>
      if account !in s.native then Failure(CallFailed)
      else var a := s.native[account];
        Success(s.(native := s.native[account := a.(lamports := a.lamports + amount)]))
    case StopDelinquent(account) => DeactivateNative(s, account)
    case ForeignStake(account, stake) =>
      if stake.ours || (account in s.native && s.native[account].ours) then Failure(CallFailed)
      else Success(s.(native := s.native[account := stake]))
    case CloseForeign(account) =>
      if account !in s.native || s.native[account].ours then Failure(CallFailed)
      else Success(s.(native := s.native - {account}))
  }

  /** The administrators' settings; the lists never shrink below their contents. */
  function SetConfig(s: System, cfg: Config): Result<System> {
    if ConfigOk(cfg) && cfg.tokenRent == s.cfg.tokenRent
       && |s.stakes| <= cfg.stakeCapacity && |s.validators| <= cfg.validatorCapacity
    then Success(s.(cfg := cfg)) else Failure(InvalidConfiguration)
  }

  function Apply(s: System, step: Step): Result<System> {
    match step
    case DoDeposit(lamports) => Deposit(s, lamports)
    case DoDepositStake(account, j) => DepositStakeAccount(s, account, j)
    case DoWithdrawStake(i, account, j, msol, newKey, treasury) =>
      WithdrawStakeAccount(s, i, account, j, msol, newKey, treasury)
    case DoOrderUnstake(msol, newKey) => OrderUnstake(s, msol, newKey)
    case DoClaim(k) => Claim(s, k)
    case DoLiquidUnstake(msol, treasury) => LiquidUnstake(s, msol, treasury)
    case DoAddLiquidity(lamports) => AddLiquidity(s, lamports)
    case DoRemoveLiquidity(tokens) => RemoveLiquidity(s, tokens)
    case DoUpdateActive(i, account, j, treasury) => UpdateActive(s, i, account, j, treasury)
    case DoUpdateDeactivated(i, account, j, treasury) => UpdateDeactivated(s, i, account, j, treasury)
    case DoFinalizeUpgrade(maxValidators) => FinalizeUpgrade(s, maxValidators)
    case DoStakeReserve(j, vote, newKey) => StakeReserve(s, j, vote, newKey)
    case DoDeactivateStake(i, account, j, newKey) => DeactivateStake(s, i, account, j, newKey)
    case DoPartialUnstake(i, account, j, desired, newKey) => PartialUnstake(s, i, account, j, desired, newKey)
    case DoEmergencyUnstake(i, account, j) => EmergencyUnstake(s, i, account, j)
    case DoAddValidator(vote, score) => AddValidator(s, vote, score)
    case DoRemoveValidator(j, vote) => RemoveValidator(s, j, vote)
    case DoSetScore(j, vote, score) => SetValidatorScore(s, j, vote, score)
    case DoMergeStakes(c, canonical, i, account, j, extra) => MergeStakes(s, c, canonical, i, account, j, extra)
    case DoCreateCanonical(i, account, j, newKey) => CreateCanonicalStake(s, i, account, j, newKey)
    case Configure(cfg) => SetConfig(s, cfg)
    case SetExtraRuns(runs) => Success(s.(extraRuns := runs))
    case Around(event) => Happen(s, event)
  }

  /** A failed step leaves everything as it was. */
  function Next(s: System, step: Step): System {
    var r := Apply(s, step);
    if r.Success? then r.value else s
  }

  function Run(s: System, steps: seq<Step>): System
    decreases |steps|
  {
    if steps == [] then s else Run(Next(s, steps[0]), steps[1..])
  }

  // ---------------------------------------------------------------- the first state

  const MAX_REWARD_FEE: nat := 1_000
  const MIN_UPDATE_WINDOW: nat := 3_000
  const MAX_LP_FEE: nat := 1_000
  const MIN_LIQUIDITY_TARGET: nat := 50_000_000_000
  const MAX_TREASURY_CUT: nat := 7_500

  /** `LiqPool::validate`. */
  function CheckPoolSettings(lpTarget: nat, lpMaxFee: nat, lpMinFee: nat, treasuryCut: nat): (g: Guard)
    ensures g.Pass? ==> lpMinFee <= lpMaxFee <= MAX_LP_FEE && treasuryCut <= MAX_TREASURY_CUT && lpTarget > 0
  {
    if lpMinFee > MAX_BASIS_POINTS || lpMaxFee > MAX_BASIS_POINTS || treasuryCut > MAX_BASIS_POINTS then
        Fail(BasisPointsOverflow)
    else if lpMaxFee > MAX_LP_FEE then Fail(LpMaxFeeIsTooHigh)
    else if lpMaxFee < lpMinFee then Fail(LpFeesAreWrongWayRound)
    else if lpTarget < MIN_LIQUIDITY_TARGET then Fail(LiquidityTargetTooLow)
    else Require(treasuryCut <= MAX_TREASURY_CUT, TreasuryCutIsTooHigh)
  }

  /** `initialize`: the accounts around are those of `s`; whatever its program fields say is overwritten. */
  function Initialize(s: System, rewardFee: u32, minStake: u64, slotsForDelta: u64,
                      lpTarget: u64, lpMaxFee: u32, lpMinFee: u32, treasuryCut: u32): Result<System>
  {
    if rewardFee > MAX_REWARD_FEE then Failure(RewardsFeeIsTooHigh) else
    :- Require(slotsForDelta >= MIN_UPDATE_WINDOW, UpdateWindowIsTooLow);
    :- Require(minStake >= MIN_STAKE_LOWER_LIMIT, MinStakeIsTooLow);
    :- Require(s.reserveLamports == s.cfg.tokenRent, WrongInitialBalance);
    :- Require(MintSupply(s) == 0, MintIsNotEmpty);
    :- Require(s.lpMint == 0, MintIsNotEmpty);
    :- Require(s.solLeg == s.cfg.tokenRent, WrongInitialBalance);
    :- CheckPoolSettings(lpTarget, lpMaxFee, lpMinFee, treasuryCut);
    Success(s.(
      cfg := s.cfg.(paused := false, minDeposit := 1, minWithdraw := 1, stakingCap := U64_MAX, minStake := minStake,
                    slotsForDelta := slotsForDelta, rewardFee := rewardFee, depositFee := 0, depositStakeFee := 0,
                    delayedUnstakeFee := 0, withdrawStakeFee := 0, withdrawStakeEnabled := false,
                    maxStakeMoved := MAX_BASIS_POINTS, lpTarget := lpTarget, lpMaxFee := lpMaxFee, lpMinFee := lpMinFee,
                    treasuryCut := treasuryCut, liquidityCap := U64_MAX),
      active := 0, delayed := 0, emergency := 0, reserve := 0, supply := 0, price := PRICE_DENOMINATOR,
      ticketCount := 0, ticketBalance := 0, totalScore := 0, deltaEpoch := NEVER, extraRuns := 0,
      moveEpoch := 0, moved := 0, upgrader := Done, stakes := [], validators := [], lpSupply := 0,
      tickets := [], flags := {}))
  }
}
