/** Program errors, failure-compatible results and the machine arithmetic of the program.

    The program is built with overflow checks on, so an addition or subtraction on `u64`
    that leaves the range aborts the instruction; here it is a `Failure`. */
module Base {

  const U64_MAX: nat := 0xFFFF_FFFF_FFFF_FFFF
  const U32_MAX: nat := 0xFFFF_FFFF

  type u64 = n: int | 0 <= n <= U64_MAX
  type u32 = n: int | 0 <= n <= U32_MAX

  datatype Error =
    // arithmetic panics, assertions and failures of a called program
    | Overflow | Underflow | ReserveUnderflow | CalculationFailure | AssertionFailed | CallFailed
    // lists and accounts
    | ListIndexOutOfBounds | ListOverflow | AccountDataTooSmall | SerializationFailed
    | WrongStakeAccountOrIndex | WrongValidatorAccountOrIndex | AccountAlreadyInUse
    // instructions
    | ProgramIsPaused | DelinquentUpgraderIsNotDone | UpgradingInvariantViolation
    | UnregisteredMsolMinted | UnregisteredLPMinted | DepositAmountIsTooLow | WithdrawAmountIsTooLow
    | NotEnoughUserFunds | StakingIsCapped | LiquidityIsCapped | InsufficientLiquidity
    | StakeNotDelegated | StakeAccountNotUpdatedYet | StakeAccountIsEmergencyUnstaking
    | RequiredActiveStake | RequiredDeactivatingStake | DepositingNotActivatedStake
    | TooLowDelegationInDepositingStake | WrongStakeBalance | RedepositingMarinadeStake
    | TooEarlyForStakeDelta | UnstakingOnPositiveDelta | MovingStakeIsCapped
    | EmergencyUnstakingFromNonZeroScoredValidator | RemovingValidatorWithBalance
    | WithdrawStakeAccountIsNotEnabled | WithdrawStakeLamportsIsTooLow
    | SelectedStakeAccountHasNotEnoughFunds | StakeAccountRemainderTooLow
    | DestinationStakeMustNotBeDeactivating | DestinationStakeMustBeUpdated
    | InvalidDestinationStakeDelegation | SourceStakeMustNotBeDeactivating
    | SourceStakeMustBeUpdated | InvalidSourceStakeDelegation
    | TicketNotDue | TicketNotReady | ReusingDelayedUnstakeTicket
    | DesiredUnstakeAmountTooLow
    // the administrators' settings and the first state
    | RewardsFeeIsTooHigh | UpdateWindowIsTooLow | MinStakeIsTooLow | WrongInitialBalance | MintIsNotEmpty
    | BasisPointsOverflow | LpMaxFeeIsTooHigh | LpFeesAreWrongWayRound | LiquidityTargetTooLow
    | TreasuryCutIsTooHigh | InvalidConfiguration

  /** The value of a computation, or the error that aborted it. */
  datatype Result<+T> = Success(value: T) | Failure(error: Error) {
    predicate IsFailure() {
      Failure?
    }

    function PropagateFailure<U>(): Result<U>
      requires Failure?
    {
      Failure(error)
    }

    function Extract(): T
      requires Success?
    {
      value
    }
  }

  /** A guard that carries no value: it lets the instruction go on, or aborts it. */
  datatype Guard = Pass | Fail(error: Error) {
    predicate IsFailure() {
      Fail?
    }

    function PropagateFailure<U>(): Result<U>
      requires Fail?
    {
      Failure(error)
    }
  }

  function Require(condition: bool, error: Error): Guard {
    if condition then Pass else Fail(error)
  }

  function Min(a: nat, b: nat): nat {
    if a <= b then a else b
  }

  /** `u64::saturating_sub`. */
  function SatSub(a: nat, b: nat): nat {
    if a >= b then a - b else 0
  }

  /** `a + b` on `u64`. */
  function Add(a: nat, b: nat): Result<nat> {
    if a + b <= U64_MAX then Success(a + b) else Failure(Overflow)
  }

  /** `a - b` on an unsigned integer. */
  function Sub(a: nat, b: nat): Result<nat> {
    if b <= a then Success(a - b) else Failure(Underflow)
  }

  /** `a + b` on `u32`. */
  function Add32(a: nat, b: nat): Result<nat> {
    if a + b <= U32_MAX then Success(a + b) else Failure(Overflow)
  }

  /** Both errors abort the instruction as an arithmetic panic; which one comes first when
      several operations of one instruction leave their range is not told apart. */
  predicate SameError(a: Error, b: Error) {
    a == b || (a in {Overflow, Underflow, ReserveUnderflow} && b in {Overflow, Underflow, ReserveUnderflow})
  }
}
