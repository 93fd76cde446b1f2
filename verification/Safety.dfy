/** The invariant over whole runs, from initialization and through the delinquent upgrade. */
module Safety {
  import opened Base
  import opened Calc
  import opened Sums
  import opened Model
  import opened Ledger
  import opened Instructions
  import opened Machine
  import opened Books
  import opened BooksSteps
  import opened Invariant

  predicate StepDisturbs(s: System, step: Step) {
    step.DoUpdateDeactivated? && Disturbs(s, step.i, step.j)
  }

  /** No update that hits a delinquent active stake while the upgrader still needs it is accepted. */
  predicate Calm(s: System, steps: seq<Step>)
    decreases |steps|
  {
    steps == [] || ((StepDisturbs(s, steps[0]) ==> Apply(s, steps[0]).Failure?) && Calm(Next(s, steps[0]), steps[1..]))
  }

  lemma EventKeeps(s: System, e: Event)
    requires Inv(s)
    ensures !Broken(Happen(s, e))
    ensures Happen(s, e).Success? ==> Inv(Happen(s, e).value)
  {
    hide Sum;
    var r := Happen(s, e);
    if r.Success? {
      OutsideKeepsBalanced(s, r.value);
    }
  }

  lemma SetConfigKeeps(s: System, cfg: Config)
    requires Inv(s)
    ensures !Broken(SetConfig(s, cfg))
    ensures SetConfig(s, cfg).Success? ==> Inv(SetConfig(s, cfg).value)
  {
    hide Sum;
    var r := SetConfig(s, cfg);
    if r.Success? {
      SameNativeKeeps(s, r.value);
    }
  }

  /** The two instructions that decide on the lamports in the reserve and then subtract from the
      reserve on the books, when only the former are enough. */
  predicate ReserveShort(s: System, step: Step) {
    match step
    case DoClaim(k) => ClaimShort(s, k)
    case DoStakeReserve(j, vote, newKey) => StakeShort(s, j, vote, newKey)
    case _ => false
  }

  /** Every step keeps the invariant, and fails on a subtraction from one of the four buckets, the
      tickets or the upgrader, or on one of the program's checks of itself, exactly when a claim or
      a staking is short of the reserve on the books. */
  lemma StepKeeps(s: System, step: Step)
    requires Inv(s) && !StepDisturbs(s, step)
    ensures Apply(s, step).Success? ==> Inv(Apply(s, step).value)
    ensures (step.DoFinalizeUpgrade? ==> s.upgrader.IteratingValidators?) ==>
        (Broken(Apply(s, step)) <==> ReserveShort(s, step))
    ensures ReserveShort(s, step) ==> Apply(s, step) == Failure(ReserveUnderflow)
  {
    hide Inv, Sum, ClaimShort, StakeShort, Deposit, DepositStakeAccount, WithdrawStakeAccount, OrderUnstake, Claim,
         LiquidUnstake, AddLiquidity, RemoveLiquidity, UpdateActive, UpdateDeactivated, FinalizeUpgrade, StakeReserve,
         DeactivateStake, PartialUnstake, EmergencyUnstake, AddValidator, RemoveValidator, SetValidatorScore,
         MergeStakes, CreateCanonicalStake, SetConfig, Happen;
    match step {
      case DoDeposit(lamports) => DepositKeeps(s, lamports);
      case DoDepositStake(account, j) => DepositStakeAccountKeeps(s, account, j);
      case DoWithdrawStake(i, account, j, msol, newKey, treasury) =>
        WithdrawStakeAccountKeeps(s, i, account, j, msol, newKey, treasury);
      case DoOrderUnstake(msol, newKey) => OrderUnstakeKeeps(s, msol, newKey);
      case DoClaim(k) => ClaimKeeps(s, k);
      case DoLiquidUnstake(msol, treasury) => LiquidUnstakeKeeps(s, msol, treasury);
      case DoAddLiquidity(lamports) => AddLiquidityKeeps(s, lamports);
      case DoRemoveLiquidity(tokens) => RemoveLiquidityKeeps(s, tokens);
      case DoUpdateActive(i, account, j, treasury) => UpdateActiveKeeps(s, i, account, j, treasury);
      case DoUpdateDeactivated(i, account, j, treasury) => UpdateDeactivatedKeeps(s, i, account, j, treasury);
      case DoFinalizeUpgrade(maxValidators) => FinalizeUpgradeKeeps(s, maxValidators);
      case DoStakeReserve(j, vote, newKey) => StakeReserveKeeps(s, j, vote, newKey);
      case DoDeactivateStake(i, account, j, newKey) => DeactivateStakeKeeps(s, i, account, j, newKey);
      case DoPartialUnstake(i, account, j, desired, newKey) => PartialUnstakeKeeps(s, i, account, j, desired, newKey);
      case DoEmergencyUnstake(i, account, j) => EmergencyUnstakeKeeps(s, i, account, j);
      case DoAddValidator(vote, score) => AddValidatorKeeps(s, vote, score);
      case DoRemoveValidator(j, vote) => RemoveValidatorKeeps(s, j, vote);
      case DoSetScore(j, vote, score) => SetValidatorScoreKeeps(s, j, vote, score);
      case DoMergeStakes(c, canonical, i, account, j, extra) => MergeStakesKeeps(s, c, canonical, i, account, j, extra);
      case DoCreateCanonical(i, account, j, newKey) => CreateCanonicalStakeKeeps(s, i, account, j, newKey);
      case Configure(cfg) => SetConfigKeeps(s, cfg);
      case SetExtraRuns(runs) => ExtraRunsKeeps(s, runs);
      case Around(event) => EventKeeps(s, event);
    }
  }

  lemma ExtraRunsKeeps(s: System, runs: u32)
    requires Inv(s)
    ensures Inv(s.(extraRuns := runs))
  {
    hide Sum;
    SameNativeKeeps(s, s.(extraRuns := runs));
  }

  lemma {:induction false} RunKeeps(s: System, steps: seq<Step>)
    requires Inv(s) && Calm(s, steps)
    ensures Inv(Run(s, steps))
    decreases |steps|
  {
    hide Inv, Apply;
    if steps != [] {
      if !StepDisturbs(s, steps[0]) {
        StepKeeps(s, steps[0]);
      }
      RunKeeps(Next(s, steps[0]), steps[1..]);
    }
  }

  // ---------------------------------------------------------------- where runs start

  /** A freshly initialized program is balanced, with nothing to upgrade. */
  lemma InitializeKeeps(s: System, rewardFee: u32, minStake: u64, slotsForDelta: u64,
                        lpTarget: u64, lpMaxFee: u32, lpMinFee: u32, treasuryCut: u32)
    requires s.clock.epoch < NEVER
    ensures var r := Initialize(s, rewardFee, minStake, slotsForDelta, lpTarget, lpMaxFee, lpMinFee, treasuryCut);
      r.Success? ==>
        && Inv(r.value) && r.value.upgrader.Done? && r.value.stakes == [] && r.value.validators == []
        && r.value.tickets == []
  {
  }

  /** What the old books said of a record: `cooled` are the accounts they had moved to a cooling
      bucket, by the emergency flag of the record. */
  function OldActive(cooled: set<Key>): StakeRecord -> nat {
    (r: StakeRecord) => if r.account in cooled then 0 else r.delegated
  }

  function OldActiveOn(cooled: set<Key>, native: map<Key, StakeAccount>, vote: Key): StakeRecord -> nat {
    (r: StakeRecord) => if r.account !in cooled && r.account in native && native[r.account].voter == vote
      then r.delegated else 0
  }

  function OldCooling(cooled: set<Key>, emergency: bool): StakeRecord -> nat {
    (r: StakeRecord) => if r.account in cooled && r.emergency == emergency then r.delegated else 0
  }

  /** The state the upgrade starts from: no record has a status yet, and the totals are those of
      books that did not notice delinquent stakes. Everything they call cooling is natively
      deactivating; what they call active may be either. */
  ghost predicate BeforeUpgrade(s: System, cooled: set<Key>) {
    && s.upgrader == IteratingStakes(0, 0, 0)
    && RecordsOk(s.stakes, s.native)
    && (forall i :: 0 <= i < |s.stakes| ==>
          && s.stakes[i].status.Unknown?
          && (s.stakes[i].account in cooled || s.stakes[i].emergency ==> !s.native[s.stakes[i].account].Live()))
    && ValidatorsOk(s)
    && (forall j :: 0 <= j < |s.validators| ==>
          && s.validators[j].upgrading == 0
          && s.validators[j].active == Sum(s.stakes, OldActiveOn(cooled, s.native, s.validators[j].vote)))
    && s.active == Sum(s.validators, Balance())
    && s.active == Sum(s.stakes, OldActive(cooled))
    && s.delayed == Sum(s.stakes, OldCooling(cooled, false))
    && s.emergency == Sum(s.stakes, OldCooling(cooled, true))
    && Backed(s)
  }

  lemma BeforeUpgradeIsBalanced(s: System, cooled: set<Key>)
    requires BeforeUpgrade(s, cooled)
    ensures Inv(s)
  {
    hide Sum;
    forall x | x in s.stakes
      ensures x.status.Unknown? && x.account in s.native
      ensures x.account in cooled ==> !s.native[x.account].Live()
    {
      var i :| 0 <= i < |s.stakes| && s.stakes[i] == x;
    }
    forall j | 0 <= j < |s.validators|
      ensures Sum(s.stakes, ActiveStakeOn(s.native, s.validators[j].vote)) == 0
      ensures Sum(s.stakes, PendingStakeOn(s.native, s.validators[j].vote)) <= s.validators[j].active
    {
      var vote := s.validators[j].vote;
      SumZero(s.stakes, ActiveStakeOn(s.native, vote));
      SumLe(s.stakes, PendingStakeOn(s.native, vote), OldActiveOn(cooled, s.native, vote));
    }
    SumZero(s.stakes, ActiveCount());
    SumZero(s.stakes, ActiveStake());
    forall v | v in s.validators ensures Upgrading()(v) == 0 {
      var j :| 0 <= j < |s.validators| && s.validators[j] == v;
    }
    SumZero(s.validators, Upgrading());
    var cooling := (r: StakeRecord) => OldCooling(cooled, false)(r) + OldCooling(cooled, true)(r);
    SumSplit(s.stakes, Delegated(), OldActive(cooled), cooling);
    SumSplit(s.stakes, cooling, OldCooling(cooled, false), OldCooling(cooled, true));
    SumLe(s.stakes, OldCooling(cooled, false), StoppedStake(s.native, false));
    SumLe(s.stakes, OldCooling(cooled, true), StoppedStake(s.native, true));
  }
}
