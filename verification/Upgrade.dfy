/** The delinquent upgrade: it is never stuck on its own checks, it empties the cooling buckets,
    it advances, and it ends with exact balances, as long as no step disturbs it. */
module Upgrade {
  import opened Base
  import opened Calc
  import opened Sums
  import opened Model
  import opened Ledger
  import opened Instructions
  import opened Machine
  import opened Books
  import opened BooksSteps
  import opened Invariant
  import opened Safety
  import opened Shapes

  /** The steps that can move the upgrader or, while it iterates validators, the records. */
  predicate MovesUpgrade(step: Step) {
    step.DoDepositStake? || step.DoUpdateActive? || step.DoUpdateDeactivated? || step.DoFinalizeUpgrade?
  }

  /** What a step must leave alone for the upgrade not to notice it: the upgrader, until it is done
      the records, and while it iterates validators also both balances of every validator. */
  ghost predicate UpgradeSame(s: System, t: System) {
    && t.upgrader == s.upgrader
    && (!s.upgrader.Done? ==> t.stakes == s.stakes)
    && (s.upgrader.IteratingValidators? ==>
          && t.active == s.active
          && |t.validators| == |s.validators|
          && forall j :: 0 <= j < |s.validators| ==>
               t.validators[j].active == s.validators[j].active
                   && t.validators[j].upgrading == s.validators[j].upgrading)
  }

  lemma UserStepsSame(s: System, step: Step)
    requires step.DoDeposit? || step.DoOrderUnstake? || step.DoClaim?
    ensures Apply(s, step).Success? ==> UpgradeSame(s, Apply(s, step).value)
  {
    hide MsolToSol, MsolFromLamports, FeeCentsApply, CheckStakingCap;
  }

  lemma WithdrawStakeSame(s: System, step: Step)
    requires step.DoWithdrawStake?
    ensures Apply(s, step).Success? ==> UpgradeSame(s, Apply(s, step).value)
  {
    hide WithdrawTerms;
  }

  lemma PoolStepsSame(s: System, step: Step)
    requires step.DoLiquidUnstake? || step.DoAddLiquidity? || step.DoRemoveLiquidity?
    ensures Apply(s, step).Success? ==> UpgradeSame(s, Apply(s, step).value)
  {
  }

  lemma CrankStepsSame(s: System, step: Step)
    requires step.DoStakeReserve? || step.DoDeactivateStake?
    ensures Apply(s, step).Success? ==> UpgradeSame(s, Apply(s, step).value)
  {
    hide ValidatorTarget, StakeDelta;
  }

  lemma HousekeepingSame(s: System, step: Step)
    requires step.DoMergeStakes? || step.DoCreateCanonical?
    ensures Apply(s, step).Success? ==> UpgradeSame(s, Apply(s, step).value)
  {
  }

  lemma PartialUnstakeSame(s: System, step: Step)
    requires step.DoPartialUnstake?
    ensures Apply(s, step).Success? ==> UpgradeSame(s, Apply(s, step).value)
  {
    hide ValidatorTarget, StakeDelta, FeeApply;
  }

  lemma ManagerStepsSame(s: System, step: Step)
    requires step.DoEmergencyUnstake? || step.DoAddValidator? || step.DoRemoveValidator? || step.DoSetScore?
    ensures Apply(s, step).Success? ==> UpgradeSame(s, Apply(s, step).value)
  {
    hide FeeApply;
  }

  lemma OtherStepsSame(s: System, step: Step)
    requires step.Configure? || step.SetExtraRuns? || step.Around?
    ensures Apply(s, step).Success? ==> UpgradeSame(s, Apply(s, step).value)
  {
  }

  lemma StepSame(s: System, step: Step)
    requires !MovesUpgrade(step)
    ensures Apply(s, step).Success? ==> UpgradeSame(s, Apply(s, step).value)
  {
    hide Apply;
    match step {
      case DoDeposit(_) => UserStepsSame(s, step);
      case DoWithdrawStake(_, _, _, _, _, _) => WithdrawStakeSame(s, step);
      case DoOrderUnstake(_, _) => UserStepsSame(s, step);
      case DoClaim(_) => UserStepsSame(s, step);
      case DoLiquidUnstake(_, _) => PoolStepsSame(s, step);
      case DoAddLiquidity(_) => PoolStepsSame(s, step);
      case DoRemoveLiquidity(_) => PoolStepsSame(s, step);
      case DoStakeReserve(_, _, _) => CrankStepsSame(s, step);
      case DoDeactivateStake(_, _, _, _) => CrankStepsSame(s, step);
      case DoMergeStakes(_, _, _, _, _, _) => HousekeepingSame(s, step);
      case DoCreateCanonical(_, _, _, _) => HousekeepingSame(s, step);
      case DoPartialUnstake(_, _, _, _, _) => PartialUnstakeSame(s, step);
      case DoEmergencyUnstake(_, _, _) => ManagerStepsSame(s, step);
      case DoAddValidator(_, _) => ManagerStepsSame(s, step);
      case DoRemoveValidator(_, _) => ManagerStepsSame(s, step);
      case DoSetScore(_, _, _) => ManagerStepsSame(s, step);
      case Configure(_) => OtherStepsSame(s, step);
      case SetExtraRuns(_) => OtherStepsSame(s, step);
      case Around(_) => OtherStepsSame(s, step);
    }
  }

  // ---------------------------------------------------------------- the buckets are drained

  lemma StepDrains(s: System, step: Step)
    requires Inv(s) && Drained(s) && !StepDisturbs(s, step)
    ensures Apply(s, step).Success? ==> Drained(Apply(s, step).value)
  {
    hide Inv, DepositStakeAccount, UpdateActive, UpdateDeactivated, FinalizeUpgrade;
    match step {
      case DoDepositStake(account, j) => DepositPhase(s, account, j);
      case DoUpdateActive(i, account, j, treasury) => UpdateActiveKeeps(s, i, account, j, treasury);
      case DoUpdateDeactivated(i, account, j, treasury) => UpdateDeactivatedKeeps(s, i, account, j, treasury);
      case DoFinalizeUpgrade(maxValidators) => FinalizeShape(s, maxValidators);
      case _ => StepSame(s, step);
    }
  }

  lemma DepositPhase(s: System, account: Key, j: nat)
    ensures var r := DepositStakeAccount(s, account, j);
      r.Success? ==>
        && r.value.upgrader.IteratingStakes? == s.upgrader.IteratingStakes?
        && r.value.upgrader.Done? == s.upgrader.Done?
        && |r.value.stakes| == |s.stakes| + 1 && r.value.stakes[..|s.stakes|] == s.stakes
        && r.value.stakes[|s.stakes|].status.Active?
  {
    hide MsolFromLamports, FeeCentsApply;
  }

  lemma FinalizeShape(s: System, maxValidators: u32)
    ensures FinalizeUpgrade(s, maxValidators).Success? ==>
              && s.upgrader.IteratingValidators?
              && FinalizeUpgrade(s, maxValidators).value.stakes == s.stakes
              && !FinalizeUpgrade(s, maxValidators).value.upgrader.IteratingStakes?
  {
  }

  /** The phases only ever go forward. */
  lemma PhaseNeverBack(s: System, step: Step)
    requires !s.upgrader.IteratingStakes?
    ensures !Next(s, step).upgrader.IteratingStakes? && (s.upgrader.Done? ==> Next(s, step).upgrader.Done?)
  {
    hide DepositStakeAccount, UpdateActive, UpdateDeactivated, FinalizeUpgrade;
    match step {
      case DoDepositStake(account, j) => DepositPhase(s, account, j);
      case DoUpdateActive(i, account, j, treasury) => UpdateActiveEffect(s, i, account, j, treasury);
      case DoUpdateDeactivated(i, account, j, treasury) => UpdateDeactivatedEffect(s, i, account, j, treasury);
      case DoFinalizeUpgrade(maxValidators) => FinalizeShape(s, maxValidators);
      case _ =>
        StepSame(s, step);
        hide Apply;
    }
  }

  lemma {:induction false} RunDrains(s: System, steps: seq<Step>)
    requires Inv(s) && Drained(s) && Calm(s, steps)
    ensures Drained(Run(s, steps)) && Inv(Run(s, steps))
    decreases |steps|
  {
    hide Inv, Apply, Drained;
    if steps != [] {
      if !StepDisturbs(s, steps[0]) {
        StepKeeps(s, steps[0]);
        StepDrains(s, steps[0]);
      }
      RunDrains(Next(s, steps[0]), steps[1..]);
    }
  }

  // ---------------------------------------------------------------- main results

  /** What the upgrade promises of every state: both cooling buckets are empty and every record is
      active while validators are iterated; when it is done the three totals and the balance of every
      validator are the sums of the records they stand for. */
  ghost predicate Sound(s: System) {
    && (s.upgrader.IteratingValidators? ==> s.delayed == 0 && s.emergency == 0 && AllActive(s.stakes))
    && (s.upgrader.Done? ==>
          && s.active == Sum(s.stakes, ActiveStake())
          && s.delayed == Sum(s.stakes, CoolingStake(false))
          && s.emergency == Sum(s.stakes, CoolingStake(true))
          && forall j :: 0 <= j < |s.validators| ==>
               s.validators[j].active == Sum(s.stakes, ActiveStakeOn(s.native, s.validators[j].vote)))
  }

  /** What it promises of every step that does not disturb it: no subtraction from the books and no
      check of the program on itself fails, but for a claim short of the reserve on the books (staking
      is refused until the upgrade is done). Only a batch called in the wrong phase is refused by one. */
  ghost predicate Unbroken(s: System, step: Step) {
    !StepDisturbs(s, step) && (step.DoFinalizeUpgrade? ==> s.upgrader.IteratingValidators?) ==>
      (Broken(Apply(s, step)) <==> ReserveShort(s, step))
  }

  /** The promise at every point of a run. */
  ghost predicate Promised(s: System, steps: seq<Step>)
    decreases |steps|
  {
    Sound(s) && (steps == [] || (Unbroken(s, steps[0]) && Promised(Next(s, steps[0]), steps[1..])))
  }

  lemma InvIsSound(s: System)
    requires Inv(s) && Drained(s)
    ensures Sound(s)
  {
    hide Sum;
    if s.upgrader.IteratingValidators? {
      SumZero(s.stakes, CoolingStake(false));
      SumZero(s.stakes, CoolingStake(true));
    }
  }

  lemma {:induction false} CalmIsPromised(s: System, steps: seq<Step>)
    requires Inv(s) && Drained(s) && Calm(s, steps)
    ensures Promised(s, steps)
    decreases |steps|
  {
    hide Inv, Apply, Drained, Sound;
    InvIsSound(s);
    if steps != [] {
      if !StepDisturbs(s, steps[0]) {
        StepKeeps(s, steps[0]);
        StepDrains(s, steps[0]);
      }
      CalmIsPromised(Next(s, steps[0]), steps[1..]);
    }
  }

  /** From books that never heard of delinquent stakes, through any interleaving of any steps of which
      none accepted disturbs the upgrader: no step fails on a bucket or on a check of the upgrader, but
      for a claim short of the reserve on the books; while validators are iterated both cooling buckets
      are empty; when it is done every validator's balance is the sum of the active records delegated
      to it. */
  lemma UpgradeNeverStuck(start: System, cooled: set<Key>, steps: seq<Step>, step: Step)
    requires BeforeUpgrade(start, cooled) && Calm(start, steps)
    ensures Sound(Run(start, steps)) && Unbroken(Run(start, steps), step)
  {
    hide Inv, Apply, Sound;
    BeforeUpgradeIsBalanced(start, cooled);
    RunDrains(start, steps);
    if !StepDisturbs(Run(start, steps), step) {
      StepKeeps(Run(start, steps), step);
    }
    InvIsSound(Run(start, steps));
  }
}
