/** What holds in every state reachable from a freshly initialized program. */
module FromStart {
  import opened Base
  import opened Calc
  import opened Sums
  import opened Model
  import opened Ledger
  import opened Instructions
  import opened Machine
  import opened Books
  import opened BooksSteps
  import opened Invariant
  import opened Shapes
  import opened Safety
  import opened Upgrade
  import opened Price

  // ---------------------------------------------------------------- the ledger

  /** With nothing to upgrade no step disturbs the upgrader, so every run is calm. */
  lemma {:induction false} RunFromDone(s: System, steps: seq<Step>)
    requires Inv(s) && s.upgrader.Done?
    ensures Inv(Run(s, steps)) && Run(s, steps).upgrader.Done?
    decreases |steps|
  {
    hide Inv, Apply, Next;
    if steps != [] {
      NeverDisturbs(s, steps[0]);
      StepKeeps(s, steps[0]);
      NextIs(s, steps[0]);
      PhaseNeverBack(s, steps[0]);
      RunFromDone(Next(s, steps[0]), steps[1..]);
    }
  }

  lemma NeverDisturbs(s: System, step: Step)
    requires s.upgrader.Done?
    ensures !StepDisturbs(s, step)
  {
  }

  datatype Setup = Setup(rewardFee: u32, minStake: u64, slotsForDelta: u64, lpTarget: u64, lpMaxFee: u32, lpMinFee: u32,
                         treasuryCut: u32)

  /** `s` is what initialization made of some accounts. */
  ghost predicate Initialized(s: System) {
    exists around: System, p: Setup ::
      && around.clock.epoch < NEVER
      && Initialize(around, p.rewardFee, p.minStake, p.slotsForDelta, p.lpTarget, p.lpMaxFee, p.lpMinFee, p.treasuryCut)
         == Success(s)
  }

  lemma InitializedIs(s: System)
    requires Initialized(s)
    ensures Inv(s) && s.upgrader.Done? && s.stakes == [] && s.validators == [] && s.tickets == []
  {
    hide Initialize, Inv;
    var around: System, p: Setup :|
      && around.clock.epoch < NEVER
      && Initialize(around, p.rewardFee, p.minStake, p.slotsForDelta, p.lpTarget, p.lpMaxFee, p.lpMinFee, p.treasuryCut)
         == Success(s);
    InitializeKeeps(around, p.rewardFee, p.minStake, p.slotsForDelta, p.lpTarget, p.lpMaxFee, p.lpMinFee,
                    p.treasuryCut);
  }

  /** From initialization, over any run: every validator's balance is the sum of its active records,
      the three stake buckets are the sums of the records in them, scores add up, keys are distinct,
      what is recorded as deactivating is, and a step fails on a subtraction from the books exactly
      when a claim or a staking is short of the reserve on the books. */
  lemma LedgerFromStart(start: System, steps: seq<Step>, step: Step)
    requires Initialized(start)
    ensures var s := Run(start, steps);
      && (forall j :: 0 <= j < |s.validators| ==>
            s.validators[j].active == Sum(s.stakes, ActiveStakeOn(s.native, s.validators[j].vote)))
      && s.active == Sum(s.stakes, ActiveStake())
      && s.active == Sum(s.validators, Balance())
      && s.delayed == Sum(s.stakes, CoolingStake(false))
      && s.emergency == Sum(s.stakes, CoolingStake(true))
      && s.totalScore == Sum(s.validators, Score())
      && (forall i, k :: 0 <= i < k < |s.stakes| ==> s.stakes[i].account != s.stakes[k].account)
      && Distinct(s.validators)
      && (forall i :: 0 <= i < |s.stakes| && s.stakes[i].status.Deactivating? ==>
            s.stakes[i].account in s.native && !s.native[s.stakes[i].account].Live())
      && (step.DoFinalizeUpgrade? || (Broken(Apply(s, step)) <==> ReserveShort(s, step)))
  {
    InitializedIs(start);
    RunFromDone(start, steps);
    var s := Run(start, steps);
    NeverDisturbs(s, step);
    StepKeeps(s, step);
    hide Sum, Apply, Run;
  }

  // ---------------------------------------------------------------- the minimum stake

  /** Every active record holds at least the minimum. */
  ghost predicate AboveMinimum(s: System) {
    forall i :: 0 <= i < |s.stakes| && s.stakes[i].status.Active? ==> s.stakes[i].delegated >= s.cfg.minStake
  }

  /** Slash-free, and the minimum is not changed. */
  predicate Steady(s: System, step: Step) {
    SlashFree(s, step) && (step.Configure? ==> step.cfg.minStake == s.cfg.minStake)
  }

  predicate SteadyRun(s: System, steps: seq<Step>)
    decreases |steps|
  {
    steps == [] || (Steady(s, steps[0]) && SteadyRun(Next(s, steps[0]), steps[1..]))
  }

  ghost predicate SameRecords(s: System, t: System) {
    t.stakes == s.stakes && t.cfg.minStake == s.cfg.minStake
  }

  lemma PaymentsKeepRecords(s: System, step: Step)
    requires step.DoDeposit? || step.DoOrderUnstake? || step.DoClaim?
    ensures Apply(s, step).Success? ==> SameRecords(s, Apply(s, step).value)
  {
    hide MsolToSol, MsolFromLamports;
  }

  lemma PoolKeepsRecords(s: System, step: Step)
    requires step.DoLiquidUnstake? || step.DoAddLiquidity? || step.DoRemoveLiquidity?
    ensures Apply(s, step).Success? ==> SameRecords(s, Apply(s, step).value)
  {
    hide MsolToSol, LinearFee;
  }

  lemma OthersKeepRecords(s: System, step: Step)
    requires step.DoAddValidator? || step.DoRemoveValidator? || step.DoSetScore? || step.DoFinalizeUpgrade?
             || step.Configure? || step.SetExtraRuns? || step.Around?
    requires step.Configure? ==> step.cfg.minStake == s.cfg.minStake
    ensures Apply(s, step).Success? ==> SameRecords(s, Apply(s, step).value)
  {
    hide FinalizeFrom;
  }

  lemma NoneUnknown(s: System)
    requires Inv(s) && s.upgrader.Done?
    ensures forall i :: 0 <= i < |s.stakes| ==> !s.stakes[i].status.Unknown?
  {
  }

  lemma ActiveUpdateKeepsMinimum(s: System, i: nat, account: Key, j: nat, treasury: bool)
    requires AboveMinimum(s) && SlashFree(s, DoUpdateActive(i, account, j, treasury))
    requires i < |s.stakes| ==> !s.stakes[i].status.Unknown?
    ensures UpdateActive(s, i, account, j, treasury).Success? ==>
        AboveMinimum(UpdateActive(s, i, account, j, treasury).value)
  {
    hide UpdateActive, OnlyMinted;
    UpdateActiveEffect(s, i, account, j, treasury);
  }

  lemma RemovalKeepsMinimum(s: System, i: nat, account: Key, j: nat, treasury: bool)
    requires AboveMinimum(s)
    ensures var r := UpdateDeactivated(s, i, account, j, treasury); r.Success? ==> AboveMinimum(r.value)
  {
    hide UpdateDeactivated, OnlyMinted;
    UpdateDeactivatedEffect(s, i, account, j, treasury);
  }

  lemma DepositStakeKeepsMinimum(s: System, account: Key, j: nat)
    requires AboveMinimum(s)
    ensures DepositStakeAccount(s, account, j).Success? ==> AboveMinimum(DepositStakeAccount(s, account, j).value)
  {
    hide MsolFromLamports;
  }

  lemma WithdrawStakeKeepsMinimum(s: System, i: nat, account: Key, j: nat, msol: u64, newKey: Key, treasury: bool)
    requires AboveMinimum(s)
    ensures var r := WithdrawStakeAccount(s, i, account, j, msol, newKey, treasury); r.Success? ==>
        AboveMinimum(r.value)
  {
    var r := WithdrawStakeAccount(s, i, account, j, msol, newKey, treasury);
    if r.Success? {
      var (split, burned) := WithdrawTerms(s, msol, s.stakes[i].delegated, treasury).value;
      assert s.stakes[i].delegated - split >= s.cfg.minStake;
      GiveShape(s, i, account, j, split, burned, newKey);
      hide GiveStake, WithdrawTerms;
    }
  }

  lemma StakeReserveKeepsMinimum(s: System, j: nat, vote: Key, newKey: Key)
    requires AboveMinimum(s)
    ensures StakeReserve(s, j, vote, newKey).Success? ==> AboveMinimum(StakeReserve(s, j, vote, newKey).value)
  {
    hide ValidatorTarget, StakeDelta;
  }

  lemma CoolPartRecords(s: System, i: nat, j: nat, amount: nat, newKey: Key, emergency: bool)
    requires i < |s.stakes| && j < |s.validators|
    ensures var r := CoolPart(s, i, j, amount, newKey, emergency);
      r.Success? ==>
        && amount <= s.stakes[i].delegated && r.value.cfg == s.cfg
        && r.value.stakes == s.stakes[i := s.stakes[i].(delegated := s.stakes[i].delegated - amount)]
                             + [StakeRecord(newKey, amount, s.clock.epoch, emergency, Deactivating)]
  {
  }

  lemma DeactivateStakeKeepsMinimum(s: System, i: nat, account: Key, j: nat, newKey: Key)
    requires AboveMinimum(s)
    ensures DeactivateStake(s, i, account, j, newKey).Success? ==>
              AboveMinimum(DeactivateStake(s, i, account, j, newKey).value)
  {
    hide ValidatorTarget, StakeDelta, CoolPart;
    if i < |s.stakes| && j < |s.validators| {
      forall amount: nat { CoolPartRecords(s, i, j, amount, newKey, false); }
    }
  }

  lemma PartialUnstakeKeepsMinimum(s: System, i: nat, account: Key, j: nat, desired: u64, newKey: Key)
    requires AboveMinimum(s)
    ensures var r := PartialUnstake(s, i, account, j, desired, newKey); r.Success? ==> AboveMinimum(r.value)
  {
    hide ValidatorTarget, StakeDelta;
  }

  lemma EmergencyUnstakeKeepsMinimum(s: System, i: nat, account: Key, j: nat)
    requires AboveMinimum(s)
    ensures EmergencyUnstake(s, i, account, j).Success? ==> AboveMinimum(EmergencyUnstake(s, i, account, j).value)
  {
  }

  lemma MergeStakesKeepsMinimum(s: System, c: nat, canonical: Key, i: nat, account: Key, j: nat, extra: nat)
    requires AboveMinimum(s)
    ensures var r := MergeStakes(s, c, canonical, i, account, j, extra); r.Success? ==> AboveMinimum(r.value)
  {
  }

  /** The crank looks only at the stake account; the ledger invariant says its record is active. */
  lemma CanonicalKeepsMinimum(s: System, i: nat, account: Key, j: nat, newKey: Key)
    requires Inv(s) && s.upgrader.Done? && AboveMinimum(s)
    ensures var r := CreateCanonicalStake(s, i, account, j, newKey); r.Success? ==> AboveMinimum(r.value)
  {
    hide Sum;
    var r := CreateCanonicalStake(s, i, account, j, newKey);
    if r.Success? {
      assert RecordOk(s.stakes[i], s.native) && !s.stakes[i].status.Unknown?;
      PushThenRemoveReplaces(s.stakes, i,
                             StakeRecord(newKey, s.stakes[i].delegated, s.clock.epoch, false, StakeStatus.Active));
      hide Inv;
    }
  }

  lemma StepKeepsMinimum(s: System, step: Step)
    requires Inv(s) && s.upgrader.Done? && AboveMinimum(s) && Steady(s, step)
    ensures AboveMinimum(Next(s, step))
  {
    hide Inv, Deposit, DepositStakeAccount, WithdrawStakeAccount, OrderUnstake, Claim, LiquidUnstake, AddLiquidity,
         RemoveLiquidity, UpdateActive, UpdateDeactivated, FinalizeUpgrade, StakeReserve, DeactivateStake,
         PartialUnstake, EmergencyUnstake, AddValidator, RemoveValidator, SetValidatorScore, MergeStakes,
         CreateCanonicalStake, SetConfig, Happen;
    match step {
      case DoDepositStake(account, j) => DepositStakeKeepsMinimum(s, account, j);
      case DoWithdrawStake(i, account, j, msol, newKey, treasury) =>
        WithdrawStakeKeepsMinimum(s, i, account, j, msol, newKey, treasury);
      case DoUpdateActive(i, account, j, treasury) =>
        NoneUnknown(s);
        ActiveUpdateKeepsMinimum(s, i, account, j, treasury);
      case DoUpdateDeactivated(i, account, j, treasury) => RemovalKeepsMinimum(s, i, account, j, treasury);
      case DoStakeReserve(j, vote, newKey) => StakeReserveKeepsMinimum(s, j, vote, newKey);
      case DoDeactivateStake(i, account, j, newKey) => DeactivateStakeKeepsMinimum(s, i, account, j, newKey);
      case DoPartialUnstake(i, account, j, desired, newKey) =>
        PartialUnstakeKeepsMinimum(s, i, account, j, desired, newKey);
      case DoEmergencyUnstake(i, account, j) => EmergencyUnstakeKeepsMinimum(s, i, account, j);
      case DoMergeStakes(c, canonical, i, account, j, extra) =>
        MergeStakesKeepsMinimum(s, c, canonical, i, account, j, extra);
      case DoCreateCanonical(i, account, j, newKey) => CanonicalKeepsMinimum(s, i, account, j, newKey);
      case DoDeposit(_) => PaymentsKeepRecords(s, step);
      case DoOrderUnstake(_, _) => PaymentsKeepRecords(s, step);
      case DoClaim(_) => PaymentsKeepRecords(s, step);
      case DoLiquidUnstake(_, _) => PoolKeepsRecords(s, step);
      case DoAddLiquidity(_) => PoolKeepsRecords(s, step);
      case DoRemoveLiquidity(_) => PoolKeepsRecords(s, step);
      case _ => OthersKeepRecords(s, step);
    }
  }

  lemma {:induction false} RunKeepsMinimum(s: System, steps: seq<Step>)
    requires Inv(s) && s.upgrader.Done? && AboveMinimum(s) && SteadyRun(s, steps)
    ensures AboveMinimum(Run(s, steps))
    decreases |steps|
  {
    hide Inv, Apply, Next, AboveMinimum, Steady;
    if steps != [] {
      StepKeepsMinimum(s, steps[0]);
      NeverDisturbs(s, steps[0]);
      StepKeeps(s, steps[0]);
      NextIs(s, steps[0]);
      PhaseNeverBack(s, steps[0]);
      RunKeepsMinimum(Next(s, steps[0]), steps[1..]);
    }
  }

  /** From initialization, with the minimum fixed and no slash: every active record in every
      reachable state holds at least the minimum stake. */
  lemma MinimumFromStart(start: System, steps: seq<Step>)
    requires Initialized(start) && SteadyRun(start, steps)
    ensures var s := Run(start, steps);
      forall i :: 0 <= i < |s.stakes| && s.stakes[i].status.Active? ==> s.stakes[i].delegated >= s.cfg.minStake
  {
    InitializedIs(start);
    RunKeepsMinimum(start, steps);
  }
}
