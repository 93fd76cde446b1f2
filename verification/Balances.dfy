/** With no exclusions at all: in every phase the validators' balances add up to the total active
    balance and the delinquent balance still to be taken off. */
module Balances {
  import opened Base
  import opened Sums
  import opened Model
  import opened Ledger
  import opened Instructions
  import opened Machine
  import opened Books
  import opened Invariant
  import opened Shapes

  ghost predicate SameBalances(s: System, t: System) {
    t.active == s.active && t.upgrader == s.upgrader && t.validators == s.validators
  }

  lemma SameBalancesAddUp(s: System, t: System)
    requires BalancesAddUp(s) && SameBalances(s, t)
    ensures BalancesAddUp(t)
  {
  }

  // ---------------------------------------------------------------- moves of the ledger

  lemma StartCoolingBalance(s: System, i: nat, j: nat, emergency: bool)
    requires BalancesAddUp(s) && i < |s.stakes| && j < |s.validators|
    ensures StartCooling(s, i, j, emergency).Success? ==> BalancesAddUp(StartCooling(s, i, j, emergency).value)
  {
    hide Sum;
    var r := StartCooling(s, i, j, emergency);
    if r.Success? {
      SumSet(s.validators, j, r.value.validators[j], Balance());
    }
  }

  lemma SplitCoolingBalance(s: System, i: nat, j: nat, amount: nat, account: Key, emergency: bool)
    requires BalancesAddUp(s) && i < |s.stakes| && j < |s.validators|
    ensures SplitCooling(s, i, j, amount, account, emergency).Success? ==>
              BalancesAddUp(SplitCooling(s, i, j, amount, account, emergency).value)
  {
    hide Sum;
    var r := SplitCooling(s, i, j, amount, account, emergency);
    if r.Success? {
      SumSet(s.validators, j, r.value.validators[j], Balance());
    }
  }

  lemma BookDelegationBalance(s: System, i: nat, j: nat, delegated: nat, epoch: nat)
    requires BalancesAddUp(s) && i < |s.stakes| && j < |s.validators|
    ensures BookDelegation(s, i, j, delegated, epoch).Success? ==>
        BalancesAddUp(BookDelegation(s, i, j, delegated, epoch).value)
  {
    hide Sum;
    var r := BookDelegation(s, i, j, delegated, epoch);
    if r.Success? {
      SumSet(s.validators, j, r.value.validators[j], Balance());
    }
  }

  lemma PushActiveBalance(s: System, account: Key, amount: nat, j: nat)
    requires BalancesAddUp(s) && j < |s.validators|
    ensures var r := PushActive(s, account, amount, j);
      r.Success? ==> BalancesAddUp(r.value) && |r.value.validators| == |s.validators|
  {
    hide Sum;
    var r := PushActive(s, account, amount, j);
    if r.Success? {
      SumSet(s.validators, j, r.value.validators[j], Balance());
    }
  }

  lemma UpgradeRecordBalance(s: System, i: nat, j: nat)
    requires BalancesAddUp(s) && i < |s.stakes| && j < |s.validators|
    ensures UpgradeRecord(s, i, j).Success? ==> BalancesAddUp(UpgradeRecord(s, i, j).value)
  {
    hide Sum;
    var r := UpgradeRecord(s, i, j);
    if r.Success? && s.stakes[i].status.Unknown? {
      SumSet(s.validators, j, r.value.validators[j], Balance());
    }
  }

  /** What a bucket cannot cover leaves the total and joins the delinquent balance. */
  lemma ReleaseCooledBalance(s: System, i: nat)
    requires BalancesAddUp(s) && i < |s.stakes|
    ensures ReleaseCooled(s, i).Success? ==> BalancesAddUp(ReleaseCooled(s, i).value)
  {
    hide Sum;
  }

  lemma NextPhaseBalance(s: System)
    requires BalancesAddUp(s)
    ensures NextPhase(s).Success? ==> BalancesAddUp(NextPhase(s).value)
  {
    hide Sum;
  }

  lemma MergeRecordsBalance(s: System, c: nat, i: nat, j: nat, extra: nat)
    requires BalancesAddUp(s) && c < |s.stakes| && i < |s.stakes| && c != i && j < |s.validators|
    ensures MergeRecords(s, c, i, j, extra).Success? ==> BalancesAddUp(MergeRecords(s, c, i, j, extra).value)
  {
    hide Sum;
    var r := MergeRecords(s, c, i, j, extra);
    if r.Success? {
      SumSet(s.validators, j, r.value.validators[j], Balance());
    }
  }

  /** A batch takes off the validators what it takes off the balance left. */
  lemma {:induction false} FinalizeFromAddsUp(validators: seq<ValidatorRecord>, visited: nat, left: nat, max: nat)
    ensures var r := FinalizeFrom(validators, visited, left, max);
      r.Success? ==>
        var (after, seen, rest) := r.value;
        Sum(after, Balance()) + left == Sum(validators, Balance()) + rest
    decreases max
  {
    if visited < |validators| && max > 0 {
      var v := validators[visited];
      if v.upgrading <= v.active && v.active - v.upgrading <= left {
        var w := v.(active := v.upgrading, upgrading := 0);
        SumSet(validators, visited, w, Balance());
        FinalizeFromAddsUp(validators[visited := w], visited + 1, left - (v.active - v.upgrading), max - 1);
      }
    }
  }

  lemma FinalizeBatchBalance(s: System, max: nat)
    requires BalancesAddUp(s) && s.upgrader.IteratingValidators?
    ensures FinalizeBatch(s, max).Success? ==> BalancesAddUp(FinalizeBatch(s, max).value)
  {
    FinalizeFromAddsUp(s.validators, s.upgrader.visited, s.upgrader.balanceLeft, max);
    hide Sum, FinalizeFrom;
  }

  // ---------------------------------------------------------------- instructions

  lemma UserAddsUp(s: System, step: Step)
    requires BalancesAddUp(s) && (step.DoDeposit? || step.DoOrderUnstake? || step.DoClaim?)
    ensures Apply(s, step).Success? ==> BalancesAddUp(Apply(s, step).value)
  {
    hide Sum, MsolToSol, MsolFromLamports;
  }

  lemma PoolAddsUp(s: System, step: Step)
    requires BalancesAddUp(s) && (step.DoLiquidUnstake? || step.DoAddLiquidity? || step.DoRemoveLiquidity?)
    ensures Apply(s, step).Success? ==> BalancesAddUp(Apply(s, step).value)
  {
    hide Sum, MsolToSol, LinearFee;
  }

  lemma DepositStakeAddsUp(s: System, account: Key, j: nat)
    requires BalancesAddUp(s)
    ensures DepositStakeAccount(s, account, j).Success? ==> BalancesAddUp(DepositStakeAccount(s, account, j).value)
  {
    hide Sum, MsolFromLamports, PushActive;
    if account in s.native && j < |s.validators| {
      PushActiveBalance(s.(native := s.native[account := s.native[account].(ours := true)]), account,
                        s.native[account].stake, j);
    }
  }

  lemma WithdrawStakeAddsUp(s: System, i: nat, account: Key, j: nat, msol: u64, newKey: Key, treasury: bool)
    requires BalancesAddUp(s)
    ensures WithdrawStakeAccount(s, i, account, j, msol, newKey, treasury).Success? ==>
              BalancesAddUp(WithdrawStakeAccount(s, i, account, j, msol, newKey, treasury).value)
  {
    hide Sum, GiveStake;
    var r := WithdrawStakeAccount(s, i, account, j, msol, newKey, treasury);
    if r.Success? {
      var (split, burned) := WithdrawTerms(s, msol, s.stakes[i].delegated, treasury).value;
      GiveStakeAddsUp(s, i, account, j, split, burned, newKey);
    }
  }

  lemma GiveStakeAddsUp(s: System, i: nat, account: Key, j: nat, split: nat, burned: nat, newKey: Key)
    requires BalancesAddUp(s) && i < |s.stakes| && j < |s.validators| && split <= s.stakes[i].delegated
    ensures GiveStake(s, i, account, j, split, burned, newKey).Success? ==>
              BalancesAddUp(GiveStake(s, i, account, j, split, burned, newKey).value)
  {
    hide Sum, BookDelegation;
    var paid := BurnMsol(s, burned);
    if paid.Success? {
      var shared := SplitNative(paid.value, account, newKey, split);
      if shared.Success? {
        var given :=
          shared.value.(native := shared.value.native[newKey := shared.value.native[newKey].(ours := false)]);
        BookDelegationBalance(given, i, j, s.stakes[i].delegated - split, s.stakes[i].updateEpoch);
      }
    }
  }

  lemma UpdateActiveAddsUp(s: System, i: nat, account: Key, j: nat, treasury: bool)
    requires BalancesAddUp(s)
    ensures UpdateActive(s, i, account, j, treasury).Success? ==>
        BalancesAddUp(UpdateActive(s, i, account, j, treasury).value)
  {
    UpdateActiveGuards(s, i, account, j, treasury);
    if ActiveReady(s, i, account, j) {
      BeginShape(s, i, account, j);
      SameBalancesAddUp(s, Sync(s));
      hide Sum, BalancesAddUp, Begin, RefreshActive;
      RefreshAddsUp(Sync(s), i, account, j, treasury);
    }
  }

  lemma RefreshAddsUp(s: System, i: nat, account: Key, j: nat, treasury: bool)
    requires i < |s.stakes| && j < |s.validators| && account in s.native && BalancesAddUp(s)
    ensures RefreshActive(s, i, account, j, treasury).Success? ==>
        BalancesAddUp(RefreshActive(s, i, account, j, treasury).value)
  {
    hide Sum, BalancesAddUp, UpgradeRecord, SweepExtra, BookActive, OnlyMinted;
    var a := s.native[account];
    UpgradeRecordBalance(s, i, j);
    UpgradeShape(s, i, j);
    var upgraded := UpgradeRecord(s, i, j);
    if upgraded.Success? && a.rent <= a.lamports {
      var extra := SatSub(a.lamports - a.rent, a.stake);
      SweepShape(upgraded.value, account, extra, treasury);
      var swept := SweepExtra(upgraded.value, account, extra, treasury);
      if swept.Success? {
        SameBalancesAddUp(upgraded.value, swept.value);
        BookActiveAddsUp(swept.value, i, j, a.stake, treasury);
      }
    }
  }

  lemma BookActiveAddsUp(s: System, i: nat, j: nat, delegated: nat, treasury: bool)
    requires i < |s.stakes| && j < |s.validators| && BalancesAddUp(s)
    ensures BookActive(s, i, j, delegated, treasury).Success? ==>
        BalancesAddUp(BookActive(s, i, j, delegated, treasury).value)
  {
    hide MintProtocolFees, BookAndPrice, BalancesAddUp;
    var growth := SatSub(delegated, s.stakes[i].delegated);
    MintFeesShape(s, growth);
    var minted := if delegated >= s.stakes[i].delegated && treasury then MintProtocolFees(s, growth) else Success(s);
    if minted.Success? {
      SameBalancesAddUp(s, minted.value);
      BookAndPriceAddsUp(minted.value, i, j, delegated);
    }
  }

  lemma BookAndPriceAddsUp(s: System, i: nat, j: nat, delegated: nat)
    requires i < |s.stakes| && j < |s.validators| && BalancesAddUp(s)
    ensures BookAndPrice(s, i, j, delegated).Success? ==> BalancesAddUp(BookAndPrice(s, i, j, delegated).value)
  {
    hide BookDelegation, UpdatePrice, BalancesAddUp, NextPhase;
    BookDelegationBalance(s, i, j, delegated, s.clock.epoch);
    var booked := BookDelegation(s, i, j, delegated, s.clock.epoch);
    if booked.Success? {
      PriceShape(booked.value);
      var priced := UpdatePrice(booked.value);
      if priced.Success? {
        SameBalancesAddUp(booked.value, priced.value);
        NextPhaseBalance(priced.value);
      }
    }
  }

  /** The removal of an active record in the middle of the upgrade is no exception. */
  lemma UpdateDeactivatedAddsUp(s: System, i: nat, account: Key, j: nat, treasury: bool)
    requires BalancesAddUp(s)
    ensures UpdateDeactivated(s, i, account, j, treasury).Success? ==>
              BalancesAddUp(UpdateDeactivated(s, i, account, j, treasury).value)
  {
    BeginShape(s, i, account, j);
    if UpdateReady(s, i, account, j) {
      SameBalancesAddUp(s, Sync(s));
      DetectShape(Sync(s), i, j);
      StartCoolingBalance(Sync(s), i, j, true);
      assert DetectDelinquent(Sync(s), i, j).Success? ==> BalancesAddUp(DetectDelinquent(Sync(s), i, j).value);
      hide DetectDelinquent, RetireStake, Begin, BalancesAddUp, StartCooling;
      var detected := DetectDelinquent(Sync(s), i, j);
      if detected.Success? {
        RetireAddsUp(detected.value, i, treasury);
      }
    }
  }

  lemma RetireAddsUp(s: System, i: nat, treasury: bool)
    requires i < |s.stakes| && s.stakes[i].account in s.native && BalancesAddUp(s)
    ensures RetireStake(s, i, treasury).Success? ==> BalancesAddUp(RetireStake(s, i, treasury).value)
  {
    CollectShape(s, i, treasury);
    hide CollectStake, ReleaseCooled, UpdatePrice, BalancesAddUp, NextPhase;
    var collected := CollectStake(s, i, treasury);
    if collected.Success? {
      SameBalancesAddUp(s, collected.value);
      ReleaseCooledBalance(collected.value, i);
      ReleaseShape(collected.value, i);
      var released := ReleaseCooled(collected.value, i);
      if released.Success? {
        PriceShape(released.value);
        var priced := UpdatePrice(released.value);
        if priced.Success? {
          var gone := priced.value.(native := priced.value.native - {s.stakes[i].account});
          SameBalancesAddUp(released.value, gone);
          NextPhaseBalance(gone);
        }
      }
    }
  }

  lemma CoolWholeAddsUp(s: System, i: nat, j: nat, emergency: bool)
    requires BalancesAddUp(s) && i < |s.stakes| && j < |s.validators|
    ensures CoolWhole(s, i, j, emergency).Success? ==> BalancesAddUp(CoolWhole(s, i, j, emergency).value)
  {
    hide StartCooling, Sum;
    var stopped := DeactivateNative(s, s.stakes[i].account);
    if stopped.Success? {
      StartCoolingBalance(stopped.value, i, j, emergency);
    }
  }

  lemma CoolPartAddsUp(s: System, i: nat, j: nat, amount: nat, newKey: Key, emergency: bool)
    requires BalancesAddUp(s) && i < |s.stakes| && j < |s.validators|
    ensures CoolPart(s, i, j, amount, newKey, emergency).Success? ==>
              BalancesAddUp(CoolPart(s, i, j, amount, newKey, emergency).value)
  {
    hide SplitCooling, Sum;
    var shared := SplitNative(s, s.stakes[i].account, newKey, amount);
    if shared.Success? {
      var stopped := DeactivateNative(shared.value, newKey);
      if stopped.Success? {
        SplitCoolingBalance(stopped.value, i, j, amount, newKey, emergency);
      }
    }
  }

  lemma TouchAddsUp(s: System, j: nat)
    requires BalancesAddUp(s) && j < |s.validators|
    ensures BalancesAddUp(Touch(s, j))
  {
    hide Sum;
    SumSet(s.validators, j, Touch(s, j).validators[j], Balance());
  }

  lemma StakeIntoAddsUp(s: System, j: nat, amount: nat, newKey: Key)
    requires BalancesAddUp(s) && j < |s.validators|
    ensures StakeInto(s, j, amount, newKey).Success? ==> BalancesAddUp(StakeInto(s, j, amount, newKey).value)
  {
    hide Sum, PushActive, Touch;
    if amount <= s.reserveLamports && amount <= s.reserve {
      var stake :=
        StakeAccount(s.validators[j].vote, amount, s.clock.epoch, NEVER, amount + s.stakeRent, s.stakeRent, true);
      var funded := s.(reserve := s.reserve - amount, reserveLamports := s.reserveLamports - amount,
                       native := s.native[newKey := stake]);
      PushActiveBalance(funded, newKey, amount, j);
      var booked := PushActive(funded, newKey, amount, j);
      if booked.Success? {
        TouchAddsUp(booked.value, j);
      }
    }
  }

  lemma StakeReserveAddsUp(s: System, j: nat, vote: Key, newKey: Key)
    requires BalancesAddUp(s)
    ensures StakeReserve(s, j, vote, newKey).Success? ==> BalancesAddUp(StakeReserve(s, j, vote, newKey).value)
  {
    hide Sum, StakeInto, ValidatorTarget, StakeAmount;
    if j < |s.validators| {
      var counted := if s.validators[j].deltaEpoch == s.clock.epoch && s.extraRuns > 0
                     then s.(extraRuns := s.extraRuns - 1) else s;
      forall amount: nat
        ensures StakeInto(counted, j, amount, newKey).Success? ==>
            BalancesAddUp(StakeInto(counted, j, amount, newKey).value)
      {
        StakeIntoAddsUp(counted, j, amount, newKey);
      }
    }
  }

  lemma DeactivateStakeAddsUp(s: System, i: nat, account: Key, j: nat, newKey: Key)
    requires BalancesAddUp(s)
    ensures DeactivateStake(s, i, account, j, newKey).Success? ==>
              BalancesAddUp(DeactivateStake(s, i, account, j, newKey).value)
  {
    hide Sum, CoolWhole, CoolPart, ValidatorTarget, Touch;
    if i < |s.stakes| && j < |s.validators| {
      CoolWholeAddsUp(s.(deltaEpoch := s.clock.epoch), i, j, false);
      forall amount: nat
        ensures var cooled := CoolPart(s, i, j, amount, newKey, false);
          cooled.Success? ==> j < |cooled.value.validators| && BalancesAddUp(Touch(cooled.value, j))
      {
        CoolPartAddsUp(s, i, j, amount, newKey, false);
        CoolPartShape(s, i, j, amount, newKey, false);
        var cooled := CoolPart(s, i, j, amount, newKey, false);
        if cooled.Success? {
          TouchAddsUp(cooled.value, j);
        }
      }
    }
  }

  lemma PartialUnstakeAddsUp(s: System, i: nat, account: Key, j: nat, desired: u64, newKey: Key)
    requires BalancesAddUp(s)
    ensures PartialUnstake(s, i, account, j, desired, newKey).Success? ==>
              BalancesAddUp(PartialUnstake(s, i, account, j, desired, newKey).value)
  {
    hide Sum, StartCooling, SplitCooling, ValidatorTarget, OnStakeMoved, SplitNative, DeactivateNative;
    if i < |s.stakes| && j < |s.validators| {
      MovedWholeAddsUp(s, i, j);
      forall amount: nat { MovedPartAddsUp(s, i, j, amount, newKey); }
    }
  }

  lemma MovedSame(s: System, amount: nat)
    ensures OnStakeMoved(s, amount).Success? ==>
              SameBalances(s, OnStakeMoved(s, amount).value) && OnStakeMoved(s, amount).value.stakes == s.stakes
  {
  }

  lemma MovedWholeAddsUp(s: System, i: nat, j: nat)
    requires BalancesAddUp(s) && i < |s.stakes| && j < |s.validators|
    ensures var stopped := DeactivateNative(s, s.stakes[i].account);
      stopped.Success? ==>
        var moved := OnStakeMoved(stopped.value, s.stakes[i].delegated);
        moved.Success? ==>
          && i < |moved.value.stakes| && j < |moved.value.validators|
          && (StartCooling(moved.value, i, j, true).Success? ==>
              BalancesAddUp(StartCooling(moved.value, i, j, true).value))
  {
    hide Sum, StartCooling, OnStakeMoved;
    var stopped := DeactivateNative(s, s.stakes[i].account);
    if stopped.Success? {
      MovedSame(stopped.value, s.stakes[i].delegated);
      var moved := OnStakeMoved(stopped.value, s.stakes[i].delegated);
      if moved.Success? {
        StartCoolingBalance(moved.value, i, j, true);
      }
    }
  }

  lemma MovedPartAddsUp(s: System, i: nat, j: nat, amount: nat, newKey: Key)
    requires BalancesAddUp(s) && i < |s.stakes| && j < |s.validators|
    ensures var shared := SplitNative(s, s.stakes[i].account, newKey, amount);
      shared.Success? ==>
        var stopped := DeactivateNative(shared.value, newKey);
        stopped.Success? ==>
          var moved := OnStakeMoved(stopped.value, amount);
          moved.Success? ==>
            && i < |moved.value.stakes| && j < |moved.value.validators|
            && (SplitCooling(moved.value, i, j, amount, newKey, true).Success? ==>
                  BalancesAddUp(SplitCooling(moved.value, i, j, amount, newKey, true).value))
  {
    hide Sum, SplitCooling, OnStakeMoved;
    var shared := SplitNative(s, s.stakes[i].account, newKey, amount);
    if shared.Success? {
      var stopped := DeactivateNative(shared.value, newKey);
      if stopped.Success? {
        MovedSame(stopped.value, amount);
        var moved := OnStakeMoved(stopped.value, amount);
        if moved.Success? {
          SplitCoolingBalance(moved.value, i, j, amount, newKey, true);
        }
      }
    }
  }

  lemma EmergencyUnstakeAddsUp(s: System, i: nat, account: Key, j: nat)
    requires BalancesAddUp(s)
    ensures EmergencyUnstake(s, i, account, j).Success? ==> BalancesAddUp(EmergencyUnstake(s, i, account, j).value)
  {
    hide Sum, CoolWhole;
    if i < |s.stakes| && j < |s.validators| {
      var moved := OnStakeMoved(s, s.stakes[i].delegated);
      if moved.Success? {
        CoolWholeAddsUp(moved.value, i, j, true);
      }
    }
  }

  lemma ValidatorListAddsUp(s: System, step: Step)
    requires BalancesAddUp(s) && (step.DoAddValidator? || step.DoRemoveValidator? || step.DoSetScore?)
    ensures Apply(s, step).Success? ==> BalancesAddUp(Apply(s, step).value)
  {
    hide Sum;
    var r := Apply(s, step);
    if r.Success? {
      match step {
        case DoAddValidator(vote, score) => SumPush(s.validators, ValidatorRecord(vote, 0, score, NEVER, 0), Balance());
        case DoRemoveValidator(j, vote) => SumSwapRemove(s.validators, j, Balance());
        case DoSetScore(j, vote, score) => SumSet(s.validators, j, r.value.validators[j], Balance());
        case _ =>
      }
    }
  }

  lemma HousekeepingAddsUp(s: System, step: Step)
    requires BalancesAddUp(s) && (step.DoMergeStakes? || step.DoCreateCanonical? || step.DoFinalizeUpgrade?)
    ensures Apply(s, step).Success? ==> BalancesAddUp(Apply(s, step).value)
  {
    hide Sum, MergeRecords, FinalizeBatch;
    match step {
      case DoMergeStakes(c, canonical, i, account, j, extra) =>
        if c < |s.stakes| && i < |s.stakes| && j < |s.validators| && c != i {
          MergeRecordsBalance(s, c, i, j, extra);
        }
      case DoFinalizeUpgrade(max) =>
        if s.upgrader.IteratingValidators? {
          FinalizeBatchBalance(s, max);
        }
      case _ =>
    }
  }

  lemma OtherAddsUp(s: System, step: Step)
    requires BalancesAddUp(s) && (step.Configure? || step.SetExtraRuns? || step.Around?)
    ensures Apply(s, step).Success? ==> BalancesAddUp(Apply(s, step).value)
  {
    hide Sum;
  }

  // ---------------------------------------------------------------- runs

  lemma StepAddsUp(s: System, step: Step)
    requires BalancesAddUp(s)
    ensures BalancesAddUp(Next(s, step))
  {
    hide BalancesAddUp, Deposit, DepositStakeAccount, WithdrawStakeAccount, OrderUnstake, Claim, LiquidUnstake,
         AddLiquidity, RemoveLiquidity, UpdateActive, UpdateDeactivated, FinalizeUpgrade, StakeReserve, DeactivateStake,
         PartialUnstake, EmergencyUnstake, AddValidator, RemoveValidator, SetValidatorScore, MergeStakes,
         CreateCanonicalStake, SetConfig, Happen;
    match step {
      case DoDeposit(_) => UserAddsUp(s, step);
      case DoDepositStake(account, j) => DepositStakeAddsUp(s, account, j);
      case DoWithdrawStake(i, account, j, msol, newKey, treasury) =>
        WithdrawStakeAddsUp(s, i, account, j, msol, newKey, treasury);
      case DoOrderUnstake(_, _) => UserAddsUp(s, step);
      case DoClaim(_) => UserAddsUp(s, step);
      case DoLiquidUnstake(_, _) => PoolAddsUp(s, step);
      case DoAddLiquidity(_) => PoolAddsUp(s, step);
      case DoRemoveLiquidity(_) => PoolAddsUp(s, step);
      case DoUpdateActive(i, account, j, treasury) => UpdateActiveAddsUp(s, i, account, j, treasury);
      case DoUpdateDeactivated(i, account, j, treasury) => UpdateDeactivatedAddsUp(s, i, account, j, treasury);
      case DoFinalizeUpgrade(_) => HousekeepingAddsUp(s, step);
      case DoStakeReserve(j, vote, newKey) => StakeReserveAddsUp(s, j, vote, newKey);
      case DoDeactivateStake(i, account, j, newKey) => DeactivateStakeAddsUp(s, i, account, j, newKey);
      case DoPartialUnstake(i, account, j, desired, newKey) => PartialUnstakeAddsUp(s, i, account, j, desired, newKey);
      case DoEmergencyUnstake(i, account, j) => EmergencyUnstakeAddsUp(s, i, account, j);
      case DoAddValidator(_, _) => ValidatorListAddsUp(s, step);
      case DoRemoveValidator(_, _) => ValidatorListAddsUp(s, step);
      case DoSetScore(_, _, _) => ValidatorListAddsUp(s, step);
      case DoMergeStakes(_, _, _, _, _, _) => HousekeepingAddsUp(s, step);
      case DoCreateCanonical(_, _, _, _) => HousekeepingAddsUp(s, step);
      case Configure(_) => OtherAddsUp(s, step);
      case SetExtraRuns(_) => OtherAddsUp(s, step);
      case Around(_) => OtherAddsUp(s, step);
    }
  }

  /** Over every run, through disturbances too; when the upgrader is done, the validators' balances
      are the total. */
  lemma {:induction false} RunAddsUp(s: System, steps: seq<Step>)
    requires BalancesAddUp(s)
    ensures BalancesAddUp(Run(s, steps))
    ensures Run(s, steps).upgrader.Done? ==> Sum(Run(s, steps).validators, Balance()) == Run(s, steps).active
    decreases |steps|
  {
    if steps != [] {
      hide Apply, Next, BalancesAddUp;
      StepAddsUp(s, steps[0]);
      RunAddsUp(Next(s, steps[0]), steps[1..]);
    }
  }
}
