/** In every run, from every state, whatever the upgrader does: the real accounts hold what the
    program accounts for, and the ticket totals are those of the open tickets. */
module Backing {
  import opened Base
  import opened Calc
  import opened Sums
  import opened Model
  import opened Ledger
  import opened Instructions
  import opened Machine
  import opened Invariant
  import opened Shapes

  lemma DepositBacked(s: System, step: Step)
    requires Backed(s) && step.DoDeposit?
    ensures Apply(s, step).Success? ==> Backed(Apply(s, step).value)
  {
    hide Sum, MsolFromLamports, MsolToSol;
  }

  lemma DepositStakeBacked(s: System, step: Step)
    requires Backed(s) && step.DoDepositStake?
    ensures Apply(s, step).Success? ==> Backed(Apply(s, step).value)
  {
    hide Sum, MsolFromLamports;
  }

  lemma WithdrawBacked(s: System, step: Step)
    requires Backed(s) && step.DoWithdrawStake?
    ensures Apply(s, step).Success? ==> Backed(Apply(s, step).value)
  {
    var r := Apply(s, step);
    if r.Success? {
      var (split, burned) := WithdrawTerms(s, step.msol, s.stakes[step.i].delegated, step.treasury).value;
      GiveShape(s, step.i, step.account, step.j, split, burned, step.newKey);
      hide Sum, GiveStake, WithdrawTerms;
    }
  }

  lemma TicketBacked(s: System, step: Step)
    requires Backed(s) && (step.DoOrderUnstake? || step.DoClaim?)
    ensures Apply(s, step).Success? ==> Backed(Apply(s, step).value)
  {
    hide Sum, MsolToSol;
    var r := Apply(s, step);
    if r.Success? {
      if step.DoOrderUnstake? {
        SumPush(s.tickets, r.value.tickets[|s.tickets|], TicketAmount());
      } else {
        SumSwapRemove(s.tickets, step.k, TicketAmount());
      }
    }
  }

  lemma PoolBacked(s: System, step: Step)
    requires Backed(s) && (step.DoLiquidUnstake? || step.DoAddLiquidity?)
    ensures Apply(s, step).Success? ==> Backed(Apply(s, step).value)
  {
    hide Sum, MsolToSol, LinearFee;
  }

  lemma ExitBacked(s: System, step: Step)
    requires Backed(s) && step.DoRemoveLiquidity?
    ensures Apply(s, step).Success? ==> Backed(Apply(s, step).value)
  {
    if step.tokens <= s.lpMint {
      ShareAtMost(step.tokens, s.solLeg - s.cfg.tokenRent, s.lpMint);
    }
    hide Sum, MsolToSol, IsFloor;
  }

  lemma UpdateBacked(s: System, step: Step)
    requires Backed(s) && (step.DoUpdateActive? || step.DoUpdateDeactivated?)
    ensures Apply(s, step).Success? ==> Backed(Apply(s, step).value)
  {
    match step
    case DoUpdateActive(i, account, j, treasury) =>
      UpdateActiveEffect(s, i, account, j, treasury);
      if Apply(s, step).Success? {
        MintedAfterSync(s, Apply(s, step).value);
      }
      hide Sum, UpdateActive;
    case DoUpdateDeactivated(i, account, j, treasury) =>
      UpdateDeactivatedEffect(s, i, account, j, treasury);
      if Apply(s, step).Success? {
        MintedAfterSync(s, Apply(s, step).value);
      }
      hide Sum, UpdateDeactivated;
    case _ =>
  }

  lemma StakeReserveBacked(s: System, step: Step)
    requires Backed(s) && step.DoStakeReserve?
    ensures Apply(s, step).Success? ==> Backed(Apply(s, step).value)
  {
    hide Sum, ValidatorTarget, StakeDelta;
  }

  lemma DeactivateStakeBacked(s: System, step: Step)
    requires Backed(s) && step.DoDeactivateStake?
    ensures Apply(s, step).Success? ==> Backed(Apply(s, step).value)
  {
    hide Sum, ValidatorTarget, StakeDelta;
  }

  lemma HousekeepingBacked(s: System, step: Step)
    requires Backed(s) && (step.DoMergeStakes? || step.DoCreateCanonical? || step.DoFinalizeUpgrade?)
    ensures Apply(s, step).Success? ==> Backed(Apply(s, step).value)
  {
    hide Sum, FinalizeFrom;
  }

  lemma PartialUnstakeBacked(s: System, step: Step)
    requires Backed(s) && step.DoPartialUnstake?
    ensures Apply(s, step).Success? ==> Backed(Apply(s, step).value)
  {
    hide Sum, ValidatorTarget, StakeDelta, FeeApply;
  }

  lemma ManagerBacked(s: System, step: Step)
    requires Backed(s)
    requires step.DoEmergencyUnstake? || step.DoAddValidator? || step.DoRemoveValidator? || step.DoSetScore?
    ensures Apply(s, step).Success? ==> Backed(Apply(s, step).value)
  {
    hide Sum, FeeApply;
  }

  lemma OtherBacked(s: System, step: Step)
    requires Backed(s) && (step.Configure? || step.SetExtraRuns? || step.Around?)
    ensures Apply(s, step).Success? ==> Backed(Apply(s, step).value)
  {
    hide Sum;
  }

  lemma StepBacked(s: System, step: Step)
    requires Backed(s)
    ensures Backed(Next(s, step))
  {
    hide Apply, Backed;
    match step {
      case DoDeposit(_) => DepositBacked(s, step);
      case DoDepositStake(_, _) => DepositStakeBacked(s, step);
      case DoWithdrawStake(_, _, _, _, _, _) => WithdrawBacked(s, step);
      case DoOrderUnstake(_, _) => TicketBacked(s, step);
      case DoClaim(_) => TicketBacked(s, step);
      case DoLiquidUnstake(_, _) => PoolBacked(s, step);
      case DoAddLiquidity(_) => PoolBacked(s, step);
      case DoRemoveLiquidity(_) => ExitBacked(s, step);
      case DoUpdateActive(_, _, _, _) => UpdateBacked(s, step);
      case DoUpdateDeactivated(_, _, _, _) => UpdateBacked(s, step);
      case DoFinalizeUpgrade(_) => HousekeepingBacked(s, step);
      case DoStakeReserve(_, _, _) => StakeReserveBacked(s, step);
      case DoDeactivateStake(_, _, _, _) => DeactivateStakeBacked(s, step);
      case DoMergeStakes(_, _, _, _, _, _) => HousekeepingBacked(s, step);
      case DoCreateCanonical(_, _, _, _) => HousekeepingBacked(s, step);
      case DoPartialUnstake(_, _, _, _, _) => PartialUnstakeBacked(s, step);
      case DoEmergencyUnstake(_, _, _) => ManagerBacked(s, step);
      case DoAddValidator(_, _) => ManagerBacked(s, step);
      case DoRemoveValidator(_, _) => ManagerBacked(s, step);
      case DoSetScore(_, _, _) => ManagerBacked(s, step);
      case Configure(_) => OtherBacked(s, step);
      case SetExtraRuns(_) => OtherBacked(s, step);
      case Around(_) => OtherBacked(s, step);
    }
  }

  /** Over any run: the virtual reserve and the rent are really there, the virtual supply is never
      below the real one, and the ticket totals are the sum and the number of open tickets. */
  lemma {:induction false} RunBacked(s: System, steps: seq<Step>)
    requires Backed(s)
    ensures Backed(Run(s, steps))
    decreases |steps|
  {
    hide Backed, Apply, Next;
    if steps != [] {
      StepBacked(s, steps[0]);
      RunBacked(Next(s, steps[0]), steps[1..]);
    }
  }

  // ---------------------------------------------------------------- the closing assertion

  /** The virtual reserve and its rent are exactly the real reserve. */
  ghost predicate Synced(s: System) {
    s.reserve + s.cfg.tokenRent == s.reserveLamports
  }

  lemma PricedAssertion(s: System, i: nat, j: nat, delegated: nat)
    requires i < |s.stakes| && j < |s.validators| && Synced(s)
    ensures BookAndPrice(s, i, j, delegated).Failure? ==> !BookAndPrice(s, i, j, delegated).error.AssertionFailed?
  {
    hide BookDelegation, MsolToSol;
    BookShape(s, i, j, delegated, s.clock.epoch);
    BookedAssertion(s, i, j, delegated);
    var booked := BookDelegation(s, i, j, delegated, s.clock.epoch);
    if booked.Success? {
      ConversionErrors(booked.value, PRICE_DENOMINATOR);
    }
  }

  lemma BookedAssertion(s: System, i: nat, j: nat, delegated: nat)
    requires i < |s.stakes| && j < |s.validators|
    ensures var r := BookDelegation(s, i, j, delegated, s.clock.epoch); r.Failure? ==> !r.error.AssertionFailed?
  {
  }

  lemma BookActiveAssertion(s: System, i: nat, j: nat, delegated: nat, treasury: bool)
    requires i < |s.stakes| && j < |s.validators| && Synced(s)
    ensures var r := BookActive(s, i, j, delegated, treasury); r.Failure? ==> !r.error.AssertionFailed?
  {
    hide MintProtocolFees, BookAndPrice, OnlyMinted;
    var growth := SatSub(delegated, s.stakes[i].delegated);
    MintFeesShape(s, growth);
    var minted := if delegated >= s.stakes[i].delegated && treasury then MintProtocolFees(s, growth) else Success(s);
    if minted.Success? {
      PricedAssertion(minted.value, i, j, delegated);
    }
  }

  lemma RefreshAssertion(s: System, i: nat, account: Key, j: nat, treasury: bool)
    requires i < |s.stakes| && j < |s.validators| && account in s.native && Synced(s)
    ensures var r := RefreshActive(s, i, account, j, treasury); r.Failure? ==> !r.error.AssertionFailed?
  {
    hide UpgradeRecord, SweepExtra, BookActive, OnlyMinted, Swept;
    var a := s.native[account];
    UpgradeShape(s, i, j);
    UpgradeAssertion(s, i, j);
    var upgraded := UpgradeRecord(s, i, j);
    if upgraded.Success? && a.rent <= a.lamports {
      var extra := SatSub(a.lamports - a.rent, a.stake);
      SweepShape(upgraded.value, account, extra, treasury);
      var swept := SweepExtra(upgraded.value, account, extra, treasury);
      if swept.Success? {
        BookActiveAssertion(swept.value, i, j, a.stake, treasury);
      }
    }
  }

  lemma UpgradeAssertion(s: System, i: nat, j: nat)
    requires i < |s.stakes| && j < |s.validators|
    ensures var r := UpgradeRecord(s, i, j); r.Failure? ==> !r.error.AssertionFailed?
  {
  }

  /** The equality asserted at the end of `UpdateActive` holds whatever was donated or burned, and in
      every phase, disturbed or not. */
  lemma UpdateAssertionHolds(s: System, i: nat, account: Key, j: nat, treasury: bool)
    requires Backed(s)
    ensures var r := UpdateActive(s, i, account, j, treasury); r.Failure? ==> !r.error.AssertionFailed?
  {
    BeginAssertion(s, i, account, j);
    BeginShape(s, i, account, j);
    hide Begin, RefreshActive;
    if UpdateReady(s, i, account, j) {
      RefreshAssertion(Sync(s), i, account, j, treasury);
    }
  }

  lemma BeginAssertion(s: System, i: nat, account: Key, j: nat)
    ensures Begin(s, i, account, j).Failure? ==> !Begin(s, i, account, j).error.AssertionFailed?
  {
  }
}
