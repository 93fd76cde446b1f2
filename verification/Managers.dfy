/** What the validator managers move out of a validator, and the limit on what they move in one epoch. */
module Managers {
  import opened Base
  import opened Calc
  import opened Model
  import opened Ledger
  import opened Instructions
  import opened Machine
  import opened Shapes
  import opened Scheduler

  predicate Manages(step: Step) {
    step.DoPartialUnstake? || step.DoEmergencyUnstake?
  }

  /** What the program counts as moved in the present epoch. */
  function MovedNow(s: System): nat {
    if s.moveEpoch == s.clock.epoch then s.moved else 0
  }

  /** The most that may be moved in an epoch, at what is under control now. */
  function MoveLimit(s: System): nat {
    FeeApply(s.cfg.maxStakeMoved, TotalLamports(s))
  }

  /** The stake a step of the managers really moved. */
  function MovedBy(s: System, step: Step): nat {
    if Manages(step) then SatSub(Next(s, step).emergency, s.emergency) else 0
  }

  function MovedIn(s: System, steps: seq<Step>): nat
    decreases |steps|
  {
    if steps == [] then 0 else MovedBy(s, steps[0]) + MovedIn(Next(s, steps[0]), steps[1..])
  }

  // ---------------------------------------------------------------- the counter

  ghost predicate SameCount(s: System, t: System) {
    t.clock == s.clock && t.moveEpoch == s.moveEpoch && t.moved == s.moved
  }

  lemma UsersCount(s: System, step: Step)
    requires step.DoDeposit? || step.DoOrderUnstake? || step.DoClaim?
    ensures Apply(s, step).Success? ==> SameCount(s, Apply(s, step).value)
  {
    hide MsolToSol, MsolFromLamports, FeeCentsApply;
  }

  lemma StakeUsersCount(s: System, step: Step)
    requires step.DoDepositStake? || step.DoWithdrawStake?
    ensures Apply(s, step).Success? ==> SameCount(s, Apply(s, step).value)
  {
    hide MsolToSol, MsolFromLamports, FeeCentsApply, WithdrawTerms, Tracked;
  }

  lemma PoolCount(s: System, step: Step)
    requires step.DoLiquidUnstake? || step.DoAddLiquidity? || step.DoRemoveLiquidity?
    ensures Apply(s, step).Success? ==> SameCount(s, Apply(s, step).value)
  {
    hide MsolToSol;
  }

  lemma CranksCount(s: System, step: Step)
    requires step.DoStakeReserve? || step.DoDeactivateStake?
    ensures Apply(s, step).Success? ==> SameCount(s, Apply(s, step).value)
  {
    hide ValidatorTarget, StakeDelta, StakeAmount;
  }

  lemma HousekeepingCounts(s: System, step: Step)
    requires step.DoMergeStakes? || step.DoCreateCanonical? || step.DoFinalizeUpgrade?
    ensures Apply(s, step).Success? ==> SameCount(s, Apply(s, step).value)
  {
    hide FinalizeFrom;
  }

  lemma ListsCount(s: System, step: Step)
    requires step.DoAddValidator? || step.DoRemoveValidator? || step.DoSetScore? || step.Configure?
        || step.SetExtraRuns?
    ensures Apply(s, step).Success? ==> SameCount(s, Apply(s, step).value)
  {
  }

  lemma UpdatesCount(s: System, step: Step)
    requires step.DoUpdateActive? || step.DoUpdateDeactivated?
    ensures Apply(s, step).Success? ==> SameCount(s, Apply(s, step).value)
  {
    match step
    case DoUpdateActive(i, account, j, treasury) =>
      UpdateActiveEffect(s, i, account, j, treasury);
      hide UpdateActive;
    case DoUpdateDeactivated(i, account, j, treasury) =>
      UpdateDeactivatedEffect(s, i, account, j, treasury);
      hide UpdateDeactivated;
    case _ =>
  }

  lemma EventsCount(s: System, step: Step)
    requires step.Around?
    ensures Apply(s, step).Success? ==>
        SameCount(s, Apply(s, step).value) || Apply(s, step).value == s.(clock := Apply(s, step).value.clock)
  {
  }

  /** Nothing but the managers touches the counter; a new epoch voids it. */
  lemma OthersCount(s: System, step: Step)
    requires !Manages(step) && Next(s, step).clock.epoch == s.clock.epoch
    ensures MovedNow(Next(s, step)) == MovedNow(s)
  {
    hide Apply;
    match step {
      case DoDeposit(_) => UsersCount(s, step);
      case DoOrderUnstake(_, _) => UsersCount(s, step);
      case DoClaim(_) => UsersCount(s, step);
      case DoDepositStake(_, _) => StakeUsersCount(s, step);
      case DoWithdrawStake(_, _, _, _, _, _) => StakeUsersCount(s, step);
      case DoLiquidUnstake(_, _) => PoolCount(s, step);
      case DoAddLiquidity(_) => PoolCount(s, step);
      case DoRemoveLiquidity(_) => PoolCount(s, step);
      case DoUpdateActive(_, _, _, _) => UpdatesCount(s, step);
      case DoUpdateDeactivated(_, _, _, _) => UpdatesCount(s, step);
      case DoStakeReserve(_, _, _) => CranksCount(s, step);
      case DoDeactivateStake(_, _, _, _) => CranksCount(s, step);
      case DoMergeStakes(_, _, _, _, _, _) => HousekeepingCounts(s, step);
      case DoCreateCanonical(_, _, _, _) => HousekeepingCounts(s, step);
      case DoFinalizeUpgrade(_) => HousekeepingCounts(s, step);
      case DoAddValidator(_, _) => ListsCount(s, step);
      case DoRemoveValidator(_, _) => ListsCount(s, step);
      case DoSetScore(_, _, _) => ListsCount(s, step);
      case Configure(_) => ListsCount(s, step);
      case SetExtraRuns(_) => ListsCount(s, step);
      case Around(_) => EventsCount(s, step);
    }
  }

  // ---------------------------------------------------------------- a move

  /** A move from s to t within the limit: all of it enters the emergency bucket, out of the active
      total, and is counted. */
  ghost predicate MovedWithin(s: System, t: System) {
    && t.clock == s.clock && t.emergency >= s.emergency && t.active + t.emergency == s.active + s.emergency
    && TotalLamports(t) == TotalLamports(s) && t.cfg == s.cfg
    && MovedNow(t) == MovedNow(s) + (t.emergency - s.emergency)
    && (t.stakes != s.stakes ==> MovedNow(t) <= MoveLimit(s))
  }

  lemma MoveCounts(s: System, amount: nat)
    ensures var r := OnStakeMoved(s, amount);
      r.Success? ==>
        && r.value == s.(moveEpoch := s.clock.epoch, moved := r.value.moved)
        && r.value.moved == MovedNow(s) + amount <= MoveLimit(s)
  {
    hide FeeApply;
  }

  lemma WholeMoves(s: System, i: nat, account: Key, j: nat)
    requires i < |s.stakes| && j < |s.validators|
    ensures var stopped := DeactivateNative(s, account);
      stopped.Success? ==>
        var moved := OnStakeMoved(stopped.value, s.stakes[i].delegated);
        moved.Success? ==>
          && i < |moved.value.stakes| && j < |moved.value.validators|
          && var r := StartCooling(moved.value, i, j, true);
             r.Success? ==> MovedWithin(s, r.value)
  {
    var stopped := DeactivateNative(s, account);
    if stopped.Success? {
      MoveCounts(stopped.value, s.stakes[i].delegated);
    }
    hide OnStakeMoved, FeeApply;
  }

  lemma PartMoves(s: System, i: nat, account: Key, j: nat, amount: nat, newKey: Key)
    requires i < |s.stakes| && j < |s.validators|
    ensures MovePart(s, i, account, j, amount, newKey).Success? ==>
        MovedWithin(s, MovePart(s, i, account, j, amount, newKey).value)
  {
    var shared := SplitNative(s, account, newKey, amount);
    if shared.Success? {
      var stopped := DeactivateNative(shared.value, newKey);
      if stopped.Success? {
        MoveCounts(stopped.value, amount);
      }
    }
    hide OnStakeMoved, FeeApply;
  }

  lemma PartialUnstakeMoves(s: System, i: nat, account: Key, j: nat, desired: u64, newKey: Key)
    ensures var r := PartialUnstake(s, i, account, j, desired, newKey);
      r.Success? ==> MovedWithin(s, r.value)
  {
    hide ValidatorTarget, StakeDelta, DeactivateNative, OnStakeMoved, StartCooling, MovePart, FeeApply;
    if i < |s.stakes| && j < |s.validators| {
      WholeMoves(s, i, account, j);
      forall amount: nat
        ensures MovePart(s, i, account, j, amount, newKey).Success? ==>
            MovedWithin(s, MovePart(s, i, account, j, amount, newKey).value)
      {
        PartMoves(s, i, account, j, amount, newKey);
      }
    }
  }

  lemma EmergencyUnstakeMoves(s: System, i: nat, account: Key, j: nat)
    ensures var r := EmergencyUnstake(s, i, account, j);
      r.Success? ==> MovedWithin(s, r.value)
  {
    if i < |s.stakes| {
      MoveCounts(s, s.stakes[i].delegated);
    }
    hide OnStakeMoved, FeeApply;
  }

  lemma StepMoves(s: System, step: Step)
    requires Manages(step) && Apply(s, step).Success?
    ensures MovedWithin(s, Apply(s, step).value)
  {
    hide PartialUnstake, EmergencyUnstake, MovedWithin;
    match step
    case DoPartialUnstake(i, account, j, desired, newKey) => PartialUnstakeMoves(s, i, account, j, desired, newKey);
    case DoEmergencyUnstake(i, account, j) => EmergencyUnstakeMoves(s, i, account, j);
    case _ =>
  }

  // ---------------------------------------------------------------- how much

  /** What an accepted call moves: nothing while the validator is at most the minimum above its target;
      otherwise what is desired, but no more than the validator is above its target. The whole record goes
      when less than the minimum would remain of it. */
  ghost predicate MovesOut(s: System, t: System, i: nat, j: nat, target: nat, desired: nat, newKey: Key)
    requires i < |s.stakes| && j < |s.validators|
  {
    var r, v := s.stakes[i], s.validators[j];
    if v.active <= target + s.cfg.minStake then t == s
    else
      var amount := Min(desired, v.active - target);
      if r.delegated < amount + s.cfg.minStake then
        && t.stakes == s.stakes[i := r.(status := Deactivating, emergency := true)]
        && t.emergency == s.emergency + r.delegated && r.delegated <= v.active
        && t.validators == s.validators[j := v.(active := v.active - r.delegated)]
      else
        && t.stakes == s.stakes[i := r.(delegated := r.delegated - amount)]
                       + [StakeRecord(newKey, amount, s.clock.epoch, true, Deactivating)]
        && t.emergency == s.emergency + amount
        && t.validators == s.validators[j := v.(active := v.active - amount)]
  }

  lemma PartialUnstakeExactly(s: System, i: nat, account: Key, j: nat, desired: u64, newKey: Key)
    requires ScoresAddUp(s) && s.cfg.minStake > 0 && PartialUnstake(s, i, account, j, desired, newKey).Success?
    ensures i < |s.stakes| && j < |s.validators|
    ensures MovesOut(s, PartialUnstake(s, i, account, j, desired, newKey).value, i, j, Target(s, j), desired, newKey)
  {
    hide StakeDelta, ValidatorTarget, TargetShare, DeactivateNative, OnStakeMoved, StartCooling, MovePart, MovesOut;
    TargetsFit(s);
    WholeExactly(s, i, account, j, Target(s, j), desired, newKey);
    PartExactly(s, i, account, j, Target(s, j), desired, newKey);
    if s.validators[j].active <= Target(s, j) + s.cfg.minStake {
      IdleExactly(s, i, j, Target(s, j), desired, newKey);
    }
  }

  lemma IdleExactly(s: System, i: nat, j: nat, target: nat, desired: nat, newKey: Key)
    requires i < |s.stakes| && j < |s.validators| && s.validators[j].active <= target + s.cfg.minStake
    ensures MovesOut(s, s, i, j, target, desired, newKey)
  {
  }

  lemma WholeExactly(s: System, i: nat, account: Key, j: nat, target: nat, desired: nat, newKey: Key)
    requires i < |s.stakes| && j < |s.validators|
    ensures var stopped := DeactivateNative(s, account);
      stopped.Success? ==>
        var moved := OnStakeMoved(stopped.value, s.stakes[i].delegated);
        moved.Success? ==>
          && i < |moved.value.stakes| && j < |moved.value.validators|
          && var r := StartCooling(moved.value, i, j, true);
             r.Success? && s.validators[j].active > target + s.cfg.minStake
             && s.stakes[i].delegated < Min(desired, SatSub(s.validators[j].active, target)) + s.cfg.minStake ==>
               MovesOut(s, r.value, i, j, target, desired, newKey)
  {
    var stopped := DeactivateNative(s, account);
    if stopped.Success? {
      MoveCounts(stopped.value, s.stakes[i].delegated);
    }
    hide OnStakeMoved, FeeApply;
  }

  lemma PartExactly(s: System, i: nat, account: Key, j: nat, target: nat, desired: nat, newKey: Key)
    requires i < |s.stakes| && j < |s.validators|
    ensures var amount := Min(desired, SatSub(s.validators[j].active, target));
      var r := MovePart(s, i, account, j, amount, newKey);
      r.Success? && s.validators[j].active > target + s.cfg.minStake
      && s.stakes[i].delegated >= amount + s.cfg.minStake ==>
        MovesOut(s, r.value, i, j, target, desired, newKey)
  {
    var amount := Min(desired, SatSub(s.validators[j].active, target));
    var shared := SplitNative(s, account, newKey, amount);
    if shared.Success? {
      var stopped := DeactivateNative(shared.value, newKey);
      if stopped.Success? {
        MoveCounts(stopped.value, amount);
      }
    }
    hide OnStakeMoved, FeeApply;
  }

  /** So the managers take a validator below its target only by a record of which less than the minimum
      would have remained, and by less than the minimum. */
  lemma TargetIsKept(s: System, i: nat, account: Key, j: nat, desired: u64, newKey: Key)
    requires ScoresAddUp(s) && s.cfg.minStake > 0 && PartialUnstake(s, i, account, j, desired, newKey).Success?
    ensures var t := PartialUnstake(s, i, account, j, desired, newKey).value;
      && j < |s.validators| == |t.validators|
      && (t == s <==> s.validators[j].active <= Target(s, j) + s.cfg.minStake)
      && (t != s ==> t.validators[j].active + s.cfg.minStake > Target(s, j))
      && (|t.stakes| > |s.stakes| ==> t.validators[j].active >= Target(s, j))
  {
    PartialUnstakeExactly(s, i, account, j, desired, newKey);
    hide PartialUnstake, Target, ScoresAddUp;
  }

  /** An emergency takes the whole record, whatever the target. */
  lemma EmergencyUnstakeExactly(s: System, i: nat, account: Key, j: nat)
    ensures var r := EmergencyUnstake(s, i, account, j);
      r.Success? ==>
        && i < |s.stakes| && j < |s.validators| && s.validators[j].score == 0 && s.stakes[i].account == account
        && r.value.stakes == s.stakes[i := s.stakes[i].(status := Deactivating, emergency := true)]
        && r.value.emergency == s.emergency + s.stakes[i].delegated
        && s.stakes[i].delegated <= s.validators[j].active
        && r.value.validators == s.validators[j := s.validators[j].(
             active := s.validators[j].active - s.stakes[i].delegated)]
  {
    if i < |s.stakes| {
      MoveCounts(s, s.stakes[i].delegated);
    }
    hide OnStakeMoved, FeeApply;
  }

  // ---------------------------------------------------------------- runs within an epoch

  predicate OneEpoch(s: System, steps: seq<Step>)
    decreases |steps|
  {
    steps == []
    || (Next(s, steps[0]).clock.epoch == s.clock.epoch && OneEpoch(Next(s, steps[0]), steps[1..]))
  }

  lemma StepCounts(s: System, step: Step)
    requires Next(s, step).clock.epoch == s.clock.epoch
    ensures MovedNow(Next(s, step)) == MovedNow(s) + MovedBy(s, step)
  {
    hide Apply, MovedNow;
    if !Manages(step) {
      OthersCount(s, step);
    } else if Apply(s, step).Success? {
      StepMoves(s, step);
      hide MoveLimit, TotalLamports;
    }
  }

  /** Over any run within an epoch the program counts exactly what the managers really moved. */
  lemma {:induction false} RunCounts(s: System, steps: seq<Step>)
    requires OneEpoch(s, steps)
    ensures Run(s, steps).clock.epoch == s.clock.epoch
    ensures MovedNow(Run(s, steps)) == MovedNow(s) + MovedIn(s, steps)
    decreases |steps|
  {
    hide Apply, Next, MovedNow, MovedBy;
    if steps != [] {
      StepCounts(s, steps[0]);
      RunCounts(Next(s, steps[0]), steps[1..]);
    }
  }

  /** Whatever happens in between, when a move is accepted all moves of the epoch together, that one
      included, are within the limit at what is under control then. */
  lemma MovesStayWithinLimit(s: System, steps: seq<Step>, move: Step)
    requires OneEpoch(s, steps) && Manages(move)
    requires Apply(Run(s, steps), move).Success? && Next(Run(s, steps), move).stakes != Run(s, steps).stakes
    ensures var m := Run(s, steps);
      && MovedNow(s) + MovedIn(s, steps) + MovedBy(m, move) <= MoveLimit(m)
      && TotalLamports(Next(m, move)) == TotalLamports(m)
  {
    hide Run, MovedIn, MovedNow, MoveLimit, TotalLamports;
    RunCounts(s, steps);
    StepMoves(Run(s, steps), move);
    hide Apply;
  }

  // ---------------------------------------------------------------- the limit itself

  /** Up to 100% the limit is the floored part of what is under control. Above it the part is cut to its
      low 64 bits: the limit is the part exactly when that fits. */
  lemma LimitIsPartIff(s: System)
    requires TotalLamports(s) <= U64_MAX
    ensures var part := TotalLamports(s) * s.cfg.maxStakeMoved / MAX_BASIS_POINTS;
      && (MoveLimit(s) == part <==> part <= U64_MAX)
      && MoveLimit(s) == part % (U64_MAX + 1)
      && (s.cfg.maxStakeMoved <= MAX_BASIS_POINTS ==> part <= TotalLamports(s))
  {
    hide TotalLamports;
    if s.cfg.maxStakeMoved <= MAX_BASIS_POINTS {
      MulLe(s.cfg.maxStakeMoved, MAX_BASIS_POINTS, TotalLamports(s));
      FloorOfQuotient(TotalLamports(s) * s.cfg.maxStakeMoved, MAX_BASIS_POINTS);
      FloorAtMost(TotalLamports(s) * s.cfg.maxStakeMoved / MAX_BASIS_POINTS, TotalLamports(s) * s.cfg.maxStakeMoved,
                  MAX_BASIS_POINTS, TotalLamports(s));
    }
  }

  /** With half of the 64-bit range under control and a setting of 200%, nothing at all may be moved. */
  lemma LimitCanWrapToZero(s: System)
    requires TotalLamports(s) == 0x8000_0000_0000_0000 && s.cfg.maxStakeMoved == 20_000
    ensures MoveLimit(s) == 0
  {
    hide TotalLamports;
  }
}
