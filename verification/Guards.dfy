/** Exactly when the cranks and the managers' instructions are accepted in a state with sound books, and
    what those that rearrange the lists make of them. Checks the books make superfluous are not among the
    conditions. */
module Guards {
  import opened Base
  import opened Calc
  import opened Sums
  import opened Model
  import opened Ledger
  import opened Instructions
  import opened Machine
  import opened Books
  import opened BooksSteps
  import opened Invariant
  import opened Shapes
  import opened Scheduler
  import opened Deltas
  import opened Amounts
  import opened Managers

  // ---------------------------------------------------------------- the list of validators

  lemma AddValidatorIff(s: System, vote: Key, score: u32)
    requires Inv(s)
    ensures var r := AddValidator(s, vote, score);
      && (r.Success? <==>
          && !s.cfg.paused && s.upgrader.Done? && |s.validators| < s.cfg.validatorCapacity
          && s.totalScore + score <= U32_MAX && forall j :: 0 <= j < |s.validators| ==> s.validators[j].vote != vote)
      && (r.Success? ==>
          r.value == s.(validators := s.validators + [ValidatorRecord(vote, 0, score, NEVER, 0)],
                        totalScore := s.totalScore + score, flags := s.flags + {vote}))
  {
    hide Sum;
  }

  lemma RemoveValidatorIff(s: System, j: nat, vote: Key)
    requires Inv(s)
    ensures var r := RemoveValidator(s, j, vote);
      && (r.Success? <==>
          && !s.cfg.paused && s.upgrader.Done? && j < |s.validators| && s.validators[j].vote == vote
          && s.validators[j].active == 0)
      && (r.Success? ==>
          && s.validators[j].score <= s.totalScore
          && r.value == s.(validators := s.validators[j := s.validators[|s.validators| - 1]][..|s.validators| - 1],
                           totalScore := s.totalScore - s.validators[j].score, flags := s.flags - {vote}))
  {
    if j < |s.validators| {
      SumMember(s.validators, j, Score());
    }
    hide Sum;
  }

  lemma SetValidatorScoreIff(s: System, j: nat, vote: Key, score: u32)
    requires Inv(s)
    ensures var r := SetValidatorScore(s, j, vote, score);
      && (r.Success? <==>
          && !s.cfg.paused && j < |s.validators| && s.validators[j].vote == vote
          && s.totalScore - s.validators[j].score + score <= U32_MAX)
      && (r.Success? ==>
          && s.validators[j].score <= s.totalScore
          && r.value == s.(validators := s.validators[j := s.validators[j].(score := score)],
                           totalScore := s.totalScore - s.validators[j].score + score))
  {
    if j < |s.validators| {
      SumMember(s.validators, j, Score());
    }
    hide Sum;
  }

  // ---------------------------------------------------------------- moving records

  /** A listed active record that was updated since its account last changed. */
  predicate UpToDate(s: System, i: nat, account: Key) {
    && i < |s.stakes| && s.stakes[i].account == account && s.stakes[i].status.Active?
    && account in s.native && s.native[account].deactivationEpoch == NEVER
    && s.stakes[i].delegated == s.native[account].stake
  }

  /** Nothing but its stake and its rent is on the account. */
  predicate Bare(s: System, account: Key)
    requires account in s.native
  {
    s.native[account].lamports == s.native[account].stake + s.native[account].rent
  }

  lemma MergeStakesIff(s: System, c: nat, canonical: Key, i: nat, account: Key, j: nat, extra: nat)
    requires Inv(s)
    ensures var r := MergeStakes(s, c, canonical, i, account, j, extra);
      && (r.Success? <==>
          && !s.cfg.paused && s.upgrader.Done? && j < |s.validators| && c != i
          && UpToDate(s, c, canonical) && UpToDate(s, i, account) && Bare(s, account)
          && s.native[canonical].voter == s.validators[j].vote == s.native[account].voter
          && extra <= s.native[account].rent
          && s.validators[j].active + extra <= U64_MAX && s.active + extra <= U64_MAX)
      && (r.Success? ==>
          r.value == s.(
            active := s.active + extra,
            validators := s.validators[j := s.validators[j].(active := s.validators[j].active + extra)],
            stakes := SwapRemove(s.stakes[c := s.stakes[c].(
              delegated := s.stakes[c].delegated + s.stakes[i].delegated + extra)], i),
            native := s.native[canonical := s.native[canonical].(
              stake := s.native[canonical].stake + s.native[account].stake + extra,
              lamports := s.native[canonical].lamports + s.native[account].stake + extra)] - {account}))
  {
    hide Sum, SwapRemove;
    if c < |s.stakes| && i < |s.stakes| && c != i {
      assert s.stakes[c].account != s.stakes[i].account;
    }
  }

  lemma CreateCanonicalIff(s: System, i: nat, account: Key, j: nat, newKey: Key)
    requires Inv(s)
    ensures var r := CreateCanonicalStake(s, i, account, j, newKey);
      && (r.Success? <==>
          && !s.cfg.paused && s.upgrader.Done? && j < |s.validators| && newKey !in s.native
          && UpToDate(s, i, account) && Bare(s, account) && s.native[account].voter == s.validators[j].vote
          && |s.stakes| < s.cfg.stakeCapacity)
      && (r.Success? ==>
          r.value == s.(
            stakes :=
                s.stakes[i := StakeRecord(newKey, s.stakes[i].delegated, s.clock.epoch, false, StakeStatus.Active)],
            native := s.native[newKey := s.native[account]] - {account}))
  {
    hide Sum;
    if i < |s.stakes| {
      assert RecordOk(s.stakes[i], s.native);
      PushThenRemoveReplaces(s.stakes, i,
                             StakeRecord(newKey, s.stakes[i].delegated, s.clock.epoch, false, StakeStatus.Active));
    }
  }

  // ---------------------------------------------------------------- the managers

  /** A record of the validator that is settled and not given up yet. */
  predicate Movable(s: System, i: nat, account: Key, j: nat) {
    && i < |s.stakes| && j < |s.validators| && s.stakes[i].account == account && s.stakes[i].status.Active?
    && account in s.native && s.native[account].voter == s.validators[j].vote
    && s.native[account].stake == s.stakes[i].delegated
  }

  /** The moves of the epoch and the bucket have room for it, and the account is not stopped yet. */
  predicate MayMove(s: System, account: Key, amount: nat)
    requires account in s.native
  {
    && s.native[account].deactivationEpoch == NEVER && s.emergency + amount <= U64_MAX
    && Under(s) <= U64_MAX && MovedNow(s) + amount <= Min(MoveLimit(s), U64_MAX)
  }

  lemma EmergencyUnstakeIff(s: System, i: nat, account: Key, j: nat)
    requires Inv(s)
    ensures EmergencyUnstake(s, i, account, j).Success? <==>
              && !s.cfg.paused && s.upgrader.Done? && Movable(s, i, account, j) && s.validators[j].score == 0
              && MayMove(s, account, s.stakes[i].delegated)
  {
    BehindIs(s);
    if Movable(s, i, account, j) && s.upgrader.Done? {
      RecordFits(s, i, j);
      assert RecordOk(s.stakes[i], s.native);
    }
    hide Sum, FeeApply, TotalLamports, Under;
  }

  /** Beyond the common conditions: the validator is not far above its target, or what is to be moved, the whole
      record or a part of it, may be. */
  predicate MayUnstake(s: System, i: nat, account: Key, j: nat, desired: nat)
    requires i < |s.stakes| && j < |s.validators| && account in s.native
  {
    var target, v, delegated := Target(s, j), s.validators[j], s.stakes[i].delegated;
    && target + s.cfg.minStake <= U64_MAX
    && (v.active > target + s.cfg.minStake ==>
        var amount := Min(desired, v.active - target);
        if delegated < amount + s.cfg.minStake then MayMove(s, account, delegated)
        else |s.stakes| < s.cfg.stakeCapacity && MayMove(s, account, amount))
  }

  lemma PartialUnstakeIff(s: System, i: nat, account: Key, j: nat, desired: u64, newKey: Key)
    requires Inv(s)
    ensures PartialUnstake(s, i, account, j, desired, newKey).Success? <==>
              && newKey !in s.native && !s.cfg.paused && s.upgrader.Done? && desired >= s.cfg.minStake
              && Movable(s, i, account, j) && 0 <= s.active + StakeDelta(s) <= U64_MAX
              && MayUnstake(s, i, account, j, desired)
  {
    hide StakeDelta, ValidatorTarget, Target, MoveToward, MayUnstake, Inv, ScoresAddUp;
    MoveableIs(s, i, account, j);
    ScoredWell(s);
    TargetsFit(s);
    if 0 <= s.active + StakeDelta(s) <= U64_MAX {
      assert TotalTarget(s) == s.active + StakeDelta(s);
    }
    hide TotalTarget;
    if Movable(s, i, account, j) && s.upgrader.Done? && newKey !in s.native {
      MoveTowardIff(s, i, account, j, desired, newKey);
    }
  }

  lemma MoveTowardIff(s: System, i: nat, account: Key, j: nat, desired: nat, newKey: Key)
    requires Inv(s) && s.upgrader.Done? && Movable(s, i, account, j) && newKey !in s.native
    ensures MoveToward(s, i, account, j, Target(s, j), desired, newKey).Success? <==>
        MayUnstake(s, i, account, j, desired)
  {
    hide DeactivateNative, OnStakeMoved, StartCooling, MovePart, MayMove, Inv, Target;
    ScoredWell(s);
    WholeMoveIff(s, i, account, j);
    var amount := Min(desired, SatSub(s.validators[j].active, Target(s, j)));
    if amount <= s.stakes[i].delegated {
      PartMoveIff(s, i, account, j, amount, newKey);
    }
  }

  lemma ScoredWell(s: System)
    requires Inv(s)
    ensures ScoresAddUp(s) && s.cfg.minStake > 0
  {
  }

  lemma MoveableIs(s: System, i: nat, account: Key, j: nat)
    requires Inv(s)
    ensures s.upgrader.Done? && Movable(s, i, account, j) ==> !s.stakes[i].emergency
  {
    if s.upgrader.Done? && Movable(s, i, account, j) {
      RecordFits(s, i, j);
    }
    hide Inv;
  }

  /** A state with the same lamports, counter and settings allows the same moves. */
  ghost predicate SameRoom(s: System, t: System) {
    t == s.(native := t.native)
  }

  lemma MoveIff(s: System, t: System, amount: nat)
    requires SameRoom(s, t)
    ensures var r := OnStakeMoved(t, amount);
      && (r.Success? <==> Under(s) <= U64_MAX && MovedNow(s) + amount <= Min(MoveLimit(s), U64_MAX))
      && (r.Success? ==> r.value == t.(moveEpoch := r.value.moveEpoch, moved := r.value.moved))
  {
    BehindIs(s);
    BehindIs(t);
    hide FeeApply;
  }

  lemma WholeMoveIff(s: System, i: nat, account: Key, j: nat)
    requires Inv(s) && s.upgrader.Done? && Movable(s, i, account, j)
    ensures var stopped := DeactivateNative(s, account);
      var moved := if stopped.Success? then OnStakeMoved(stopped.value, s.stakes[i].delegated) else stopped;
      && (moved.Success? ==> i < |moved.value.stakes| && j < |moved.value.validators|)
      && (moved.Success? && StartCooling(moved.value, i, j, true).Success? <==>
          MayMove(s, account, s.stakes[i].delegated))
  {
    RecordFits(s, i, j);
    hide Sum, MoveLimit, MovedNow, Under, Inv;
    var stopped := DeactivateNative(s, account);
    if stopped.Success? {
      MoveIff(s, stopped.value, s.stakes[i].delegated);
    }
    hide OnStakeMoved;
  }

  /** A part of a stake can be split off, and stopped if the stake was not. */
  lemma PartStops(s: System, i: nat, account: Key, j: nat, amount: nat, newKey: Key)
    requires Inv(s) && s.upgrader.Done? && Movable(s, i, account, j) && newKey !in s.native
    requires amount <= s.stakes[i].delegated
    ensures var shared := SplitNative(s, account, newKey, amount);
      s.native[account].deactivationEpoch == NEVER ==>
        && shared.Success?
        && var stopped := DeactivateNative(shared.value, newKey);
           stopped.Success? && SameRoom(s, stopped.value)
    ensures var shared := SplitNative(s, account, newKey, amount);
      s.native[account].deactivationEpoch != NEVER && shared.Success? ==>
          DeactivateNative(shared.value, newKey).Failure?
  {
    RecordFits(s, i, j);
    hide Inv;
  }

  lemma SplitCoolingIff(s: System, i: nat, j: nat, amount: nat, newKey: Key, emergency: bool)
    requires i < |s.stakes| && j < |s.validators| && |s.stakes| < s.cfg.stakeCapacity
    requires amount <= s.stakes[i].delegated && amount <= s.validators[j].active && amount <= s.active
    ensures SplitCooling(s, i, j, amount, newKey, emergency).Success? <==>
            (if emergency then s.emergency else s.delayed) + amount <= U64_MAX
  {
  }

  lemma PartMoveIff(s: System, i: nat, account: Key, j: nat, amount: nat, newKey: Key)
    requires Inv(s) && s.upgrader.Done? && Movable(s, i, account, j) && newKey !in s.native
    requires amount <= s.stakes[i].delegated
    ensures MovePart(s, i, account, j, amount, newKey).Success? <==>
            |s.stakes| < s.cfg.stakeCapacity && MayMove(s, account, amount)
  {
    RecordFits(s, i, j);
    PartStops(s, i, account, j, amount, newKey);
    hide Sum, SplitNative, DeactivateNative, MoveLimit, MovedNow, Under, Inv;
    var shared := SplitNative(s, account, newKey, amount);
    if shared.Success? {
      var stopped := DeactivateNative(shared.value, newKey);
      if stopped.Success? {
        MoveIff(s, stopped.value, amount);
        var moved := OnStakeMoved(stopped.value, amount);
        if moved.Success? && |s.stakes| < s.cfg.stakeCapacity {
          SplitCoolingIff(moved.value, i, j, amount, newKey, true);
        }
      }
    }
    hide OnStakeMoved, SplitCooling;
  }

  /** Sound books cover a record in its validator's balance and in the total. */
  lemma RecordFits(s: System, i: nat, j: nat)
    requires Inv(s) && s.upgrader.Done? && i < |s.stakes| && j < |s.validators|
    requires s.stakes[i].status.Active? && s.stakes[i].account in s.native
    requires s.native[s.stakes[i].account].voter == s.validators[j].vote
    ensures s.stakes[i].delegated <= s.validators[j].active && s.stakes[i].delegated <= s.active
    ensures !s.stakes[i].emergency
    ensures var a := s.native[s.stakes[i].account];
      a.rent <= a.lamports && (a.Live() ==> a.rent + a.stake <= a.lamports)
  {
    RecordCovered(s, i, j);
    SumMember(s.stakes, i, ActiveStake());
    assert RecordOk(s.stakes[i], s.native);
    hide Sum;
  }

  // ---------------------------------------------------------------- the deactivating crank

  /** Beyond the common conditions: the validator is not above its target, or what is to be unstaked, the
      whole record or a part of it, still can be. */
  predicate MayCool(s: System, i: nat, account: Key, j: nat, lacking: nat)
    requires i < |s.stakes| && j < |s.validators| && account in s.native
  {
    var target, v, delegated := Target(s, j), s.validators[j], s.stakes[i].delegated;
    var live := s.native[account].deactivationEpoch == NEVER;
    v.active > target ==>
      && 2 * s.cfg.minStake <= U64_MAX
      && var amount := Min(v.active - target, lacking);
         if delegated < amount + 2 * s.cfg.minStake then live && s.delayed + delegated <= U64_MAX
         else
           || v.deltaEpoch == s.clock.epoch
           || (live && |s.stakes| < s.cfg.stakeCapacity && s.delayed + amount <= U64_MAX)
  }

  /** The total active balance is a `u64`. */
  lemma DeactivateStakeIff(s: System, i: nat, account: Key, j: nat, newKey: Key)
    requires Inv(s) && s.active <= U64_MAX
    ensures DeactivateStake(s, i, account, j, newKey).Success? <==>
              && newKey !in s.native && !s.cfg.paused && s.upgrader.Done? && InDeltaWindow(s)
              && 0 < -StakeDelta(s) <= U64_MAX && Movable(s, i, account, j) && MayCool(s, i, account, j, -StakeDelta(s))
  {
    hide StakeDelta, ValidatorTarget, Target, UnstakeToward, MayCool, Inv, ScoresAddUp, InDeltaWindow;
    MoveableIs(s, i, account, j);
    ScoredWell(s);
    TargetsFit(s);
    if StakeDelta(s) < 0 {
      assert TotalTarget(s) == SatSub(s.active, -StakeDelta(s));
    }
    if Movable(s, i, account, j) && s.upgrader.Done? && newKey !in s.native && StakeDelta(s) < 0 {
      CoolTowardIff(s, i, account, j, -StakeDelta(s), newKey);
    }
  }

  lemma CoolTowardIff(s: System, i: nat, account: Key, j: nat, lacking: nat, newKey: Key)
    requires Inv(s) && s.upgrader.Done? && Movable(s, i, account, j) && newKey !in s.native && lacking > 0
    ensures UnstakeToward(s, i, j, Target(s, j), lacking, newKey).Success? <==> MayCool(s, i, account, j, lacking)
  {
    hide CoolWhole, CoolPart, Inv, Target;
    ScoredWell(s);
    CoolWholeIff(s, i, account, j);
    var amount := Min(SatSub(s.validators[j].active, Target(s, j)), lacking);
    if amount <= s.stakes[i].delegated {
      CoolPartIff(s, i, account, j, amount, newKey);
    }
  }

  lemma CoolWholeIff(s: System, i: nat, account: Key, j: nat)
    requires Inv(s) && s.upgrader.Done? && Movable(s, i, account, j)
    ensures CoolWhole(s.(deltaEpoch := s.clock.epoch), i, j, false).Success? <==>
            s.native[account].deactivationEpoch == NEVER && s.delayed + s.stakes[i].delegated <= U64_MAX
  {
    RecordFits(s, i, j);
    hide Inv;
  }

  lemma CoolPartIff(s: System, i: nat, account: Key, j: nat, amount: nat, newKey: Key)
    requires Inv(s) && s.upgrader.Done? && Movable(s, i, account, j) && newKey !in s.native
    requires amount <= s.stakes[i].delegated
    ensures CoolPart(s, i, j, amount, newKey, false).Success? <==>
            && s.native[account].deactivationEpoch == NEVER && |s.stakes| < s.cfg.stakeCapacity
            && s.delayed + amount <= U64_MAX
  {
    RecordFits(s, i, j);
    PartStops(s, i, account, j, amount, newKey);
    hide SplitNative, DeactivateNative, Inv;
    var shared := SplitNative(s, account, newKey, amount);
    if shared.Success? {
      var stopped := DeactivateNative(shared.value, newKey);
      if stopped.Success? && |s.stakes| < s.cfg.stakeCapacity {
        SplitCoolingIff(stopped.value, i, j, amount, newKey, false);
      }
    }
    hide SplitCooling;
  }

  // ---------------------------------------------------------------- updates

  /** An update whose callers named the right slots is accepted, or the numbers leave the machine's integers. */
  lemma UpdatesAreAccepted(s: System, i: nat, account: Key, j: nat, treasury: bool)
    requires Inv(s) && UpdateReady(s, i, account, j)
    ensures !s.upgrader.IteratingValidators? && s.native[account].Live() && !s.stakes[i].status.Deactivating? ==>
      UpdateActive(s, i, account, j, treasury).Success? || OutOfRange(UpdateActive(s, i, account, j, treasury))
    ensures !s.native[account].Live() && s.clock.epoch > s.native[account].deactivationEpoch && !Disturbs(s, i, j) ==>
      UpdateDeactivated(s, i, account, j, treasury).Success?
          || OutOfRange(UpdateDeactivated(s, i, account, j, treasury))
  {
    assert RecordOk(s.stakes[i], s.native);
    UpdateActiveKeeps(s, i, account, j, treasury);
    UpdateActiveEffect(s, i, account, j, treasury);
    UpdateDeactivatedEffect(s, i, account, j, treasury);
    if !Disturbs(s, i, j) {
      UpdateDeactivatedKeeps(s, i, account, j, treasury);
    }
    hide Sum, Inv, UpdateActive, UpdateDeactivated, OnlyMinted, ActiveUpdated;
  }

  // ---------------------------------------------------------------- the first state

  /** Exactly the settings and accounts the program starts with, and that it starts empty and open. */
  lemma InitializeIff(s: System, rewardFee: u32, minStake: u64, slotsForDelta: u64,
                      lpTarget: u64, lpMaxFee: u32, lpMinFee: u32, treasuryCut: u32)
    ensures var r := Initialize(s, rewardFee, minStake, slotsForDelta, lpTarget, lpMaxFee, lpMinFee, treasuryCut);
      && (r.Success? <==>
          && rewardFee <= 1_000 && slotsForDelta >= 3_000 && minStake >= 10_000_000
          && s.reserveLamports == s.cfg.tokenRent == s.solLeg && s.msolLeg == s.msolHeld == s.lpMint == 0
          && lpMinFee <= lpMaxFee <= 1_000 && lpTarget >= 50_000_000_000 && treasuryCut <= 7_500)
      && (r.Success? ==>
          && Under(r.value) == r.value.supply == r.value.ticketBalance == r.value.ticketCount == r.value.lpSupply == 0
          && r.value.stakes == [] && r.value.validators == [] && r.value.tickets == [] && r.value.totalScore == 0
          && r.value.upgrader.Done? && r.value.price == 0x1_0000_0000 && r.value.deltaEpoch == U64_MAX
          && r.value.extraRuns == r.value.moved == 0
          && var c := r.value.cfg;
          && !c.paused && c.stakingCap == c.liquidityCap == U64_MAX && c.minDeposit == c.minWithdraw == 1
          && c.minStake == minStake && c.rewardFee == rewardFee && c.slotsForDelta == slotsForDelta
          && c.depositFee == c.depositStakeFee == c.delayedUnstakeFee == c.withdrawStakeFee == 0
          && !c.withdrawStakeEnabled && c.maxStakeMoved == 10_000
          && c.lpTarget == lpTarget && c.lpMaxFee == lpMaxFee && c.lpMinFee == lpMinFee && c.treasuryCut == treasuryCut)
  {
  }
}
