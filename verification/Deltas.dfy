/** What there is to stake and to unstake, and when, said in the lamports and balances themselves; and
    how little staking leaves once every validator was called. */
module Deltas {
  import opened Base
  import opened Calc
  import opened Sums
  import opened Model
  import opened Ledger
  import opened Instructions
  import opened Machine
  import opened Books
  import opened Invariant
  import opened Backing
  import opened FromStart
  import opened Scheduler

  // ---------------------------------------------------------------- the delta

  /** What is in the reserve beyond its rent. */
  function InReserve(s: System): nat {
    if s.reserveLamports >= s.cfg.tokenRent then s.reserveLamports - s.cfg.tokenRent else 0
  }

  /** There is something to stake exactly when the reserve and the delayed unstakes are more than the tickets,
      and then that difference; something to unstake exactly when they are less even with the emergency
      unstakes, and then that difference. */
  lemma DeltaIs(s: System)
    ensures StakeDelta(s) > 0 <==> InReserve(s) + s.delayed > s.ticketBalance
    ensures StakeDelta(s) > 0 ==> StakeDelta(s) == InReserve(s) + s.delayed - s.ticketBalance
    ensures StakeDelta(s) < 0 <==> InReserve(s) + s.delayed + s.emergency < s.ticketBalance
    ensures StakeDelta(s) < 0 ==> -StakeDelta(s) == s.ticketBalance - InReserve(s) - s.delayed - s.emergency
  {
  }

  lemma WindowIs(s: System)
    ensures InDeltaWindow(s) <==> s.clock.slot + s.cfg.slotsForDelta >= s.clock.lastSlotOfEpoch
  {
  }

  /** The balance all validators together should have. */
  function Goal(s: System): nat {
    if InReserve(s)
        + s.delayed >= s.ticketBalance then Min(s.active + (InReserve(s) + s.delayed - s.ticketBalance), U64_MAX)
    else if InReserve(s) + s.delayed + s.emergency >= s.ticketBalance then Min(s.active, U64_MAX)
    else SatSub(s.active, s.ticketBalance - InReserve(s) - s.delayed - s.emergency)
  }

  /** A validator's target is its floored share of that, by score. */
  lemma TargetIs(s: System, j: nat)
    requires j < |s.validators|
    ensures if s.totalScore == 0 then Target(s, j) == 0
            else IsFloor(Target(s, j), Goal(s) * s.validators[j].score, s.totalScore)
  {
    DeltaIs(s);
    hide StakeDelta, InReserve;
    assert TotalTarget(s) == Goal(s);
    if s.totalScore > 0 {
      FloorOfQuotient(Goal(s) * s.validators[j].score, s.totalScore);
    }
  }

  // ---------------------------------------------------------------- unstaking

  /** While everything that is not active covers the tickets, stake that is cooling down for an emergency
      included, the deactivating crank refuses every call. */
  lemma CoveredIsLeftAlone(s: System, i: nat, account: Key, j: nat, newKey: Key)
    requires InReserve(s) + s.delayed + s.emergency >= s.ticketBalance
    ensures DeactivateStake(s, i, account, j, newKey).Failure?
    ensures Next(s, DoDeactivateStake(i, account, j, newKey)) == s
  {
    DeltaIs(s);
    hide StakeDelta, UnstakeToward, ValidatorTarget;
  }

  /** Over any run of the deactivating crank, what is unstaked is less than what the tickets lacked and twice
      the minimum. */
  lemma UnstakedIsLacking(s: System, steps: seq<Step>)
    requires ConfigOk(s.cfg) && ScoresAddUp(s) && OnlyDeactivating(steps)
    ensures var t := Run(s, steps);
      && t.active <= s.active && t.delayed == s.delayed + (s.active - t.active)
      && (t.active < s.active ==>
          (s.active - t.active) + InReserve(s) + s.delayed + s.emergency < s.ticketBalance + 2 * s.cfg.minStake)
  {
    UnstakingRun(s, steps);
    DeltaIs(s);
    hide Run, StakeDelta, ConfigOk;
  }

  /** What a call does to s when the tickets lack so much: nothing to a validator at or below its target;
      the whole record when less than twice the minimum would remain of it; otherwise a part, once in an
      epoch: what the validator is above its target, or what is lacking if that is less. */
  ghost predicate Unstakes(s: System, t: System, i: nat, j: nat, target: nat, lacking: nat, newKey: Key)
    requires i < |s.stakes| && j < |s.validators|
  {
    var r, v := s.stakes[i], s.validators[j];
    if v.active <= target then t == s
    else
      var left := SatSub(r.delegated, Min(v.active - target, lacking));
      if left < 2 * s.cfg.minStake then
        && t.stakes == s.stakes[i := r.(status := Deactivating, emergency := false)]
        && t.active == s.active - r.delegated && t.delayed == s.delayed + r.delegated
      else if v.deltaEpoch == s.clock.epoch then t == s
      else
        && left < r.delegated
        && t.stakes == s.stakes[i := r.(delegated := left)]
                       + [StakeRecord(newKey, r.delegated - left, s.clock.epoch, false, Deactivating)]
        && t.active == s.active - (r.delegated - left) && t.delayed == s.delayed + (r.delegated - left)
  }

  /** Exactly when an accepted call unstakes nothing, everything, or a part. */
  lemma UnstakesExactly(s: System, i: nat, account: Key, j: nat, newKey: Key)
    requires ConfigOk(s.cfg) && ScoresAddUp(s) && DeactivateStake(s, i, account, j, newKey).Success?
    ensures InReserve(s) + s.delayed + s.emergency < s.ticketBalance && i < |s.stakes| && j < |s.validators|
    ensures Unstakes(s, DeactivateStake(s, i, account, j, newKey).value, i, j, Target(s, j),
                     s.ticketBalance - InReserve(s) - s.delayed - s.emergency, newKey)
  {
    hide *;
    DeltaIs(s);
    DeactivateStakeIs(s, i, account, j, newKey);
    TowardExactly(s, i, j, Target(s, j), -StakeDelta(s), newKey);
  }

  lemma TowardExactly(s: System, i: nat, j: nat, target: nat, lacking: nat, newKey: Key)
    requires i < |s.stakes| && j < |s.validators| && ConfigOk(s.cfg) && lacking > 0
    ensures var r := UnstakeToward(s, i, j, target, lacking, newKey);
      r.Success? ==> Unstakes(s, r.value, i, j, target, lacking, newKey)
  {
  }

  // ---------------------------------------------------------------- staking

  /** What the validator lacks to its target. */
  function Gap(s: System, j: nat): nat
    requires j < |s.validators|
  {
    SatSub(Target(s, j), s.validators[j].active)
  }

  /** Too little to stake: nothing is lacking, or less than the minimum is there to be staked, or less than
      the minimum is lacking and enough would be left for others. */
  predicate TooLittle(s: System, j: nat)
    requires j < |s.validators|
  {
    || Gap(s, j) == 0 || InReserve(s) + s.delayed < s.ticketBalance + s.cfg.minStake
    || (Gap(s, j) < s.cfg.minStake && InReserve(s) + s.delayed >= s.ticketBalance + Gap(s, j) + s.cfg.minStake)
  }

  /** Exactly what an accepted call of the staking crank does that is allowed now: nothing when there is too
      little; otherwise the validator is brought to its target, or gets everything there is to be staked when
      that is less, or less than the minimum would remain. */
  lemma StakesExactly(s: System, j: nat, vote: Key, newKey: Key)
    requires Backed(s) && ScoresAddUp(s) && StakeReady(s, j, vote, newKey)
    requires StakeReserve(s, j, vote, newKey).Success?
    ensures InReserve(s) + s.delayed > s.ticketBalance
    ensures var t := StakeReserve(s, j, vote, newKey).value;
      var all := InReserve(s) + s.delayed - s.ticketBalance;
      && t.extraRuns == (if s.validators[j].deltaEpoch == s.clock.epoch then s.extraRuns - 1 else s.extraRuns)
      && if TooLittle(s, j) then t == s.(extraRuns := t.extraRuns)
      else
        var amount := if Gap(s, j) + s.cfg.minStake <= all then Gap(s, j) else all;
        && t.stakes == s.stakes + [StakeRecord(newKey, amount, s.clock.epoch, false, StakeStatus.Active)]
        && t.active == s.active + amount
        && t.validators == s.validators[j := s.validators[j].(active := s.validators[j].active + amount,
                                                              deltaEpoch := s.clock.epoch)]
  {
    DeltaIs(s);
    hide Backed, StakeDelta, Target, ValidatorTarget, InReserve, StakeInto, ScoresAddUp, InDeltaWindow;
    WantedIs(s, j);
    var counted := if s.validators[j].deltaEpoch == s.clock.epoch then s.(extraRuns := s.extraRuns - 1) else s;
    StakeIntoBooks(counted, j, Wanted(s, j), newKey);
    WantedExactly(s, j);
    hide StakeAmount, Wanted;
  }

  /** Any other accepted call changes nothing. */
  lemma OtherwiseIdle(s: System, j: nat, vote: Key, newKey: Key)
    requires StakeReserve(s, j, vote, newKey).Success? && !StakeReady(s, j, vote, newKey)
    ensures StakeReserve(s, j, vote, newKey).value == s
  {
    hide StakeDelta, ValidatorTarget, StakeInto, InDeltaWindow, StakeAmount;
  }

  lemma WantedExactly(s: System, j: nat)
    requires j < |s.validators| && StakeDelta(s) > 0
    ensures var all: nat := StakeDelta(s);
      Wanted(s, j) == if TooLittle(s, j) then 0 else if Gap(s, j) + s.cfg.minStake <= all then Gap(s, j) else all
    ensures Wanted(s, j) == 0 <==> TooLittle(s, j)
  {
    DeltaIs(s);
    hide StakeDelta, Target, InReserve;
  }

  lemma StakeIntoBooks(s: System, j: nat, amount: nat, newKey: Key)
    requires j < |s.validators| && s.upgrader.Done?
    ensures var r := StakeInto(s, j, amount, newKey);
      r.Success? ==>
        && r.value.stakes == s.stakes + [StakeRecord(newKey, amount, s.clock.epoch, false, StakeStatus.Active)]
        && r.value.active == s.active + amount && r.value.extraRuns == s.extraRuns
        && r.value.validators == s.validators[j := s.validators[j].(active := s.validators[j].active + amount,
                                                                    deltaEpoch := s.clock.epoch)]
  {
  }

  // ---------------------------------------------------------------- a whole round of staking

  /** The validator has what it should, short of the minimum, or less than the minimum is left to stake. */
  predicate Served(s: System, j: nat)
    requires j < |s.validators|
  {
    StakeDelta(s) < s.cfg.minStake || s.validators[j].active + s.cfg.minStake > Target(s, j)
  }

  /** An allowed and accepted call of the staking crank on the validator. */
  predicate CallOn(s: System, step: Step, j: nat) {
    step.DoStakeReserve? && step.j == j && StakeReady(s, j, step.vote, step.newKey) && Apply(s, step).Success?
  }

  predicate Called(s: System, steps: seq<Step>, j: nat)
    decreases |steps|
  {
    steps != [] && (CallOn(s, steps[0], j) || Called(Next(s, steps[0]), steps[1..], j))
  }

  /** From s to t targets stay, balances only grow, and what is left to stake only shrinks. */
  ghost predicate Closer(s: System, t: System) {
    && |t.validators| == |s.validators| && t.cfg == s.cfg && StakeDelta(t) <= StakeDelta(s)
    && t.active + StakeDelta(t) == s.active + StakeDelta(s) && t.totalScore == s.totalScore
    && forall j :: 0 <= j < |s.validators| ==>
         Target(t, j) == Target(s, j) && t.validators[j].active >= s.validators[j].active
  }

  lemma StakingIsCloser(s: System, step: Step)
    requires Backed(s) && ScoresAddUp(s) && step.DoStakeReserve?
    ensures Closer(s, Next(s, step)) && Backed(Next(s, step)) && ScoresAddUp(Next(s, step))
  {
    hide Apply, Next, Backed, ScoresAddUp, StakeDelta;
    StakeReserveEffect(s, step.j, step.vote, step.newKey);
    StepBacked(s, step);
    var t := Next(s, step);
    if Effective(s, step) {
      hide CallsLeft, TargetShare;
      forall k | 0 <= k < |s.validators|
        ensures Target(t, k) == Target(s, k) && t.validators[k].active >= s.validators[k].active
      {
        SameShare(t.validators[k], s.validators[k], TotalTarget(s), s.totalScore);
      }
    } else {
      SameDelta(s, t);
    }
  }

  lemma CallServes(s: System, step: Step, j: nat)
    requires Backed(s) && ScoresAddUp(s) && j < |s.validators| && CallOn(s, step, j) && s.cfg.minStake > 0
    ensures j < |Next(s, step).validators| && Served(Next(s, step), j)
  {
    StakingIsCloser(s, step);
    StakesExactly(s, j, step.vote, step.newKey);
    DeltaIs(s);
    hide Backed, ScoresAddUp, StakeDelta, Target, StakeReserve, InReserve, StakeReady;
    hide CallsLeft, SameWindow;
  }

  lemma CloserServes(s: System, t: System, j: nat)
    requires Closer(s, t) && j < |s.validators| && Served(s, j)
    ensures Served(t, j)
  {
    hide StakeDelta, Target;
  }

  lemma {:induction false} CalledIsServed(s: System, steps: seq<Step>, j: nat)
    requires Backed(s) && ScoresAddUp(s) && OnlyStaking(steps) && j < |s.validators| && s.cfg.minStake > 0
    requires Called(s, steps, j) || Served(s, j)
    ensures Closer(s, Run(s, steps)) && Served(Run(s, steps), j)
    decreases |steps|
  {
    hide Apply, Next, Backed, ScoresAddUp, StakeDelta, Served, Target, CallOn;
    if steps != [] {
      var m := Next(s, steps[0]);
      StakingIsCloser(s, steps[0]);
      if CallOn(s, steps[0], j) {
        CallServes(s, steps[0], j);
      } else if Served(s, j) {
        CloserServes(s, m, j);
      }
      CalledIsServed(m, steps[1..], j);
    }
  }

  // ---------------------------------------------------------------- sums over the validators

  /** With every validator less than the minimum below its target, their balances are together less than the
      minimum for each of them below the goal. */
  lemma {:induction false} BalancesReach(validators: seq<ValidatorRecord>, goal: nat, totalScore: nat, min: nat)
    requires totalScore > 0
    requires forall j :: 0 <= j < |validators| ==>
        validators[j].active + min > TargetShare(goal, totalScore)(validators[j])
    ensures (Sum(validators, Balance()) + |validators| * min) * totalScore >= goal * Sum(validators, Score())
        + |validators|
  {
    if validators != [] {
      var v, rest := validators[0], validators[1..];
      BalancesReach(rest, goal, totalScore, min);
      FloorOfQuotient(goal * v.score, totalScore);
      MulLe(goal * v.score / totalScore + 1, v.active + min, totalScore);
      ReachAdds(v.active, Sum(rest, Balance()), min, |rest|, totalScore, goal, v.score, Sum(rest, Score()));
    }
  }

  lemma ReachAdds(balance: nat, balances: nat, min: nat, count: nat, totalScore: nat, goal: nat, score: nat,
                  scores: nat)
    requires (balance + min) * totalScore >= goal * score + 1
    requires (balances + count * min) * totalScore >= goal * scores + count
    ensures (balance + balances + (count + 1) * min) * totalScore >= goal * (score + scores) + count + 1
  {
    assert (count + 1) * min == count * min + min;
    assert (balance + balances + count * min + min) * totalScore
        == (balance + min) * totalScore + (balances + count * min) * totalScore;
    assert goal * (score + scores) == goal * score + goal * scores;
  }

  /** Once all validators are served, less than the minimum for each of them is left to stake. */
  lemma LeftIsSmall(s: System)
    requires Inv(s) && s.upgrader.Done? && s.totalScore > 0 && StakeDelta(s) >= 0 && s.active + StakeDelta(s) <= U64_MAX
    requires forall j :: 0 <= j < |s.validators| ==> Served(s, j)
    ensures StakeDelta(s) < |s.validators| * s.cfg.minStake
  {
    var n, min := |s.validators|, s.cfg.minStake;
    ScoredAndBalanced(s);
    if StakeDelta(s) < min {
      MulLe(1, n, min);
    } else {
      var goal := TotalTarget(s);
      hide StakeDelta, Inv, Sum;
      assert goal == s.active + StakeDelta(s);
      forall j | 0 <= j < n
        ensures s.validators[j].active + min > TargetShare(goal, s.totalScore)(s.validators[j])
      {
        assert Served(s, j);
      }
      BalancesReach(s.validators, goal, s.totalScore, min);
      Strictly(goal, s.active + n * min, s.totalScore, n);
    }
  }

  lemma Strictly(a: nat, b: nat, c: nat, n: nat)
    requires b * c >= a * c + n && n > 0
    ensures a < b
  {
    if a >= b {
      MulLe(b, a, c);
    }
  }

  lemma ScoredAndBalanced(s: System)
    requires Inv(s) && s.upgrader.Done? && s.totalScore > 0
    ensures s.active == Sum(s.validators, Balance()) && s.totalScore == Sum(s.validators, Score()) && |s.validators| > 0
    ensures s.cfg.minStake > 0 && ScoresAddUp(s)
  {
    if s.validators == [] {
      SumEmpty(s.validators, Score());
    }
  }

  /** Over any run of staking calls that were allowed and accepted at least once for every validator, less
      than the minimum stake for each validator is left to be staked. */
  lemma StakingLeavesLittle(s: System, steps: seq<Step>)
    requires Inv(s) && s.upgrader.Done? && s.totalScore > 0 && s.active + InReserve(s) + s.delayed <= U64_MAX
    requires OnlyStaking(steps) && forall j :: 0 <= j < |s.validators| ==> Called(s, steps, j)
    ensures var t := Run(s, steps);
      InReserve(t) + t.delayed < t.ticketBalance + |s.validators| * s.cfg.minStake
  {
    ScoredAndBalanced(s);
    RunFromDone(s, steps);
    var t := Run(s, steps);
    DeltaIs(s);
    DeltaIs(t);
    DeltaBelow(s);
    hide Run, StakeDelta, Called, InReserve;
    forall j | 0 <= j < |s.validators|
      ensures Closer(s, t) && j < |t.validators| && Served(t, j)
    {
      CalledIsServed(s, steps, j);
    }
    assert Closer(s, t) by { CalledIsServed(s, steps, 0); }
    hide Inv, Served, Target;
    if StakeDelta(t) >= 0 {
      LeftIsSmall(t);
    } else {
      MulLe(0, |s.validators|, s.cfg.minStake);
    }
  }

  lemma DeltaBelow(s: System)
    ensures StakeDelta(s) <= InReserve(s) + s.delayed
  {
  }
}
