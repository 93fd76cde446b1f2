/** The stake-delta cranks: how far runs of them can miss the validators' targets, and when they
    stop. */
module Scheduler {
  import opened Base
  import opened Calc
  import opened Sums
  import opened Model
  import opened Ledger
  import opened Instructions
  import opened Machine
  import opened Books
  import opened Invariant
  import opened Shapes
  import opened Backing

  // ---------------------------------------------------------------- targets

  /** The active balance the stake-delta steers to. */
  function TotalTarget(s: System): nat {
    if StakeDelta(s) < 0 then SatSub(s.active, -StakeDelta(s)) else Min(s.active + StakeDelta(s), U64_MAX)
  }

  function Target(s: System, j: nat): nat
    requires j < |s.validators|
  {
    TargetShare(TotalTarget(s), s.totalScore)(s.validators[j])
  }

  function TargetShare(total: nat, totalScore: nat): ValidatorRecord -> nat {
    (v: ValidatorRecord) => if totalScore == 0 then 0 else total * v.score / totalScore
  }

  lemma {:induction false} SharesScaled(validators: seq<ValidatorRecord>, total: nat, totalScore: nat)
    requires totalScore > 0
    ensures Sum(validators, TargetShare(total, totalScore)) * totalScore <= total * Sum(validators, Score())
  {
    if validators != [] {
      var v := validators[0];
      SharesScaled(validators[1..], total, totalScore);
      FloorOfQuotient(total * v.score, totalScore);
      AddProducts(TargetShare(total, totalScore)(v), v.score, Sum(validators[1..], TargetShare(total, totalScore)),
                  Sum(validators[1..], Score()), total, totalScore);
    }
  }

  lemma AddProducts(share: nat, score: nat, shares: nat, scores: nat, total: nat, totalScore: nat)
    requires share * totalScore <= total * score && shares * totalScore <= total * scores
    ensures (share + shares) * totalScore <= total * (score + scores)
  {
    assert (share + shares) * totalScore == share * totalScore + shares * totalScore;
    assert total * (score + scores) == total * score + total * scores;
  }

  ghost predicate ScoresAddUp(s: System) {
    s.totalScore == Sum(s.validators, Score())
  }

  /** The floored targets of all validators fit into the total, and each is what the program computes. */
  lemma TargetsFit(s: System)
    requires ScoresAddUp(s)
    ensures Sum(s.validators, TargetShare(TotalTarget(s), s.totalScore)) <= TotalTarget(s)
    ensures forall j :: 0 <= j < |s.validators| ==>
              var target := ValidatorTarget(s, s.validators[j], TotalTarget(s));
              && (target.Success? ==> target.value == Target(s, j))
              && (TotalTarget(s) <= U64_MAX ==> target.Success?)
              && (target.Failure? ==> target.error.CalculationFailure?)
  {
    if s.totalScore == 0 {
      SumZero(s.validators, TargetShare(TotalTarget(s), s.totalScore));
    } else {
      SharesScaled(s.validators, TotalTarget(s), s.totalScore);
      Cancel(Sum(s.validators, TargetShare(TotalTarget(s), s.totalScore)), TotalTarget(s), s.totalScore);
      forall j | 0 <= j < |s.validators|
        ensures var target := ValidatorTarget(s, s.validators[j], TotalTarget(s));
          && (target.Success? ==> target.value == Target(s, j))
          && (TotalTarget(s) <= U64_MAX ==> target.Success?)
      {
        SumMember(s.validators, j, Score());
        TargetIsShare(TotalTarget(s), s.validators[j].score, s.totalScore);
      }
    }
  }

  lemma TargetIsShare(total: nat, score: nat, totalScore: nat)
    requires score <= totalScore && totalScore > 0
    ensures var r := Proportional(total, score, totalScore);
      (total <= U64_MAX ==> r.Success?) && (r.Success? ==> r.value == total * score / totalScore)
  {
    MulLe(score, totalScore, total);
    if total <= U64_MAX {
      MulLe(total + 1, U64_MAX + 1, totalScore);
    }
  }

  // ---------------------------------------------------------------- staking the reserve

  predicate Effective(s: System, step: Step) {
    Next(s, step).stakes != s.stakes
  }

  function EffectiveCalls(s: System, steps: seq<Step>): nat
    decreases |steps|
  {
    if steps == [] then 0
    else (if Effective(s, steps[0]) then 1 else 0) + EffectiveCalls(Next(s, steps[0]), steps[1..])
  }

  /** A validator not yet called in this epoch. */
  function Uncalled(epoch: nat): ValidatorRecord -> nat {
    (v: ValidatorRecord) => if v.deltaEpoch == epoch then 0 else 1
  }

  function CallsLeft(s: System): nat {
    Sum(s.validators, Uncalled(s.clock.epoch)) + s.extraRuns
  }

  /** Everything the targets depend on, except what is staked. */
  predicate SameWindow(s: System, t: System) {
    && t.cfg == s.cfg && t.clock == s.clock && t.upgrader == s.upgrader
    && t.totalScore == s.totalScore && t.emergency == s.emergency && t.ticketBalance == s.ticketBalance
    && |t.validators| == |s.validators|
    && (forall j :: 0 <= j < |s.validators| ==>
          t.validators[j].vote == s.validators[j].vote && t.validators[j].score == s.validators[j].score)
  }

  /** One staking call that does something: at least the minimum is staked, what is left to stake is
      nothing or at least the minimum, and the validator was below its target and ends exactly at it,
      or nothing is left to stake and it ends at most at it or above it by less than the minimum. */
  ghost predicate Staked(s: System, t: System, j: nat, amount: nat)
    requires j < |s.validators|
  {
    && amount >= s.cfg.minStake
    && StakeDelta(t) == StakeDelta(s) - amount
    && (StakeDelta(t) == 0 || StakeDelta(t) >= s.cfg.minStake)
    && s.validators[j].active < Target(s, j)
    && (s.validators[j].active + amount == Target(s, j) || StakeDelta(t) == 0)
    && (s.validators[j].active + amount <= Target(s, j)
        || (StakeDelta(t) == 0 && s.validators[j].active + amount < Target(s, j) + s.cfg.minStake))
    && t.active == s.active + amount
    && t.validators
       == s.validators[j := s.validators[j].(active := s.validators[j].active + amount, deltaEpoch := s.clock.epoch)]
    && CallsLeft(t) < CallsLeft(s)
  }

  lemma StakeAmountIs(delta: nat, balance: nat, target: nat, minStake: nat)
    ensures var amount := StakeAmount(delta, balance, target, minStake);
      amount > 0 ==>
        && amount >= minStake && amount <= delta && balance < target
        && (amount == delta || delta - amount >= minStake) && (amount == delta || balance + amount == target)
        && (balance + amount <= target || (amount == delta && balance + amount < target + minStake))
  {
  }

  lemma StakeIntoShape(s: System, j: nat, amount: nat, newKey: Key)
    requires Backed(s) && j < |s.validators| && s.upgrader.Done? && 0 < amount <= StakeDelta(s)
    ensures var r := StakeInto(s, j, amount, newKey);
      r.Success? ==>
        && SameWindow(s, r.value)
        && StakeDelta(r.value) == StakeDelta(s) - amount
        && r.value.active == s.active + amount && r.value.extraRuns == s.extraRuns
        && |r.value.stakes| == |s.stakes| + 1
        && r.value.validators == s.validators[j := s.validators[j].(active := s.validators[j].active + amount,
                                                                    deltaEpoch := s.clock.epoch)]
  {
    hide Sum;
  }

  lemma CallsLeftAfter(s: System, t: System, j: nat)
    requires j < |s.validators| && j < |t.validators| && t.clock == s.clock
    requires t.validators
        == s.validators[j := s.validators[j].(active := t.validators[j].active, deltaEpoch := s.clock.epoch)]
    requires if s.validators[j].deltaEpoch == s.clock.epoch then t.extraRuns == s.extraRuns - 1
             else t.extraRuns == s.extraRuns
    ensures CallsLeft(t) == CallsLeft(s) - 1
  {
    SumSet(s.validators, j, t.validators[j], Uncalled(s.clock.epoch));
  }

  /** A call of the staking crank either stakes, within the bounds, or moves no stake. */
  lemma StakeReserveEffect(s: System, j: nat, vote: Key, newKey: Key)
    requires Backed(s) && ScoresAddUp(s)
    ensures var step := DoStakeReserve(j, vote, newKey);
      var t := Next(s, step);
      && SameWindow(s, t) && ScoresAddUp(t)
      && (Effective(s, step) ==>
          j < |s.validators| && StakeDelta(s) > 0 && t.active >= s.active && Staked(s, t, j, t.active - s.active))
      && (!Effective(s, step) ==> t == s.(extraRuns := t.extraRuns) && t.extraRuns <= s.extraRuns)
  {
    hide Sum, StakeInto, StakeDelta, Backed, ValidatorTarget, StakeAmount, InDeltaWindow, Wanted;
    if j < |s.validators| && StakeDelta(s) > 0 {
      WantedIs(s, j);
      if s.upgrader.Done? && (s.validators[j].deltaEpoch != s.clock.epoch || s.extraRuns > 0) {
        var counted := if s.validators[j].deltaEpoch == s.clock.epoch then s.(extraRuns := s.extraRuns - 1) else s;
        StakeIntoEffect(s, counted, j, newKey);
        ScoresCounted(s, counted);
        hide Staked, ScoresAddUp;
      }
    }
  }

  lemma ScoresCounted(s: System, t: System)
    requires ScoresAddUp(s) && t == s.(extraRuns := t.extraRuns)
    ensures ScoresAddUp(t)
  {
  }

  /** The staking itself, once the call was counted. */
  lemma StakeIntoEffect(s: System, counted: System, j: nat, newKey: Key)
    requires Backed(s) && ScoresAddUp(s) && s.upgrader.Done? && j < |s.validators| && StakeDelta(s) > 0
    requires s.validators[j].deltaEpoch == s.clock.epoch ==> s.extraRuns > 0
    requires counted == if s.validators[j].deltaEpoch == s.clock.epoch then s.(extraRuns := s.extraRuns - 1) else s
    ensures var r := StakeInto(counted, j, Wanted(s, j), newKey);
      Wanted(s, j) > 0 && r.Success? ==>
        && SameWindow(s, r.value) && ScoresAddUp(r.value) && r.value.active == s.active + Wanted(s, j)
        && r.value.stakes != s.stakes && Staked(s, r.value, j, Wanted(s, j))
  {
    hide Sum, StakeInto, StakeDelta, Backed, TargetShare, StakeAmount;
    StakeAmountIs(StakeDelta(s), s.validators[j].active, Target(s, j), s.cfg.minStake);
    SameDelta(s, counted);
    if Wanted(s, j) > 0 {
      StakeIntoShape(counted, j, Wanted(s, j), newKey);
      var r := StakeInto(counted, j, Wanted(s, j), newKey);
      if r.Success? {
        CallsLeftAfter(s, r.value, j);
        SumSet(s.validators, j, r.value.validators[j], Score());
      }
    }
  }

  // ---------------------------------------------------------------- what the reserve can pay

  /** What a call into validator j would stake. */
  function Wanted(s: System, j: nat): nat
    requires j < |s.validators| && StakeDelta(s) > 0
  {
    StakeAmount(StakeDelta(s), s.validators[j].active, Target(s, j), s.cfg.minStake)
  }

  /** The list, the validator's balance and the total have room for it. */
  predicate Fits(s: System, j: nat, amount: nat)
    requires j < |s.validators|
  {
    |s.stakes| < s.cfg.stakeCapacity && s.validators[j].active + amount <= U64_MAX && s.active + amount <= U64_MAX
  }

  lemma WantedIs(s: System, j: nat)
    requires Backed(s) && ScoresAddUp(s) && j < |s.validators| && StakeDelta(s) > 0
    ensures StakeWanted(s, j) == Success(Wanted(s, j))
  {
    hide Sum, StakeDelta, ValidatorTarget, TargetShare, StakeAmount, Backed;
    TargetsFit(s);
    assert TotalTarget(s) == Min(s.active + StakeDelta(s), U64_MAX);
  }

  /** Exactly when staking fails for want of lamports: in the reserve itself, where the transfer fails,
      or in the reserve on the books, where the subtraction after it does. */
  lemma StakeFailsIff(s: System, j: nat, vote: Key, newKey: Key)
    requires Backed(s) && ScoresAddUp(s)
    ensures var r := StakeReserve(s, j, vote, newKey);
      && (r == Failure(ReserveUnderflow) <==>
          StakeReady(s, j, vote, newKey) && s.reserve < Wanted(s, j) <= s.reserveLamports)
      && (r == Failure(CallFailed) <==> StakeReady(s, j, vote, newKey) && Wanted(s, j) > s.reserveLamports)
  {
    hide Sum, StakeDelta, ValidatorTarget, StakeAmount, InDeltaWindow, Backed, StakeInto, Wanted;
    TargetErrors(s, j);
    if j < |s.validators| && StakeDelta(s) > 0 {
      WantedIs(s, j);
      var again := s.validators[j].deltaEpoch == s.clock.epoch && s.extraRuns > 0;
      StakeIntoErrors(if again then s.(extraRuns := s.extraRuns - 1) else s, j, Wanted(s, j), newKey);
    }
  }

  lemma TargetErrors(s: System, j: nat)
    ensures j < |s.validators| ==>
        forall total: nat {:trigger ValidatorTarget(s, s.validators[j], total)} ::
          var r := ValidatorTarget(s, s.validators[j], total); r.Failure? ==> r.error == CalculationFailure
  {
  }

  lemma StakeIntoErrors(s: System, j: nat, amount: nat, newKey: Key)
    requires j < |s.validators|
    ensures var r := StakeInto(s, j, amount, newKey);
      && (r == Failure(ReserveUnderflow) <==> s.reserve < amount <= s.reserveLamports)
      && (r == Failure(CallFailed) <==> amount > s.reserveLamports)
      && (s.upgrader.Done? ==>
          (r.Success? <==> amount <= s.reserveLamports && amount <= s.reserve && Fits(s, j, amount)))
  {
  }

  /** Exactly when a call of the staking crank is accepted: nothing is to be staked, now or here, or
      what is to be staked is in the reserve on the books and fits the lists. */
  lemma StakeSucceedsIff(s: System, j: nat, vote: Key, newKey: Key)
    requires Backed(s) && ScoresAddUp(s)
    ensures StakeReserve(s, j, vote, newKey).Success? <==>
              && newKey !in s.native && !s.cfg.paused && s.upgrader.Done?
              && StakeDelta(s) <= U64_MAX && -StakeDelta(s) <= U64_MAX
              && (StakeDelta(s) > 0 ==>
                  && j < |s.validators| && s.validators[j].vote == vote
                  && (|| (s.validators[j].deltaEpoch == s.clock.epoch && s.extraRuns == 0)
                      || (InDeltaWindow(s)
                          && (Wanted(s, j) > 0 ==> Wanted(s, j) <= s.reserve && Fits(s, j, Wanted(s, j))))))
  {
    hide Sum, StakeDelta, ValidatorTarget, StakeAmount, InDeltaWindow, StakeInto, Wanted;
    if j < |s.validators| && StakeDelta(s) > 0 {
      WantedIs(s, j);
      var again := s.validators[j].deltaEpoch == s.clock.epoch && s.extraRuns > 0;
      var counted := if again then s.(extraRuns := s.extraRuns - 1) else s;
      StakeIntoErrors(counted, j, Wanted(s, j), newKey);
    }
  }

  /** Right after a synchronisation no claim is short of the reserve on the books, and staking only if
      more is cooling down than the tickets ask for. */
  lemma SyncedIsRarelyShort(s: System, k: nat, j: nat, vote: Key, newKey: Key)
    requires s.reserve + s.cfg.tokenRent == s.reserveLamports
    ensures !ClaimShort(s, k)
    ensures StakeShort(s, j, vote, newKey) ==> s.delayed > s.ticketBalance
  {
    if StakeShort(s, j, vote, newKey) {
      var target := ValidatorTarget(s, s.validators[j], Min(s.active + StakeDelta(s), U64_MAX));
      StakeAmountIs(StakeDelta(s), s.validators[j].active, target.value, s.cfg.minStake);
      hide StakeAmount, ValidatorTarget;
    }
  }

  lemma SameDelta(s: System, t: System)
    requires t == s.(extraRuns := t.extraRuns)
    ensures StakeDelta(t) == StakeDelta(s) && (Backed(s) ==> Backed(t))
  {
  }

  predicate OnlyStaking(steps: seq<Step>) {
    forall k :: 0 <= k < |steps| ==> steps[k].DoStakeReserve?
  }

  /** The validator was lifted above its target. */
  predicate Overshot(s: System, t: System, j: nat)
    requires j < |s.validators| && j < |t.validators|
  {
    t.validators[j].active > s.validators[j].active && t.validators[j].active > Target(s, j)
  }

  /** What a run of staking calls from s to t, `calls` of them effective, keeps to. */
  ghost predicate StakedWithin(s: System, t: System, calls: nat) {
    && SameWindow(s, t)
    && t.active + StakeDelta(t) == s.active + StakeDelta(s)
    && calls * s.cfg.minStake <= StakeDelta(s) - StakeDelta(t)
    && (calls == 0 ==> StakeDelta(t) == StakeDelta(s))
    && (calls > 0 ==> StakeDelta(t) == 0 || StakeDelta(t) >= s.cfg.minStake)
    && calls + CallsLeft(t) <= CallsLeft(s)
    && (forall j :: 0 <= j < |s.validators| ==> t.validators[j].active >= s.validators[j].active)
    && (forall j :: 0 <= j < |s.validators| && Overshot(s, t, j) ==>
          StakeDelta(t) == 0 && t.validators[j].active < Target(s, j) + s.cfg.minStake)
    && (forall j, k :: 0 <= j < |s.validators| && 0 <= k < |s.validators| && Overshot(s, t, j) && Overshot(s, t, k) ==>
        j == k)
  }

  /** A call after a run that kept to the bounds keeps to them. */
  lemma StakedOnce(s: System, m: System, t: System, calls: nat, j: nat, amount: nat)
    requires StakedWithin(s, m, calls) && SameWindow(m, t) && StakeDelta(m) > 0
    requires j < |m.validators| && Staked(m, t, j, amount)
    ensures StakedWithin(s, t, calls + 1)
  {
    hide StakeDelta, CallsLeft, TargetShare;
    assert (calls + 1) * s.cfg.minStake == calls * s.cfg.minStake + s.cfg.minStake;
    forall k | 0 <= k < |s.validators|
      ensures Target(m, k) == Target(s, k)
    {
      SameShare(m.validators[k], s.validators[k], TotalTarget(s), s.totalScore);
    }
    assert forall k :: 0 <= k < |s.validators| && k != j ==> t.validators[k] == m.validators[k];
    assert forall k :: 0 <= k < |s.validators| ==> !Overshot(s, m, k);
  }

  lemma IdleWithin(s: System, m: System, t: System, calls: nat)
    requires StakedWithin(s, m, calls) && t == m.(extraRuns := t.extraRuns) && t.extraRuns <= m.extraRuns
    ensures StakedWithin(s, t, calls)
  {
    SameDelta(m, t);
    hide StakeDelta, TargetShare, Sum;
    assert CallsLeft(t) <= CallsLeft(m);
    assert forall j :: 0 <= j < |s.validators| ==> (Overshot(s, t, j) <==> Overshot(s, m, j));
  }

  lemma SameShare(v: ValidatorRecord, w: ValidatorRecord, total: nat, totalScore: nat)
    requires v.score == w.score
    ensures TargetShare(total, totalScore)(v) == TargetShare(total, totalScore)(w)
  {
  }

  lemma StakingStep(s: System, m: System, calls: nat, step: Step)
    requires StakedWithin(s, m, calls) && Backed(m) && ScoresAddUp(m) && step.DoStakeReserve?
    ensures StakedWithin(s, Next(m, step), calls + if Effective(m, step) then 1 else 0)
    ensures Backed(Next(m, step)) && ScoresAddUp(Next(m, step))
  {
    hide Apply, Next, StakedWithin, Backed, ScoresAddUp, Staked, SameWindow, StakeDelta;
    StakeReserveEffect(m, step.j, step.vote, step.newKey);
    StepBacked(m, step);
    var t := Next(m, step);
    if Effective(m, step) {
      StakedOnce(s, m, t, calls, step.j, t.active - m.active);
    } else {
      IdleWithin(s, m, t, calls);
    }
  }

  lemma {:induction false} StakingGoesOn(s: System, m: System, calls: nat, steps: seq<Step>)
    requires StakedWithin(s, m, calls) && Backed(m) && ScoresAddUp(m) && OnlyStaking(steps)
    ensures StakedWithin(s, Run(m, steps), calls + EffectiveCalls(m, steps))
    decreases |steps|
  {
    hide Apply, Next, StakedWithin, Backed, ScoresAddUp, Effective;
    if steps != [] {
      var after := calls + if Effective(m, steps[0]) then 1 else 0;
      StakingStep(s, m, calls, steps[0]);
      StakingGoesOn(s, Next(m, steps[0]), after, steps[1..]);
    }
  }

  /** Over any run of staking calls in one window: the total target is constant; the calls that stake
      are bounded by the stake to move over the minimum, and by the validators not yet called plus
      the extra runs; at most one validator is lifted above its target, by less than the minimum,
      and then nothing is left to stake. */
  lemma StakingRun(s: System, steps: seq<Step>)
    requires Backed(s) && ScoresAddUp(s) && OnlyStaking(steps)
    ensures StakedWithin(s, Run(s, steps), EffectiveCalls(s, steps))
    ensures EffectiveCalls(s, steps) <= |s.validators| + s.extraRuns
    ensures TotalTarget(Run(s, steps)) == TotalTarget(s)
  {
    hide Sum, Apply, Next;
    StakingGoesOn(s, s, 0, steps);
    UncalledAtMost(s.validators, s.clock.epoch);
  }

  lemma {:induction false} UncalledAtMost(validators: seq<ValidatorRecord>, epoch: nat)
    ensures Sum(validators, Uncalled(epoch)) <= |validators|
  {
    if validators != [] {
      UncalledAtMost(validators[1..], epoch);
    }
  }

  // ---------------------------------------------------------------- deactivating stake

  /** One deactivating call that does something: it takes no more than the deficit, or more by less
      than twice the minimum, and leaves the validator less than that below its target. */
  ghost predicate Unstaked(s: System, t: System, j: nat, amount: nat)
    requires j < |s.validators| == |t.validators|
  {
    && StakeDelta(s) < 0
    && amount <= s.active && amount <= s.validators[j].active
    && amount < -StakeDelta(s) + 2 * s.cfg.minStake
    && s.validators[j].active > Target(s, j)
    && s.validators[j].active - amount > Target(s, j) - 2 * s.cfg.minStake
    && t.active == s.active - amount && t.delayed == s.delayed + amount
    && t.validators[j].active == s.validators[j].active - amount
    && (forall k :: 0 <= k < |s.validators| && k != j ==> t.validators[k] == s.validators[k])
  }

  lemma DeltaAfterUnstaking(s: System, t: System, amount: nat)
    requires t.cfg == s.cfg && t.reserveLamports == s.reserveLamports && t.ticketBalance == s.ticketBalance
    requires t.emergency == s.emergency && t.delayed == s.delayed + amount && StakeDelta(s) < 0
    ensures if amount < -StakeDelta(s) then StakeDelta(t) == StakeDelta(s) + amount else StakeDelta(t) >= 0
  {
  }

  lemma CoolWholeIs(s: System, i: nat, j: nat)
    requires i < |s.stakes| && j < |s.validators|
    ensures var r := CoolWhole(s, i, j, false);
      var amount := s.stakes[i].delegated;
      if r.Success? then
        && SameWindow(s, r.value) && r.value.reserveLamports == s.reserveLamports
        && amount <= s.active && amount <= s.validators[j].active
        && r.value.active == s.active - amount && r.value.delayed == s.delayed + amount
        && r.value.validators == s.validators[j := s.validators[j].(active := s.validators[j].active - amount)]
        && r.value.stakes == s.stakes[i := r.value.stakes[i]] && r.value.stakes[i].status.Deactivating?
      else !r.error.AssertionFailed?
  {
  }

  lemma CoolPartIs(s: System, i: nat, j: nat, amount: nat, newKey: Key)
    requires i < |s.stakes| && j < |s.validators|
    ensures var r := CoolPart(s, i, j, amount, newKey, false);
      if r.Success? then
        && |r.value.validators| == |s.validators|
        && var t := Touch(r.value, j);
        && SameWindow(s, t) && t.reserveLamports == s.reserveLamports
        && amount <= s.active && amount <= s.validators[j].active
        && t.active == s.active - amount && t.delayed == s.delayed + amount
        && t.validators == s.validators[j := s.validators[j].(active := s.validators[j].active - amount,
                                                              deltaEpoch := s.clock.epoch)]
        && |t.stakes| == |s.stakes| + 1
      else !r.error.AssertionFailed?
  {
  }

  /** What a call of the deactivating crank makes of s: it unstakes from validator j within the
      bounds, or changes nothing. */
  ghost predicate Cooled(s: System, t: System, j: nat) {
    && SameWindow(s, t) && ScoresAddUp(t) && t.reserveLamports == s.reserveLamports
    && (t.stakes == s.stakes ==> t == s)
    && (t.stakes != s.stakes ==> j < |s.validators| && t.active <= s.active && Unstaked(s, t, j, s.active - t.active))
  }

  lemma WholeEffect(s: System, i: nat, j: nat)
    requires ConfigOk(s.cfg) && ScoresAddUp(s) && i < |s.stakes| && j < |s.validators|
    requires s.stakes[i].status.Active? && StakeDelta(s) < 0 && s.validators[j].active > Target(s, j)
    requires SatSub(s.stakes[i].delegated,
                    Min(s.validators[j].active - Target(s, j), -StakeDelta(s))) < 2 * s.cfg.minStake
    ensures var r := CoolWhole(s.(deltaEpoch := s.clock.epoch), i, j, false);
      if r.Success? then Cooled(s, r.value, j) else !r.error.AssertionFailed?
  {
    CoolWholeIs(s.(deltaEpoch := s.clock.epoch), i, j);
    hide Sum, CoolWhole, StakeDelta, TargetShare;
    var r := CoolWhole(s.(deltaEpoch := s.clock.epoch), i, j, false);
    if r.Success? {
      SumSet(s.validators, j, r.value.validators[j], Score());
    }
  }

  lemma PartEffect(s: System, i: nat, j: nat, newKey: Key)
    requires ConfigOk(s.cfg) && ScoresAddUp(s) && i < |s.stakes| && j < |s.validators|
    requires StakeDelta(s) < 0 && s.validators[j].active > Target(s, j)
    ensures var split := Min(s.validators[j].active - Target(s, j), -StakeDelta(s));
      var r := CoolPart(s, i, j, split, newKey, false);
      if r.Success? then j < |r.value.validators| && Cooled(s, Touch(r.value, j), j) else !r.error.AssertionFailed?
  {
    var split := Min(s.validators[j].active - Target(s, j), -StakeDelta(s));
    CoolPartIs(s, i, j, split, newKey);
    hide Sum, CoolPart, StakeDelta, TargetShare, Touch;
    var r := CoolPart(s, i, j, split, newKey, false);
    if r.Success? {
      SumSet(s.validators, j, Touch(r.value, j).validators[j], Score());
    }
  }

  lemma UnstakeEffect(s: System, i: nat, j: nat, newKey: Key)
    requires ConfigOk(s.cfg) && ScoresAddUp(s) && i < |s.stakes| && j < |s.validators|
    requires s.stakes[i].status.Active? && StakeDelta(s) < 0
    ensures var r := UnstakeToward(s, i, j, Target(s, j), -StakeDelta(s), newKey);
      if r.Success? then Cooled(s, r.value, j) else !r.error.AssertionFailed?
  {
    hide Sum, CoolWhole, CoolPart, StakeDelta, TargetShare, Touch;
    if s.validators[j].active > Target(s, j) {
      PartEffect(s, i, j, newKey);
      if SatSub(s.stakes[i].delegated,
                Min(s.validators[j].active - Target(s, j), -StakeDelta(s))) < 2 * s.cfg.minStake {
        WholeEffect(s, i, j);
      }
      hide Cooled;
    }
  }

  /** Past its guards the crank steers to the target of the validator. */
  lemma DeactivateStakeIs(s: System, i: nat, account: Key, j: nat, newKey: Key)
    requires ScoresAddUp(s)
    ensures var r := DeactivateStake(s, i, account, j, newKey);
      || (r.Failure? && !r.error.AssertionFailed?)
      || (&& i < |s.stakes| && j < |s.validators| && s.stakes[i].status.Active? && StakeDelta(s) < 0
          && r == UnstakeToward(s, i, j, Target(s, j), -StakeDelta(s), newKey))
  {
    hide Sum, StakeDelta, UnstakeToward, ValidatorTarget, TargetShare;
    TargetsFit(s);
  }

  /** A call of the deactivating crank unstakes within the bounds, or moves no stake; and the
      program's assertion on the split holds. */
  lemma DeactivateStakeEffect(s: System, i: nat, account: Key, j: nat, newKey: Key)
    requires ConfigOk(s.cfg) && ScoresAddUp(s)
    ensures var step := DoDeactivateStake(i, account, j, newKey);
      var t := Next(s, step);
      && SameWindow(s, t) && ScoresAddUp(t) && t.reserveLamports == s.reserveLamports
      && (Effective(s, step) ==> j < |s.validators| && t.active <= s.active && Unstaked(s, t, j, s.active - t.active))
      && (!Effective(s, step) ==> t == s)
      && (Apply(s, step).Failure? ==> !Apply(s, step).error.AssertionFailed?)
  {
    hide DeactivateStake, UnstakeToward, ScoresAddUp, Unstaked, StakeDelta, TargetShare;
    DeactivateStakeIs(s, i, account, j, newKey);
    if i < |s.stakes| && j < |s.validators| && s.stakes[i].status.Active? && StakeDelta(s) < 0 {
      UnstakeEffect(s, i, j, newKey);
    }
  }

  /** A split takes exactly what the validator is above its target by, or the deficit if that is
      less; so it is above twice the minimum only when both are. */
  lemma SplitIs(s: System, i: nat, account: Key, j: nat, newKey: Key)
    requires ConfigOk(s.cfg) && ScoresAddUp(s)
    requires |Next(s, DoDeactivateStake(i, account, j, newKey)).stakes| > |s.stakes|
    ensures i < |s.stakes| && j < |s.validators| && StakeDelta(s) < 0 && s.validators[j].active > Target(s, j)
    ensures var t := Next(s, DoDeactivateStake(i, account, j, newKey));
      var split := t.stakes[|s.stakes|].delegated;
      && split == Min(s.validators[j].active - Target(s, j), -StakeDelta(s)) > 0
      && t.stakes[i].delegated == s.stakes[i].delegated - split
      && (split > 2 * s.cfg.minStake <==>
          s.validators[j].active - Target(s, j) > 2 * s.cfg.minStake && -StakeDelta(s) > 2 * s.cfg.minStake)
  {
    hide DeactivateStake, UnstakeToward, StakeDelta, Target, ScoresAddUp;
    DeactivateStakeIs(s, i, account, j, newKey);
    if i < |s.stakes| && j < |s.validators| && s.stakes[i].status.Active? && StakeDelta(s) < 0 {
      SplitToward(s, i, j, Target(s, j), -StakeDelta(s), newKey);
    }
  }

  lemma SplitToward(s: System, i: nat, j: nat, target: nat, deficit: nat, newKey: Key)
    requires ConfigOk(s.cfg) && i < |s.stakes| && j < |s.validators| && deficit > 0
    ensures var r := UnstakeToward(s, i, j, target, deficit, newKey);
      r.Success? && |r.value.stakes| > |s.stakes| ==>
        && s.validators[j].active > target
        && var split := r.value.stakes[|s.stakes|].delegated;
        && split == Min(s.validators[j].active - target, deficit) > 0
        && split <= s.stakes[i].delegated && r.value.stakes[i].delegated == s.stakes[i].delegated - split
  {
    CoolWholeIs(s.(deltaEpoch := s.clock.epoch), i, j);
    SplitListed(s, i, j, Min(SatSub(s.validators[j].active, target), deficit), newKey);
    hide CoolWhole, CoolPart, Touch, SameWindow;
  }

  lemma SplitListed(s: System, i: nat, j: nat, amount: nat, newKey: Key)
    requires i < |s.stakes| && j < |s.validators|
    ensures var r := CoolPart(s, i, j, amount, newKey, false);
      r.Success? ==>
        && |r.value.stakes| == |s.stakes| + 1 && r.value.stakes[|s.stakes|].delegated == amount
        && j < |r.value.validators| && amount <= s.stakes[i].delegated && Touch(r.value, j).stakes == r.value.stakes
        && r.value.stakes[i].delegated == s.stakes[i].delegated - amount
  {
  }

  predicate OnlyDeactivating(steps: seq<Step>) {
    forall k :: 0 <= k < |steps| ==> steps[k].DoDeactivateStake?
  }

  /** What a run of deactivating calls from s to t keeps to. */
  ghost predicate UnstakedWithin(s: System, t: System) {
    && SameWindow(s, t) && t.reserveLamports == s.reserveLamports
    && t.active <= s.active
    && t.delayed == s.delayed + (s.active - t.active)
    && (StakeDelta(t) < 0 ==> StakeDelta(t) == StakeDelta(s) + (s.active - t.active))
    && (t.active < s.active ==> StakeDelta(s) < 0 && s.active - t.active < -StakeDelta(s) + 2 * s.cfg.minStake)
    && (forall j :: 0 <= j < |s.validators| ==>
          || t.validators[j].active == s.validators[j].active
          || (s.validators[j].active > Target(s, j) && t.validators[j].active > Target(s, j) - 2 * s.cfg.minStake))
  }

  lemma UnstakedOnce(s: System, m: System, t: System, j: nat, amount: nat)
    requires UnstakedWithin(s, m) && SameWindow(m, t) && t.reserveLamports == m.reserveLamports
    requires j < |m.validators| && Unstaked(m, t, j, amount)
    ensures UnstakedWithin(s, t)
  {
    DeltaAfterUnstaking(m, t, amount);
    hide StakeDelta, TargetShare;
    assert TotalTarget(m) == TotalTarget(s);
    forall k | 0 <= k < |s.validators|
      ensures Target(m, k) == Target(s, k)
    {
      SameShare(m.validators[k], s.validators[k], TotalTarget(s), s.totalScore);
    }
  }

  lemma UnstakingStep(s: System, m: System, step: Step)
    requires UnstakedWithin(s, m) && ConfigOk(m.cfg) && ScoresAddUp(m) && step.DoDeactivateStake?
    ensures UnstakedWithin(s, Next(m, step)) && ConfigOk(Next(m, step).cfg) && ScoresAddUp(Next(m, step))
  {
    DeactivateStakeEffect(m, step.i, step.account, step.j, step.newKey);
    hide Apply, Next, UnstakedWithin, ScoresAddUp, Unstaked, StakeDelta;
    var t := Next(m, step);
    if Effective(m, step) {
      UnstakedOnce(s, m, t, step.j, m.active - t.active);
    }
  }

  lemma {:induction false} UnstakingGoesOn(s: System, m: System, steps: seq<Step>)
    requires UnstakedWithin(s, m) && ConfigOk(m.cfg) && ScoresAddUp(m) && OnlyDeactivating(steps)
    ensures UnstakedWithin(s, Run(m, steps))
    decreases |steps|
  {
    hide Apply, Next, UnstakedWithin, ScoresAddUp, ConfigOk;
    if steps != [] {
      UnstakingStep(s, m, steps[0]);
      UnstakingGoesOn(s, Next(m, steps[0]), steps[1..]);
    }
  }

  /** Over any run of deactivating calls with no orders or claims in between: all that is ever
      unstaked exceeds the deficit by less than twice the minimum, it all starts cooling down, and
      no validator falls twice the minimum or more below its target. */
  lemma UnstakingRun(s: System, steps: seq<Step>)
    requires ConfigOk(s.cfg) && ScoresAddUp(s) && OnlyDeactivating(steps)
    ensures UnstakedWithin(s, Run(s, steps))
  {
    hide Sum, Apply, Next;
    UnstakingGoesOn(s, s, steps);
  }
}
