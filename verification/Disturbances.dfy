/** What becomes of an upgrade that is disturbed: an active record found deactivated while the
    upgrader still needs it. */
module Disturbances {
  import opened Base
  import opened Calc
  import opened Sums
  import opened Model
  import opened Ledger
  import opened Instructions
  import opened Machine
  import opened Books
  import opened BooksSteps
  import opened Invariant
  import opened Safety
  import opened Shapes
  import opened Upgrade
  import opened Progress
  import opened Batches

  // ---------------------------------------------------------------- while validators are iterated

  /** More is left to take off than the unvisited validators have above their re-derived balances. */
  ghost predicate Jammed(s: System) {
    && s.upgrader.IteratingValidators? && s.upgrader.visited <= |s.validators|
    && s.upgrader.balanceLeft + Sum(s.validators[s.upgrader.visited..], Upgrading())
       > Sum(s.validators[s.upgrader.visited..], Balance())
  }

  lemma {:induction false} FinalizeFromJam(validators: seq<ValidatorRecord>, visited: nat, left: nat, max: nat)
    requires visited <= |validators|
    ensures var r := FinalizeFrom(validators, visited, left, max);
      r.Success? ==>
        var (after, seen, rest) := r.value;
        && seen <= |after|
        && rest + Sum(after[seen..], Upgrading()) - Sum(after[seen..], Balance())
           == left + Sum(validators[visited..], Upgrading()) - Sum(validators[visited..], Balance())
    decreases max
  {
    if visited < |validators| && max > 0 {
      var v := validators[visited];
      if v.upgrading <= v.active && v.active - v.upgrading <= left {
        var next := validators[visited := v.(active := v.upgrading, upgrading := 0)];
        assert validators[visited..][1..] == next[visited + 1..];
        FinalizeFromJam(next, visited + 1, left - (v.active - v.upgrading), max - 1);
      }
    }
  }

  lemma JamSurvivesSuffix(s: System, t: System)
    requires Jammed(s) && t.upgrader == s.upgrader && |t.validators| == |s.validators|
    requires forall j :: s.upgrader.visited <= j < |s.validators| ==>
      && t.validators[j].active - t.validators[j].upgrading <= s.validators[j].active - s.validators[j].upgrading
    ensures Jammed(t)
  {
    var n := s.upgrader.visited;
    SuffixGap(s.validators, t.validators, n);
  }

  lemma {:induction false} SuffixGap(a: seq<ValidatorRecord>, b: seq<ValidatorRecord>, n: nat)
    requires n <= |a| == |b|
    requires forall j :: n <= j < |a| ==> b[j].active - b[j].upgrading <= a[j].active - a[j].upgrading
    ensures Sum(b[n..], Balance()) - Sum(b[n..], Upgrading()) <= Sum(a[n..], Balance()) - Sum(a[n..], Upgrading())
    decreases |a| - n
  {
    if n < |a| {
      assert a[n..][1..] == a[n + 1..];
      assert b[n..][1..] == b[n + 1..];
      SuffixGap(a, b, n + 1);
    }
  }

  lemma DepositStakeShape(s: System, account: Key, j: nat)
    ensures var r := DepositStakeAccount(s, account, j);
      r.Success? && s.upgrader.IteratingValidators? ==>
        && r.value.upgrader == s.upgrader && |r.value.validators| == |s.validators|
        && forall k :: s.upgrader.visited <= k < |s.validators| ==>
             r.value.validators[k].active - r.value.validators[k].upgrading
                 == s.validators[k].active - s.validators[k].upgrading
  {
    hide MsolFromLamports;
  }

  /** A disturbance while validators are iterated leaves more to take off than there is. */
  lemma DisturbanceJams(s: System, i: nat, account: Key, j: nat, treasury: bool)
    requires Inv(s) && s.upgrader.IteratingValidators? && Disturbs(s, i, j)
    requires UpdateDeactivated(s, i, account, j, treasury).Success?
    ensures Jammed(UpdateDeactivated(s, i, account, j, treasury).value)
  {
    UpdateDeactivatedEffect(s, i, account, j, treasury);
    hide Sum, UpdateDeactivated;
    var t := UpdateDeactivated(s, i, account, j, treasury).value;
    var n := s.upgrader.visited;
    var v := t.validators[j];
    assert t.validators[n..] == s.validators[n..][j - n := v];
    assert s.validators[n..][j - n] == s.validators[j];
    SumSet(s.validators[n..], j - n, v, Balance());
    SumSet(s.validators[n..], j - n, v, Upgrading());
    SumSplit(s.validators[n..], Balance(), Upgrading(), Gap());
  }

  lemma StepKeepsJam(s: System, step: Step)
    requires Jammed(s)
    ensures Jammed(Next(s, step))
  {
    hide Jammed, Apply;
    match step {
      case DoDepositStake(account, j) => DepositStakeKeepsJam(s, account, j);
      case DoUpdateActive(i, account, j, treasury) => NoUpdateWhileJammed(s, i, account, j, treasury);
      case DoUpdateDeactivated(i, account, j, treasury) => UpdateKeepsJam(s, i, account, j, treasury);
      case DoFinalizeUpgrade(maxValidators) => FinalizeJam(s, maxValidators);
      case _ => OthersKeepJam(s, step);
    }
  }

  lemma DepositStakeKeepsJam(s: System, account: Key, j: nat)
    requires Jammed(s)
    ensures Jammed(Next(s, DoDepositStake(account, j)))
  {
    hide Sum, DepositStakeAccount;
    DepositStakeShape(s, account, j);
    if DepositStakeAccount(s, account, j).Success? {
      JamSurvivesSuffix(s, DepositStakeAccount(s, account, j).value);
    }
  }

  lemma NoUpdateWhileJammed(s: System, i: nat, account: Key, j: nat, treasury: bool)
    requires Jammed(s)
    ensures Next(s, DoUpdateActive(i, account, j, treasury)) == s
  {
    hide Sum;
  }

  lemma UpdateKeepsJam(s: System, i: nat, account: Key, j: nat, treasury: bool)
    requires Jammed(s)
    ensures Jammed(Next(s, DoUpdateDeactivated(i, account, j, treasury)))
  {
    hide Sum, UpdateDeactivated, Shapes.OnlyMinted;
    UpdateDeactivatedEffect(s, i, account, j, treasury);
    if UpdateDeactivated(s, i, account, j, treasury).Success? {
      JamSurvivesSuffix(s, UpdateDeactivated(s, i, account, j, treasury).value);
    }
  }

  lemma OthersKeepJam(s: System, step: Step)
    requires Jammed(s) && !MovesUpgrade(step)
    ensures Jammed(Next(s, step))
  {
    hide Sum, Apply;
    StepSame(s, step);
    if Apply(s, step).Success? {
      JamSurvivesSuffix(s, Next(s, step));
    }
  }

  lemma FinalizeJam(s: System, maxValidators: u32)
    requires Jammed(s)
    ensures Jammed(Next(s, DoFinalizeUpgrade(maxValidators)))
  {
    FinalizeFromJam(s.validators, s.upgrader.visited, s.upgrader.balanceLeft, maxValidators);
    hide Sum, FinalizeFrom;
    var r := FinalizeFrom(s.validators, s.upgrader.visited, s.upgrader.balanceLeft, maxValidators);
    if r.Success? {
      var (after, seen, rest) := r.value;
      if seen == |after| {
        SumEmpty(after[seen..], Upgrading());
        SumEmpty(after[seen..], Balance());
      }
    }
  }

  /** Once jammed, whatever anybody does, the upgrade is never done. */
  lemma {:induction false} JammedForever(s: System, steps: seq<Step>)
    requires Jammed(s)
    ensures Jammed(Run(s, steps)) && !Run(s, steps).upgrader.Done?
    decreases |steps|
  {
    if steps != [] {
      hide Jammed, Apply, Next;
      StepKeepsJam(s, steps[0]);
      JammedForever(Next(s, steps[0]), steps[1..]);
    }
  }

  /** The upgrader notices: the batch that reaches the last validator fails on one of its own checks. */
  lemma JamIsCaught(s: System, maxValidators: u32)
    requires Jammed(s) && !s.cfg.paused && s.upgrader.visited + maxValidators >= |s.validators|
    ensures Broken(FinalizeUpgrade(s, maxValidators))
  {
    FinalizeFromJam(s.validators, s.upgrader.visited, s.upgrader.balanceLeft, maxValidators);
    FinalizeFromReaches(s.validators, s.upgrader.visited, s.upgrader.balanceLeft, maxValidators);
    hide Sum, FinalizeFrom;
    var r := FinalizeFrom(s.validators, s.upgrader.visited, s.upgrader.balanceLeft, maxValidators);
    if r.Success? {
      SumEmpty(r.value.0[r.value.1..], Upgrading());
      SumEmpty(r.value.0[r.value.1..], Balance());
    }
  }

  lemma {:induction false} FinalizeFromReaches(validators: seq<ValidatorRecord>, visited: nat, left: nat, max: nat)
    requires visited <= |validators|
    ensures var r := FinalizeFrom(validators, visited, left, max);
      if r.Success? then |r.value.0| == |validators| && r.value.1 == Min(visited + max, |validators|)
      else r.error == Underflow
    decreases max
  {
    if visited < |validators| && max > 0 {
      var v := validators[visited];
      if v.upgrading <= v.active && v.active - v.upgrading <= left {
        var next := validators[visited := v.(active := v.upgrading, upgrading := 0)];
        FinalizeFromReaches(next, visited + 1, left - (v.active - v.upgrading), max - 1);
      }
    }
  }

  // ---------------------------------------------------------------- while stakes are iterated

  /** More records count as visited than are active. */
  ghost predicate Overcounted(s: System) {
    s.upgrader.IteratingStakes? && s.upgrader.visited > Sum(s.stakes, ActiveCount())
  }

  /** The upgrader went on to the validators with a record it never visited. */
  ghost predicate Skipped(s: System) {
    s.upgrader.IteratingValidators? && !AllActive(s.stakes)
  }

  ghost predicate Miscounted(s: System) {
    Overcounted(s) || Skipped(s)
  }

  lemma {:induction false} AllActiveCounts(stakes: seq<StakeRecord>)
    requires Sum(stakes, ActiveCount()) < |stakes|
    ensures !AllActive(stakes)
  {
    if AllActive(stakes) {
      SumSame(stakes, ActiveCount(), One());
      SumOnes(stakes);
    }
  }

  /** The removed record stays counted as visited. */
  lemma DisturbanceOvercounts(s: System, i: nat, account: Key, j: nat, treasury: bool)
    requires s.upgrader.IteratingStakes? && s.upgrader.visited >= Sum(s.stakes, ActiveCount()) && Disturbs(s, i, j)
    requires UpdateDeactivated(s, i, account, j, treasury).Success?
    ensures var t := UpdateDeactivated(s, i, account, j, treasury).value; Miscounted(t)
  {
    UpdateDeactivatedEffect(s, i, account, j, treasury);
    SumSwapRemove(s.stakes, i, ActiveCount());
    RemovalOvercounts(s, UpdateDeactivated(s, i, account, j, treasury).value);
  }

  lemma RemovalOvercounts(s: System, t: System)
    requires s.upgrader.IteratingStakes? && UpgraderAfterRetire(s.upgrader, t.upgrader, |t.stakes|)
    requires Sum(t.stakes, ActiveCount()) < s.upgrader.visited
    ensures Miscounted(t)
  {
    hide Sum;
    if t.upgrader.IteratingValidators? {
      AllActiveCounts(t.stakes);
    }
  }

  /** No step of any kind brings the count back, and the phase cannot end but by skipping a record. */
  lemma StepKeepsOvercount(s: System, step: Step)
    requires Overcounted(s)
    ensures Miscounted(Next(s, step))
  {
    hide Overcounted, Miscounted, DepositStakeAccount, UpdateActive, UpdateDeactivated, FinalizeUpgrade;
    OvercountedIsMiscounted(s);
    if Apply(s, step).Success? {
      match step {
        case DoDepositStake(account, j) => DepositOvercounts(s, account, j);
        case DoUpdateActive(i, account, j, treasury) => UpdateActiveOvercounts(s, i, account, j, treasury);
        case DoUpdateDeactivated(i, account, j, treasury) => UpdateDeactivatedOvercounts(s, i, account, j, treasury);
        case DoFinalizeUpgrade(maxValidators) => FinalizeOvercounts(s, maxValidators);
        case _ =>
          StepSame(s, step);
          SameOvercount(s, Next(s, step));
      }
    }
  }

  lemma SameOvercount(s: System, t: System)
    requires Overcounted(s) && t.upgrader == s.upgrader && t.stakes == s.stakes
    ensures Miscounted(t)
  {
  }

  lemma OvercountedIsMiscounted(s: System)
    requires Overcounted(s)
    ensures Miscounted(s) && s.upgrader.IteratingStakes?
  {
  }

  lemma FinalizeOvercounts(s: System, maxValidators: u32)
    requires Overcounted(s)
    ensures FinalizeUpgrade(s, maxValidators).Failure?
  {
  }

  lemma DepositOvercounts(s: System, account: Key, j: nat)
    requires Overcounted(s) && DepositStakeAccount(s, account, j).Success?
    ensures Miscounted(DepositStakeAccount(s, account, j).value)
  {
    DepositEnters(s, account, j);
    hide Sum, DepositStakeAccount;
    var t := DepositStakeAccount(s, account, j).value;
    assert t.stakes == s.stakes + [t.stakes[|s.stakes|]];
    SumPush(s.stakes, t.stakes[|s.stakes|], ActiveCount());
  }

  lemma UpdateActiveOvercounts(s: System, i: nat, account: Key, j: nat, treasury: bool)
    requires Overcounted(s) && UpdateActive(s, i, account, j, treasury).Success?
    ensures var t := UpdateActive(s, i, account, j, treasury).value; Miscounted(t)
  {
    UpdateActiveEffect(s, i, account, j, treasury);
    UpdateActiveAdvances(s, i, account, j, treasury);
    hide Sum, UpdateActive;
    var t := UpdateActive(s, i, account, j, treasury).value;
    SumSet(s.stakes, i, t.stakes[i], ActiveCount());
    if t.upgrader.IteratingValidators? {
      AllActiveCounts(t.stakes);
    }
  }

  lemma UpdateDeactivatedOvercounts(s: System, i: nat, account: Key, j: nat, treasury: bool)
    requires Overcounted(s) && UpdateDeactivated(s, i, account, j, treasury).Success?
    ensures var t := UpdateDeactivated(s, i, account, j, treasury).value; Miscounted(t)
  {
    UpdateDeactivatedEffect(s, i, account, j, treasury);
    hide Sum, UpdateDeactivated;
    SumSwapRemove(s.stakes, i, ActiveCount());
    RemovalOvercounts(s, UpdateDeactivated(s, i, account, j, treasury).value);
  }

  /** Such an upgrade is never done, or was not what it promised when it left its first phase. */
  lemma {:induction false} OvercountedEndsBadly(s: System, steps: seq<Step>)
    requires Miscounted(s)
    ensures !(Run(s, steps).upgrader.Done? && Promised(s, steps))
    decreases |steps|
  {
    if Overcounted(s) && steps != [] {
      hide Overcounted, Miscounted, Apply, Next, Sound;
      StepKeepsOvercount(s, steps[0]);
      OvercountedEndsBadly(Next(s, steps[0]), steps[1..]);
    }
  }

  // ---------------------------------------------------------------- what it means for a run

  /** A calm state: the invariant holds, so that a disturbance finds the counters exact. */
  lemma DisturbedNeverEndsWell(s: System, step: Step, more: seq<Step>)
    requires Inv(s) && StepDisturbs(s, step) && Apply(s, step).Success?
    ensures !(Run(Next(s, step), more).upgrader.Done? && Promised(Next(s, step), more))
  {
    hide Inv, UpdateDeactivated, Promised, Run, Jammed, Miscounted;
    if s.upgrader.IteratingStakes? {
      VisitedAreActive(s);
      DisturbanceOvercounts(s, step.i, step.account, step.j, step.treasury);
      OvercountedEndsBadly(Next(s, step), more);
    } else {
      DisturbanceJams(s, step.i, step.account, step.j, step.treasury);
      JammedForever(Next(s, step), more);
    }
  }

  lemma VisitedAreActive(s: System)
    requires Inv(s) && s.upgrader.IteratingStakes?
    ensures s.upgrader.visited == Sum(s.stakes, ActiveCount())
  {
  }

  lemma {:induction false} EndsWellOnlyCalm(s: System, steps: seq<Step>)
    requires Inv(s) && Promised(s, steps) && Run(s, steps).upgrader.Done?
    ensures Calm(s, steps)
    decreases |steps|
  {
    hide Inv, Apply, Sound, Unbroken;
    if steps != [] {
      if StepDisturbs(s, steps[0]) && Apply(s, steps[0]).Success? {
        DisturbedNeverEndsWell(s, steps[0], steps[1..]);
      } else {
        if !StepDisturbs(s, steps[0]) {
          StepKeeps(s, steps[0]);
        }
        EndsWellOnlyCalm(Next(s, steps[0]), steps[1..]);
      }
    }
  }

  /** An upgrade that got done kept its promise at every point of its run exactly when no disturbing
      update was accepted. */
  lemma UpgradeEndsWellIff(start: System, cooled: set<Key>, steps: seq<Step>)
    requires BeforeUpgrade(start, cooled) && Run(start, steps).upgrader.Done?
    ensures Promised(start, steps) <==> Calm(start, steps)
  {
    hide Inv, Promised, Run, Calm, BeforeUpgrade;
    BeforeUpgradeIsBalanced(start, cooled);
    StartsStakes(start, cooled);
    if Calm(start, steps) {
      CalmIsPromised(start, steps);
    }
    if Promised(start, steps) {
      EndsWellOnlyCalm(start, steps);
    }
  }

  lemma StartsStakes(start: System, cooled: set<Key>)
    requires BeforeUpgrade(start, cooled)
    ensures Drained(start)
  {
  }

  lemma {:induction false} CalmPrefix(s: System, steps: seq<Step>, more: seq<Step>)
    requires Calm(s, steps + more)
    ensures Calm(s, steps)
    decreases |steps|
  {
    hide Apply, Next;
    if steps != [] {
      assert (steps + more)[1..] == steps[1..] + more;
      CalmPrefix(Next(s, steps[0]), steps[1..], more);
    }
  }

  /** After a disturbance, however the run goes on, the upgrade is never done with its promise kept;
      and without one every run, done or not, keeps it. */
  lemma DisturbedPromiseIsLost(start: System, cooled: set<Key>, steps: seq<Step>)
    requires BeforeUpgrade(start, cooled)
    ensures Calm(start, steps) ==> Promised(start, steps)
    ensures !Calm(start, steps) ==>
              forall more :: Run(start, steps + more).upgrader.Done? ==> !Promised(start, steps + more)
  {
    hide Inv, Promised, Run, Calm, BeforeUpgrade;
    if Calm(start, steps) {
      BeforeUpgradeIsBalanced(start, cooled);
      StartsStakes(start, cooled);
      CalmIsPromised(start, steps);
    } else {
      forall more | Run(start, steps + more).upgrader.Done?
        ensures !Promised(start, steps + more)
      {
        UpgradeEndsWellIff(start, cooled, steps + more);
        if Calm(start, steps + more) {
          CalmPrefix(start, steps, more);
        }
      }
    }
  }

  lemma {:induction false} CalmAppend(s: System, steps: seq<Step>, more: seq<Step>)
    requires Calm(s, steps) && forall k :: 0 <= k < |more| ==> more[k].DoFinalizeUpgrade?
    ensures Calm(s, steps + more)
    decreases |steps| + |more|
  {
    hide Apply, Next;
    if steps != [] {
      assert (steps + more)[1..] == steps[1..] + more;
      CalmAppend(Next(s, steps[0]), steps[1..], more);
    } else if more != [] {
      assert steps + more == more;
      assert [] + more[1..] == more[1..];
      CalmAppend(Next(s, more[0]), [], more[1..]);
    }
  }

  /** Of every run: batches that reach the end of the validator list complete the upgrade, with its
      promise kept all the way, exactly when no disturbing update was accepted and every record of the
      start was visited. */
  lemma UpgradeSucceedsIff(start: System, cooled: set<Key>, steps: seq<Step>, sizes: seq<u32>)
    requires BeforeUpgrade(start, cooled) && start.stakes != []
    requires !Run(start, steps).cfg.paused && sizes != [] && Total(sizes) >= |Run(start, steps).validators|
    ensures Run(start, steps + Calls(sizes)).upgrader.Done? && Promised(start, steps + Calls(sizes)) <==>
            Calm(start, steps) && VisitsIn(start, steps) == |start.stakes|
  {
    hide Inv, Promised, Run, Calm, BeforeUpgrade, VisitsIn;
    var whole := steps + Calls(sizes);
    if Calm(start, steps) {
      UpgradeCompletesIff(start, cooled, steps, sizes);
      CalmAppend(start, steps, Calls(sizes));
    }
    if Run(start, whole).upgrader.Done? {
      UpgradeEndsWellIff(start, cooled, whole);
      if Calm(start, whole) {
        CalmPrefix(start, steps, Calls(sizes));
      }
    }
  }

  // ---------------------------------------------------------------- and for the books

  /** Exactly when an update of a deactivated stake breaks the books: when it disturbs the upgrader. */
  lemma BooksBreakIff(s: System, i: nat, account: Key, j: nat, treasury: bool)
    requires Inv(s) && UpdateDeactivated(s, i, account, j, treasury).Success?
    ensures !Balanced(UpdateDeactivated(s, i, account, j, treasury).value) <==> Disturbs(s, i, j)
  {
    var t := UpdateDeactivated(s, i, account, j, treasury).value;
    UpdateDeactivatedEffect(s, i, account, j, treasury);
    hide Sum, UpdateDeactivated;
    if !Disturbs(s, i, j) {
      UpdateDeactivatedKeeps(s, i, account, j, treasury);
    } else if s.upgrader.IteratingStakes? {
      DisturbedStakes(s, t, i);
    } else {
      DisturbedValidators(s, t, i, j);
    }
  }

  /** The removed record stays counted as visited. */
  lemma DisturbedStakes(s: System, t: System, i: nat)
    requires Balanced(s) && s.upgrader.IteratingStakes? && i < |s.stakes| && s.stakes[i].status.Active?
    requires t.stakes == SwapRemove(s.stakes, i) && UpgraderAfterRetire(s.upgrader, t.upgrader, |t.stakes|)
    ensures !Balanced(t)
  {
    hide Sum;
    SumSwapRemove(s.stakes, i, ActiveCount());
    if t.upgrader.IteratingValidators? && Balanced(t) {
      AllActiveCounts(t.stakes);
    }
  }

  /** The re-derived balance of the validator still has the removed stake. */
  lemma DisturbedValidators(s: System, t: System, i: nat, j: nat)
    requires Balanced(s) && s.upgrader.IteratingValidators? && Disturbs(s, i, j) && j < |s.validators|
    requires s.native[s.stakes[i].account].voter == s.validators[j].vote && t.upgrader == s.upgrader
    requires t.stakes == SwapRemove(s.stakes, i) && t.native == s.native - {s.stakes[i].account}
    requires |t.validators| == |s.validators| && t.validators[j] == s.validators[j].(active := t.validators[j].active)
    ensures !Balanced(t)
  {
    hide Sum;
    var vote := s.validators[j].vote;
    SumSwapRemove(s.stakes, i, ActiveStakeOn(s.native, vote));
    forall x | x in t.stakes ensures x.account != s.stakes[i].account {
      var k :| 0 <= k < |t.stakes| && t.stakes[k] == x;
      assert t.stakes[k] == s.stakes[if k == i then |s.stakes| - 1 else k];
    }
    SumSame(t.stakes, ActiveStakeOn(s.native, vote), ActiveStakeOn(t.native, vote));
  }
}
