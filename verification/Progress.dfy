/** The upgrade goes on: every record can be classified, the first phase ends exactly when all of
    them are, and the batches end the second. */
module Progress {
  import opened Base
  import opened Calc
  import opened Sums
  import opened Model
  import opened Ledger
  import opened Instructions
  import opened Machine
  import opened Books
  import opened BooksSteps
  import opened Invariant
  import opened Safety
  import opened Shapes
  import opened Upgrade
  import opened Batches

  // ---------------------------------------------------------------- what each step visits

  function UnvisitedCount(): StakeRecord -> nat {
    (r: StakeRecord) => if r.status.Unknown? then 1 else 0
  }

  function Unvisited(s: System): nat {
    Sum(s.stakes, UnvisitedCount())
  }

  lemma BookActiveAdvances(s: System, i: nat, j: nat, delegated: nat, treasury: bool)
    requires i < |s.stakes| && j < |s.validators| && s.upgrader.IteratingStakes?
    ensures var r := BookActive(s, i, j, delegated, treasury);
      r.Success? ==> Advanced(s.upgrader.visited, |s.stakes|, r.value.upgrader)
  {
    hide MsolFromLamports, MsolToSol;
  }

  /** Where the first phase stands once so many records were visited. */
  predicate Advanced(visited: nat, count: nat, u: Upgrader) {
    if visited == count then u.IteratingValidators? else u.IteratingStakes? && u.visited == visited
  }

  /** An update of an active stake visits its record if nobody did before. */
  lemma UpdateActiveAdvances(s: System, i: nat, account: Key, j: nat, treasury: bool)
    requires s.upgrader.IteratingStakes?
    ensures var r := UpdateActive(s, i, account, j, treasury);
      r.Success? ==>
        && i < |s.stakes|
        && Advanced(s.upgrader.visited + UnvisitedCount()(s.stakes[i]), |s.stakes|, r.value.upgrader)
  {
    UpdateActiveGuards(s, i, account, j, treasury);
    if ActiveReady(s, i, account, j) {
      BeginShape(s, i, account, j);
      RefreshAdvances(s, i, account, j, treasury);
    }
    hide Begin, RefreshActive;
  }

  lemma RefreshAdvances(s: System, i: nat, account: Key, j: nat, treasury: bool)
    requires ActiveReady(s, i, account, j) && s.upgrader.IteratingStakes?
    ensures var r := RefreshActive(Sync(s), i, account, j, treasury);
      r.Success? ==> Advanced(s.upgrader.visited + UnvisitedCount()(s.stakes[i]), |s.stakes|, r.value.upgrader)
  {
    var a := s.native[account];
    var extra := SatSub(a.lamports - a.rent, a.stake);
    UpgradeShape(Sync(s), i, j);
    UpgradeCounts(Sync(s), i, j);
    hide UpgradeRecord, SweepExtra, BookActive, OnlyMinted;
    var upgraded := UpgradeRecord(Sync(s), i, j);
    if upgraded.Success? {
      SweepShape(upgraded.value, account, extra, treasury);
      var swept := SweepExtra(upgraded.value, account, extra, treasury);
      if swept.Success? {
        BookActiveAdvances(swept.value, i, j, a.stake, treasury);
      }
    }
  }

  lemma UpgradeCounts(s: System, i: nat, j: nat)
    requires i < |s.stakes| && j < |s.validators| && s.upgrader.IteratingStakes?
    ensures var r := UpgradeRecord(s, i, j);
      r.Success? ==> r.value.upgrader.visited == s.upgrader.visited + UnvisitedCount()(s.stakes[i])
  {
  }

  lemma DepositEnters(s: System, account: Key, j: nat)
    requires s.upgrader.IteratingStakes?
    ensures var r := DepositStakeAccount(s, account, j);
      r.Success? ==>
        && r.value.upgrader.IteratingStakes? && r.value.upgrader.visited == s.upgrader.visited + 1
        && |r.value.stakes| == |s.stakes| + 1 && r.value.stakes[..|s.stakes|] == s.stakes
        && r.value.stakes[|s.stakes|].status.Active?
  {
    DepositPhase(s, account, j);
    hide MsolFromLamports, FeeCentsApply;
  }

  /** The update that classifies a record: of an active stake, or of one deactivated and cooled. */
  function Classify(s: System, i: nat, j: nat, treasury: bool): Result<System>
    requires i < |s.stakes|
  {
    var account := s.stakes[i].account;
    if account in s.native && s.native[account].Live() then UpdateActive(s, i, account, j, treasury)
    else UpdateDeactivated(s, i, account, j, treasury)
  }

  /** Every record still unvisited can be visited: its update succeeds and leaves one fewer, or the
      numbers do not fit the machine's integers. */
  lemma UnvisitedAdvances(s: System, i: nat, j: nat, treasury: bool)
    requires Inv(s) && s.upgrader.IteratingStakes? && !s.cfg.paused
    requires i < |s.stakes| && s.stakes[i].status.Unknown?
    requires j < |s.validators| && s.validators[j].vote == s.native[s.stakes[i].account].voter
    requires s.native[s.stakes[i].account].Live() || s.clock.epoch > s.native[s.stakes[i].account].deactivationEpoch
    ensures var r := Classify(s, i, j, treasury);
      if r.Success? then Unvisited(r.value) == Unvisited(s) - 1
      else r.error in {Overflow, CalculationFailure}
  {
    hide Sum;
    var account := s.stakes[i].account;
    if s.native[account].Live() {
      UpdateActiveFails(s, i, j, treasury);
      UpdateActiveEffect(s, i, account, j, treasury);
      SumSet(s.stakes, i, s.stakes[i].(status := StakeStatus.Active, updateEpoch := s.clock.epoch,
                                       delegated := s.native[account].stake), UnvisitedCount());
    } else {
      UpdateDeactivatedFails(s, i, j, treasury);
      SumSwapRemove(s.stakes, i, UnvisitedCount());
    }
  }

  lemma UpdateActiveFails(s: System, i: nat, j: nat, treasury: bool)
    requires Inv(s) && s.upgrader.IteratingStakes? && !s.cfg.paused
    requires i < |s.stakes| && s.stakes[i].status.Unknown? && s.native[s.stakes[i].account].Live()
    requires j < |s.validators| && s.validators[j].vote == s.native[s.stakes[i].account].voter
    ensures var r := UpdateActive(s, i, s.stakes[i].account, j, treasury);
      r.Failure? ==> r.error in {Overflow, CalculationFailure}
  {
    assert RecordOk(s.stakes[i], s.native);
    UpdateActiveKeeps(s, i, s.stakes[i].account, j, treasury);
    UpdateActiveEffect(s, i, s.stakes[i].account, j, treasury);
    hide Sum, Inv, UpdateActive;
  }

  lemma UpdateDeactivatedFails(s: System, i: nat, j: nat, treasury: bool)
    requires Inv(s) && s.upgrader.IteratingStakes? && !s.cfg.paused
    requires i < |s.stakes| && s.stakes[i].status.Unknown? && !s.native[s.stakes[i].account].Live()
    requires j < |s.validators| && s.validators[j].vote == s.native[s.stakes[i].account].voter
    requires s.clock.epoch > s.native[s.stakes[i].account].deactivationEpoch
    ensures var r := UpdateDeactivated(s, i, s.stakes[i].account, j, treasury);
      if r.Success? then r.value.stakes == SwapRemove(s.stakes, i) else r.error in {Overflow, CalculationFailure}
  {
    assert RecordOk(s.stakes[i], s.native);
    UpdateDeactivatedKeeps(s, i, s.stakes[i].account, j, treasury);
    UpdateDeactivatedEffect(s, i, s.stakes[i].account, j, treasury);
    hide Sum, Inv, UpdateDeactivated;
  }

  /** Every batch of the validator phase succeeds and goes on: done, or that many validators further. */
  lemma FinalizeAdvances(s: System, maxValidators: u32)
    requires Inv(s) && s.upgrader.IteratingValidators? && !s.cfg.paused
    ensures FinalizeUpgrade(s, maxValidators).Success?
    ensures var t := FinalizeUpgrade(s, maxValidators).value;
      if s.upgrader.visited + maxValidators >= |s.validators| then t.upgrader.Done?
      else t.upgrader.IteratingValidators? && t.upgrader.visited == s.upgrader.visited + maxValidators
  {
    hide Sum;
    FinalizeBatchKeeps(s, maxValidators);
    FinalizeFromIs(s.validators, s.upgrader.visited, s.upgrader.balanceLeft, maxValidators);
  }

  // ---------------------------------------------------------------- the first phase

  /** An accepted update of a record nobody visited before. */
  predicate Visits(s: System, step: Step) {
    && s.upgrader.IteratingStakes? && (step.DoUpdateActive? || step.DoUpdateDeactivated?)
    && step.i < |s.stakes| && s.stakes[step.i].status.Unknown? && Apply(s, step).Success?
  }

  function VisitsIn(s: System, steps: seq<Step>): nat
    decreases |steps|
  {
    if steps == [] then 0 else (if Visits(s, steps[0]) then 1 else 0) + VisitsIn(Next(s, steps[0]), steps[1..])
  }

  /** The first phase is running and has records left to visit. */
  ghost predicate Visiting(s: System) {
    Inv(s) && s.upgrader.IteratingStakes? && s.upgrader.visited < |s.stakes|
  }

  /** What one step from s to t did to the first phase, and how many records it visited. */
  ghost predicate VisitedBy(s: System, t: System, count: nat) {
    if t.upgrader.IteratingStakes? then t.upgrader.visited < |t.stakes| && Unvisited(t) + count == Unvisited(s)
    else count == Unvisited(s) == 1
  }

  lemma StepVisits(s: System, step: Step)
    requires Visiting(s) && !StepDisturbs(s, step)
    ensures VisitedBy(s, Next(s, step), if Visits(s, step) then 1 else 0) && Inv(Next(s, step))
  {
    hide Inv, VisitedBy, DepositStakeAccount, UpdateActive, UpdateDeactivated, FinalizeUpgrade;
    StepKeeps(s, step);
    if Apply(s, step).Success? {
      match step {
        case DoDepositStake(account, j) => DepositVisits(s, account, j);
        case DoUpdateActive(i, account, j, treasury) => ActiveVisits(s, i, account, j, treasury);
        case DoUpdateDeactivated(i, account, j, treasury) => DeactivatedVisits(s, i, account, j, treasury);
        case DoFinalizeUpgrade(maxValidators) => NotYetFinalized(s, maxValidators);
        case _ =>
          StepSame(s, step);
          SameVisits(s, Next(s, step));
      }
    } else {
      SameVisits(s, s);
    }
  }

  lemma SameVisits(s: System, t: System)
    requires Visiting(s) && t.upgrader == s.upgrader && t.stakes == s.stakes
    ensures VisitedBy(s, t, 0)
  {
  }

  lemma NotYetFinalized(s: System, maxValidators: u32)
    requires s.upgrader.IteratingStakes?
    ensures Apply(s, DoFinalizeUpgrade(maxValidators)).Failure?
  {
  }

  lemma DepositVisits(s: System, account: Key, j: nat)
    requires Visiting(s) && DepositStakeAccount(s, account, j).Success?
    ensures VisitedBy(s, DepositStakeAccount(s, account, j).value, 0)
  {
    DepositEnters(s, account, j);
    hide Sum, DepositStakeAccount;
    var t := DepositStakeAccount(s, account, j).value;
    assert t.stakes == s.stakes + [t.stakes[|s.stakes|]];
    SumPush(s.stakes, t.stakes[|s.stakes|], UnvisitedCount());
  }

  /** A list whose visited records are as many as its active ones has the others unvisited. */
  lemma CountsAddUp(s: System)
    requires Inv(s) && s.upgrader.IteratingStakes?
    ensures s.upgrader.visited + Unvisited(s) == |s.stakes|
  {
    hide Sum;
    forall x | x in s.stakes
      ensures One()(x) == ActiveCount()(x) + UnvisitedCount()(x)
    {
      var i :| 0 <= i < |s.stakes| && s.stakes[i] == x;
    }
    SumSplit(s.stakes, One(), ActiveCount(), UnvisitedCount());
    SumOnes(s.stakes);
  }

  lemma ActiveVisits(s: System, i: nat, account: Key, j: nat, treasury: bool)
    requires Visiting(s) && UpdateActive(s, i, account, j, treasury).Success?
    requires Inv(UpdateActive(s, i, account, j, treasury).value)
    ensures i < |s.stakes|
    ensures VisitedBy(s, UpdateActive(s, i, account, j, treasury).value, UnvisitedCount()(s.stakes[i]))
  {
    UpdateActiveEffect(s, i, account, j, treasury);
    UpdateActiveAdvances(s, i, account, j, treasury);
    CountsAddUp(s);
    var t := UpdateActive(s, i, account, j, treasury).value;
    hide Sum, UpdateActive, Inv;
    if t.upgrader.IteratingStakes? {
      CountsAddUp(t);
    }
  }

  lemma DeactivatedVisits(s: System, i: nat, account: Key, j: nat, treasury: bool)
    requires Visiting(s) && UpdateDeactivated(s, i, account, j, treasury).Success? && !Disturbs(s, i, j)
    requires Inv(UpdateDeactivated(s, i, account, j, treasury).value)
    ensures i < |s.stakes| && s.stakes[i].status.Unknown?
    ensures VisitedBy(s, UpdateDeactivated(s, i, account, j, treasury).value, 1)
  {
    UpdateDeactivatedEffect(s, i, account, j, treasury);
    NoneCooling(s, i);
    hide Inv, Visiting, UpdateDeactivated;
    RetiredVisits(s, UpdateDeactivated(s, i, account, j, treasury).value);
  }

  lemma RetiredVisits(s: System, t: System)
    requires Visiting(s) && Inv(t) && |t.stakes| + 1 == |s.stakes|
    requires UpgraderAfterRetire(s.upgrader, t.upgrader, |t.stakes|)
    ensures VisitedBy(s, t, 1)
  {
    hide Inv, Unvisited;
    CountsAddUp(s);
    if t.upgrader.IteratingStakes? {
      CountsAddUp(t);
    }
  }

  lemma NoneCooling(s: System, i: nat)
    requires Inv(s) && s.upgrader.IteratingStakes? && i < |s.stakes|
    ensures s.stakes[i].status != Deactivating
  {
  }

  /** The first phase of a calm run is over exactly when every record that was unvisited has been,
      whatever else is interleaved; until then some record is still unvisited. */
  lemma {:induction false} FirstPhaseEndsIff(s: System, steps: seq<Step>)
    requires Visiting(s) && Calm(s, steps)
    ensures var t := Run(s, steps);
      if t.upgrader.IteratingStakes? then
        Visiting(t) && Unvisited(t) + VisitsIn(s, steps) == Unvisited(s) && Unvisited(t) > 0
      else VisitsIn(s, steps) == Unvisited(s)
    decreases |steps|
  {
    hide Inv, Apply;
    CountsAddUp(s);
    if steps != [] {
      if StepDisturbs(s, steps[0]) {
        assert !Visits(s, steps[0]);
      } else {
        StepVisits(s, steps[0]);
      }
      var t := Next(s, steps[0]);
      if t.upgrader.IteratingStakes? {
        FirstPhaseEndsIff(t, steps[1..]);
      } else {
        NoVisitsAfter(t, steps[1..]);
      }
    }
  }

  lemma {:induction false} NoVisitsAfter(s: System, steps: seq<Step>)
    requires Inv(s) && !s.upgrader.IteratingStakes? && Calm(s, steps)
    ensures VisitsIn(s, steps) == 0 && !Run(s, steps).upgrader.IteratingStakes?
    decreases |steps|
  {
    hide Inv, Apply;
    if steps != [] {
      PhaseNeverBack(s, steps[0]);
      if !StepDisturbs(s, steps[0]) {
        StepKeeps(s, steps[0]);
      }
      NoVisitsAfter(Next(s, steps[0]), steps[1..]);
    }
  }

  // ---------------------------------------------------------------- the whole upgrade

  lemma {:induction false} RunAppend(s: System, a: seq<Step>, b: seq<Step>)
    ensures Run(s, a + b) == Run(Run(s, a), b)
    decreases |a|
  {
    hide Apply, Next;
    if a == [] {
      assert a + b == b;
    } else {
      assert (a + b)[1..] == a[1..] + b;
      RunAppend(Next(s, a[0]), a[1..], b);
    }
  }

  /** A start with records: every one of them is unvisited, and the first phase is running. */
  lemma StartsVisiting(start: System, cooled: set<Key>)
    requires BeforeUpgrade(start, cooled) && start.stakes != []
    ensures Visiting(start) && Unvisited(start) == |start.stakes|
  {
    BeforeUpgradeIsBalanced(start, cooled);
    hide Sum;
    CountsAddUp(start);
  }

  /** Once a calm run has visited as many records as there were, batches whose sizes reach the end of
      the validator list complete the upgrade; a run that visited fewer still has one to visit. */
  lemma UpgradeCompletesIff(start: System, cooled: set<Key>, steps: seq<Step>, sizes: seq<u32>)
    requires BeforeUpgrade(start, cooled) && start.stakes != [] && Calm(start, steps)
    requires !Run(start, steps).cfg.paused && sizes != [] && Total(sizes) >= |Run(start, steps).validators|
    ensures Run(start, steps + Calls(sizes)).upgrader.Done? <==> VisitsIn(start, steps) == |start.stakes|
  {
    StartsVisiting(start, cooled);
    FirstPhaseEndsIff(start, steps);
    RunKeeps(start, steps);
    RunAppend(start, steps, Calls(sizes));
    var s := Run(start, steps);
    hide *;
    if s.upgrader.IteratingStakes? {
      CallsTooEarly(s, sizes);
    } else if s.upgrader.Done? {
      CallsWhenDone(s, sizes);
    } else {
      BatchesReachEnd(s, sizes);
    }
  }

  lemma BatchesReachEnd(s: System, sizes: seq<u32>)
    requires Inv(s) && s.upgrader.IteratingValidators? && !s.cfg.paused && sizes != [] && Total(sizes) >= |s.validators|
    ensures Run(s, Calls(sizes)).upgrader.Done?
  {
    BatchesVisitOnce(s, sizes);
    hide Balanced, Backed, Run;
  }

  lemma {:induction false} CallsTooEarly(s: System, sizes: seq<u32>)
    requires s.upgrader.IteratingStakes?
    ensures Run(s, Calls(sizes)) == s
  {
    if sizes != [] {
      assert Calls(sizes)[1..] == Calls(sizes[1..]);
      CallsTooEarly(s, sizes[1..]);
    }
  }
}
