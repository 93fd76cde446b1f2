/** Delayed unstaking: open tickets stay covered, a claim can fail only for reasons its owner can
    see, and no ticket is paid before an epoch went by whose stake moves could still serve it. */
module Tickets {
  import opened Base
  import opened Calc
  import opened Sums
  import opened Model
  import opened Ledger
  import opened Instructions
  import opened Machine
  import opened Invariant
  import opened Shapes
  import opened Backing
  import opened Price
  import opened FromStart

  // ---------------------------------------------------------------- cover

  ghost predicate Covered(s: System) {
    s.ticketBalance <= TotalLamports(s)
  }

  /** What held mSOL is worth never exceeds what is behind all of it. */
  lemma WorthIsCovered(s: System, msol: nat)
    requires Backed(s) && Covered(s) && msol <= s.msolHeld && MsolToSol(s, msol).Success?
    ensures s.ticketBalance + MsolToSol(s, msol).value <= TotalLamports(s)
  {
    if s.supply > 0 {
      WorthAtMostAll(s, msol);
    }
  }

  lemma WithdrawKeepsCover(s: System, i: nat, account: Key, j: nat, msol: u64, newKey: Key, treasury: bool)
    requires Backed(s) && Covered(s) && WithdrawStakeAccount(s, i, account, j, msol, newKey, treasury).Success?
    ensures Covered(WithdrawStakeAccount(s, i, account, j, msol, newKey, treasury).value)
  {
    WithdrawPays(s, i, account, j, msol, newKey, treasury);
    WorthIsCovered(s, msol);
    hide WithdrawStakeAccount, MsolToSol;
  }

  lemma OrderKeepsCover(s: System, msol: u64, newKey: Key)
    requires Backed(s) && Covered(s) && OrderUnstake(s, msol, newKey).Success?
    ensures Covered(OrderUnstake(s, msol, newKey).value)
  {
    WorthIsCovered(s, msol);
    hide MsolToSol;
  }

  lemma GrowthKeepsCover(s: System, step: Step)
    requires Covered(s) && (step.DoDeposit? || step.DoDepositStake? || step.DoClaim?)
    ensures Apply(s, step).Success? ==> Covered(Apply(s, step).value)
  {
    hide MsolToSol, MsolFromLamports;
  }

  lemma UpdatesKeepCover(s: System, step: Step)
    requires Backed(s) && Covered(s) && SlashFree(s, step) && (step.DoUpdateActive? || step.DoUpdateDeactivated?)
    ensures Apply(s, step).Success? ==> Covered(Apply(s, step).value)
  {
    match step
    case DoUpdateActive(i, account, j, treasury) =>
      UpdateActiveEffect(s, i, account, j, treasury);
      hide UpdateActive;
    case DoUpdateDeactivated(i, account, j, treasury) =>
      UpdateDeactivatedEffect(s, i, account, j, treasury);
      hide UpdateDeactivated;
    case _ =>
  }

  lemma StepKeepsCover(s: System, step: Step)
    requires Backed(s) && Covered(s) && SlashFree(s, step)
    ensures Covered(Next(s, step))
  {
    if Apply(s, step).Success? {
      hide Backed, TotalLamports;
      match step {
        case DoDeposit(_) => GrowthKeepsCover(s, step);
        case DoDepositStake(_, _) => GrowthKeepsCover(s, step);
        case DoClaim(_) => GrowthKeepsCover(s, step);
        case DoWithdrawStake(i, account, j, msol, newKey, treasury) =>
          WithdrawKeepsCover(s, i, account, j, msol, newKey, treasury);
        case DoOrderUnstake(msol, newKey) => OrderKeepsCover(s, msol, newKey);
        case DoUpdateActive(_, _, _, _) => UpdatesKeepCover(s, step);
        case DoUpdateDeactivated(_, _, _, _) => UpdatesKeepCover(s, step);
        case _ => OrdinaryTotals(s, step);
      }
    }
  }

  predicate Unslashed(s: System, steps: seq<Step>)
    decreases |steps|
  {
    steps == [] || (SlashFree(s, steps[0]) && Unslashed(Next(s, steps[0]), steps[1..]))
  }

  /** Over any run in which no update finds a loss, what is under control covers what is owed. */
  lemma {:induction false} TicketsStayCovered(s: System, steps: seq<Step>)
    requires Backed(s) && Covered(s) && Unslashed(s, steps)
    ensures Covered(Run(s, steps)) && Backed(Run(s, steps))
    decreases |steps|
  {
    if steps != [] {
      hide Apply, Next, Backed, Covered, SlashFree;
      StepKeepsCover(s, steps[0]);
      StepBacked(s, steps[0]);
      TicketsStayCovered(Next(s, steps[0]), steps[1..]);
    }
  }

  // ---------------------------------------------------------------- claims

  /** The wait of a ticket is over. */
  predicate Due(s: System, t: Ticket) {
    s.clock.epoch > t.createdEpoch + 1
    || (s.clock.epoch == t.createdEpoch + 1 && s.clock.secondsIntoEpoch >= 1_800)
  }

  /** Exactly when a claim is paid. Neither ticket total can be in the way; lamports given to the
      reserve but not yet synchronised can. */
  lemma ClaimIsPaidIff(s: System, k: nat)
    requires Backed(s)
    ensures Claim(s, k).Success? <==>
              && !s.cfg.paused && k < |s.tickets| && s.tickets[k].amount > 0
              && Due(s, s.tickets[k]) && s.tickets[k].amount <= s.reserve
    ensures Claim(s, k).Success? ==>
              var t := Claim(s, k).value;
              && t.reserve == s.reserve - s.tickets[k].amount
              && t.reserveLamports == s.reserveLamports - s.tickets[k].amount
              && t.ticketBalance == Sum(t.tickets, TicketAmount()) && t.ticketCount == |t.tickets|
              && VirtualStaked(t) == VirtualStaked(s)
  {
    hide Sum;
    if k < |s.tickets| {
      SumMember(s.tickets, k, TicketAmount());
      SumSwapRemove(s.tickets, k, TicketAmount());
    }
  }

  // ---------------------------------------------------------------- the wait

  /** What an observer notes when a ticket is ordered: the epoch, and the epochs in which stake had
      been moved by then. */
  datatype Note = Note(epoch: nat, begun: set<nat>)

  /** The observer's book: the epochs in which stake was moved, and the notes on orders. */
  datatype Log = Log(begun: set<nat>, orders: map<Key, Note>)

  /** The observer looks at what a step did to the stakes, not at the program's own epoch marks. */
  function Observe(log: Log, s: System, step: Step): Log {
    var t := Next(s, step);
    if (step.DoStakeReserve? || step.DoDeactivateStake?) && t.stakes != s.stakes then
      log.(begun := log.begun + {s.clock.epoch})
    else if step.DoOrderUnstake? && Apply(s, step).Success? then
      log.(orders := log.orders[step.newKey := Note(s.clock.epoch, log.begun)])
    else log
  }

  function Watch(log: Log, s: System, steps: seq<Step>): Log
    decreases |steps|
  {
    if steps == [] then log else Watch(Observe(log, s, steps[0]), Next(s, steps[0]), steps[1..])
  }

  /** The program's mark of the last epoch with stake moves is right, and so is every open ticket. */
  ghost predicate LogOk(log: Log, s: System) {
    && s.clock.epoch < NEVER
    && (s.deltaEpoch == NEVER || s.deltaEpoch <= s.clock.epoch)
    && (forall e :: e in log.begun ==> e <= s.clock.epoch)
    && (s.clock.epoch in log.begun <==> s.deltaEpoch == s.clock.epoch)
    && (forall k :: 0 <= k < |s.tickets| ==> NoteOk(log, s.tickets[k]))
  }

  /** The first epoch from the order on in which no stake had been moved at the order. */
  function FirstUnbegun(note: Note): nat {
    if note.epoch in note.begun then note.epoch + 1 else note.epoch
  }

  /** The ticket is for that epoch, and stake had been moved in none after it. */
  ghost predicate NoteOk(log: Log, t: Ticket) {
    && t.id in log.orders
    && t.createdEpoch == FirstUnbegun(log.orders[t.id])
    && forall e :: e in log.orders[t.id].begun ==> e <= log.orders[t.id].epoch
  }

  ghost predicate SameWait(s: System, t: System) {
    t.clock == s.clock && t.deltaEpoch == s.deltaEpoch && t.tickets == s.tickets
  }

  lemma StakeReserveMarks(s: System, j: nat, vote: Key, newKey: Key)
    ensures var r := StakeReserve(s, j, vote, newKey);
      r.Success? ==>
        && r.value.clock == s.clock && r.value.tickets == s.tickets
        && r.value.deltaEpoch == if r.value.stakes == s.stakes then s.deltaEpoch else s.clock.epoch
  {
    hide ValidatorTarget, StakeAmount, StakeDelta;
  }

  lemma DeactivateStakeMarks(s: System, i: nat, account: Key, j: nat, newKey: Key)
    ensures var r := DeactivateStake(s, i, account, j, newKey);
      r.Success? ==>
        && r.value.clock == s.clock && r.value.tickets == s.tickets
        && r.value.deltaEpoch == if r.value.stakes == s.stakes then s.deltaEpoch else s.clock.epoch
  {
    hide ValidatorTarget, StakeDelta;
    var r := DeactivateStake(s, i, account, j, newKey);
    if r.Success? && r.value != s {
      if |r.value.stakes| == |s.stakes| {
        assert r.value.stakes[i].status.Deactivating? && s.stakes[i].status.Active?;
      }
    }
  }

  lemma UserWaits(s: System, step: Step)
    requires step.DoDeposit? || step.DoDepositStake? || step.DoWithdrawStake?
    ensures Apply(s, step).Success? ==> SameWait(s, Apply(s, step).value)
  {
    hide MsolToSol, MsolFromLamports;
  }

  lemma PoolWaits(s: System, step: Step)
    requires step.DoLiquidUnstake? || step.DoAddLiquidity? || step.DoRemoveLiquidity?
    ensures Apply(s, step).Success? ==> SameWait(s, Apply(s, step).value)
  {
    hide MsolToSol;
  }

  lemma UpdatesWait(s: System, step: Step)
    requires step.DoUpdateActive? || step.DoUpdateDeactivated?
    ensures Apply(s, step).Success? ==> SameWait(s, Apply(s, step).value)
  {
    match step
    case DoUpdateActive(i, account, j, treasury) =>
      UpdateActiveEffect(s, i, account, j, treasury);
      hide UpdateActive;
    case DoUpdateDeactivated(i, account, j, treasury) =>
      UpdateDeactivatedEffect(s, i, account, j, treasury);
      hide UpdateDeactivated;
    case _ =>
  }

  lemma HousekeepingWaits(s: System, step: Step)
    requires step.DoMergeStakes? || step.DoCreateCanonical? || step.DoFinalizeUpgrade?
    ensures Apply(s, step).Success? ==> SameWait(s, Apply(s, step).value)
  {
    hide FinalizeFrom;
  }

  lemma PartialUnstakeWaits(s: System, step: Step)
    requires step.DoPartialUnstake?
    ensures Apply(s, step).Success? ==> SameWait(s, Apply(s, step).value)
  {
    hide ValidatorTarget, StakeDelta, FeeApply;
  }

  lemma ManagersWait(s: System, step: Step)
    requires step.DoEmergencyUnstake? || step.DoAddValidator? || step.DoRemoveValidator? || step.DoSetScore?
    ensures Apply(s, step).Success? ==> SameWait(s, Apply(s, step).value)
  {
    hide FeeApply;
  }

  lemma OthersWait(s: System, step: Step)
    requires step.Configure? || step.SetExtraRuns? || (step.Around? && !step.event.Tick?)
    ensures Apply(s, step).Success? ==> SameWait(s, Apply(s, step).value)
  {
  }

  predicate Waiting(step: Step) {
    && !step.DoOrderUnstake? && !step.DoClaim? && !step.DoStakeReserve? && !step.DoDeactivateStake?
    && !(step.Around? && step.event.Tick?)
  }

  lemma StepWaits(s: System, step: Step)
    requires Waiting(step)
    ensures SameWait(s, Next(s, step))
  {
    hide Apply;
    match step {
      case DoDeposit(_) => UserWaits(s, step);
      case DoDepositStake(_, _) => UserWaits(s, step);
      case DoWithdrawStake(_, _, _, _, _, _) => UserWaits(s, step);
      case DoLiquidUnstake(_, _) => PoolWaits(s, step);
      case DoAddLiquidity(_) => PoolWaits(s, step);
      case DoRemoveLiquidity(_) => PoolWaits(s, step);
      case DoUpdateActive(_, _, _, _) => UpdatesWait(s, step);
      case DoUpdateDeactivated(_, _, _, _) => UpdatesWait(s, step);
      case DoMergeStakes(_, _, _, _, _, _) => HousekeepingWaits(s, step);
      case DoCreateCanonical(_, _, _, _) => HousekeepingWaits(s, step);
      case DoFinalizeUpgrade(_) => HousekeepingWaits(s, step);
      case DoPartialUnstake(_, _, _, _, _) => PartialUnstakeWaits(s, step);
      case DoEmergencyUnstake(_, _, _) => ManagersWait(s, step);
      case DoAddValidator(_, _) => ManagersWait(s, step);
      case DoRemoveValidator(_, _) => ManagersWait(s, step);
      case DoSetScore(_, _, _) => ManagersWait(s, step);
      case Configure(_) => OthersWait(s, step);
      case SetExtraRuns(_) => OthersWait(s, step);
      case Around(_) => OthersWait(s, step);
      case _ =>
    }
  }

  /** An order is put into this epoch if no stake was moved in it yet, else into the next one. */
  lemma OrderKeepsLog(log: Log, s: System, step: Step)
    requires LogOk(log, s) && step.DoOrderUnstake?
    ensures LogOk(Observe(log, s, step), Next(s, step))
  {
    hide MsolToSol, FeeCentsApply, Sum;
  }

  lemma ClaimKeepsLog(log: Log, s: System, step: Step)
    requires LogOk(log, s) && step.DoClaim?
    ensures LogOk(Observe(log, s, step), Next(s, step))
  {
  }

  lemma StakeReserveKeepsLog(log: Log, s: System, step: Step)
    requires LogOk(log, s) && step.DoStakeReserve?
    ensures LogOk(Observe(log, s, step), Next(s, step))
  {
    StakeReserveMarks(s, step.j, step.vote, step.newKey);
    hide StakeReserve;
  }

  lemma DeactivateStakeKeepsLog(log: Log, s: System, step: Step)
    requires LogOk(log, s) && step.DoDeactivateStake?
    ensures LogOk(Observe(log, s, step), Next(s, step))
  {
    DeactivateStakeMarks(s, step.i, step.account, step.j, step.newKey);
    hide DeactivateStake;
  }

  lemma TickKeepsLog(log: Log, s: System, step: Step)
    requires LogOk(log, s) && step.Around? && step.event.Tick?
    ensures LogOk(Observe(log, s, step), Next(s, step))
  {
  }

  lemma StepKeepsLog(log: Log, s: System, step: Step)
    requires LogOk(log, s)
    ensures LogOk(Observe(log, s, step), Next(s, step))
  {
    hide Apply, Next;
    match step {
      case DoOrderUnstake(_, _) => OrderKeepsLog(log, s, step);
      case DoClaim(_) => ClaimKeepsLog(log, s, step);
      case DoStakeReserve(_, _, _) => StakeReserveKeepsLog(log, s, step);
      case DoDeactivateStake(_, _, _, _) => DeactivateStakeKeepsLog(log, s, step);
      case _ =>
        if Waiting(step) {
          StepWaits(s, step);
        } else {
          TickKeepsLog(log, s, step);
        }
    }
  }

  lemma {:induction false} RunKeepsLog(log: Log, s: System, steps: seq<Step>)
    requires LogOk(log, s)
    ensures LogOk(Watch(log, s, steps), Run(s, steps))
    decreases |steps|
  {
    if steps != [] {
      hide Apply, Next, LogOk, Observe;
      StepKeepsLog(log, s, steps[0]);
      RunKeepsLog(Observe(log, s, steps[0]), Next(s, steps[0]), steps[1..]);
    }
  }

  /** Over any run with a monotone clock: a ticket that can be paid was ordered when its epoch, the first from
      the order on in which no stake had been moved yet, had not begun to move stake; and that epoch is over. */
  lemma PaidAfterAnUnbegunEpoch(log: Log, start: System, steps: seq<Step>, k: nat)
    requires LogOk(log, start)
    requires Claim(Run(start, steps), k).Success?
    ensures var s := Run(start, steps);
      var seen := Watch(log, start, steps);
      && k < |s.tickets| && s.tickets[k].id in seen.orders
      && var note := seen.orders[s.tickets[k].id];
      && s.tickets[k].createdEpoch == FirstUnbegun(note)
      && note.epoch <= FirstUnbegun(note) < s.clock.epoch && FirstUnbegun(note) !in note.begun
  {
    RunKeepsLog(log, start, steps);
    hide Run, Watch;
    var s := Run(start, steps);
    assert NoteOk(Watch(log, start, steps), s.tickets[k]);
    assert s.tickets[k].createdEpoch < s.clock.epoch;
  }

  /** An observer who starts with the program has nothing to note yet. */
  lemma FirstLog(start: System)
    requires Initialized(start)
    ensures LogOk(Log({}, map[]), start)
  {
    InitializedIs(start);
  }

  /** So from `initialize`, every ticket ever paid had waited such an epoch out. */
  lemma PaidFromStart(start: System, steps: seq<Step>, k: nat)
    requires Initialized(start) && Claim(Run(start, steps), k).Success?
    ensures var s := Run(start, steps);
      var seen := Watch(Log({}, map[]), start, steps);
      && k < |s.tickets| && s.tickets[k].id in seen.orders
      && var note := seen.orders[s.tickets[k].id];
      && s.tickets[k].createdEpoch == FirstUnbegun(note)
      && note.epoch <= FirstUnbegun(note) < s.clock.epoch && FirstUnbegun(note) !in note.begun
  {
    FirstLog(start);
    PaidAfterAnUnbegunEpoch(Log({}, map[]), start, steps, k);
    hide Run, Watch, Claim;
  }
}
