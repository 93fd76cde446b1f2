/** The moves of stake between the four buckets. Every instruction that books stake is a
    composition of these, and each of them leaves the books balanced. */
module Ledger {
  import opened Base
  import opened Sums
  import opened Model

  function AddCooling(s: System, emergency: bool, amount: nat): Result<System> {
    if emergency then
      var total :- Add(s.emergency, amount);
      Success(s.(emergency := total))
    else
      var total :- Add(s.delayed, amount);
      Success(s.(delayed := total))
  }

  /** A whole active record starts cooling down. */
  function StartCooling(s: System, i: nat, j: nat, emergency: bool): Result<System>
    requires i < |s.stakes| && j < |s.validators|
  {
    var amount := s.stakes[i].delegated;
    var balance :- Sub(s.validators[j].active, amount);
    var total :- Sub(s.active, amount);
    var cooling :- AddCooling(s.(active := total), emergency, amount);
    Success(cooling.(
      stakes := s.stakes[i := s.stakes[i].(emergency := emergency, status := Deactivating)],
      validators := s.validators[j := s.validators[j].(active := balance)]))
  }

  /** A part of an active record is split off and starts cooling down. */
  function SplitCooling(s: System, i: nat, j: nat, amount: nat, account: Key, emergency: bool): Result<System>
    requires i < |s.stakes| && j < |s.validators|
  {
    if |s.stakes| >= s.cfg.stakeCapacity then Failure(ListOverflow) else
    var left :- Sub(s.stakes[i].delegated, amount);
    var balance :- Sub(s.validators[j].active, amount);
    var total :- Sub(s.active, amount);
    var cooling :- AddCooling(s.(active := total), emergency, amount);
    Success(cooling.(
      stakes := s.stakes[i := s.stakes[i].(delegated := left)]
                + [StakeRecord(account, amount, s.clock.epoch, emergency, Deactivating)],
      validators := s.validators[j := s.validators[j].(active := balance)]))
  }

  /** The upgrader's own active balance follows a booked amount while it iterates stakes. */
  function UpgraderBooked(u: Upgrader, before: nat, after: nat): Result<Upgrader> {
    if !u.IteratingStakes? then Success(u)
    else if after >= before then
      var balance :- Add(u.activeBalance, after - before);
      Success(u.(activeBalance := balance))
    else
      var balance :- Sub(u.activeBalance, before - after);
      Success(u.(activeBalance := balance))
  }

  function ValidatorBooked(u: Upgrader, v: ValidatorRecord, before: nat, after: nat): Result<ValidatorRecord> {
    if after >= before then
      var balance :- Add(v.active, after - before);
      if !u.IteratingStakes? then Success(v.(active := balance))
      else
        var upgrading :- Add(v.upgrading, after - before);
        Success(v.(active := balance, upgrading := upgrading))
    else
      var balance :- Sub(v.active, before - after);
      if !u.IteratingStakes? then Success(v.(active := balance))
      else
        var upgrading :- Sub(v.upgrading, before - after);
        Success(v.(active := balance, upgrading := upgrading))
  }

  /** An active record takes a new delegation; the difference, reward or loss, is booked. */
  function BookDelegation(s: System, i: nat, j: nat, delegated: nat, epoch: nat): Result<System>
    requires i < |s.stakes| && j < |s.validators|
  {
    var before := s.stakes[i].delegated;
    var validator :- ValidatorBooked(s.upgrader, s.validators[j], before, delegated);
    var total :- if delegated >= before then Add(s.active, delegated - before) else Sub(s.active, before - delegated);
    var upgrader :- UpgraderBooked(s.upgrader, before, delegated);
    Success(s.(active := total, upgrader := upgrader,
               stakes := s.stakes[i := s.stakes[i].(delegated := delegated, updateEpoch := epoch)],
               validators := s.validators[j := validator]))
  }

  /** While the upgrader iterates stakes it counts a new record as visited. */
  function UpgraderEntered(u: Upgrader, amount: nat): Result<Upgrader> {
    if !u.IteratingStakes? then Success(u)
    else
      var visited :- Add32(u.visited, 1);
      var total :- Add(u.activeBalance, amount);
      Success(u.(visited := visited, activeBalance := total))
  }

  /** What a new active record of a validator makes of the validator and of the upgrader. While the
      upgrader runs the record is entered as already processed. */
  function Tracked(u: Upgrader, v: ValidatorRecord, amount: nat, j: nat): Result<(ValidatorRecord, Upgrader)> {
    var balance :- Add(v.active, amount);
    var ahead := u.IteratingStakes? || (u.IteratingValidators? && j >= u.visited);
    var upgrading :- if ahead then Add(v.upgrading, amount) else Success(v.upgrading);
    var upgrader :- UpgraderEntered(u, amount);
    Success((v.(active := balance, upgrading := upgrading), upgrader))
  }

  /** A new active record. */
  function PushActive(s: System, account: Key, amount: nat, j: nat): Result<System>
    requires j < |s.validators|
  {
    var (validator, upgrader) :- Tracked(s.upgrader, s.validators[j], amount, j);
    :- Require(|s.stakes| < s.cfg.stakeCapacity, ListOverflow);
    var total :- Add(s.active, amount);
    Success(s.(active := total, upgrader := upgrader,
               stakes := s.stakes + [StakeRecord(account, amount, s.clock.epoch, false, Active)],
               validators := s.validators[j := validator]))
  }

  /** A record nobody classified before becomes Active and is counted by the upgrader. */
  function UpgradeRecord(s: System, i: nat, j: nat): Result<System>
    requires i < |s.stakes| && j < |s.validators|
  {
    if s.stakes[i].status != Unknown then Success(s)
    else
      :- Require(s.upgrader.IteratingStakes?, UpgradingInvariantViolation);
      var amount := s.stakes[i].delegated;
      var visited :- Add32(s.upgrader.visited, 1);
      var total :- Add(s.upgrader.activeBalance, amount);
      :- Require(total <= s.active, UpgradingInvariantViolation);
      var upgrading :- Add(s.validators[j].upgrading, amount);
      :- Require(upgrading <= s.validators[j].active, UpgradingInvariantViolation);
      Success(s.(upgrader := s.upgrader.(visited := visited, activeBalance := total),
                 stakes := s.stakes[i := s.stakes[i].(status := Active)],
                 validators := s.validators[j := s.validators[j].(upgrading := upgrading)]))
  }

  /** A record whose stake account was emptied leaves its bucket and the list. While the upgrader
      iterates stakes, what the bucket cannot cover is taken as delinquent active stake. */
  function ReleaseCooled(s: System, i: nat): Result<System>
    requires i < |s.stakes|
  {
    var amount := s.stakes[i].delegated;
    if amount == 0 then Success(s.(stakes := SwapRemove(s.stakes, i))) else
    var emergency := s.stakes[i].emergency;
    var bucket := if emergency then s.emergency else s.delayed;
    var iterating := s.upgrader.IteratingStakes?;
    var taken := if iterating then Min(bucket, amount) else amount;
    var rest :- Sub(bucket, taken);
    var missing: nat := amount - taken;
    var upgrader :-
      if iterating then
        var delinquent :- Add(s.upgrader.delinquentBalance, missing);
        Success(s.upgrader.(delinquentBalance := delinquent))
      else Success(s.upgrader);
    var total :- Sub(s.active, missing);
    Success(s.(active := total, upgrader := upgrader,
               emergency := if emergency then rest else s.emergency,
               delayed := if emergency then s.delayed else rest,
               stakes := SwapRemove(s.stakes, i)))
  }

  /** When every stake was visited the upgrader goes on to the validators. */
  function NextPhase(s: System): Result<System> {
    if s.upgrader.IteratingStakes? && s.upgrader.visited == |s.stakes| then
      :- Require(s.upgrader.activeBalance == s.active, UpgradingInvariantViolation);
      Success(s.(upgrader := IteratingValidators(0, s.upgrader.delinquentBalance)))
    else Success(s)
  }

  /** One validator after another takes the re-derived balance; at most `max` of them. */
  function FinalizeFrom(validators: seq<ValidatorRecord>, visited: nat, left: nat, max: nat)
    : Result<(seq<ValidatorRecord>, nat, nat)>
    decreases max
  {
    if visited >= |validators| || max == 0 then Success((validators, visited, left))
    else
      var v := validators[visited];
      var gap :- Sub(v.active, v.upgrading);
      var rest :- Sub(left, gap);
      FinalizeFrom(validators[visited := v.(active := v.upgrading, upgrading := 0)], visited + 1, rest, max - 1)
  }

  /** The validator loop with its closing check. */
  function FinalizeBatch(s: System, max: nat): Result<System>
    requires s.upgrader.IteratingValidators?
  {
    var (validators, visited, left) :- FinalizeFrom(s.validators, s.upgrader.visited, s.upgrader.balanceLeft, max);
    if visited == |validators| then
      :- Require(left == 0, UpgradingInvariantViolation);
      Success(s.(validators := validators, upgrader := Done))
    else Success(s.(validators := validators, upgrader := IteratingValidators(visited, left)))
  }

  /** The source record and whatever the merge delegated on top join the canonical record. */
  function MergeRecords(s: System, c: nat, i: nat, j: nat, extra: nat): Result<System>
    requires c < |s.stakes| && i < |s.stakes| && c != i && j < |s.validators|
  {
    var balance :- Add(s.validators[j].active, extra);
    var total :- Add(s.active, extra);
    var merged := s.stakes[c].delegated + s.stakes[i].delegated + extra;
    Success(s.(active := total,
               stakes := SwapRemove(s.stakes[c := s.stakes[c].(delegated := merged)], i),
               validators := s.validators[j := s.validators[j].(active := balance)]))
  }

  /** The stake of a record moved whole to another account: pushed anew, then the old slot removed. */
  function MoveRecord(s: System, i: nat, account: Key): Result<System>
    requires i < |s.stakes|
  {
    if |s.stakes| >= s.cfg.stakeCapacity then Failure(ListOverflow) else
    Success(s.(stakes := SwapRemove(
      s.stakes + [StakeRecord(account, s.stakes[i].delegated, s.clock.epoch, false, Active)], i)))
  }
}
