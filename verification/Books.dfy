/** The ledger invariant: in every phase of the delinquent upgrade the four buckets, the
    balances of the validators and the counters of the upgrader are the sums over the stake
    records they stand for. */
module Books {
  import opened Base
  import opened Sums
  import opened Model
  import opened Ledger

  // ---------------------------------------------------------------- weights of a stake record

  function Delegated(): StakeRecord -> nat {
    (r: StakeRecord) => r.delegated
  }

  function ActiveStake(): StakeRecord -> nat {
    (r: StakeRecord) => if r.status.Active? then r.delegated else 0
  }

  function ActiveCount(): StakeRecord -> nat {
    (r: StakeRecord) => if r.status.Active? then 1 else 0
  }

  function CoolingStake(emergency: bool): StakeRecord -> nat {
    (r: StakeRecord) => if r.status == Deactivating && r.emergency == emergency then r.delegated else 0
  }

  function ActiveStakeOn(native: map<Key, StakeAccount>, vote: Key): StakeRecord -> nat {
    (r: StakeRecord) => if r.status.Active? && r.account in native && native[r.account].voter == vote
      then r.delegated else 0
  }

  /** Not yet visited by the upgrader and natively active. */
  function PendingStake(native: map<Key, StakeAccount>): StakeRecord -> nat {
    (r: StakeRecord) => if r.status == Unknown && r.account in native && native[r.account].Live() then r.delegated
                        else 0
  }

  function PendingStakeOn(native: map<Key, StakeAccount>, vote: Key): StakeRecord -> nat {
    (r: StakeRecord) => if r.status == Unknown && r.account in native && native[r.account].Live()
                           && native[r.account].voter == vote
      then r.delegated else 0
  }

  /** Not yet visited by the upgrader and natively deactivating. */
  function StoppedStake(native: map<Key, StakeAccount>, emergency: bool): StakeRecord -> nat {
    (r: StakeRecord) => if r.status == Unknown && r.emergency == emergency && r.account in native
                           && !native[r.account].Live()
      then r.delegated else 0
  }

  // ---------------------------------------------------------------- weights of a validator record

  function Balance(): ValidatorRecord -> nat {
    (v: ValidatorRecord) => v.active
  }

  function Score(): ValidatorRecord -> nat {
    (v: ValidatorRecord) => v.score
  }

  function Upgrading(): ValidatorRecord -> nat {
    (v: ValidatorRecord) => v.upgrading
  }

  function Gap(): ValidatorRecord -> nat {
    (v: ValidatorRecord) => SatSub(v.active, v.upgrading)
  }

  // ---------------------------------------------------------------- the invariant

  /** A stake account holds its rent, and while it is active its stake on top. */
  ghost predicate Funded(a: StakeAccount) {
    a.rent <= a.lamports && (a.Live() ==> a.rent + a.stake <= a.lamports)
  }

  ghost predicate RecordOk(r: StakeRecord, native: map<Key, StakeAccount>) {
    && r.account in native
    && native[r.account].ours
    && Funded(native[r.account])
    && (r.status == Deactivating ==> !native[r.account].Live())
    && (r.status.Active? ==> !r.emergency)
    && (r.status == Unknown && r.emergency ==> !native[r.account].Live())
  }

  ghost predicate RecordsOk(stakes: seq<StakeRecord>, native: map<Key, StakeAccount>) {
    && (forall i, k :: 0 <= i < k < |stakes| ==> stakes[i].account != stakes[k].account)
    && (forall i :: 0 <= i < |stakes| ==> RecordOk(stakes[i], native))
  }

  ghost predicate Distinct(validators: seq<ValidatorRecord>) {
    forall j, k :: 0 <= j < k < |validators| ==> validators[j].vote != validators[k].vote
  }

  ghost predicate ValidatorsOk(s: System) {
    && Distinct(s.validators)
    && (forall j :: 0 <= j < |s.validators| ==> s.validators[j].vote in s.flags)
    && (forall vote :: vote in s.flags ==> exists j :: 0 <= j < |s.validators| && s.validators[j].vote == vote)
    && s.totalScore == Sum(s.validators, Score())
  }

  /** Active stake the upgrader found gone but has not yet taken off the validators. */
  function Outstanding(u: Upgrader): nat {
    match u
    case IteratingStakes(_, _, delinquent) => delinquent
    case IteratingValidators(_, left) => left
    case Done => 0
  }

  /** The validators' balances add up to the total, in every phase. */
  ghost predicate BalancesAddUp(s: System) {
    Sum(s.validators, Balance()) == s.active + Outstanding(s.upgrader)
  }

  /** Of the two balances of a validator, the one that is exact in this phase. */
  function Exact(u: Upgrader, j: nat, v: ValidatorRecord): nat {
    if u.IteratingStakes? || (u.IteratingValidators? && j >= u.visited) then v.upgrading else v.active
  }

  ghost predicate ExactBalances(s: System) {
    forall j :: 0 <= j < |s.validators| ==>
      Exact(s.upgrader, j, s.validators[j]) == Sum(s.stakes, ActiveStakeOn(s.native, s.validators[j].vote))
  }

  ghost predicate StakesPhase(s: System)
    requires s.upgrader.IteratingStakes?
  {
    && (forall j :: 0 <= j < |s.validators| ==>
          s.validators[j].active >= s.validators[j].upgrading
              + Sum(s.stakes, PendingStakeOn(s.native, s.validators[j].vote)))
    && s.upgrader.visited == Sum(s.stakes, ActiveCount())
    && s.upgrader.activeBalance == Sum(s.stakes, ActiveStake())
    && s.upgrader.activeBalance == Sum(s.validators, Upgrading())
    && (forall i :: 0 <= i < |s.stakes| ==> s.stakes[i].status != Deactivating)
    && s.active + s.delayed + s.emergency == Sum(s.stakes, Delegated())
    && s.delayed <= Sum(s.stakes, StoppedStake(s.native, false))
    && s.emergency <= Sum(s.stakes, StoppedStake(s.native, true))
  }

  ghost predicate Settled(s: System) {
    && (forall i :: 0 <= i < |s.stakes| ==> s.stakes[i].status != Unknown)
    && s.active == Sum(s.stakes, ActiveStake())
    && s.delayed == Sum(s.stakes, CoolingStake(false))
    && s.emergency == Sum(s.stakes, CoolingStake(true))
  }

  ghost predicate ValidatorsPhase(s: System)
    requires s.upgrader.IteratingValidators?
  {
    && s.upgrader.visited <= |s.validators|
    && s.upgrader.balanceLeft == Sum(s.validators[s.upgrader.visited..], Gap())
    && (forall j :: s.upgrader.visited <= j < |s.validators| ==> s.validators[j].upgrading <= s.validators[j].active)
  }

  /** Active stake sits with listed validators. */
  ghost predicate Homed(s: System) {
    forall i :: 0 <= i < |s.stakes| && s.stakes[i].status.Active? && s.stakes[i].account in s.native ==>
      s.native[s.stakes[i].account].voter in s.flags || s.stakes[i].delegated == 0
  }

  ghost predicate Balanced(s: System) {
    && RecordsOk(s.stakes, s.native)
    && Homed(s)
    && ValidatorsOk(s)
    && BalancesAddUp(s)
    && ExactBalances(s)
    && (if s.upgrader.IteratingStakes? then StakesPhase(s) else Settled(s))
    && (s.upgrader.IteratingValidators? ==> ValidatorsPhase(s))
  }

  /** Failures that would mean the books were wrong. */
  ghost predicate Broken<T>(r: Result<T>) {
    r.Failure? && r.error in {Underflow, ReserveUnderflow, UpgradingInvariantViolation, AssertionFailed}
  }

  function One(): StakeRecord -> nat {
    (r: StakeRecord) => 1
  }

  lemma {:induction false} SumOnes(stakes: seq<StakeRecord>)
    ensures Sum(stakes, One()) == |stakes|
  {
    if stakes != [] {
      SumOnes(stakes[1..]);
    }
  }

  // ---------------------------------------------------------------- steps outside the books

  /** The stake accounts of listed records keep voter and authority, and only ever stop. */
  ghost predicate NativeFits(stakes: seq<StakeRecord>, before: map<Key, StakeAccount>, after: map<Key, StakeAccount>) {
    forall i :: 0 <= i < |stakes| ==>
      var key := stakes[i].account;
      && key in before && key in after
      && after[key].ours
      && Funded(after[key])
      && after[key].voter == before[key].voter
      && (!before[key].Live() ==> !after[key].Live())
  }

  ghost predicate SameBooks(s: System, t: System) {
    && s.active == t.active && s.delayed == t.delayed && s.emergency == t.emergency
    && s.totalScore == t.totalScore && s.upgrader == t.upgrader
    && s.stakes == t.stakes && s.validators == t.validators && s.flags == t.flags
  }

  lemma OutsideKeepsBalanced(s: System, t: System)
    requires Balanced(s) && SameBooks(s, t) && NativeFits(s.stakes, s.native, t.native)
    ensures Balanced(t)
  {
    forall x | x in s.stakes
      ensures x.account in s.native && x.account in t.native
      ensures s.native[x.account].voter == t.native[x.account].voter
      ensures !s.native[x.account].Live() ==> !t.native[x.account].Live()
    {
      var i :| 0 <= i < |s.stakes| && s.stakes[i] == x;
    }
    forall j | 0 <= j < |s.validators|
      ensures Sum(s.stakes, ActiveStakeOn(s.native, s.validators[j].vote))
          == Sum(t.stakes, ActiveStakeOn(t.native, t.validators[j].vote))
      ensures Sum(t.stakes, PendingStakeOn(t.native, t.validators[j].vote))
          <= Sum(s.stakes, PendingStakeOn(s.native, s.validators[j].vote))
    {
      var vote := s.validators[j].vote;
      SumSame(s.stakes, ActiveStakeOn(s.native, vote), ActiveStakeOn(t.native, vote));
      SumLe(s.stakes, PendingStakeOn(t.native, vote), PendingStakeOn(s.native, vote));
    }
    SumLe(s.stakes, StoppedStake(s.native, false), StoppedStake(t.native, false));
    SumLe(s.stakes, StoppedStake(s.native, true), StoppedStake(t.native, true));
  }
}
