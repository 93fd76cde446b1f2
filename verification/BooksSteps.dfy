/** Each move of the ledger keeps the books balanced, and while they are balanced none of its
    subtractions and none of the upgrader's self-checks can fail. */
module BooksSteps {
  import opened Base
  import opened Sums
  import opened Model
  import opened Ledger
  import opened Books

  // ---------------------------------------------------------------- how the exact balances follow

  /** What a record contributes to the exact balance of its validator. */
  function Weight(r: StakeRecord): nat {
    if r.status.Active? then r.delegated else 0
  }

  /** The phase and progress of the upgrader decide which balance is exact. */
  predicate SamePhase(u: Upgrader, w: Upgrader) {
    && (u.IteratingStakes? <==> w.IteratingStakes?)
    && (u.IteratingValidators? ==> w == u)
    && (u.Done? ==> w.Done?)
  }

  lemma ExactAfterSet(s: System, t: System, i: nat, j: nat, r: StakeRecord, v: ValidatorRecord)
    requires ExactBalances(s) && Distinct(s.validators)
    requires i < |s.stakes| && j < |s.validators|
    requires t.stakes == s.stakes[i := r] && t.validators == s.validators[j := v] && t.native == s.native
    requires r.account == s.stakes[i].account && v.vote == s.validators[j].vote
    requires r.account in s.native && s.native[r.account].voter == v.vote
    requires SamePhase(s.upgrader, t.upgrader)
    requires Exact(s.upgrader, j, v) + Weight(s.stakes[i]) == Exact(s.upgrader, j, s.validators[j]) + Weight(r)
    ensures ExactBalances(t)
  {
    forall k | 0 <= k < |t.validators|
      ensures Exact(t.upgrader, k, t.validators[k]) == Sum(t.stakes, ActiveStakeOn(t.native, t.validators[k].vote))
    {
      SumSet(s.stakes, i, r, ActiveStakeOn(s.native, s.validators[k].vote));
      if k != j {
        assert s.validators[k].vote != s.validators[j].vote;
      }
    }
  }

  lemma ExactAfterPush(s: System, t: System, j: nat, r: StakeRecord, v: ValidatorRecord)
    requires ExactBalances(s) && Distinct(s.validators)
    requires j < |s.validators|
    requires t.stakes == s.stakes + [r] && t.validators == s.validators[j := v] && t.native == s.native
    requires v.vote == s.validators[j].vote && r.account in s.native && s.native[r.account].voter == v.vote
    requires SamePhase(s.upgrader, t.upgrader)
    requires Exact(s.upgrader, j, v) == Exact(s.upgrader, j, s.validators[j]) + Weight(r)
    ensures ExactBalances(t)
  {
    forall k | 0 <= k < |t.validators|
      ensures Exact(t.upgrader, k, t.validators[k]) == Sum(t.stakes, ActiveStakeOn(t.native, t.validators[k].vote))
    {
      SumPush(s.stakes, r, ActiveStakeOn(s.native, s.validators[k].vote));
      if k != j {
        assert s.validators[k].vote != s.validators[j].vote;
      }
    }
  }

  lemma ExactAfterRemove(s: System, t: System, i: nat)
    requires ExactBalances(s) && i < |s.stakes| && Weight(s.stakes[i]) == 0
    requires t.stakes == SwapRemove(s.stakes, i) && t.validators == s.validators && t.native == s.native
    requires SamePhase(s.upgrader, t.upgrader)
    ensures ExactBalances(t)
  {
    forall k | 0 <= k < |t.validators|
      ensures Exact(t.upgrader, k, t.validators[k]) == Sum(t.stakes, ActiveStakeOn(t.native, t.validators[k].vote))
    {
      SumSwapRemove(s.stakes, i, ActiveStakeOn(s.native, s.validators[k].vote));
    }
  }

  lemma RecordsAfterSet(stakes: seq<StakeRecord>, native: map<Key, StakeAccount>, i: nat, r: StakeRecord)
    requires RecordsOk(stakes, native) && i < |stakes|
    requires r.account == stakes[i].account && RecordOk(r, native)
    ensures RecordsOk(stakes[i := r], native)
  {
  }

  lemma RecordsAfterPush(stakes: seq<StakeRecord>, native: map<Key, StakeAccount>, r: StakeRecord)
    requires RecordsOk(stakes, native) && RecordOk(r, native)
    requires forall k :: 0 <= k < |stakes| ==> stakes[k].account != r.account
    ensures RecordsOk(stakes + [r], native)
  {
  }

  lemma RecordsAfterRemove(stakes: seq<StakeRecord>, native: map<Key, StakeAccount>, i: nat)
    requires RecordsOk(stakes, native) && i < |stakes|
    ensures RecordsOk(SwapRemove(stakes, i), native)
    ensures forall k :: 0 <= k < |stakes| - 1 ==> SwapRemove(stakes, i)[k].account != stakes[i].account
  {
  }

  /** A validator keeps address and score: only its balances moved. */
  lemma ValidatorsAfterSet(s: System, t: System, j: nat, v: ValidatorRecord)
    requires ValidatorsOk(s) && j < |s.validators|
    requires v.vote == s.validators[j].vote && v.score == s.validators[j].score
    requires t.validators == s.validators[j := v] && t.flags == s.flags && t.totalScore == s.totalScore
    ensures ValidatorsOk(t)
  {
    SumSet(s.validators, j, v, Score());
    forall vote | vote in t.flags
      ensures exists k :: 0 <= k < |t.validators| && t.validators[k].vote == vote
    {
      var k :| 0 <= k < |s.validators| && s.validators[k].vote == vote;
      assert t.validators[k].vote == vote;
    }
  }

  // ---------------------------------------------------------------- cooling down

  /** The balance the validator is known by in this phase covers the record. */
  lemma RecordCovered(s: System, i: nat, j: nat)
    requires ExactBalances(s) && i < |s.stakes| && j < |s.validators|
    requires s.stakes[i].status.Active? && s.stakes[i].account in s.native
    requires s.native[s.stakes[i].account].voter == s.validators[j].vote
    ensures s.stakes[i].delegated <= Exact(s.upgrader, j, s.validators[j])
  {
    SumMember(s.stakes, i, ActiveStakeOn(s.native, s.validators[j].vote));
  }

  lemma SettledSums(stakes: seq<StakeRecord>, i: nat, r: StakeRecord)
    requires i < |stakes|
    ensures Sum(stakes[i := r], ActiveStake()) + Weight(stakes[i]) == Sum(stakes, ActiveStake()) + Weight(r)
    ensures forall e ::
              Sum(stakes[i := r], CoolingStake(e)) + CoolingStake(e)(stakes[i])
              == Sum(stakes, CoolingStake(e)) + CoolingStake(e)(r)
  {
    SumSet(stakes, i, r, ActiveStake());
    forall e {
      SumSet(stakes, i, r, CoolingStake(e));
    }
  }

  lemma StartCoolingKeeps(s: System, i: nat, j: nat, emergency: bool)
    requires Balanced(s) && i < |s.stakes| && j < |s.validators|
    requires s.upgrader.Done?
        || (s.upgrader.IteratingValidators? && (j < s.upgrader.visited || s.stakes[i].delegated == 0))
    requires s.stakes[i].status.Active?
    requires s.native[s.stakes[i].account].voter == s.validators[j].vote && !s.native[s.stakes[i].account].Live()
    ensures !Broken(StartCooling(s, i, j, emergency))
    ensures StartCooling(s, i, j, emergency).Success? ==> Balanced(StartCooling(s, i, j, emergency).value)
  {
    hide Sum;
    RecordCovered(s, i, j);
    SumMember(s.stakes, i, ActiveStake());
    var result := StartCooling(s, i, j, emergency);
    if result.Success? {
      var t := result.value;
      var r, v := t.stakes[i], t.validators[j];
      RecordsAfterSet(s.stakes, s.native, i, r);
      ValidatorsAfterSet(s, t, j, v);
      SumSet(s.validators, j, v, Balance());
      ExactAfterSet(s, t, i, j, r, v);
      SettledSums(s.stakes, i, r);
      assert t.upgrader.IteratingValidators? ==>
          t.validators[t.upgrader.visited..] == s.validators[s.upgrader.visited..];
    }
  }

  lemma SplitCoolingKeeps(s: System, i: nat, j: nat, amount: nat, account: Key, emergency: bool)
    requires Balanced(s) && i < |s.stakes| && j < |s.validators|
    requires s.upgrader.Done?
    requires s.stakes[i].status.Active? && amount <= s.stakes[i].delegated
    requires s.native[s.stakes[i].account].voter == s.validators[j].vote
    requires forall k :: 0 <= k < |s.stakes| ==> s.stakes[k].account != account
    requires RecordOk(StakeRecord(account, amount, s.clock.epoch, emergency, Deactivating), s.native)
    requires s.native[account].voter == s.validators[j].vote
    ensures !Broken(SplitCooling(s, i, j, amount, account, emergency))
    ensures SplitCooling(s, i, j, amount, account, emergency).Success? ==>
              Balanced(SplitCooling(s, i, j, amount, account, emergency).value)
  {
    hide Sum;
    RecordCovered(s, i, j);
    SumMember(s.stakes, i, ActiveStake());
    var result := SplitCooling(s, i, j, amount, account, emergency);
    if result.Success? {
      var t := result.value;
      var v := t.validators[j];
      var r := s.stakes[i].(delegated := s.stakes[i].delegated - amount);
      var added := StakeRecord(account, amount, s.clock.epoch, emergency, Deactivating);
      var mid := s.(stakes := s.stakes[i := r], validators := t.validators);
      RecordsAfterSet(s.stakes, s.native, i, r);
      RecordsAfterPush(mid.stakes, s.native, added);
      ValidatorsAfterSet(s, t, j, v);
      SumSet(s.validators, j, v, Balance());
      ExactAfterSet(s, mid, i, j, r, v);
      ExactAfterPush(mid, t, j, added, v);
      SettledSums(s.stakes, i, r);
      SumPush(mid.stakes, added, ActiveStake());
      SumPush(mid.stakes, added, CoolingStake(false));
      SumPush(mid.stakes, added, CoolingStake(true));
    }
  }

  // ---------------------------------------------------------------- booking active stake

  /** The same amount moves on the validator and, while stakes are iterated, on the upgrader. */
  lemma BookDelegationKeeps(s: System, i: nat, j: nat, delegated: nat, epoch: nat)
    requires Balanced(s) && i < |s.stakes| && j < |s.validators|
    requires !s.upgrader.IteratingValidators?
    requires s.stakes[i].status.Active? && s.native[s.stakes[i].account].voter == s.validators[j].vote
    ensures !Broken(BookDelegation(s, i, j, delegated, epoch))
    ensures BookDelegation(s, i, j, delegated, epoch).Success? ==>
              Balanced(BookDelegation(s, i, j, delegated, epoch).value)
  {
    hide Sum;
    RecordCovered(s, i, j);
    SumMember(s.stakes, i, ActiveStake());
    if s.upgrader.IteratingStakes? {
      PendingFitsTotal(s);
    }
    var result := BookDelegation(s, i, j, delegated, epoch);
    if result.Success? {
      var t := result.value;
      var r, v := t.stakes[i], t.validators[j];
      RecordsAfterSet(s.stakes, s.native, i, r);
      ValidatorsAfterSet(s, t, j, v);
      SumSet(s.validators, j, v, Balance());
      ExactAfterSet(s, t, i, j, r, v);
      SettledSums(s.stakes, i, r);
      if s.upgrader.IteratingStakes? {
        StakesPhaseAfterBooking(s, t, i, j, r, v);
      }
    }
  }

  /** While stakes are iterated the total covers what is visited and what is natively active. */
  lemma PendingFitsTotal(s: System)
    requires Balanced(s) && s.upgrader.IteratingStakes?
    ensures s.active >= s.upgrader.activeBalance + Sum(s.stakes, PendingStake(s.native))
    ensures s.active + s.delayed + s.emergency ==
            s.upgrader.activeBalance + Sum(s.stakes, PendingStake(s.native))
            + Sum(s.stakes, StoppedStake(s.native, false)) + Sum(s.stakes, StoppedStake(s.native, true))
  {
    var visitedOrPending := (r: StakeRecord) => ActiveStake()(r) + PendingStake(s.native)(r);
    var stopped := (r: StakeRecord) => StoppedStake(s.native, false)(r) + StoppedStake(s.native, true)(r);
    forall x | x in s.stakes
      ensures Delegated()(x) == visitedOrPending(x) + stopped(x)
    {
      var i :| 0 <= i < |s.stakes| && s.stakes[i] == x;
    }
    SumSplit(s.stakes, Delegated(), visitedOrPending, stopped);
    SumSplit(s.stakes, visitedOrPending, ActiveStake(), PendingStake(s.native));
    SumSplit(s.stakes, stopped, StoppedStake(s.native, false), StoppedStake(s.native, true));
  }

  lemma StakesPhaseAfterBooking(s: System, t: System, i: nat, j: nat, r: StakeRecord, v: ValidatorRecord)
    requires Balanced(s) && s.upgrader.IteratingStakes? && t.upgrader.IteratingStakes?
    requires i < |s.stakes| && j < |s.validators|
    requires t.stakes == s.stakes[i := r] && t.validators == s.validators[j := v] && t.native == s.native
    requires t.delayed == s.delayed && t.emergency == s.emergency
    requires s.stakes[i].status.Active? && r == s.stakes[i].(delegated := r.delegated, updateEpoch := r.updateEpoch)
    requires v.vote == s.validators[j].vote && v.score == s.validators[j].score
    requires v.active - s.validators[j].active == r.delegated - s.stakes[i].delegated
    requires v.upgrading - s.validators[j].upgrading == r.delegated - s.stakes[i].delegated
    requires t.active - s.active == r.delegated - s.stakes[i].delegated
    requires t.upgrader.activeBalance - s.upgrader.activeBalance == r.delegated - s.stakes[i].delegated
    requires t.upgrader.visited == s.upgrader.visited
    ensures StakesPhase(t)
  {
    SumSet(s.stakes, i, r, ActiveCount());
    SumSet(s.stakes, i, r, ActiveStake());
    SumSet(s.stakes, i, r, Delegated());
    SumSet(s.stakes, i, r, StoppedStake(s.native, false));
    SumSet(s.stakes, i, r, StoppedStake(s.native, true));
    SumSet(s.validators, j, v, Upgrading());
    forall k | 0 <= k < |t.validators|
      ensures t.validators[k].active >= t.validators[k].upgrading
          + Sum(t.stakes, PendingStakeOn(t.native, t.validators[k].vote))
    {
      SumSet(s.stakes, i, r, PendingStakeOn(s.native, s.validators[k].vote));
    }
  }

  lemma PushActiveKeeps(s: System, account: Key, amount: nat, j: nat)
    requires Balanced(s) && j < |s.validators|
    requires forall k :: 0 <= k < |s.stakes| ==> s.stakes[k].account != account
    requires RecordOk(StakeRecord(account, amount, s.clock.epoch, false, StakeStatus.Active), s.native)
    requires s.native[account].voter == s.validators[j].vote
    ensures !Broken(PushActive(s, account, amount, j))
    ensures PushActive(s, account, amount, j).Success? ==> Balanced(PushActive(s, account, amount, j).value)
  {
    hide Sum;
    var result := PushActive(s, account, amount, j);
    if result.Success? {
      var t := result.value;
      var v := t.validators[j];
      var r := StakeRecord(account, amount, s.clock.epoch, false, StakeStatus.Active);
      RecordsAfterPush(s.stakes, s.native, r);
      ValidatorsAfterSet(s, t, j, v);
      SumSet(s.validators, j, v, Balance());
      ExactAfterPush(s, t, j, r, v);
      SumPush(s.stakes, r, ActiveStake());
      if s.upgrader.IteratingStakes? {
        StakesPhaseAfterPush(s, t, j, r, v);
      } else {
        SumPush(s.stakes, r, CoolingStake(false));
        SumPush(s.stakes, r, CoolingStake(true));
        if s.upgrader.IteratingValidators? {
          ValidatorsPhaseAfterSet(s, t, j, v);
        }
      }
    }
  }

  lemma StakesPhaseAfterPush(s: System, t: System, j: nat, r: StakeRecord, v: ValidatorRecord)
    requires Balanced(s) && s.upgrader.IteratingStakes? && t.upgrader.IteratingStakes?
    requires j < |s.validators| && r.status.Active?
    requires t.stakes == s.stakes + [r] && t.validators == s.validators[j := v] && t.native == s.native
    requires t.delayed == s.delayed && t.emergency == s.emergency && t.active == s.active + r.delegated
    requires v == s.validators[j].(active := v.active, upgrading := v.upgrading)
    requires v.active == s.validators[j].active + r.delegated
    requires v.upgrading == s.validators[j].upgrading + r.delegated
    requires t.upgrader.activeBalance == s.upgrader.activeBalance + r.delegated
    requires t.upgrader.visited == s.upgrader.visited + 1
    ensures StakesPhase(t)
  {
    SumPush(s.stakes, r, ActiveCount());
    SumPush(s.stakes, r, ActiveStake());
    SumPush(s.stakes, r, Delegated());
    SumPush(s.stakes, r, StoppedStake(s.native, false));
    SumPush(s.stakes, r, StoppedStake(s.native, true));
    SumSet(s.validators, j, v, Upgrading());
    forall k | 0 <= k < |t.validators|
      ensures t.validators[k].active >= t.validators[k].upgrading
          + Sum(t.stakes, PendingStakeOn(t.native, t.validators[k].vote))
    {
      SumPush(s.stakes, r, PendingStakeOn(s.native, s.validators[k].vote));
    }
  }

  /** A change of one validator that moves both balances of an unvisited one alike leaves the
      balance still to be taken off unchanged. */
  lemma ValidatorsPhaseAfterSet(s: System, t: System, j: nat, v: ValidatorRecord)
    requires s.upgrader.IteratingValidators? && ValidatorsPhase(s) && j < |s.validators|
    requires t.upgrader == s.upgrader && t.validators == s.validators[j := v]
    requires j >= s.upgrader.visited ==> v.active - v.upgrading == s.validators[j].active - s.validators[j].upgrading
    ensures ValidatorsPhase(t)
  {
    var n := s.upgrader.visited;
    if j >= n {
      assert t.validators[n..] == s.validators[n..][j - n := v];
      SumSet(s.validators[n..], j - n, v, Gap());
      assert s.validators[n..][j - n] == s.validators[j];
    } else {
      assert t.validators[n..] == s.validators[n..];
    }
  }

  // ---------------------------------------------------------------- the upgrader's own steps

  lemma UpgradeRecordKeeps(s: System, i: nat, j: nat)
    requires Balanced(s) && i < |s.stakes| && j < |s.validators|
    requires s.native[s.stakes[i].account].voter == s.validators[j].vote && s.native[s.stakes[i].account].Live()
    ensures !Broken(UpgradeRecord(s, i, j))
    ensures UpgradeRecord(s, i, j).Success? ==> Balanced(UpgradeRecord(s, i, j).value)
  {
    hide Sum;
    if s.stakes[i].status.Unknown? {
      PendingFitsTotal(s);
      SumMember(s.stakes, i, PendingStake(s.native));
      SumMember(s.stakes, i, PendingStakeOn(s.native, s.validators[j].vote));
      var result := UpgradeRecord(s, i, j);
      if result.Success? {
        var t := result.value;
        var r, v := t.stakes[i], t.validators[j];
        RecordsAfterSet(s.stakes, s.native, i, r);
        ValidatorsAfterSet(s, t, j, v);
        SumSet(s.validators, j, v, Balance());
        ExactAfterSet(s, t, i, j, r, v);
        StakesPhaseAfterUpgrade(s, t, i, j, r, v);
      }
    }
  }

  lemma StakesPhaseAfterUpgrade(s: System, t: System, i: nat, j: nat, r: StakeRecord, v: ValidatorRecord)
    requires Balanced(s) && s.upgrader.IteratingStakes? && t.upgrader.IteratingStakes?
    requires i < |s.stakes| && j < |s.validators|
    requires s.stakes[i].status.Unknown? && r == s.stakes[i].(status := StakeStatus.Active)
    requires s.native[r.account].voter == v.vote && s.native[r.account].Live()
    requires t.stakes == s.stakes[i := r] && t.validators == s.validators[j := v] && t.native == s.native
    requires v == s.validators[j].(upgrading := s.validators[j].upgrading + r.delegated)
    requires t.upgrader == s.upgrader.(visited := s.upgrader.visited + 1,
                                       activeBalance := s.upgrader.activeBalance + r.delegated)
    requires t.active == s.active && t.delayed == s.delayed && t.emergency == s.emergency
    ensures StakesPhase(t)
  {
    SumSet(s.stakes, i, r, ActiveCount());
    SumSet(s.stakes, i, r, ActiveStake());
    SumSet(s.stakes, i, r, Delegated());
    SumSet(s.stakes, i, r, StoppedStake(s.native, false));
    SumSet(s.stakes, i, r, StoppedStake(s.native, true));
    SumSet(s.validators, j, v, Upgrading());
    forall k | 0 <= k < |t.validators|
      ensures t.validators[k].active >= t.validators[k].upgrading
          + Sum(t.stakes, PendingStakeOn(t.native, t.validators[k].vote))
    {
      SumSet(s.stakes, i, r, PendingStakeOn(s.native, s.validators[k].vote));
      if k != j {
        assert s.validators[k].vote != s.validators[j].vote;
      }
    }
  }

  /** The record leaves with its bucket; an unvisited one takes from the bucket what is there and
      the rest from the active total. */
  lemma ReleaseCooledKeeps(s: System, i: nat)
    requires Balanced(s) && i < |s.stakes|
    requires !s.stakes[i].status.Active? && !s.native[s.stakes[i].account].Live()
    ensures !Broken(ReleaseCooled(s, i))
    ensures ReleaseCooled(s, i).Success? ==> Balanced(ReleaseCooled(s, i).value)
  {
    if s.upgrader.IteratingStakes? {
      ReleaseUnvisitedKeeps(s, i);
    } else {
      ReleaseSettledKeeps(s, i);
    }
  }

  lemma ReleaseUnvisitedKeeps(s: System, i: nat)
    requires Balanced(s) && i < |s.stakes| && s.upgrader.IteratingStakes?
    requires !s.stakes[i].status.Active? && !s.native[s.stakes[i].account].Live()
    ensures !Broken(ReleaseCooled(s, i))
    ensures ReleaseCooled(s, i).Success? ==> Balanced(ReleaseCooled(s, i).value)
  {
    hide Sum;
    PendingFitsTotal(s);
    SumMember(s.stakes, i, StoppedStake(s.native, s.stakes[i].emergency));
    var result := ReleaseCooled(s, i);
    if result.Success? {
      var t := result.value;
      RecordsAfterRemove(s.stakes, s.native, i);
      ExactAfterRemove(s, t, i);
      StakesPhaseAfterRemove(s, t, i);
    }
  }

  lemma ReleaseSettledKeeps(s: System, i: nat)
    requires Balanced(s) && i < |s.stakes| && !s.upgrader.IteratingStakes?
    requires !s.stakes[i].status.Active?
    ensures !Broken(ReleaseCooled(s, i))
    ensures ReleaseCooled(s, i).Success? ==> Balanced(ReleaseCooled(s, i).value)
  {
    hide Sum;
    SumMember(s.stakes, i, CoolingStake(s.stakes[i].emergency));
    var result := ReleaseCooled(s, i);
    if result.Success? {
      var t := result.value;
      RecordsAfterRemove(s.stakes, s.native, i);
      ExactAfterRemove(s, t, i);
      SettledAfterRemove(s, t, i);
    }
  }

  lemma SettledAfterRemove(s: System, t: System, i: nat)
    requires Settled(s) && i < |s.stakes| && s.stakes[i].status.Deactivating?
    requires t.stakes == SwapRemove(s.stakes, i) && t.active == s.active
    requires if s.stakes[i].emergency then t.emergency + s.stakes[i].delegated == s.emergency && t.delayed == s.delayed
             else t.delayed + s.stakes[i].delegated == s.delayed && t.emergency == s.emergency
    ensures Settled(t)
  {
    SumSwapRemove(s.stakes, i, ActiveStake());
    SumSwapRemove(s.stakes, i, CoolingStake(false));
    SumSwapRemove(s.stakes, i, CoolingStake(true));
  }

  lemma StakesPhaseAfterRemove(s: System, t: System, i: nat)
    requires Balanced(s) && s.upgrader.IteratingStakes? && t.upgrader.IteratingStakes?
    requires i < |s.stakes| && s.stakes[i].status.Unknown? && !s.native[s.stakes[i].account].Live()
    requires t.stakes == SwapRemove(s.stakes, i) && t.validators == s.validators && t.native == s.native
    requires t.upgrader.visited == s.upgrader.visited && t.upgrader.activeBalance == s.upgrader.activeBalance
    requires t.active + t.delayed + t.emergency + s.stakes[i].delegated == s.active + s.delayed + s.emergency
    requires var x := s.stakes[i].delegated;
      && (if s.stakes[i].emergency then t.delayed == s.delayed && t.emergency == SatSub(s.emergency, x)
          else t.emergency == s.emergency && t.delayed == SatSub(s.delayed, x))
    ensures StakesPhase(t)
  {
    SumSwapRemove(s.stakes, i, ActiveCount());
    SumSwapRemove(s.stakes, i, ActiveStake());
    SumSwapRemove(s.stakes, i, Delegated());
    SumSwapRemove(s.stakes, i, StoppedStake(s.native, false));
    SumSwapRemove(s.stakes, i, StoppedStake(s.native, true));
    forall k | 0 <= k < |t.validators|
      ensures t.validators[k].active >= t.validators[k].upgrading
          + Sum(t.stakes, PendingStakeOn(t.native, t.validators[k].vote))
    {
      SumSwapRemove(s.stakes, i, PendingStakeOn(s.native, s.validators[k].vote));
    }
  }

  lemma {:induction false} CountAll(stakes: seq<StakeRecord>)
    ensures Sum(stakes, ActiveCount()) <= |stakes|
    ensures Sum(stakes, ActiveCount()) == |stakes| ==> forall i :: 0 <= i < |stakes| ==> stakes[i].status.Active?
  {
    if stakes != [] {
      CountAll(stakes[1..]);
      if Sum(stakes, ActiveCount()) == |stakes| {
        forall i | 0 <= i < |stakes| ensures stakes[i].status.Active? {
          assert i > 0 ==> stakes[i] == stakes[1..][i - 1];
        }
      }
    }
  }

  ghost predicate AllActive(stakes: seq<StakeRecord>) {
    forall i :: 0 <= i < |stakes| ==> stakes[i].status.Active?
  }

  /** When every record was visited, both cooling buckets are empty and the re-derived total is
      the total: the upgrader's check passes and the phase can change. */
  lemma AllVisited(s: System)
    requires Balanced(s) && s.upgrader.IteratingStakes? && s.upgrader.visited == |s.stakes|
    ensures s.delayed == 0 && s.emergency == 0 && s.upgrader.activeBalance == s.active
    ensures AllActive(s.stakes)
  {
    CountAll(s.stakes);
    SumZero(s.stakes, StoppedStake(s.native, false));
    SumZero(s.stakes, StoppedStake(s.native, true));
    SumSame(s.stakes, Delegated(), ActiveStake());
  }

  lemma NextPhaseKeeps(s: System)
    requires Balanced(s)
    ensures NextPhase(s).Success? && Balanced(NextPhase(s).value)
    ensures NextPhase(s).value.stakes == s.stakes
    ensures s.upgrader.IteratingStakes? && !NextPhase(s).value.upgrader.IteratingStakes? ==> AllActive(s.stakes)
  {
    if s.upgrader.IteratingStakes? && s.upgrader.visited == |s.stakes| {
      AllVisited(s);
      var t := NextPhase(s).value;
      SumZero(s.stakes, CoolingStake(false));
      SumZero(s.stakes, CoolingStake(true));
      SumSplit(s.validators, Balance(), Upgrading(), Gap());
      assert t.validators[0..] == t.validators;
    }
  }

  // ---------------------------------------------------------------- finalizing validators

  /** A batch takes the re-derived balances over, one validator after another: the slots before
      the batch and behind it keep what they had. */
  lemma {:induction false} FinalizeFromIs(validators: seq<ValidatorRecord>, visited: nat, left: nat, max: nat)
    requires visited <= |validators|
    ensures var r := FinalizeFrom(validators, visited, left, max);
      r.Success? ==>
        var (after, seen, rest) := r.value;
        && seen == Min(visited + max, |validators|)
        && |after| == |validators|
        && (forall j :: 0 <= j < |validators| ==>
              after[j] == if visited <= j < seen
                          then validators[j].(active := validators[j].upgrading, upgrading := 0) else validators[j])
    decreases max
  {
    if visited < |validators| && max > 0 {
      var v := validators[visited];
      if v.upgrading <= v.active && v.active - v.upgrading <= left {
        FinalizeFromIs(validators[visited := v.(active := v.upgrading, upgrading := 0)], visited + 1,
                       left - (v.active - v.upgrading), max - 1);
      }
    }
  }

  /** What is left for the validators behind stays exactly their gaps, and the balances drop by
      what was taken off. */
  lemma {:induction false} FinalizeFromBalance(validators: seq<ValidatorRecord>, visited: nat, left: nat, max: nat)
    requires visited <= |validators|
    requires forall j :: visited <= j < |validators| ==> validators[j].upgrading <= validators[j].active
    requires left == Sum(validators[visited..], Gap())
    ensures var r := FinalizeFrom(validators, visited, left, max);
      && r.Success?
      && var (after, seen, rest) := r.value;
      && seen <= |after|
      && rest == Sum(after[seen..], Gap())
      && Sum(after, Balance()) + left == Sum(validators, Balance()) + rest
      && Sum(after, Score()) == Sum(validators, Score())
    decreases max
  {
    if visited < |validators| && max > 0 {
      var v := validators[visited];
      var w := v.(active := v.upgrading, upgrading := 0);
      var next := validators[visited := w];
      assert validators[visited..][1..] == next[visited + 1..];
      SumSet(validators, visited, w, Balance());
      SumSet(validators, visited, w, Score());
      FinalizeFromBalance(next, visited + 1, left - (v.active - v.upgrading), max - 1);
    }
  }

  /** A batch always succeeds: every gap is covered, and when the last validator was visited
      nothing is left. */
  lemma FinalizeBatchIs(s: System, max: nat)
    requires s.upgrader.IteratingValidators? && ValidatorsPhase(s) && BalancesAddUp(s)
    ensures FinalizeBatch(s, max).Success?
    ensures var t := FinalizeBatch(s, max).value;
      && t == s.(validators := t.validators, upgrader := t.upgrader)
      && !t.upgrader.IteratingStakes?
      && |t.validators| == |s.validators|
      && (forall j :: 0 <= j < |s.validators| ==>
            && t.validators[j].vote == s.validators[j].vote
            && Exact(t.upgrader, j, t.validators[j]) == Exact(s.upgrader, j, s.validators[j]))
      && Sum(t.validators, Score()) == Sum(s.validators, Score())
      && BalancesAddUp(t)
      && (t.upgrader.IteratingValidators? ==> ValidatorsPhase(t))
  {
    FinalizeFromIs(s.validators, s.upgrader.visited, s.upgrader.balanceLeft, max);
    FinalizeFromBalance(s.validators, s.upgrader.visited, s.upgrader.balanceLeft, max);
    hide Sum, FinalizeFrom;
    var (after, seen, rest) := FinalizeFrom(s.validators, s.upgrader.visited, s.upgrader.balanceLeft, max).value;
    if seen == |after| {
      SumEmpty(after[seen..], Gap());
    }
  }

  lemma FinalizeBatchKeeps(s: System, max: nat)
    requires Balanced(s) && s.upgrader.IteratingValidators?
    ensures FinalizeBatch(s, max).Success? && Balanced(FinalizeBatch(s, max).value)
  {
    hide Sum, FinalizeBatch;
    FinalizeBatchIs(s, max);
    SameVotes(s, FinalizeBatch(s, max).value);
  }

  lemma SameVotes(s: System, t: System)
    requires ValidatorsOk(s) && |t.validators| == |s.validators|
    requires forall j :: 0 <= j < |s.validators| ==> t.validators[j].vote == s.validators[j].vote
    requires t.flags == s.flags && t.totalScore == s.totalScore
        && Sum(t.validators, Score()) == Sum(s.validators, Score())
    ensures ValidatorsOk(t)
  {
    forall vote | vote in t.flags
      ensures exists k :: 0 <= k < |t.validators| && t.validators[k].vote == vote
    {
      var k :| 0 <= k < |s.validators| && s.validators[k].vote == vote;
      assert t.validators[k].vote == vote;
    }
  }

  // ---------------------------------------------------------------- merging and moving records

  lemma MergeRecordsKeeps(s: System, c: nat, i: nat, j: nat, extra: nat)
    requires Balanced(s) && c < |s.stakes| && i < |s.stakes| && c != i && j < |s.validators| && s.upgrader.Done?
    requires s.stakes[c].status.Active? && s.stakes[i].status.Active?
    requires s.native[s.stakes[c].account].voter == s.validators[j].vote
    requires s.native[s.stakes[i].account].voter == s.validators[j].vote
    ensures !Broken(MergeRecords(s, c, i, j, extra))
    ensures MergeRecords(s, c, i, j, extra).Success? ==> Balanced(MergeRecords(s, c, i, j, extra).value)
  {
    hide Sum;
    var result := MergeRecords(s, c, i, j, extra);
    if result.Success? {
      var t := result.value;
      var v := t.validators[j];
      // the source is emptied first, then the canonical record filled, then the source dropped
      var emptied := s.stakes[i].(delegated := 0);
      var filled := s.stakes[c].(delegated := s.stakes[c].delegated + s.stakes[i].delegated + extra);
      var mid := s.(stakes := s.stakes[i := emptied][c := filled]);
      assert SwapRemove(mid.stakes, i) == t.stakes;
      MergeExact(s, t, c, i, j, emptied, filled, v);
      RecordsAfterSet(s.stakes, s.native, i, emptied);
      RecordsAfterSet(s.stakes[i := emptied], s.native, c, filled);
      RecordsAfterRemove(mid.stakes, s.native, i);
      ValidatorsAfterSet(s, t, j, v);
      SumSet(s.validators, j, v, Balance());
      SettledSums(s.stakes, i, emptied);
      SettledSums(s.stakes[i := emptied], c, filled);
      SumSwapRemove(mid.stakes, i, ActiveStake());
      SumSwapRemove(mid.stakes, i, CoolingStake(false));
      SumSwapRemove(mid.stakes, i, CoolingStake(true));
    }
  }

  lemma MergeExact(s: System, t: System, c: nat, i: nat, j: nat, emptied: StakeRecord, filled: StakeRecord,
                   v: ValidatorRecord)
    requires RecordsOk(s.stakes, s.native) && ExactBalances(s) && Distinct(s.validators) && s.upgrader.Done?
    requires c < |s.stakes| && i < |s.stakes| && c != i && j < |s.validators|
    requires s.stakes[c].status.Active? && s.stakes[i].status.Active?
    requires emptied == s.stakes[i].(delegated := 0) && filled == s.stakes[c].(delegated := filled.delegated)
    requires s.native[s.stakes[c].account].voter == s.native[s.stakes[i].account].voter == v.vote
        == s.validators[j].vote
    requires v.active + s.stakes[c].delegated + s.stakes[i].delegated == s.validators[j].active + filled.delegated
    requires t.stakes == SwapRemove(s.stakes[i := emptied][c := filled], i)
    requires t.validators == s.validators[j := v] && t.native == s.native && t.upgrader == s.upgrader
    ensures ExactBalances(t)
  {
    hide Sum;
    forall k | 0 <= k < |t.validators|
      ensures Exact(t.upgrader, k, t.validators[k]) == Sum(t.stakes, ActiveStakeOn(t.native, t.validators[k].vote))
    {
      var w := ActiveStakeOn(s.native, s.validators[k].vote);
      SumSet(s.stakes, i, emptied, w);
      SumSet(s.stakes[i := emptied], c, filled, w);
      SumSwapRemove(s.stakes[i := emptied][c := filled], i, w);
      if k != j {
        assert s.validators[k].vote != s.validators[j].vote;
      }
    }
  }

  lemma MoveRecordKeeps(s: System, i: nat, account: Key)
    requires Balanced(s) && i < |s.stakes| && s.upgrader.Done?
    requires s.native[s.stakes[i].account].Live()
    requires forall k :: 0 <= k < |s.stakes| ==> s.stakes[k].account != account
    requires RecordOk(StakeRecord(account, s.stakes[i].delegated, s.clock.epoch, false, StakeStatus.Active), s.native)
    requires s.native[account].voter == s.native[s.stakes[i].account].voter
    ensures !Broken(MoveRecord(s, i, account))
    ensures MoveRecord(s, i, account).Success? ==>
              && Balanced(MoveRecord(s, i, account).value)
              && MoveRecord(s, i, account).value.stakes ==
                 s.stakes[i := StakeRecord(account, s.stakes[i].delegated, s.clock.epoch, false, StakeStatus.Active)]
  {
    hide Sum;
    var result := MoveRecord(s, i, account);
    if result.Success? {
      var t := result.value;
      var r := StakeRecord(account, s.stakes[i].delegated, s.clock.epoch, false, StakeStatus.Active);
      PushThenRemoveReplaces(s.stakes, i, r);
      assert t.stakes == s.stakes[i := r];
      forall k | 0 <= k < |t.validators|
        ensures Exact(t.upgrader, k, t.validators[k]) == Sum(t.stakes, ActiveStakeOn(t.native, t.validators[k].vote))
      {
        SumSet(s.stakes, i, r, ActiveStakeOn(s.native, s.validators[k].vote));
      }
      SettledSums(s.stakes, i, r);
    }
  }

  // ---------------------------------------------------------------- the validator list

  lemma PushValidatorKeeps(s: System, t: System, v: ValidatorRecord)
    requires Balanced(s) && s.upgrader.Done? && v.vote !in s.flags && v.active == 0
    requires t
        == s.(validators := s.validators + [v], totalScore := s.totalScore + v.score, flags := s.flags + {v.vote})
    ensures Balanced(t)
  {
    SumPush(s.validators, v, Balance());
    SumPush(s.validators, v, Score());
    forall x | x in s.stakes ensures ActiveStakeOn(s.native, v.vote)(x) == 0 {
      var i :| 0 <= i < |s.stakes| && s.stakes[i] == x;
    }
    SumZero(s.stakes, ActiveStakeOn(s.native, v.vote));
    assert t.validators[|s.validators|].vote == v.vote;
    forall vote | vote in t.flags
      ensures exists k :: 0 <= k < |t.validators| && t.validators[k].vote == vote
    {
      if vote in s.flags {
        var k :| 0 <= k < |s.validators| && s.validators[k].vote == vote;
        assert t.validators[k].vote == vote;
      }
    }
  }

  lemma DropValidatorKeeps(s: System, t: System, j: nat)
    requires Balanced(s) && s.upgrader.Done? && j < |s.validators| && s.validators[j].active == 0
    requires s.validators[j].score <= s.totalScore
    requires t == s.(validators := SwapRemove(s.validators, j), totalScore := s.totalScore - s.validators[j].score,
                     flags := s.flags - {s.validators[j].vote})
    ensures Balanced(t)
  {
    hide Sum;
    var gone := s.validators[j].vote;
    SumSwapRemove(s.validators, j, Balance());
    SumSwapRemove(s.validators, j, Score());
    forall i | 0 <= i < |s.stakes| && s.stakes[i].status.Active?
      ensures s.native[s.stakes[i].account].voter in t.flags || s.stakes[i].delegated == 0
    {
      if s.native[s.stakes[i].account].voter == gone {
        RecordCovered(s, i, j);
      }
    }
    forall vote | vote in t.flags
      ensures exists k :: 0 <= k < |t.validators| && t.validators[k].vote == vote
    {
      var k :| 0 <= k < |s.validators| && s.validators[k].vote == vote;
      var slot := if k == |s.validators| - 1 then j else k;
      assert t.validators[slot].vote == vote;
    }
    forall k | 0 <= k < |t.validators|
      ensures Exact(t.upgrader, k, t.validators[k]) == Sum(t.stakes, ActiveStakeOn(t.native, t.validators[k].vote))
    {
      assert t.validators[k] == s.validators[if k == j then |s.validators| - 1 else k];
    }
  }

  lemma SetScoreKeeps(s: System, t: System, j: nat, score: nat)
    requires Balanced(s) && j < |s.validators| && s.validators[j].score <= s.totalScore
    requires t == s.(validators := s.validators[j := s.validators[j].(score := score)],
                     totalScore := s.totalScore - s.validators[j].score + score)
    ensures Balanced(t)
  {
    hide Sum;
    var v := s.validators[j].(score := score);
    SumSet(s.validators, j, v, Balance());
    SumSet(s.validators, j, v, Score());
    SumSet(s.validators, j, v, Upgrading());
    forall vote | vote in t.flags
      ensures exists k :: 0 <= k < |t.validators| && t.validators[k].vote == vote
    {
      var k :| 0 <= k < |s.validators| && s.validators[k].vote == vote;
      assert t.validators[k].vote == vote;
    }
    if s.upgrader.IteratingValidators? {
      ValidatorsPhaseAfterSet(s, t, j, v);
    }
  }

  /** Only the epoch of a validator's last stake-delta changes. */
  lemma TouchKeeps(s: System, t: System, j: nat, epoch: nat)
    requires Balanced(s) && j < |s.validators| && s.upgrader.Done?
    requires t == s.(validators := s.validators[j := s.validators[j].(deltaEpoch := epoch)], deltaEpoch := t.deltaEpoch)
    ensures Balanced(t)
  {
    hide Sum;
    var v := s.validators[j].(deltaEpoch := epoch);
    SumSet(s.validators, j, v, Balance());
    ValidatorsAfterSet(s, t, j, v);
  }
}
