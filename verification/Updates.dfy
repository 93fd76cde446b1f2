/** What the two update cranks make of the validator, the buckets and the upgrader, by phase and status. */
module Updates {
  import opened Base
  import opened Calc
  import opened Sums
  import opened Model
  import opened Ledger
  import opened Instructions
  import opened Shapes
  import opened Rewards

  /** When so many of the records were visited the upgrader goes on to the validators. */
  function Onward(visited: nat, count: nat, balance: nat, delinquent: nat): Upgrader {
    if visited == count then IteratingValidators(0, delinquent) else IteratingStakes(visited, balance, delinquent)
  }

  // ---------------------------------------------------------------- active stake

  /** The validator's balance follows the stake. While stakes are visited, a record visited for the first
      time brings all its stake to what is re-derived, any other only its change. */
  ghost predicate Followed(s: System, i: nat, j: nat, stake: nat, t: System)
    requires i < |s.stakes| && j < |s.validators|
  {
    var r, v := s.stakes[i], s.validators[j];
    var unvisited := r.status.Unknown?;
    && v.active + stake >= r.delegated
    && (if s.upgrader.IteratingStakes? then
          && v.upgrading + stake >= (if unvisited then 0 else r.delegated)
          && s.upgrader.activeBalance + stake >= (if unvisited then 0 else r.delegated)
          && var before := if unvisited then 0 else r.delegated;
          && t.validators == s.validators[j := v.(active := v.active + stake - r.delegated,
                                                  upgrading := v.upgrading + stake - before)]
          && t.upgrader == Onward(s.upgrader.visited + (if unvisited then 1 else 0), |s.stakes|,
                                  s.upgrader.activeBalance + stake - before, s.upgrader.delinquentBalance)
        else
          && t.validators == s.validators[j := v.(active := v.active + stake - r.delegated)]
          && t.upgrader == s.upgrader)
  }

  lemma UpdateActiveBooks(s: System, i: nat, account: Key, j: nat, treasury: bool)
    ensures var r := UpdateActive(s, i, account, j, treasury);
      r.Success? ==> ActiveReady(s, i, account, j) && Followed(s, i, j, s.native[account].stake, r.value)
  {
    UpdateActiveGuards(s, i, account, j, treasury);
    if UpdateActive(s, i, account, j, treasury).Success? {
      BeginShape(s, i, account, j);
      hide Begin, RefreshActive, Followed;
      RefreshBooks(s, i, account, j, treasury);
    }
  }

  lemma RefreshBooks(s: System, i: nat, account: Key, j: nat, treasury: bool)
    requires ActiveReady(s, i, account, j) && RefreshActive(Sync(s), i, account, j, treasury).Success?
    ensures Followed(s, i, j, s.native[account].stake, RefreshActive(Sync(s), i, account, j, treasury).value)
  {
    hide SweepExtra, BookActive, Followed, UpgradeRecord;
    var a := s.native[account];
    var extra := SatSub(a.lamports - a.rent, a.stake);
    UpgradedFields(Sync(s), i, j);
    var upgraded := UpgradeRecord(Sync(s), i, j).value;
    SweptLists(upgraded, account, extra, treasury);
    var swept := SweepExtra(upgraded, account, extra, treasury).value;
    BookActiveFollows(swept, i, j, a.stake, treasury);
    UpgradedThenFollowed(Sync(s), i, j, a.stake, swept, BookActive(swept, i, j, a.stake, treasury).value);
    SameFollowed(s, i, j, a.stake, BookActive(swept, i, j, a.stake, treasury).value);
    hide Sync;
  }

  lemma SameFollowed(s: System, i: nat, j: nat, stake: nat, t: System)
    requires i < |s.stakes| && j < |s.validators|
    ensures Followed(Sync(s), i, j, stake, t) <==> Followed(s, i, j, stake, t)
  {
  }

  lemma SweptLists(s: System, account: Key, extra: nat, treasury: bool)
    requires account in s.native && extra <= s.native[account].lamports
    ensures var r := SweepExtra(s, account, extra, treasury);
      r.Success? ==>
        r.value.stakes == s.stakes && r.value.validators == s.validators && r.value.upgrader == s.upgrader
  {
    SweepShape(s, account, extra, treasury);
    hide SweepExtra, OnlyMinted;
  }

  /** The booking alone, of a record that was classified. */
  lemma BookActiveFollows(s: System, i: nat, j: nat, stake: nat, treasury: bool)
    requires i < |s.stakes| && j < |s.validators|
    ensures var r := BookActive(s, i, j, stake, treasury);
      r.Success? && !s.stakes[i].status.Unknown? ==> Followed(s, i, j, stake, r.value)
  {
    hide MintProtocolFees, BookAndPrice, Followed;
    var growth := SatSub(stake, s.stakes[i].delegated);
    OnlyFees(s, growth);
    var minted := if stake >= s.stakes[i].delegated && treasury then MintProtocolFees(s, growth) else Success(s);
    if minted.Success? && BookAndPrice(minted.value, i, j, stake).Success? {
      BookAndPriceFollows(minted.value, i, j, stake);
      FollowedSame(s, minted.value, i, j, stake, BookAndPrice(minted.value, i, j, stake).value);
    }
  }

  lemma FollowedSame(s: System, m: System, i: nat, j: nat, stake: nat, t: System)
    requires i < |s.stakes| && j < |s.validators|
    requires m.stakes == s.stakes && m.validators == s.validators && m.upgrader == s.upgrader
    ensures Followed(m, i, j, stake, t) <==> Followed(s, i, j, stake, t)
  {
  }

  lemma BookAndPriceFollows(s: System, i: nat, j: nat, stake: nat)
    requires i < |s.stakes| && j < |s.validators|
    ensures var r := BookAndPrice(s, i, j, stake);
      r.Success? && !s.stakes[i].status.Unknown? ==> Followed(s, i, j, stake, r.value)
  {
    hide MsolToSol;
  }

  lemma UpgradedThenFollowed(s: System, i: nat, j: nat, stake: nat, u: System, t: System)
    requires i < |s.stakes| && j < |s.validators| && UpgradeRecord(s, i, j).Success?
    requires var r := UpgradeRecord(s, i, j).value;
      u.stakes == r.stakes && u.validators == r.validators && u.upgrader == r.upgrader
    requires |u.stakes| == |s.stakes| && |u.validators| == |s.validators|
    requires !u.stakes[i].status.Unknown? ==> Followed(u, i, j, stake, t)
    ensures Followed(s, i, j, stake, t)
  {
  }

  // ---------------------------------------------------------------- deactivated stake

  /** An active record leaves the active balances; any other its cooling bucket. While stakes are visited the
      bucket gives what it has, and the rest was counted as active: it leaves the total and is delinquent. */
  ghost predicate Left(s: System, i: nat, j: nat, t: System)
    requires i < |s.stakes| && j < |s.validators|
  {
    var r, v := s.stakes[i], s.validators[j];
    var d := r.delegated;
    var bucket := if r.emergency then s.emergency else s.delayed;
    var short := if r.status.Active? || !s.upgrader.IteratingStakes? then 0 else SatSub(d, bucket);
    && t.stakes == SwapRemove(s.stakes, i)
    && (if r.status.Active? then
          && d <= s.active && d <= v.active && t.active == s.active - d
          && t.delayed == s.delayed && t.emergency == s.emergency
          && t.validators == s.validators[j := v.(active := v.active - d)]
        else
          && short <= s.active && d - short <= bucket && t.active == s.active - short
          && t.delayed == (if r.emergency then s.delayed else s.delayed - (d - short))
          && t.emergency == (if r.emergency then s.emergency - (d - short) else s.emergency)
          && t.validators == s.validators)
    && t.upgrader == (if s.upgrader.IteratingStakes?
                      then Onward(s.upgrader.visited, |s.stakes| - 1, s.upgrader.activeBalance,
                                  s.upgrader.delinquentBalance + short)
                      else s.upgrader)
  }

  lemma UpdateDeactivatedBooks(s: System, i: nat, account: Key, j: nat, treasury: bool)
    ensures var r := UpdateDeactivated(s, i, account, j, treasury);
      r.Success? ==> DeactivatedReady(s, i, account, j) && Left(s, i, j, r.value)
  {
    UpdateDeactivatedEffect(s, i, account, j, treasury);
    if UpdateDeactivated(s, i, account, j, treasury).Success? {
      BeginShape(s, i, account, j);
      hide DetectDelinquent, RetireStake, Begin, Left, OnlyMinted;
      DetectedLists(Sync(s), i, j);
      var detected := DetectDelinquent(Sync(s), i, j).value;
      RetiredLeft(detected, i, treasury);
      LeftInSteps(s, i, j, detected, RetireStake(detected, i, treasury).value);
    }
  }

  lemma DetectedLists(s: System, i: nat, j: nat)
    requires i < |s.stakes| && j < |s.validators|
    ensures var r := DetectDelinquent(s, i, j);
      r.Success? ==>
        if s.stakes[i].status.Active? then
          var d := s.stakes[i].delegated;
          && d <= s.active && d <= s.validators[j].active
          && r.value == s.(active := s.active - d, emergency := s.emergency + d,
                           stakes := s.stakes[i := s.stakes[i].(status := Deactivating, emergency := true)],
                           validators := s.validators[j := s.validators[j].(active := s.validators[j].active - d)])
        else r.value == s
  {
  }

  /** The release of a record that was detected, with the change of phase. */
  ghost predicate Released(s: System, i: nat, t: System)
    requires i < |s.stakes|
  {
    var r := s.stakes[i];
    var bucket := if r.emergency then s.emergency else s.delayed;
    var short := if s.upgrader.IteratingStakes? then SatSub(r.delegated, bucket) else 0;
    && short <= s.active && r.delegated - short <= bucket && t.active == s.active - short
    && t.delayed == (if r.emergency then s.delayed else s.delayed - (r.delegated - short))
    && t.emergency == (if r.emergency then s.emergency - (r.delegated - short) else s.emergency)
    && t.stakes == SwapRemove(s.stakes, i) && t.validators == s.validators
    && t.upgrader == (if s.upgrader.IteratingStakes?
                      then Onward(s.upgrader.visited, |s.stakes| - 1, s.upgrader.activeBalance,
                                  s.upgrader.delinquentBalance + short)
                      else s.upgrader)
  }

  lemma RetiredLeft(s: System, i: nat, treasury: bool)
    requires i < |s.stakes| && s.stakes[i].account in s.native
    ensures RetireStake(s, i, treasury).Success? ==> Released(s, i, RetireStake(s, i, treasury).value)
  {
    CollectShape(s, i, treasury);
    hide CollectStake, SwapRemove, MsolToSol, OnlyMinted;
  }

  lemma LeftInSteps(s: System, i: nat, j: nat, detected: System, t: System)
    requires i < |s.stakes| && j < |s.validators| && |detected.stakes| == |s.stakes|
    requires DetectDelinquent(Sync(s), i, j) == Success(detected) && Released(detected, i, t)
    ensures Left(s, i, j, t)
  {
    DetectedLists(Sync(s), i, j);
    SameAfterRemoval(s.stakes, detected.stakes, i);
    hide DetectDelinquent, SwapRemove;
  }
}
