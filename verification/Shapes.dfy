/** Which fields each stage of the two updates touches, and with which errors it can fail. */
module Shapes {
  import opened Base
  import opened Calc
  import opened Sums
  import opened Model
  import opened Ledger
  import opened Instructions

  /** The numbers do not fit the machine's integers. */
  predicate OutOfRange<T>(r: Result<T>) {
    r.Failure? && r.error in {Overflow, CalculationFailure}
  }

  /** Out of range, or one of the books' own failures. */
  predicate Inner<T>(r: Result<T>) {
    r.Failure? && r.error in {Overflow, CalculationFailure, Underflow, UpgradingInvariantViolation, AssertionFailed}
  }

  /** The supply only grew, and by tokens that exist. */
  predicate OnlyMinted(s: System, t: System) {
    t.supply >= s.supply && t.msolHeld - s.msolHeld == t.supply - s.supply && t.msolLeg == s.msolLeg
  }

  lemma MintedTwice(s: System, a: System, b: System, t: System)
    requires a.supply == s.supply && a.msolHeld == s.msolHeld && a.msolLeg == s.msolLeg
    requires OnlyMinted(a, b) && OnlyMinted(b, t)
    ensures OnlyMinted(s, t)
  {
  }

  /** After a synchronisation the virtual supply stays the real one. */
  lemma MintedAfterSync(s: System, t: System)
    requires OnlyMinted(Sync(s), t)
    ensures t.supply == MintSupply(t)
  {
  }

  lemma ConversionErrors(s: System, x: nat)
    ensures MsolFromLamports(s, x).Failure? ==> OutOfRange(MsolFromLamports(s, x))
    ensures MsolToSol(s, x).Failure? ==> OutOfRange(MsolToSol(s, x))
  {
  }

  lemma MintFeesShape(s: System, incoming: nat)
    ensures var r := MintProtocolFees(s, incoming);
      if r.Success? then
        && r.value == s.(supply := r.value.supply, msolHeld := r.value.msolHeld)
        && OnlyMinted(s, r.value)
      else OutOfRange(r)
  {
    ConversionErrors(s, FeeApply(s.cfg.rewardFee, incoming));
    hide MsolFromLamports;
  }

  function Swept(s: System, account: Key, extra: nat): map<Key, StakeAccount>
    requires account in s.native && extra <= s.native[account].lamports
  {
    if extra == 0 then s.native
    else s.native[account := s.native[account].(lamports := s.native[account].lamports - extra)]
  }

  lemma SweepShape(s: System, account: Key, extra: nat, treasury: bool)
    requires account in s.native && extra <= s.native[account].lamports
    ensures var r := SweepExtra(s, account, extra, treasury);
      if r.Success? then
        && r.value == s.(reserve := s.reserve + extra, reserveLamports := s.reserveLamports + extra,
                         native := Swept(s, account, extra), supply := r.value.supply, msolHeld := r.value.msolHeld)
        && OnlyMinted(s, r.value)
      else OutOfRange(r)
  {
    if extra > 0 && s.reserve + extra <= U64_MAX && treasury {
      MintFeesShape(s.(reserve := s.reserve + extra, reserveLamports := s.reserveLamports + extra,
                       native := Swept(s, account, extra)), extra);
    }
    hide MintProtocolFees;
  }

  lemma PriceShape(s: System)
    ensures var r := UpdatePrice(s);
      if r.Success? then r.value == s.(price := r.value.price) else OutOfRange(r)
  {
    ConversionErrors(s, PRICE_DENOMINATOR);
    hide MsolToSol;
  }

  lemma UpgradeShape(s: System, i: nat, j: nat)
    requires i < |s.stakes| && j < |s.validators|
    ensures var r := UpgradeRecord(s, i, j);
      if r.Success? then
        && r.value == s.(upgrader := r.value.upgrader, stakes := r.value.stakes, validators := r.value.validators)
        && r.value.stakes == s.stakes[i := r.value.stakes[i]]
        && r.value.stakes[i] == s.stakes[i].(status := r.value.stakes[i].status)
        && (s.stakes[i].status.Unknown? ==> r.value.stakes[i].status.Active?)
        && (!s.stakes[i].status.Unknown? ==> r.value == s)
        && |r.value.validators| == |s.validators|
        && (r.value.upgrader.IteratingStakes? <==> s.upgrader.IteratingStakes?)
        && (s.upgrader.Done? ==> r.value.upgrader.Done?)
      else Inner(r)
  {
  }

  lemma BookShape(s: System, i: nat, j: nat, delegated: nat, epoch: nat)
    requires i < |s.stakes| && j < |s.validators|
    ensures var r := BookDelegation(s, i, j, delegated, epoch);
      if r.Success? then
        && r.value == s.(active := s.active + delegated - s.stakes[i].delegated, upgrader := r.value.upgrader,
                         stakes := s.stakes[i := s.stakes[i].(delegated := delegated, updateEpoch := epoch)],
                         validators := r.value.validators)
        && |r.value.validators| == |s.validators|
      else Inner(r)
  {
  }

  lemma SplitOnlyNative(s: System, from: Key, to: Key, amount: nat)
    ensures var r := SplitNative(s, from, to, amount);
      r.Success? ==> r.value == s.(native := r.value.native) && to in r.value.native
  {
  }

  lemma GiveShape(s: System, i: nat, account: Key, j: nat, split: nat, burned: nat, newKey: Key)
    requires i < |s.stakes| && j < |s.validators| && split <= s.stakes[i].delegated
    ensures var r := GiveStake(s, i, account, j, split, burned, newKey);
      r.Success? ==>
        && burned <= s.supply && burned <= s.msolHeld && split <= s.active + s.stakes[i].delegated
        && r.value == s.(supply := s.supply - burned, msolHeld := s.msolHeld - burned, active := r.value.active,
                         native := r.value.native, upgrader := r.value.upgrader, stakes := r.value.stakes,
                         validators := r.value.validators)
        && r.value.active == s.active - split
        && r.value.stakes == s.stakes[i := s.stakes[i].(delegated := s.stakes[i].delegated - split)]
  {
    hide SplitNative, BookDelegation;
    var paid := BurnMsol(s, burned);
    if paid.Success? {
      var shared := SplitNative(paid.value, account, newKey, split);
      SplitOnlyNative(paid.value, account, newKey, split);
      if shared.Success? && newKey in shared.value.native {
        var given :=
          shared.value.(native := shared.value.native[newKey := shared.value.native[newKey].(ours := false)]);
        BookShape(given, i, j, s.stakes[i].delegated - split, s.stakes[i].updateEpoch);
      }
    }
  }

  lemma PhaseShape(s: System)
    ensures var r := NextPhase(s); if r.Success? then r.value == s.(upgrader := r.value.upgrader) else Inner(r)
  {
  }

  lemma NotMinted(s: System)
    ensures OnlyMinted(s, s)
  {
  }

  lemma StillMinted(s: System, a: System, t: System)
    requires OnlyMinted(s, a) && t.supply == a.supply && t.msolHeld == a.msolHeld && t.msolLeg == a.msolLeg
    ensures OnlyMinted(s, t)
  {
  }

  lemma BookAndPriceShape(s: System, i: nat, j: nat, delegated: nat)
    requires i < |s.stakes| && j < |s.validators|
    ensures var r := BookAndPrice(s, i, j, delegated);
      if r.Success? then
        && r.value == s.(active := s.active + delegated - s.stakes[i].delegated, price := r.value.price,
                         upgrader := r.value.upgrader, stakes := r.value.stakes, validators := r.value.validators)
        && r.value.stakes == s.stakes[i := s.stakes[i].(delegated := delegated, updateEpoch := s.clock.epoch)]
      else Inner(r)
  {
    hide BookDelegation, UpdatePrice, NextPhase;
    BookShape(s, i, j, delegated, s.clock.epoch);
    var booked := BookDelegation(s, i, j, delegated, s.clock.epoch);
    if booked.Success? {
      PriceShape(booked.value);
      var priced := UpdatePrice(booked.value);
      if priced.Success? {
        PhaseShape(priced.value);
      }
    }
  }

  lemma BookActiveShape(s: System, i: nat, j: nat, delegated: nat, treasury: bool)
    requires i < |s.stakes| && j < |s.validators|
    ensures var r := BookActive(s, i, j, delegated, treasury);
      if r.Success? then
        && r.value == s.(active := s.active + delegated - s.stakes[i].delegated,
                         supply := r.value.supply, msolHeld := r.value.msolHeld, price := r.value.price,
                         upgrader := r.value.upgrader, stakes := r.value.stakes, validators := r.value.validators)
        && r.value.stakes == s.stakes[i := s.stakes[i].(delegated := delegated, updateEpoch := s.clock.epoch)]
        && OnlyMinted(s, r.value)
      else Inner(r)
  {
    hide MintProtocolFees, BookAndPrice, OnlyMinted;
    var growth := SatSub(delegated, s.stakes[i].delegated);
    MintFeesShape(s, growth);
    NotMinted(s);
    var minted := if delegated >= s.stakes[i].delegated && treasury then MintProtocolFees(s, growth) else Success(s);
    if minted.Success? {
      BookAndPriceShape(minted.value, i, j, delegated);
      var r := BookAndPrice(minted.value, i, j, delegated);
      if r.Success? {
        StillMinted(s, minted.value, r.value);
      }
    }
  }

  lemma BookActiveStaysDone(s: System, i: nat, j: nat, delegated: nat, treasury: bool)
    requires i < |s.stakes| && j < |s.validators| && s.upgrader.Done?
    ensures BookActive(s, i, j, delegated, treasury).Success? ==>
        BookActive(s, i, j, delegated, treasury).value.upgrader.Done?
  {
    hide MsolFromLamports, MsolToSol;
  }

  lemma DetectShape(s: System, i: nat, j: nat)
    requires i < |s.stakes| && j < |s.validators|
    ensures var r := DetectDelinquent(s, i, j);
      if r.Success? then
        && TotalLamports(r.value) == TotalLamports(s)
        && r.value == s.(active := r.value.active, emergency := r.value.emergency, stakes := r.value.stakes,
                         validators := r.value.validators)
        && r.value.stakes == s.stakes[i := r.value.stakes[i]]
        && r.value.stakes[i]
           == s.stakes[i].(emergency := r.value.stakes[i].emergency, status := r.value.stakes[i].status)
        && (if s.stakes[i].status.Active? then
              && s.stakes[i].delegated <= s.validators[j].active
              && r.value.validators
                 == s.validators[j := s.validators[j].(active := s.validators[j].active - s.stakes[i].delegated)]
            else r.value == s)
      else Inner(r) || (s.stakes[i].status.Active? && s.stakes[i].emergency)
  {
  }

  lemma ReleaseShape(s: System, i: nat)
    requires i < |s.stakes|
    ensures var r := ReleaseCooled(s, i);
      if r.Success? then
        && TotalLamports(r.value) == TotalLamports(s) - s.stakes[i].delegated
        && r.value == s.(active := r.value.active, emergency := r.value.emergency, delayed := r.value.delayed,
                         upgrader := r.value.upgrader, stakes := SwapRemove(s.stakes, i))
        && (!s.upgrader.IteratingStakes? ==> r.value.upgrader == s.upgrader)
        && (s.upgrader.IteratingStakes? ==>
              r.value.upgrader == s.upgrader.(delinquentBalance := Delinquent(r.value.upgrader)))
      else Inner(r)
  {
  }

  function Delinquent(u: Upgrader): nat {
    if u.IteratingStakes? then u.delinquentBalance else 0
  }

  lemma WithdrawShape(s: System, account: Key)
    requires account in s.native
    ensures var r := WithdrawAll(s, account);
      if r.Success? then
        && s.native[account].rent <= s.reserve + s.native[account].lamports
        && s.native[account].rent <= s.reserveLamports + s.native[account].lamports
        && r.value == s.(reserve := s.reserve + s.native[account].lamports - s.native[account].rent,
                         reserveLamports := s.reserveLamports + s.native[account].lamports - s.native[account].rent)
      else Inner(r) || s.clock.epoch <= s.native[account].deactivationEpoch
           || s.native[account].rent > s.native[account].lamports
  {
  }

  /** A removal leaves the counters of the upgrader, or completes its first phase. */
  predicate UpgraderAfterRetire(u: Upgrader, w: Upgrader, count: nat) {
    if !u.IteratingStakes? then w == u
    else if w.IteratingStakes? then w.visited == u.visited != count && w.activeBalance == u.activeBalance
    else w.IteratingValidators? && u.visited == count
  }

  lemma CollectShape(s: System, i: nat, treasury: bool)
    requires i < |s.stakes| && s.stakes[i].account in s.native
    ensures var r := CollectStake(s, i, treasury);
      var a := s.native[s.stakes[i].account];
      if r.Success? then
        && a.rent <= a.lamports
        && r.value == s.(reserve := s.reserve + (a.lamports - a.rent),
                         reserveLamports := s.reserveLamports + (a.lamports - a.rent),
                         supply := r.value.supply, msolHeld := r.value.msolHeld)
        && OnlyMinted(s, r.value)
      else Inner(r) || s.clock.epoch <= a.deactivationEpoch || a.rent > a.lamports
  {
    var account := s.stakes[i].account;
    var a := s.native[account];
    if a.rent <= a.lamports {
      var incoming := SatSub(a.lamports - a.rent, s.stakes[i].delegated);
      MintFeesShape(s, incoming);
      var minted := if a.lamports - a.rent >= s.stakes[i].delegated && treasury then MintProtocolFees(s, incoming)
                    else Success(s);
      hide MintProtocolFees, WithdrawAll;
      if minted.Success? {
        WithdrawShape(minted.value, account);
      }
    }
  }

  /** The record leaves the list, and the total moves from its recorded stake to what its account held. */
  lemma RetireShape(s: System, i: nat, treasury: bool)
    requires i < |s.stakes| && s.stakes[i].account in s.native
    ensures var r := RetireStake(s, i, treasury);
      var a := s.native[s.stakes[i].account];
      if r.Success? then
        && a.rent <= a.lamports
        && TotalLamports(r.value) == TotalLamports(s) + (a.lamports - a.rent) - s.stakes[i].delegated
        && r.value == s.(active := r.value.active, emergency := r.value.emergency, delayed := r.value.delayed,
                         reserve := s.reserve + (a.lamports - a.rent),
                         reserveLamports := s.reserveLamports + (a.lamports - a.rent),
                         supply := r.value.supply, msolHeld := r.value.msolHeld, price := r.value.price,
                         upgrader := r.value.upgrader, stakes := SwapRemove(s.stakes, i),
                         native := s.native - {s.stakes[i].account})
        && UpgraderAfterRetire(s.upgrader, r.value.upgrader, |r.value.stakes|)
        && OnlyMinted(s, r.value)
      else Inner(r) || s.clock.epoch <= a.deactivationEpoch || a.rent > a.lamports
  {
    CollectShape(s, i, treasury);
    hide CollectStake, ReleaseCooled, UpdatePrice;
    var collected := CollectStake(s, i, treasury);
    if collected.Success? {
      ReleaseShape(collected.value, i);
      var released := ReleaseCooled(collected.value, i);
      if released.Success? {
        PriceShape(released.value);
      }
    }
  }

  /** The caller named the right slots and the instruction is allowed now. */
  predicate UpdateReady(s: System, i: nat, account: Key, j: nat) {
    && !s.cfg.paused
    && i < |s.stakes| && s.stakes[i].account == account && account in s.native
    && j < |s.validators| && s.validators[j].vote == s.native[account].voter
  }

  /** The stake is natively active, nobody recorded it as deactivating, and it holds its rent. */
  predicate ActiveReady(s: System, i: nat, account: Key, j: nat) {
    && UpdateReady(s, i, account, j) && s.native[account].Live() && !s.stakes[i].status.Deactivating?
    && !s.upgrader.IteratingValidators? && s.native[account].rent <= s.native[account].lamports
  }

  /** The stake is natively deactivating and holds its rent. */
  predicate DeactivatedReady(s: System, i: nat, account: Key, j: nat) {
    UpdateReady(s, i, account, j) && !s.native[account].Live() && s.native[account].rent <= s.native[account].lamports
  }

  lemma BeginShape(s: System, i: nat, account: Key, j: nat)
    ensures var r := Begin(s, i, account, j);
      if r.Success? then UpdateReady(s, i, account, j) && r.value == Sync(s)
      else UpdateReady(s, i, account, j) ==> OutOfRange(r)
  {
  }

  lemma UpdateActiveGuards(s: System, i: nat, account: Key, j: nat, treasury: bool)
    ensures UpdateActive(s, i, account, j, treasury).Success? ==> ActiveReady(s, i, account, j)
  {
    BeginShape(s, i, account, j);
    hide UpgradeRecord, SweepExtra, BookActive, Begin;
  }

  /** The fields an accepted update of an active stake may set, and to what. */
  ghost predicate ActiveUpdated(s: System, i: nat, account: Key, t: System)
    requires i < |s.stakes| && account in s.native && s.native[account].rent <= s.native[account].lamports
  {
    var a := s.native[account];
    var extra := SatSub(a.lamports - a.rent, a.stake);
    && s.active + a.stake >= s.stakes[i].delegated
    && t == Sync(s).(
         active := s.active + a.stake - s.stakes[i].delegated,
         reserve := Sync(s).reserve + extra, reserveLamports := s.reserveLamports + extra,
         native := Swept(s, account, extra),
         supply := t.supply, msolHeld := t.msolHeld, price := t.price,
         upgrader := t.upgrader, stakes := t.stakes, validators := t.validators)
    && t.stakes
       == s.stakes[i := s.stakes[i].(status := StakeStatus.Active, delegated := a.stake, updateEpoch := s.clock.epoch)]
    && (s.upgrader.Done? ==> t.upgrader.Done?)
  }

  lemma RefreshShape(s: System, i: nat, account: Key, j: nat, treasury: bool)
    requires ActiveReady(s, i, account, j)
    ensures var r := RefreshActive(Sync(s), i, account, j, treasury);
      if r.Success? then ActiveUpdated(s, i, account, r.value) && OnlyMinted(Sync(s), r.value) else Inner(r)
  {
    var a := s.native[account];
    var extra := SatSub(a.lamports - a.rent, a.stake);
    UpgradeShape(Sync(s), i, j);
    hide UpgradeRecord, SweepExtra, BookActive, OnlyMinted, Inner, ActiveUpdated, Booked;
    var upgraded := UpgradeRecord(Sync(s), i, j);
    if upgraded.Success? {
      SweepAndBookShape(upgraded.value, i, account, j, extra, a.stake, treasury);
      var swept := SweepExtra(upgraded.value, account, extra, treasury);
      if swept.Success? {
        var r := BookActive(swept.value, i, j, a.stake, treasury);
        if r.Success? {
          BookedIsUpdated(s, upgraded.value, r.value, i, account);
        }
      }
    }
    SameFailure(upgraded, RefreshActive(Sync(s), i, account, j, treasury));
  }

  lemma SameFailure(a: Result<System>, b: Result<System>)
    ensures a.Failure? && b == a && Inner(a) ==> Inner(b)
  {
  }

  /** From s, whose record i was classified already, to t: the extra lamports are swept and the
      delegation is booked. */
  ghost predicate Booked(s: System, i: nat, account: Key, extra: nat, delegated: nat, t: System)
    requires i < |s.stakes| && account in s.native && extra <= s.native[account].lamports
  {
    && s.active + delegated >= s.stakes[i].delegated
    && t == s.(active := s.active + delegated - s.stakes[i].delegated, reserve := s.reserve + extra,
               reserveLamports := s.reserveLamports + extra, native := Swept(s, account, extra),
               supply := t.supply, msolHeld := t.msolHeld, price := t.price,
               upgrader := t.upgrader, stakes := t.stakes, validators := t.validators)
    && t.stakes == s.stakes[i := s.stakes[i].(delegated := delegated, updateEpoch := s.clock.epoch)]
    && OnlyMinted(s, t)
    && (s.upgrader.Done? ==> t.upgrader.Done?)
  }

  lemma BookedIsUpdated(s: System, classified: System, t: System, i: nat, account: Key)
    requires i < |s.stakes| && account in s.native && s.native[account].rent <= s.native[account].lamports
    requires classified == Sync(s).(upgrader := classified.upgrader, stakes := classified.stakes,
                                    validators := classified.validators)
    requires classified.stakes == s.stakes[i := s.stakes[i].(status := StakeStatus.Active)]
    requires s.upgrader.Done? ==> classified.upgrader.Done?
    requires Booked(classified, i, account,
                    SatSub(s.native[account].lamports - s.native[account].rent, s.native[account].stake),
                    s.native[account].stake, t)
    ensures ActiveUpdated(s, i, account, t) && OnlyMinted(Sync(s), t)
  {
  }

  /** What the two last stages of an update of an active stake leave of the state. */
  lemma SweepAndBookShape(s: System, i: nat, account: Key, j: nat, extra: nat, delegated: nat, treasury: bool)
    requires i < |s.stakes| && j < |s.validators| && account in s.native && extra <= s.native[account].lamports
    ensures var swept := SweepExtra(s, account, extra, treasury);
      if swept.Failure? then Inner(swept)
      else
        && |swept.value.stakes| == |s.stakes| && |swept.value.validators| == |s.validators|
        && swept.value.stakes == s.stakes
        && var r := BookActive(swept.value, i, j, delegated, treasury);
           if r.Failure? then Inner(r)
           else Booked(s, i, account, extra, delegated, r.value)
  {
    hide SweepExtra, BookActive, OnlyMinted;
    SweepShape(s, account, extra, treasury);
    var swept := SweepExtra(s, account, extra, treasury);
    if swept.Success? {
      BookActiveShape(swept.value, i, j, delegated, treasury);
      if s.upgrader.Done? {
        BookActiveStaysDone(swept.value, i, j, delegated, treasury);
      }
      var r := BookActive(swept.value, i, j, delegated, treasury);
      if r.Success? {
        MintedTwice(s, s, swept.value, r.value);
      }
    }
  }

  /** The total moves by the swept lamports and by the change of the delegation. */
  lemma UpdateActiveEffect(s: System, i: nat, account: Key, j: nat, treasury: bool)
    ensures var r := UpdateActive(s, i, account, j, treasury);
      if r.Success? then
        && ActiveReady(s, i, account, j)
        && ActiveUpdated(s, i, account, r.value)
        && OnlyMinted(Sync(s), r.value)
      else ActiveReady(s, i, account, j) ==> Inner(r)
  {
    UpdateActiveGuards(s, i, account, j, treasury);
    if ActiveReady(s, i, account, j) {
      BeginShape(s, i, account, j);
      RefreshShape(s, i, account, j, treasury);
    }
    hide Begin, RefreshActive, ActiveUpdated, OnlyMinted;
  }

  lemma SameAfterRemoval(a: seq<StakeRecord>, b: seq<StakeRecord>, i: nat)
    requires i < |a| == |b| && b == a[i := b[i]]
    ensures SwapRemove(a, i) == SwapRemove(b, i)
  {
  }

  /** In every phase of the upgrader, for every status and either emergency flag: after the reserve
      is synchronised the total moves by exactly what the account held above its rent less what was
      recorded of it. */
  lemma UpdateDeactivatedEffect(s: System, i: nat, account: Key, j: nat, treasury: bool)
    ensures var r := UpdateDeactivated(s, i, account, j, treasury);
      if r.Success? then
        && DeactivatedReady(s, i, account, j)
        && var kept := s.native[account].lamports - s.native[account].rent;
        && TotalLamports(r.value) == TotalLamports(Sync(s)) + kept - s.stakes[i].delegated
        && r.value == Sync(s).(
             active := r.value.active, emergency := r.value.emergency, delayed := r.value.delayed,
             reserve := Sync(s).reserve + kept, reserveLamports := s.reserveLamports + kept,
             supply := r.value.supply, msolHeld := r.value.msolHeld, price := r.value.price,
             upgrader := r.value.upgrader, stakes := SwapRemove(s.stakes, i), validators := r.value.validators,
             native := s.native - {account})
        && UpgraderAfterRetire(s.upgrader, r.value.upgrader, |r.value.stakes|)
        && (if s.stakes[i].status.Active? then
              && s.stakes[i].delegated <= s.validators[j].active
              && r.value.validators
                 == s.validators[j := s.validators[j].(active := s.validators[j].active - s.stakes[i].delegated)]
            else r.value.validators == s.validators)
        && OnlyMinted(Sync(s), r.value)
      else (DeactivatedReady(s, i, account, j) && s.clock.epoch > s.native[account].deactivationEpoch
            && !(s.stakes[i].status.Active? && s.stakes[i].emergency)) ==> Inner(r)
  {
    BeginShape(s, i, account, j);
    if UpdateReady(s, i, account, j) {
      DetectShape(Sync(s), i, j);
      hide DetectDelinquent, RetireStake, Begin, OnlyMinted, SwapRemove, UpgraderAfterRetire;
      var detected := DetectDelinquent(Sync(s), i, j);
      if detected.Success? {
        RetireShape(detected.value, i, treasury);
        SameAfterRemoval(s.stakes, detected.value.stakes, i);
      }
    }
  }
}
