/** What the update cranks mint for the protocol, the price they leave, and what synchronising means. */
module Rewards {
  import opened Base
  import opened Calc
  import opened Model
  import opened Ledger
  import opened Instructions
  import opened Machine
  import opened Invariant
  import opened Shapes
  import opened Amounts

  /** Synchronising sets the reserve on the books to what is in the reserve beyond its rent and the supply to
      what exists, and closes deposits when more exists than was known. */
  lemma SyncIs(s: System)
    ensures var t := Sync(s);
      && t == s.(reserve := t.reserve, supply := s.msolLeg + s.msolHeld, cfg := t.cfg)
      && (s.reserveLamports >= s.cfg.tokenRent ==> t.reserve + s.cfg.tokenRent == s.reserveLamports)
      && (s.reserveLamports < s.cfg.tokenRent ==> t.reserve == 0)
      && t.cfg == s.cfg.(stakingCap := t.cfg.stakingCap)
      && (t.cfg.stakingCap == if s.msolLeg + s.msolHeld > s.supply then 0 else s.cfg.stakingCap)
  {
  }

  /** The protocol's shares: what its part of the income buys at the price before the income is booked. */
  ghost predicate ProtocolFee(minted: nat, income: nat, points: nat, behind: nat, supply: nat) {
    exists part: nat :: Points(part, income, points) && Buys(minted, part, behind, supply)
  }

  lemma FeeIsMinted(s: System, income: u64)
    requires s.cfg.rewardFee <= MAX_BASIS_POINTS
    ensures var r := MintProtocolFees(s, income);
      r.Success? ==>
        && r.value.supply >= s.supply
        && var minted: nat := r.value.supply - s.supply;
        && r.value == s.(supply := s.supply + minted, msolHeld := s.msolHeld + minted)
        && ProtocolFee(minted, income, s.cfg.rewardFee, Behind(s), s.supply)
  {
    hide MsolFromLamports, FeeApply, Points, Buys, Behind, Under;
    var part := FeeApply(s.cfg.rewardFee, income);
    PointsIff(s.cfg.rewardFee, income, part);
    var msol := MsolFromLamports(s, part);
    if msol.Success? {
      BuysIff(s, part, msol.value);
    }
  }

  lemma PriceIs(s: System)
    ensures var r := UpdatePrice(s);
      r.Success? ==> r.value == s.(price := r.value.price) && IsWorth(r.value.price, 0x1_0000_0000, Behind(s), s.supply)
  {
    hide MsolToSol, IsWorth, Behind, Under;
    var price := MsolToSol(s, PRICE_DENOMINATOR);
    if price.Success? {
      WorthIff(s, PRICE_DENOMINATOR, price.value);
    }
  }

  // ---------------------------------------------------------------- active stake

  /** What is on the account beyond its stake and rent. */
  function Extra(a: StakeAccount): nat {
    if a.lamports > a.rent + a.stake then a.lamports - a.rent - a.stake else 0
  }

  /** First the extra lamports are in the reserve, and the protocol gets its part of them; then it gets its
      part of what the stake grew by since the record, at the price before that is booked. */
  ghost predicate RewardsTaxed(s: System, recorded: nat, a: StakeAccount, treasury: bool, first: nat, second: nat) {
    var synced := Sync(s);
    var behind := Behind(synced.(reserve := synced.reserve + Extra(a)));
    && (if treasury && Extra(a) > 0 then ProtocolFee(first, Extra(a), s.cfg.rewardFee, behind, synced.supply)
        else first == 0)
    && (if treasury && a.stake > recorded
        then ProtocolFee(second, a.stake - recorded, s.cfg.rewardFee, behind, synced.supply + first) else second == 0)
  }

  lemma UpdateActiveRewards(s: System, i: nat, account: Key, j: nat, treasury: bool)
    requires s.cfg.rewardFee <= MAX_BASIS_POINTS
    ensures var r := UpdateActive(s, i, account, j, treasury);
      r.Success? ==>
        && ActiveReady(s, i, account, j)
        && exists first: nat, second: nat ::
             RewardsTaxed(s, s.stakes[i].delegated, s.native[account], treasury, first, second)
             && r.value.supply == Sync(s).supply + first + second
             && r.value.msolHeld == s.msolHeld + first + second
             && IsWorth(r.value.price, 0x1_0000_0000, Behind(r.value), r.value.supply)
  {
    UpdateActiveGuards(s, i, account, j, treasury);
    if UpdateActive(s, i, account, j, treasury).Success? {
      BeginShape(s, i, account, j);
      hide Begin, RefreshActive, RewardsTaxed, IsWorth, Behind, Under;
      RefreshRewards(s, i, account, j, treasury);
    }
  }

  lemma RefreshRewards(s: System, i: nat, account: Key, j: nat, treasury: bool)
    requires ActiveReady(s, i, account, j) && s.cfg.rewardFee <= MAX_BASIS_POINTS
    requires RefreshActive(Sync(s), i, account, j, treasury).Success?
    ensures var t := RefreshActive(Sync(s), i, account, j, treasury).value;
      exists first: nat, second: nat ::
        RewardsTaxed(s, s.stakes[i].delegated, s.native[account], treasury, first, second)
        && t.supply == Sync(s).supply + first + second && t.msolHeld == s.msolHeld + first + second
        && IsWorth(t.price, 0x1_0000_0000, Behind(t), t.supply)
  {
    hide SweepExtra, BookActive, ProtocolFee, IsWorth, RewardsTaxed, RewardsTaxedFrom, Behind, Under, Inner;
    var a := s.native[account];
    UpgradedFields(Sync(s), i, j);
    hide UpgradeRecord;
    var upgraded := UpgradeRecord(Sync(s), i, j).value;
    SweptFields(upgraded, account, SatSub(a.lamports - a.rent, a.stake), treasury);
    SweepAndBookRewards(upgraded, i, account, j, treasury);
    var t := RefreshActive(Sync(s), i, account, j, treasury).value;
    var first: nat, second: nat :| RewardsTaxedFrom(upgraded, s.stakes[i].delegated, a, treasury, first, second)
                                   && t.supply == upgraded.supply + first + second
                                   && t.msolHeld == upgraded.msolHeld + first + second;
    hide RefreshActive;
    TaxedSame(s, upgraded, s.stakes[i].delegated, a, treasury, first, second);
  }

  lemma UpgradedFields(s: System, i: nat, j: nat)
    requires i < |s.stakes| && j < |s.validators|
    ensures var r := UpgradeRecord(s, i, j);
      r.Success? ==>
        && r.value == s.(upgrader := r.value.upgrader, stakes := r.value.stakes, validators := r.value.validators)
        && |r.value.stakes| == |s.stakes| && |r.value.validators| == |s.validators|
        && r.value.stakes[i].delegated == s.stakes[i].delegated
  {
    UpgradeShape(s, i, j);
    hide UpgradeRecord;
  }

  /** The same, from the synchronised state. */
  ghost predicate RewardsTaxedFrom(s: System, recorded: nat, a: StakeAccount, treasury: bool, first: nat, second: nat) {
    var behind := Behind(s.(reserve := s.reserve + Extra(a)));
    && (if treasury && Extra(a) > 0 then ProtocolFee(first, Extra(a), s.cfg.rewardFee, behind, s.supply)
        else first == 0)
    && (if treasury && a.stake > recorded
        then ProtocolFee(second, a.stake - recorded, s.cfg.rewardFee, behind, s.supply + first) else second == 0)
  }

  lemma TaxedSame(s: System, t: System, recorded: nat, a: StakeAccount, treasury: bool, first: nat, second: nat)
    requires t == Sync(s).(upgrader := t.upgrader, stakes := t.stakes, validators := t.validators)
    ensures RewardsTaxedFrom(t, recorded, a, treasury, first, second) <==>
        RewardsTaxed(s, recorded, a, treasury, first, second)
  {
    SameBehind(Sync(s).(reserve := Sync(s).reserve + Extra(a)), t.(reserve := t.reserve + Extra(a)));
    hide Behind, Under, Extra, ProtocolFee;
  }

  lemma SweepAndBookRewards(s: System, i: nat, account: Key, j: nat, treasury: bool)
    requires i < |s.stakes| && j < |s.validators| && account in s.native && s.cfg.rewardFee <= MAX_BASIS_POINTS
    requires s.native[account].rent <= s.native[account].lamports
    requires var a := s.native[account];
      var swept := SweepExtra(s, account, SatSub(a.lamports - a.rent, a.stake), treasury);
      && swept.Success? && |swept.value.stakes| == |s.stakes| && |swept.value.validators| == |s.validators|
      && BookActive(swept.value, i, j, a.stake, treasury).Success?
    ensures var a := s.native[account];
      var t := BookActive(SweepExtra(s, account, SatSub(a.lamports - a.rent, a.stake), treasury).value, i, j, a.stake,
                          treasury).value;
      && IsWorth(t.price, 0x1_0000_0000, Behind(t), t.supply)
      && exists first: nat, second: nat ::
           RewardsTaxedFrom(s, s.stakes[i].delegated, a, treasury, first, second)
           && t.supply == s.supply + first + second && t.msolHeld == s.msolHeld + first + second
  {
    hide *;
    var a := s.native[account];
    var extra := SatSub(a.lamports - a.rent, a.stake);
    ExtraIs(a);
    SweepRewards(s, account, extra, treasury);
    SweptFields(s, account, extra, treasury);
    var swept := SweepExtra(s, account, extra, treasury).value;
    BookRewards(swept, i, j, a.stake, treasury);
    var t := BookActive(swept, i, j, a.stake, treasury).value;
    var first: nat, second: nat := swept.supply - s.supply, t.supply - swept.supply;
    TaxedInSteps(s, swept, first, second, s.stakes[i].delegated, a, treasury);
  }

  lemma ExtraIs(a: StakeAccount)
    requires a.rent <= a.lamports
    ensures Extra(a) == SatSub(a.lamports - a.rent, a.stake) <= a.lamports
  {
  }

  lemma SweptFields(s: System, account: Key, extra: nat, treasury: bool)
    requires account in s.native && extra <= s.native[account].lamports
    ensures var r := SweepExtra(s, account, extra, treasury);
      r.Success? ==>
        && r.value.active == s.active && r.value.delayed == s.delayed && r.value.emergency == s.emergency
        && r.value.reserve == s.reserve + extra && r.value.ticketBalance == s.ticketBalance
        && r.value.cfg == s.cfg && r.value.stakes == s.stakes && r.value.validators == s.validators
  {
    SweepShape(s, account, extra, treasury);
    hide SweepExtra, OnlyMinted;
  }

  lemma TaxedInSteps(s: System, swept: System, first: nat, second: nat, recorded: nat, a: StakeAccount, treasury: bool)
    requires swept.active == s.active && swept.delayed == s.delayed && swept.emergency == s.emergency
    requires swept.reserve == s.reserve + Extra(a) && swept.ticketBalance == s.ticketBalance && swept.cfg == s.cfg
    requires swept.supply == s.supply + first
    requires if treasury && Extra(a) > 0
             then ProtocolFee(first, Extra(a), s.cfg.rewardFee, Behind(swept), s.supply) else first == 0
    requires if treasury && a.stake > recorded
             then ProtocolFee(second, a.stake - recorded, s.cfg.rewardFee, Behind(swept), swept.supply) else second == 0
    ensures RewardsTaxedFrom(s, recorded, a, treasury, first, second)
  {
    SameBehind(s.(reserve := s.reserve + Extra(a)), swept);
    hide Behind, Under, Extra, ProtocolFee;
  }

  lemma SameBehind(s: System, t: System)
    requires t.active == s.active && t.delayed == s.delayed && t.emergency == s.emergency && t.reserve == s.reserve
    requires t.ticketBalance == s.ticketBalance
    ensures Behind(t) == Behind(s)
  {
  }

  lemma SweepRewards(s: System, account: Key, extra: nat, treasury: bool)
    requires account in s.native && extra <= s.native[account].lamports && s.cfg.rewardFee <= MAX_BASIS_POINTS
    ensures var r := SweepExtra(s, account, extra, treasury);
      r.Success? ==>
        && r.value.supply >= s.supply && r.value.msolHeld == s.msolHeld + (r.value.supply - s.supply)
        && (if treasury && extra > 0
            then ProtocolFee(r.value.supply - s.supply, extra, s.cfg.rewardFee, Behind(r.value), s.supply)
            else r.value.supply == s.supply)
  {
    hide MintProtocolFees, ProtocolFee;
    if extra > 0 && s.reserve + extra <= U64_MAX {
      var swept := s.(reserve := s.reserve + extra, reserveLamports := s.reserveLamports + extra,
                      native := Swept(s, account, extra));
      FeeIsMinted(swept, extra);
      hide Behind;
      if treasury && MintProtocolFees(swept, extra).Success? {
        SameBehind(swept, MintProtocolFees(swept, extra).value);
      }
    }
  }

  lemma BookRewards(s: System, i: nat, j: nat, delegated: nat, treasury: bool)
    requires i < |s.stakes| && j < |s.validators| && s.cfg.rewardFee <= MAX_BASIS_POINTS
    ensures var r := BookActive(s, i, j, delegated, treasury);
      r.Success? ==>
        && r.value.supply >= s.supply && r.value.msolHeld == s.msolHeld + (r.value.supply - s.supply)
        && (if treasury && delegated > s.stakes[i].delegated
            then ProtocolFee(r.value.supply - s.supply, delegated - s.stakes[i].delegated, s.cfg.rewardFee, Behind(s),
                             s.supply)
            else r.value.supply == s.supply)
        && IsWorth(r.value.price, 0x1_0000_0000, Behind(r.value), r.value.supply)
  {
    hide MintProtocolFees, BookAndPrice, ProtocolFee, IsWorth, Behind, Under;
    var r := BookActive(s, i, j, delegated, treasury);
    if r.Success? {
      var growth := SatSub(delegated, s.stakes[i].delegated);
      var minted := if delegated >= s.stakes[i].delegated && treasury then MintProtocolFees(s, growth) else Success(s);
      OnlyFees(s, growth);
      BookedPrice(minted.value, i, j, delegated);
      FeeIsMinted(s, growth);
      NoFeeOnNothing(s);
    }
  }

  lemma OnlyFees(s: System, income: nat)
    ensures var r := MintProtocolFees(s, income);
      r.Success? ==> r.value == s.(supply := r.value.supply, msolHeld := r.value.msolHeld)
  {
    MintFeesShape(s, income);
    hide MintProtocolFees, OnlyMinted;
  }

  lemma NoFeeOnNothing(s: System)
    requires s.cfg.rewardFee <= MAX_BASIS_POINTS
    ensures MintProtocolFees(s, 0).Success? ==> MintProtocolFees(s, 0).value.supply == s.supply
  {
    FeeIsMinted(s, 0);
    var r := MintProtocolFees(s, 0);
    hide MintProtocolFees;
    if r.Success? {
      var part: nat :| Points(part, 0, s.cfg.rewardFee) && Buys(r.value.supply - s.supply, part, Behind(s), s.supply);
      assert part == 0;
      if s.supply > 0 && Behind(s) > 0 {
        FloorAtMost(r.value.supply - s.supply, 0 * s.supply, Behind(s), 0);
      }
    }
  }

  lemma BookedPrice(s: System, i: nat, j: nat, delegated: nat)
    requires i < |s.stakes| && j < |s.validators|
    ensures var r := BookAndPrice(s, i, j, delegated);
      r.Success? ==>
        && (delegated >= s.stakes[i].delegated ==> delegated - s.stakes[i].delegated <= U64_MAX)
        && IsWorth(r.value.price, 0x1_0000_0000, Behind(r.value), r.value.supply)
        && r.value.supply == s.supply && r.value.msolHeld == s.msolHeld
  {
    BookAndPriceShape(s, i, j, delegated);
    var booked := BookDelegation(s, i, j, delegated, s.clock.epoch);
    BookedGrowth(s, i, j, delegated);
    hide BookDelegation, UpdatePrice, NextPhase, IsWorth;
    if booked.Success? {
      PriceIs(booked.value);
      var priced := UpdatePrice(booked.value);
      if priced.Success? {
        PhaseShape(priced.value);
      }
    }
  }

  lemma BookedGrowth(s: System, i: nat, j: nat, delegated: nat)
    requires i < |s.stakes| && j < |s.validators|
    ensures BookDelegation(s, i, j, delegated, s.clock.epoch).Success? && delegated >= s.stakes[i].delegated ==>
        delegated - s.stakes[i].delegated <= U64_MAX
  {
  }

  // ---------------------------------------------------------------- deactivated stake

  /** What a retired account held beyond its rent and its record is income; it is taxed before it comes in. */
  ghost predicate RemainderTaxed(s: System, recorded: nat, a: StakeAccount, treasury: bool, minted: nat) {
    var synced := Sync(s);
    if treasury && a.lamports > a.rent + recorded
    then ProtocolFee(minted, a.lamports - a.rent - recorded, s.cfg.rewardFee, Behind(synced), synced.supply)
        else minted == 0
  }

  lemma UpdateDeactivatedRewards(s: System, i: nat, account: Key, j: nat, treasury: bool)
    requires s.cfg.rewardFee <= MAX_BASIS_POINTS
    ensures var r := UpdateDeactivated(s, i, account, j, treasury);
      r.Success? ==>
        && DeactivatedReady(s, i, account, j) && s.clock.epoch > s.native[account].deactivationEpoch
        && exists minted: nat ::
             RemainderTaxed(s, s.stakes[i].delegated, s.native[account], treasury, minted)
             && r.value.supply == Sync(s).supply + minted && r.value.msolHeld == s.msolHeld + minted
             && IsWorth(r.value.price, 0x1_0000_0000, Behind(r.value), r.value.supply)
  {
    UpdateDeactivatedEffect(s, i, account, j, treasury);
    if UpdateDeactivated(s, i, account, j, treasury).Success? {
      BeginShape(s, i, account, j);
      DetectShape(Sync(s), i, j);
      hide DetectDelinquent, RetireStake, Begin, OnlyMinted, RemainderTaxed, IsWorth, Behind, Under, Inner;
      var detected := DetectDelinquent(Sync(s), i, j).value;
      RetireRewards(s, detected, i, account, treasury);
    }
  }

  lemma RetireRewards(s: System, detected: System, i: nat, account: Key, treasury: bool)
    requires i < |s.stakes| && account in s.native && s.stakes[i].account == account
    requires s.native[account].rent <= s.native[account].lamports && s.cfg.rewardFee <= MAX_BASIS_POINTS
    requires TotalLamports(detected) == TotalLamports(Sync(s)) && |detected.stakes| == |s.stakes|
    requires detected == Sync(s).(active := detected.active, emergency := detected.emergency, stakes := detected.stakes,
                                  validators := detected.validators)
    requires detected.stakes[i].account == account && detected.stakes[i].delegated == s.stakes[i].delegated
    requires RetireStake(detected, i, treasury).Success?
    ensures s.clock.epoch > s.native[account].deactivationEpoch
    ensures var t := RetireStake(detected, i, treasury).value;
      exists minted: nat ::
        RemainderTaxed(s, s.stakes[i].delegated, s.native[account], treasury, minted)
        && t.supply == Sync(s).supply + minted && t.msolHeld == s.msolHeld + minted
        && IsWorth(t.price, 0x1_0000_0000, Behind(t), t.supply)
  {
    CollectShape(detected, i, treasury);
    CollectRewards(detected, i, treasury);
    hide CollectStake, ReleaseCooled, CloseRecord, IsWorth, ProtocolFee, Inner, OnlyMinted;
    var collected := CollectStake(detected, i, treasury).value;
    ReleaseShape(collected, i);
    var released := ReleaseCooled(collected, i).value;
    ClosedPrice(released, account);
    BehindIs(detected);
    BehindIs(Sync(s));
    var t := RetireStake(detected, i, treasury).value;
    hide Under, Behind, TotalLamports, VirtualStaked, Sync;
    assert RemainderTaxed(s, s.stakes[i].delegated, s.native[account], treasury, t.supply - detected.supply);
  }

  lemma CollectRewards(s: System, i: nat, treasury: bool)
    requires i < |s.stakes| && s.stakes[i].account in s.native && s.cfg.rewardFee <= MAX_BASIS_POINTS
    ensures var r := CollectStake(s, i, treasury);
      var a := s.native[s.stakes[i].account];
      r.Success? ==>
        && s.clock.epoch > a.deactivationEpoch
        && r.value.supply >= s.supply && r.value.msolHeld == s.msolHeld + (r.value.supply - s.supply)
        && (if treasury && a.lamports > a.rent + s.stakes[i].delegated
            then ProtocolFee(r.value.supply - s.supply, a.lamports - a.rent - s.stakes[i].delegated, s.cfg.rewardFee,
                             Behind(s), s.supply)
            else r.value.supply == s.supply)
  {
    hide MintProtocolFees, ProtocolFee, Behind, Under;
    var a := s.native[s.stakes[i].account];
    if a.rent + s.stakes[i].delegated <= a.lamports && a.lamports - a.rent - s.stakes[i].delegated <= U64_MAX {
      FeeIsMinted(s, a.lamports - a.rent - s.stakes[i].delegated);
    }
    NoFeeOnNothing(s);
    MintFeesShape(s, SatSub(SatSub(a.lamports, a.rent), s.stakes[i].delegated));
  }

  lemma ClosedPrice(s: System, account: Key)
    ensures var r := CloseRecord(s, account);
      r.Success? ==>
        && r.value.supply == s.supply && r.value.msolHeld == s.msolHeld
        && IsWorth(r.value.price, 0x1_0000_0000, Behind(r.value), r.value.supply)
  {
    PriceIs(s);
    hide UpdatePrice, IsWorth;
  }
}
