/** The price of mSOL, the lamports behind it over its supply, never falls without a slash. */
module Price {
  import opened Base
  import opened Calc
  import opened Sums
  import opened Model
  import opened Ledger
  import opened Instructions
  import opened Machine
  import opened Books
  import opened Invariant
  import opened Backing
  import opened Shapes
  import opened Rounds

  /** price(s) <= price(t), cross-multiplied. */
  ghost predicate PriceKept(s: System, t: System) {
    VirtualStaked(s) * t.supply <= VirtualStaked(t) * s.supply
  }

  // ---------------------------------------------------------------- arithmetic

  /** Shares minted for a part of what comes in, at a value not below the old one, keep the price. */
  lemma MintKeepsPrice(before: nat, after: nat, supply: nat, part: nat, growth: nat, minted: nat)
    requires part <= growth && after >= before + growth
    requires before > 0 ==> exists value: nat :: value >= before && minted * value <= part * supply
    ensures before * (supply + minted) <= after * supply
  {
    if before > 0 {
      var value: nat :| value >= before && minted * value <= part * supply;
      MulLe(before, value, minted);
      MulLe(part, growth, supply);
      MulLe(before + growth, after, supply);
      assert before * (supply + minted) == before * supply + minted * before;
    }
  }

  /** Shares burned for no more than their value keep the price. */
  lemma BurnKeepsPrice(value: nat, supply: nat, burned: nat, paid: nat)
    requires burned <= supply && paid <= value && paid * supply <= burned * value
    ensures value * (supply - burned) <= (value - paid) * supply
  {
    assert value * (supply - burned) == value * supply - burned * value;
    assert (value - paid) * supply == value * supply - paid * supply;
  }

  lemma Regroup(a: nat, b: nat, c: nat)
    ensures a * b * c == (a * c) * b == (b * c) * a
  {
  }

  lemma CrossTransitive(va: nat, sa: nat, vb: nat, sb: nat, vc: nat, sc: nat)
    requires va * sb <= vb * sa && vb * sc <= vc * sb && sb > 0
    ensures va * sc <= vc * sa
  {
    MulLe(va * sb, vb * sa, sc);
    MulLe(vb * sc, vc * sb, sa);
    Regroup(va, sb, sc);
    Regroup(vb, sa, sc);
    Regroup(vc, sb, sa);
    Cancel(va * sc, vc * sa, sb);
  }

  lemma PriceTransitive(a: System, b: System, c: System)
    requires PriceKept(a, b) && PriceKept(b, c) && b.supply > 0
    ensures PriceKept(a, c)
  {
    CrossTransitive(VirtualStaked(a), a.supply, VirtualStaked(b), b.supply, VirtualStaked(c), c.supply);
  }

  lemma SamePrice(s: System, t: System)
    requires VirtualStaked(t) >= VirtualStaked(s) && t.supply <= s.supply
    ensures PriceKept(s, t)
  {
    MulLe(t.supply, s.supply, VirtualStaked(s));
    MulLe(VirtualStaked(s), VirtualStaked(t), s.supply);
  }

  // ---------------------------------------------------------------- updates

  lemma SweepKeepsPrice(s: System, account: Key, extra: nat, treasury: bool)
    requires account in s.native && extra <= s.native[account].lamports && s.supply > 0
    requires s.cfg.rewardFee <= MAX_BASIS_POINTS
    ensures var r := SweepExtra(s, account, extra, treasury);
      r.Success? ==> PriceKept(s, r.value) && r.value.supply >= s.supply
  {
    var r := SweepExtra(s, account, extra, treasury);
    if r.Success? && extra > 0 {
      var swept := s.(reserve := s.reserve + extra, reserveLamports := s.reserveLamports + extra,
                      native := r.value.native);
      var before, after := VirtualStaked(s), VirtualStaked(swept);
      if before > 0 {
        assert after == before + extra;
        if treasury {
          FeeMinted(swept, extra);
          var part := FeeApply(s.cfg.rewardFee, extra);
          hide VirtualStaked, TotalLamports, FeeApply, IsFloor, MintProtocolFees;
          MintKeepsPrice(before, after, s.supply, part, extra, r.value.supply - s.supply);
        } else {
          SamePrice(s, r.value);
        }
      }
    }
  }

  /** The protocol's shares are worth no more than its part, and nothing else moves. */
  lemma FeeMinted(s: System, incoming: nat)
    requires s.supply > 0 && VirtualStaked(s) > 0
    ensures var r := MintProtocolFees(s, incoming);
      r.Success? ==>
        && r.value.supply >= s.supply && VirtualStaked(r.value) == VirtualStaked(s)
        && (r.value.supply - s.supply) * VirtualStaked(s) <= FeeApply(s.cfg.rewardFee, incoming) * s.supply
  {
    var r := MintProtocolFees(s, incoming);
    if r.Success? {
      assert IsFloor(r.value.supply - s.supply, FeeApply(s.cfg.rewardFee, incoming) * s.supply, VirtualStaked(s));
    }
  }

  /** The protocol's fee on what is about to be booked. */
  lemma FeeThenGrowth(s: System, growth: nat, minted: System, t: System)
    requires s.supply > 0 && s.cfg.rewardFee <= MAX_BASIS_POINTS && growth <= U64_MAX
    requires MintProtocolFees(s, growth) == Success(minted) || minted == s
    requires minted.supply >= s.supply
    requires TotalLamports(t) == TotalLamports(s) + growth && t.ticketBalance == s.ticketBalance
        && t.supply == minted.supply
    ensures PriceKept(s, t)
  {
    var before := VirtualStaked(s);
    if before > 0 {
      var part := FeeApply(s.cfg.rewardFee, growth);
      var shares: nat := minted.supply - s.supply;
      FeeShares(s, growth, minted, shares);
      assert shares * before <= part * s.supply;
      MintKeepsPrice(before, VirtualStaked(t), s.supply, part, growth, shares);
    }
  }

  lemma FeeShares(s: System, growth: nat, minted: System, shares: nat)
    requires s.supply > 0 && VirtualStaked(s) > 0 && shares + s.supply == minted.supply
    requires MintProtocolFees(s, growth) == Success(minted) || minted == s
    ensures shares * VirtualStaked(s) <= FeeApply(s.cfg.rewardFee, growth) * s.supply
  {
    if minted != s {
      assert IsFloor(shares, FeeApply(s.cfg.rewardFee, growth) * s.supply, VirtualStaked(s));
    } else {
      MulLe(0, shares, VirtualStaked(s));
    }
  }

  lemma BookActiveKeepsPrice(s: System, i: nat, j: nat, delegated: nat, treasury: bool)
    requires i < |s.stakes| && j < |s.validators| && s.supply > 0 && s.cfg.rewardFee <= MAX_BASIS_POINTS
    requires delegated >= s.stakes[i].delegated
    ensures var r := BookActive(s, i, j, delegated, treasury); r.Success? ==> PriceKept(s, r.value)
  {
    BookActiveShape(s, i, j, delegated, treasury);
    var r := BookActive(s, i, j, delegated, treasury);
    if r.Success? {
      var growth: nat := delegated - s.stakes[i].delegated;
      var minted := if treasury then MintProtocolFees(s, growth) else Success(s);
      MintFeesShape(s, growth);
      BookedSupply(s, i, j, delegated, treasury);
      FeeThenGrowth(s, growth, minted.value, r.value);
    }
  }

  /** What is booked fits a `u64`, and the supply is that after the fee. */
  lemma BookedSupply(s: System, i: nat, j: nat, delegated: nat, treasury: bool)
    requires i < |s.stakes| && j < |s.validators| && delegated >= s.stakes[i].delegated
    requires BookActive(s, i, j, delegated, treasury).Success?
    ensures var minted := if treasury then MintProtocolFees(s, delegated - s.stakes[i].delegated) else Success(s);
      minted.Success? && BookActive(s, i, j, delegated, treasury).value.supply == minted.value.supply
    ensures delegated - s.stakes[i].delegated <= U64_MAX
  {
    hide MintProtocolFees, BookAndPrice, FeeApply, OnlyMinted;
    var minted := if treasury then MintProtocolFees(s, delegated - s.stakes[i].delegated) else Success(s);
    MintFeesShape(s, delegated - s.stakes[i].delegated);
    BookAndPriceShape(minted.value, i, j, delegated);
    GrowthFits(minted.value, i, j, delegated);
  }

  lemma GrowthFits(s: System, i: nat, j: nat, delegated: nat)
    requires i < |s.stakes| && j < |s.validators| && delegated >= s.stakes[i].delegated
    ensures BookAndPrice(s, i, j, delegated).Success? ==> delegated - s.stakes[i].delegated <= U64_MAX
  {
    hide PriceAndAdvance;
  }

  lemma SyncKeepsPrice(s: System)
    requires Backed(s)
    ensures PriceKept(s, Sync(s))
  {
    SamePrice(s, Sync(s));
  }

  /** The stages after the synchronisation. */
  lemma RefreshKeepsPrice(s: System, i: nat, account: Key, j: nat, treasury: bool)
    requires ActiveReady(s, i, account, j) && MintSupply(s) > 0 && s.cfg.rewardFee <= MAX_BASIS_POINTS
    requires s.native[account].stake >= s.stakes[i].delegated
    ensures RefreshActive(Sync(s), i, account, j, treasury).Success? ==>
              PriceKept(Sync(s), RefreshActive(Sync(s), i, account, j, treasury).value)
  {
    var a := s.native[account];
    var begun := Sync(s);
    var extra := SatSub(a.lamports - a.rent, a.stake);
    UpgradeShape(begun, i, j);
    var upgraded := UpgradeRecord(begun, i, j);
    hide UpgradeRecord, SweepExtra, BookActive, PriceKept, OnlyMinted, FeeApply;
    if upgraded.Success? {
      SweepAndBookKeepPrice(upgraded.value, i, account, j, extra, a.stake, treasury);
      var swept := SweepExtra(upgraded.value, account, extra, treasury);
      if swept.Success? {
        var r := BookActive(swept.value, i, j, a.stake, treasury);
        if r.Success? {
          SamePriceAs(begun, upgraded.value, r.value);
        }
      }
    }
  }

  lemma SweepAndBookKeepPrice(s: System, i: nat, account: Key, j: nat, extra: nat, delegated: nat, treasury: bool)
    requires i < |s.stakes| && j < |s.validators| && s.supply > 0 && s.cfg.rewardFee <= MAX_BASIS_POINTS
    requires account in s.native && extra <= s.native[account].lamports && delegated >= s.stakes[i].delegated
    ensures var swept := SweepExtra(s, account, extra, treasury);
      && (swept.Success? ==>
            && |swept.value.stakes| == |s.stakes| && |swept.value.validators| == |s.validators|
            && var r := BookActive(swept.value, i, j, delegated, treasury);
               r.Success? ==> PriceKept(s, r.value))
  {
    hide SweepExtra, BookActive, PriceKept, OnlyMinted, FeeApply;
    SweepKeepsPrice(s, account, extra, treasury);
    SweepShape(s, account, extra, treasury);
    var swept := SweepExtra(s, account, extra, treasury);
    if swept.Success? {
      BookActiveKeepsPrice(swept.value, i, j, delegated, treasury);
      var r := BookActive(swept.value, i, j, delegated, treasury);
      if r.Success? {
        PriceTransitive(s, swept.value, r.value);
      }
    }
  }

  lemma UpdateActiveKeepsPrice(s: System, i: nat, account: Key, j: nat, treasury: bool)
    requires Backed(s) && MintSupply(s) > 0
    requires i < |s.stakes| && account in s.native ==> s.native[account].stake >= s.stakes[i].delegated
    ensures UpdateActive(s, i, account, j, treasury).Success? ==>
        PriceKept(s, UpdateActive(s, i, account, j, treasury).value)
  {
    BeginShape(s, i, account, j);
    UpdateActiveGuards(s, i, account, j, treasury);
    if ActiveReady(s, i, account, j) {
      SyncKeepsPrice(s);
      RefreshKeepsPrice(s, i, account, j, treasury);
      hide Begin, RefreshActive, PriceKept;
      var r := RefreshActive(Sync(s), i, account, j, treasury);
      if r.Success? {
        PriceTransitive(s, Sync(s), r.value);
      }
    }
  }

  lemma SamePriceAs(a: System, b: System, c: System)
    requires PriceKept(b, c) && VirtualStaked(a) == VirtualStaked(b) && a.supply == b.supply
    ensures PriceKept(a, c)
  {
  }

  lemma CollectedSupply(s: System, i: nat, treasury: bool)
    requires i < |s.stakes| && s.stakes[i].account in s.native
    requires s.native[s.stakes[i].account].lamports >= s.native[s.stakes[i].account].rent + s.stakes[i].delegated
    requires CollectStake(s, i, treasury).Success?
    ensures var a := s.native[s.stakes[i].account];
      var growth: nat := a.lamports - a.rent - s.stakes[i].delegated;
      var minted := if treasury then MintProtocolFees(s, growth) else Success(s);
      minted.Success? && CollectStake(s, i, treasury).value.supply == minted.value.supply && growth <= U64_MAX
  {
    MintFeesShape(s,
                  s.native[s.stakes[i].account].lamports - s.native[s.stakes[i].account].rent - s.stakes[i].delegated);
    hide MintProtocolFees;
  }

  lemma RetireKeepsPrice(s: System, i: nat, treasury: bool)
    requires i < |s.stakes| && s.stakes[i].account in s.native && s.supply > 0 && s.cfg.rewardFee <= MAX_BASIS_POINTS
    requires s.native[s.stakes[i].account].lamports >= s.native[s.stakes[i].account].rent + s.stakes[i].delegated
    ensures RetireStake(s, i, treasury).Success? ==> PriceKept(s, RetireStake(s, i, treasury).value)
  {
    RetireShape(s, i, treasury);
    CollectShape(s, i, treasury);
    hide CollectStake, ReleaseCooled, UpdatePrice, MintProtocolFees;
    var r := RetireStake(s, i, treasury);
    if r.Success? {
      var collected := CollectStake(s, i, treasury).value;
      CollectedSupply(s, i, treasury);
      ReleaseShape(collected, i);
      PriceShape(ReleaseCooled(collected, i).value);
      var a := s.native[s.stakes[i].account];
      var growth: nat := a.lamports - a.rent - s.stakes[i].delegated;
      var minted := if treasury then MintProtocolFees(s, growth) else Success(s);
      FeeThenGrowth(s, growth, minted.value, r.value);
    }
  }

  lemma UpdateDeactivatedKeepsPrice(s: System, i: nat, account: Key, j: nat, treasury: bool)
    requires Backed(s) && MintSupply(s) > 0
    requires i < |s.stakes| && account in s.native ==>
               s.native[account].lamports >= s.native[account].rent + s.stakes[i].delegated
    ensures UpdateDeactivated(s, i, account, j, treasury).Success? ==>
              PriceKept(s, UpdateDeactivated(s, i, account, j, treasury).value)
  {
    BeginShape(s, i, account, j);
    if UpdateReady(s, i, account, j) {
      SyncKeepsPrice(s);
      DetectShape(Sync(s), i, j);
      hide DetectDelinquent, RetireStake, Begin, PriceKept;
      var detected := DetectDelinquent(Sync(s), i, j);
      if detected.Success? {
        RetireKeepsPrice(detected.value, i, treasury);
        var r := RetireStake(detected.value, i, treasury);
        if r.Success? {
          SamePriceAs(Sync(s), detected.value, r.value);
          PriceTransitive(s, Sync(s), r.value);
        }
      }
    }
  }

  // ---------------------------------------------------------------- users

  lemma DepositKeepsPrice(s: System, lamports: u64)
    requires Backed(s) && s.supply > 0
    ensures Deposit(s, lamports).Success? ==> PriceKept(s, Deposit(s, lamports).value)
  {
    if Deposit(s, lamports).Success? {
      DepositIs(s, lamports);
      var t := Deposit(s, lamports).value;
      var part := SatSub(lamports, Fee(s, lamports));
      var order, swapped, paid :| Deposited(s, lamports, t, part, order, swapped, paid);
      hide *;
      DepositedKeepsPrice(s, t, lamports, part, order, swapped, paid);
    }
  }

  lemma DepositedKeepsPrice(s: System, t: System, lamports: nat, part: nat, order: nat, swapped: nat, paid: nat)
    requires s.supply > 0 && Deposited(s, lamports, t, part, order, swapped, paid)
    ensures PriceKept(s, t)
  {
    VirtualAfter(s, t, lamports, part, order, swapped, paid);
    var before := VirtualStaked(s);
    if before > 0 {
      Worth(s, swapped);
      MulLe(part, lamports, s.supply);
      DepositArithmetic(before, s.supply, lamports, order, swapped, paid);
    }
  }

  lemma DepositArithmetic(before: nat, supply: nat, lamports: nat, order: nat, swapped: nat, paid: nat)
    requires order * before <= lamports * supply && swapped <= order && paid <= lamports
    requires swapped == 0 ==> paid == 0
    requires swapped == order ==> paid == lamports || paid == 0
    requires 0 < swapped < order ==> paid * supply <= swapped * before
    ensures before * (supply + (order - swapped)) <= (before + (lamports - paid)) * supply
  {
    assert before * (supply + (order - swapped)) == before * supply + order * before - swapped * before;
    assert (before + (lamports - paid)) * supply == before * supply + lamports * supply - paid * supply;
    if swapped == order {
      MulLe(paid, lamports, supply);
    } else if swapped == 0 {
      assert paid * supply == 0;
    }
  }

  lemma DepositStakeKeepsPrice(s: System, account: Key, j: nat)
    requires Backed(s) && s.supply > 0
    ensures DepositStakeAccount(s, account, j).Success? ==> PriceKept(s, DepositStakeAccount(s, account, j).value)
  {
    hide DepositStakeAccount, FeeCentsApply;
    var r := DepositStakeAccount(s, account, j);
    if r.Success? {
      DepositStakeBooks(s, account, j);
      var stake := s.native[account].stake;
      var part := SatSub(stake, FeeCentsApply(s.cfg.depositStakeFee, stake));
      if VirtualStaked(s) > 0 {
        var minted: nat := r.value.supply - s.supply;
        assert minted * VirtualStaked(s) <= part * s.supply;
        MintKeepsPrice(VirtualStaked(s), VirtualStaked(r.value), s.supply, part, stake, minted);
      }
    }
  }

  lemma DepositStakeBooks(s: System, account: Key, j: nat)
    requires DepositStakeAccount(s, account, j).Success?
    ensures var t := DepositStakeAccount(s, account, j).value;
      && account in s.native
      && var stake := s.native[account].stake;
      && TotalLamports(t) == TotalLamports(s) + stake && t.ticketBalance == s.ticketBalance
      && var msol := MsolFromLamports(s, SatSub(stake, FeeCentsApply(s.cfg.depositStakeFee, stake)));
      && msol.Success? && t.supply == s.supply + msol.value
  {
    hide MsolFromLamports;
  }

  /** What held mSOL is worth is at most all the lamports behind mSOL. */
  lemma WorthAtMostAll(s: System, msol: nat)
    requires Backed(s) && msol <= s.msolHeld && s.supply > 0 && MsolToSol(s, msol).Success?
    ensures MsolToSol(s, msol).value <= VirtualStaked(s)
    ensures MsolToSol(s, msol).value * s.supply <= msol * VirtualStaked(s)
  {
    MulLe(msol, s.supply, VirtualStaked(s));
    FloorAtMost(MsolToSol(s, msol).value, msol * VirtualStaked(s), s.supply, VirtualStaked(s));
  }

  lemma OrderUnstakeKeepsPrice(s: System, msol: u64, newKey: Key)
    requires Backed(s) && s.supply > 0
    ensures OrderUnstake(s, msol, newKey).Success? ==> PriceKept(s, OrderUnstake(s, msol, newKey).value)
  {
    var r := OrderUnstake(s, msol, newKey);
    if r.Success? {
      WorthAtMostAll(s, msol);
      var paid: nat := r.value.ticketBalance - s.ticketBalance;
      MulLe(paid, MsolToSol(s, msol).value, s.supply);
      BurnKeepsPrice(VirtualStaked(s), s.supply, msol, paid);
    }
  }

  /** A claim pays what the ticket already took off: the lamports behind mSOL do not move. */
  lemma ClaimKeepsVirtual(s: System, k: nat)
    ensures Claim(s, k).Success? ==>
              VirtualStaked(Claim(s, k).value) == VirtualStaked(s) && Claim(s, k).value.supply == s.supply
  {
  }

  /** The instruction pays out the terms: so many lamports less, so many shares fewer. */
  lemma WithdrawPays(s: System, i: nat, account: Key, j: nat, msol: u64, newKey: Key, treasury: bool)
    requires WithdrawStakeAccount(s, i, account, j, msol, newKey, treasury).Success?
    ensures i < |s.stakes| && msol <= s.msolHeld && MsolToSol(s, msol).Success?
    ensures WithdrawTerms(s, msol, s.stakes[i].delegated, treasury).Success?
    ensures var t := WithdrawStakeAccount(s, i, account, j, msol, newKey, treasury).value;
      var (split, burned) := WithdrawTerms(s, msol, s.stakes[i].delegated, treasury).value;
      && TotalLamports(t) == TotalLamports(s) - split && t.ticketBalance == s.ticketBalance
      && t.supply == s.supply - burned && burned <= s.supply
  {
    var (split, burned) := WithdrawTerms(s, msol, s.stakes[i].delegated, treasury).value;
    GiveShape(s, i, account, j, split, burned, newKey);
    hide GiveStake;
  }

  /** Without a treasury the price is kept exactly; with one, the burned shares were floored, and
      the price may lose less than the value of one base unit. */
  lemma WithdrawStakeAlmostKeepsPrice(s: System, i: nat, account: Key, j: nat, msol: u64, newKey: Key, treasury: bool)
    requires Backed(s) && s.supply > 0 && VirtualStaked(s) > 0
    requires WithdrawStakeAccount(s, i, account, j, msol, newKey, treasury).Success?
    ensures var t := WithdrawStakeAccount(s, i, account, j, msol, newKey, treasury).value;
      && VirtualStaked(s) * t.supply < VirtualStaked(t) * s.supply + VirtualStaked(s)
      && (!treasury ==> PriceKept(s, t))
  {
    WithdrawPays(s, i, account, j, msol, newKey, treasury);
    WorthAtMostAll(s, msol);
    WithdrawSplit(s, msol, s.stakes[i].delegated, treasury);
    hide WithdrawStakeAccount, WithdrawTerms, MsolToSol, Backed;
    var t := WithdrawStakeAccount(s, i, account, j, msol, newKey, treasury).value;
    var (split, burned) := WithdrawTerms(s, msol, s.stakes[i].delegated, treasury).value;
    var value := VirtualStaked(s);
    WithdrawArithmetic(value, s.supply, split, burned);
    if !treasury {
      BurnKeepsPrice(value, s.supply, burned, split);
    }
  }

  /** Exactly when such a withdrawal keeps the price: nobody but the user is paid, or the fee rounds to
      nothing, or the shares for the split come out whole. */
  lemma WithdrawStakeKeepsPriceIff(s: System, i: nat, account: Key, j: nat, msol: u64, newKey: Key, treasury: bool)
    requires Backed(s) && s.supply > 0 && VirtualStaked(s) > 0
    requires WithdrawStakeAccount(s, i, account, j, msol, newKey, treasury).Success?
    ensures i < |s.stakes| && WithdrawTerms(s, msol, s.stakes[i].delegated, treasury).Success?
    ensures var (split, burned) := WithdrawTerms(s, msol, s.stakes[i].delegated, treasury).value;
      PriceKept(s, WithdrawStakeAccount(s, i, account, j, msol, newKey, treasury).value) <==>
      (!treasury || burned == msol || (split * s.supply) % VirtualStaked(s) == 0)
  {
    WithdrawPays(s, i, account, j, msol, newKey, treasury);
    WorthAtMostAll(s, msol);
    WithdrawSplit(s, msol, s.stakes[i].delegated, treasury);
    WholeShares(s, msol, s.stakes[i].delegated, treasury);
    var t := WithdrawStakeAccount(s, i, account, j, msol, newKey, treasury).value;
    var (split, burned) := WithdrawTerms(s, msol, s.stakes[i].delegated, treasury).value;
    PaidOut(s, t, split, burned);
    hide *;
  }

  lemma PaidOut(s: System, t: System, split: nat, burned: nat)
    requires TotalLamports(t) == TotalLamports(s) - split && t.ticketBalance == s.ticketBalance
    requires t.supply == s.supply - burned && split <= VirtualStaked(s) && burned <= s.supply
    ensures PriceKept(s, t) <==> split * s.supply <= burned * VirtualStaked(s)
  {
    var value, supply := VirtualStaked(s), s.supply;
    assert VirtualStaked(t) == value - split;
    assert value * (supply - burned) == value * supply - burned * value;
    assert (value - split) * supply == value * supply - split * supply;
  }

  lemma WholeShares(s: System, msol: u64, delegated: nat, treasury: bool)
    requires WithdrawTerms(s, msol, delegated, treasury).Success? && s.supply > 0 && VirtualStaked(s) > 0
    requires MsolToSol(s, msol).value * s.supply <= msol * VirtualStaked(s)
    ensures var (split, burned) := WithdrawTerms(s, msol, delegated, treasury).value;
      split * s.supply <= burned * VirtualStaked(s) <==>
      (!treasury || burned == msol || (split * s.supply) % VirtualStaked(s) == 0)
  {
    var (split, burned) := WithdrawTerms(s, msol, delegated, treasury).value;
    MulLe(split, MsolToSol(s, msol).value, s.supply);
    if treasury && burned != msol {
      Remainder(burned, split * s.supply, VirtualStaked(s));
    }
  }

  lemma Remainder(q: nat, n: nat, d: nat)
    requires IsFloor(q, n, d) && d > 0
    ensures n <= q * d <==> n % d == 0
  {
    FloorOfQuotient(n, d);
    FloorAtMost(q, n, d, n / d);
    FloorAtMost(n / d, n, d, q);
  }

  lemma WithdrawArithmetic(value: nat, supply: nat, split: nat, burned: nat)
    requires split <= value && burned <= supply && split * supply < (burned + 1) * value
    ensures value * (supply - burned) < (value - split) * supply + value
  {
    assert value * (supply - burned) == value * supply - burned * value;
    assert (value - split) * supply == value * supply - split * supply;
    assert (burned + 1) * value == burned * value + value;
  }

  lemma WithdrawSplit(s: System, msol: u64, delegated: nat, treasury: bool)
    requires WithdrawTerms(s, msol, delegated, treasury).Success? && s.supply > 0 && VirtualStaked(s) > 0
    requires MsolToSol(s, msol).value * s.supply <= msol * VirtualStaked(s)
    ensures var (split, burned) := WithdrawTerms(s, msol, delegated, treasury).value;
      && split <= MsolToSol(s, msol).value && split <= delegated
      && split * s.supply < (burned + 1) * VirtualStaked(s)
      && (!treasury ==> split * s.supply <= burned * VirtualStaked(s))
      && burned <= msol
  {
    var (split, burned) := WithdrawTerms(s, msol, delegated, treasury).value;
    MulLe(split, MsolToSol(s, msol).value, s.supply);
    assert (msol + 1) * VirtualStaked(s) == msol * VirtualStaked(s) + VirtualStaked(s);
    if treasury {
      assert IsFloor(MsolFromLamports(s, split).value, split * s.supply, VirtualStaked(s));
    }
  }

  // ---------------------------------------------------------------- everything else

  /** The total does not shrink, and neither tickets nor supply move. */
  ghost predicate TotalsKept(s: System, t: System) {
    TotalLamports(t) >= TotalLamports(s) && t.ticketBalance == s.ticketBalance && t.supply == s.supply
  }

  lemma PoolTotals(s: System, step: Step)
    requires step.DoLiquidUnstake? || step.DoAddLiquidity? || step.DoRemoveLiquidity?
    ensures Apply(s, step).Success? ==> TotalsKept(s, Apply(s, step).value)
  {
    hide MsolToSol;
  }

  lemma StakeReserveTotals(s: System, step: Step)
    requires step.DoStakeReserve?
    ensures Apply(s, step).Success? ==> TotalsKept(s, Apply(s, step).value)
  {
    hide ValidatorTarget, StakeDelta;
  }

  lemma DeactivateStakeTotals(s: System, step: Step)
    requires step.DoDeactivateStake?
    ensures Apply(s, step).Success? ==> TotalsKept(s, Apply(s, step).value)
  {
    hide ValidatorTarget, StakeDelta;
  }

  lemma HousekeepingTotals(s: System, step: Step)
    requires step.DoMergeStakes? || step.DoCreateCanonical? || step.DoFinalizeUpgrade?
    ensures Apply(s, step).Success? ==> TotalsKept(s, Apply(s, step).value)
  {
    hide FinalizeFrom;
  }

  lemma PartialUnstakeTotals(s: System, step: Step)
    requires step.DoPartialUnstake?
    ensures Apply(s, step).Success? ==> TotalsKept(s, Apply(s, step).value)
  {
    hide ValidatorTarget, StakeDelta, FeeApply;
  }

  lemma EmergencyUnstakeTotals(s: System, step: Step)
    requires step.DoEmergencyUnstake?
    ensures Apply(s, step).Success? ==> TotalsKept(s, Apply(s, step).value)
  {
    hide FeeApply;
  }

  lemma ValidatorListTotals(s: System, step: Step)
    requires step.DoAddValidator? || step.DoRemoveValidator? || step.DoSetScore?
    ensures Apply(s, step).Success? ==> TotalsKept(s, Apply(s, step).value)
  {
  }

  lemma OtherTotals(s: System, step: Step)
    requires step.Configure? || step.SetExtraRuns? || step.Around?
    ensures Apply(s, step).Success? ==> TotalsKept(s, Apply(s, step).value)
  {
  }

  // ---------------------------------------------------------------- runs

  /** No update of this step finds less than was recorded. */
  predicate SlashFree(s: System, step: Step) {
    match step
    case DoUpdateActive(i, account, _, _) =>
      i < |s.stakes| && account in s.native ==> s.native[account].stake >= s.stakes[i].delegated
    case DoUpdateDeactivated(i, account, _, _) =>
      i < |s.stakes| && account in s.native ==>
        s.native[account].lamports >= s.native[account].rent + s.stakes[i].delegated
    case _ => true
  }

  /** The one step whose rounding is in nobody's favour. */
  predicate PaysTreasury(step: Step) {
    step.DoWithdrawStake? && step.treasury
  }

  /** One step, of any kind, from any state with mSOL in circulation. */
  lemma StepKeepsPrice(s: System, step: Step)
    requires Backed(s) && s.supply > 0 && MintSupply(s) > 0
    requires SlashFree(s, step) && !PaysTreasury(step)
    ensures PriceKept(s, Next(s, step))
  {
    if Apply(s, step).Success? {
      var t := Apply(s, step).value;
      hide Backed, VirtualStaked, TotalLamports, MintSupply;
      match step {
        case DoDeposit(lamports) => DepositKeepsPrice(s, lamports);
        case DoDepositStake(account, j) => DepositStakeKeepsPrice(s, account, j);
        case DoWithdrawStake(i, account, j, msol, newKey, treasury) =>
          if VirtualStaked(s) > 0 {
            WithdrawStakeAlmostKeepsPrice(s, i, account, j, msol, newKey, treasury);
          } else {
            WorthlessKept(s, t);
          }
        case DoOrderUnstake(msol, newKey) => OrderUnstakeKeepsPrice(s, msol, newKey);
        case DoClaim(k) =>
          ClaimKeepsVirtual(s, k);
          SamePrice(s, t);
        case DoUpdateActive(i, account, j, treasury) => UpdateActiveKeepsPrice(s, i, account, j, treasury);
        case DoUpdateDeactivated(i, account, j, treasury) => UpdateDeactivatedKeepsPrice(s, i, account, j, treasury);
        case _ =>
          OrdinaryTotals(s, step);
          TotalsKeepPrice(s, t);
      }
    } else {
      SamePrice(s, s);
    }
  }

  lemma WorthlessKept(s: System, t: System)
    requires VirtualStaked(s) == 0
    ensures PriceKept(s, t)
  {
  }

  lemma TotalsKeepPrice(s: System, t: System)
    requires TotalsKept(s, t)
    ensures PriceKept(s, t)
  {
    SamePrice(s, t);
  }

  lemma OrdinaryTotals(s: System, step: Step)
    requires !step.DoDeposit? && !step.DoDepositStake? && !step.DoWithdrawStake? && !step.DoOrderUnstake?
    requires !step.DoClaim? && !step.DoUpdateActive? && !step.DoUpdateDeactivated?
    ensures Apply(s, step).Success? ==> TotalsKept(s, Apply(s, step).value)
  {
    hide Apply, TotalsKept;
    match step {
      case DoLiquidUnstake(_, _) => PoolTotals(s, step);
      case DoAddLiquidity(_) => PoolTotals(s, step);
      case DoRemoveLiquidity(_) => PoolTotals(s, step);
      case DoStakeReserve(_, _, _) => StakeReserveTotals(s, step);
      case DoDeactivateStake(_, _, _, _) => DeactivateStakeTotals(s, step);
      case DoMergeStakes(_, _, _, _, _, _) => HousekeepingTotals(s, step);
      case DoCreateCanonical(_, _, _, _) => HousekeepingTotals(s, step);
      case DoFinalizeUpgrade(_) => HousekeepingTotals(s, step);
      case DoPartialUnstake(_, _, _, _, _) => PartialUnstakeTotals(s, step);
      case DoEmergencyUnstake(_, _, _) => EmergencyUnstakeTotals(s, step);
      case DoAddValidator(_, _) => ValidatorListTotals(s, step);
      case DoRemoveValidator(_, _) => ValidatorListTotals(s, step);
      case DoSetScore(_, _, _) => ValidatorListTotals(s, step);
      case Configure(_) => OtherTotals(s, step);
      case SetExtraRuns(_) => OtherTotals(s, step);
      case Around(_) => OtherTotals(s, step);
    }
  }

  /** Every step is slash-free, pays no treasury, and starts with mSOL in circulation. */
  predicate Fair(s: System, steps: seq<Step>)
    decreases |steps|
  {
    steps == [] ||
    (SlashFree(s, steps[0]) && !PaysTreasury(steps[0]) && s.supply > 0 && MintSupply(s) > 0
     && Fair(Next(s, steps[0]), steps[1..]))
  }

  /** Over any such run the price never falls, whatever the upgrader does meanwhile. */
  lemma {:induction false} PriceNeverFalls(s: System, steps: seq<Step>)
    requires Backed(s) && Fair(s, steps)
    ensures PriceKept(s, Run(s, steps))
    decreases |steps|
  {
    if steps == [] {
      SamePrice(s, s);
    } else {
      hide PriceKept, Apply, Next, Backed, SlashFree;
      StepKeepsPrice(s, steps[0]);
      StepBacked(s, steps[0]);
      var t := Next(s, steps[0]);
      NextIs(s, steps[0]);
      PriceNeverFalls(t, steps[1..]);
      if steps[1..] != [] {
        PriceTransitive(s, t, Run(s, steps));
      }
    }
  }

  lemma NextIs(s: System, step: Step)
    ensures Next(s, step) == if Apply(s, step).Success? then Apply(s, step).value else s
  {
  }

  // ---------------------------------------------------------------- runs with treasury withdrawals

  /** The accepted withdrawals of a run that pay the treasury. */
  function Dips(s: System, steps: seq<Step>): nat
    decreases |steps|
  {
    if steps == [] then 0
    else (if PaysTreasury(steps[0]) && Apply(s, steps[0]).Success? then 1 else 0) + Dips(Next(s, steps[0]), steps[1..])
  }

  /** Every step is slash-free and starts with mSOL in circulation, of which a withdrawal that pays the
      treasury leaves at least `least`. */
  predicate FairAbove(s: System, steps: seq<Step>, least: nat)
    decreases |steps|
  {
    steps == [] ||
    (SlashFree(s, steps[0]) && s.supply > 0 && MintSupply(s) > 0
     && (PaysTreasury(steps[0]) && Apply(s, steps[0]).Success? ==> Apply(s, steps[0]).value.supply >= least)
     && FairAbove(Next(s, steps[0]), steps[1..], least))
  }

  /** Of `least` base units, at most `lost` are no longer backed at the price of `s`: the price of `t` is
      at least that of `s` times (least - lost) / least. */
  ghost predicate PriceLost(s: System, t: System, lost: nat, least: nat) {
    VirtualStaked(s) * t.supply * SatSub(least, lost) <= VirtualStaked(t) * s.supply * least
  }

  lemma PricesChain(va: nat, sa: nat, vb: nat, sb: nat, vc: nat, sc: nat, p: nat, q: nat, r: nat, m: nat)
    requires va * p <= vb * sa && sb * q <= p * r && vb * sc * r <= vc * sb * m && sb > 0
    ensures va * sc * q <= vc * sa * m
  {
    MulLe(sb * q, p * r, va * sc);
    MulLe(va * p, vb * sa, sc * r);
    MulLe(vb * sc * r, vc * sb * m, sa);
    Shuffle(va, sc, q, sb);
    Shuffle(vc, sa, m, sb);
    Paired(va, sc, p, r);
    Paired(vb, sa, sc, r);
    Cancel(va * sc * q, vc * sa * m, sb);
  }

  lemma Shuffle(a: nat, b: nat, c: nat, d: nat)
    ensures a * b * c * d == (a * b) * (d * c) == (a * d * c) * b
  {
  }

  lemma Paired(a: nat, b: nat, c: nat, d: nat)
    ensures (a * b) * (c * d) == (a * c) * (b * d) == (a * c * d) * b
  {
  }

  /** A dip by less than one base unit, from at least `least` of them. */
  lemma OneUnitLess(supply: nat, least: nat, lost: nat)
    requires 0 < least <= supply
    ensures supply * SatSub(least, lost + 1) <= (supply - 1) * SatSub(least, lost)
  {
    if least > lost {
      var r: nat := least - lost;
      assert supply * (r - 1) == supply * r - supply;
      assert (supply - 1) * r == supply * r - r;
    }
  }

  /** What one step may lose. */
  lemma StepLoses(s: System, step: Step, least: nat)
    requires Backed(s) && s.supply > 0 && MintSupply(s) > 0 && SlashFree(s, step) && least > 0
    requires PaysTreasury(step) && Apply(s, step).Success? ==> Apply(s, step).value.supply >= least
    ensures var t := Next(s, step);
      if PaysTreasury(step) && Apply(s, step).Success? then
        t.supply >= least && VirtualStaked(s) * (t.supply - 1) <= VirtualStaked(t) * s.supply
      else PriceKept(s, t)
  {
    hide Backed, VirtualStaked, SlashFree;
    if PaysTreasury(step) && Apply(s, step).Success? {
      if VirtualStaked(s) > 0 {
        WithdrawStakeAlmostKeepsPrice(s, step.i, step.account, step.j, step.msol, step.newKey, true);
        OneLess(VirtualStaked(s), Next(s, step).supply);
      }
    } else if PaysTreasury(step) {
      SamePrice(s, s);
    } else {
      StepKeepsPrice(s, step);
    }
  }

  lemma OneLess(value: nat, supply: nat)
    requires supply > 0
    ensures value * (supply - 1) == value * supply - value
  {
  }

  /** Over any slash-free run, with any number of withdrawals that pay the treasury among its steps, the
      price loses at most one base unit in `least` for each of them, where `least` is what they leave
      in circulation. */
  lemma {:induction false} PriceFallsByUnits(s: System, steps: seq<Step>, least: nat)
    requires Backed(s) && FairAbove(s, steps, least) && least > 0
    ensures PriceLost(s, Run(s, steps), Dips(s, steps), least)
    decreases |steps|
  {
    if steps != [] {
      hide Apply, Next, Backed, SlashFree, PriceLost, PaysTreasury, MintSupply;
      StepBacked(s, steps[0]);
      NextIs(s, steps[0]);
      PriceFallsByUnits(Next(s, steps[0]), steps[1..], least);
      StepThenRest(s, steps[0], Run(s, steps), Dips(Next(s, steps[0]), steps[1..]), least);
    }
  }

  /** A step from s, and then a run to u that lost so many units. */
  lemma StepThenRest(s: System, step: Step, u: System, lost: nat, least: nat)
    requires Backed(s) && s.supply > 0 && MintSupply(s) > 0 && SlashFree(s, step) && least > 0
    requires PaysTreasury(step) && Apply(s, step).Success? ==> Apply(s, step).value.supply >= least
    requires PriceLost(Next(s, step), u, lost, least)
    requires Next(s, step).supply > 0 || u == Next(s, step)
    ensures PriceLost(s, u, lost + if PaysTreasury(step) && Apply(s, step).Success? then 1 else 0, least)
  {
    hide Apply, Next, Backed, SlashFree, PriceLost, PriceKept, PaysTreasury, MintSupply, VirtualStaked;
    StepLoses(s, step, least);
    var t := Next(s, step);
    var dipped := PaysTreasury(step) && Apply(s, step).Success?;
    if t.supply > 0 {
      LossesAdd(s, t, u, lost, least, dipped);
    } else {
      NoSupplyNoLoss(s, t, lost + if dipped then 1 else 0, least);
    }
  }

  lemma NoSupplyNoLoss(s: System, t: System, lost: nat, least: nat)
    requires t.supply == 0
    ensures PriceLost(s, t, lost, least)
  {
  }

  lemma LossesAdd(s: System, t: System, u: System, lost: nat, least: nat, dipped: bool)
    requires t.supply > 0 && least > 0 && PriceLost(t, u, lost, least)
    requires if dipped then t.supply >= least && VirtualStaked(s) * (t.supply - 1) <= VirtualStaked(t) * s.supply
             else PriceKept(s, t)
    ensures PriceLost(s, u, if dipped then lost + 1 else lost, least)
  {
    var r := SatSub(least, lost);
    if dipped {
      OneUnitLess(t.supply, least, lost);
    }
    var q := if dipped then SatSub(least, lost + 1) else r;
    var p := if dipped then t.supply - 1 else t.supply;
    hide VirtualStaked, SatSub;
    PricesChain(VirtualStaked(s), s.supply, VirtualStaked(t), t.supply, VirtualStaked(u), u.supply, p, q, r, least);
  }
}
