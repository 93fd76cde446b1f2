/** The value of the liquidity pool, as the program computes it, and its shares. */
module Pool {
  import opened Base
  import opened Calc
  import opened Model
  import opened Ledger
  import opened Instructions
  import opened Invariant
  import opened Rounds

  // ---------------------------------------------------------------- swaps never drain the pool

  lemma PoolValueIs(s: System)
    requires PoolValue(s).Success?
    ensures s.solLeg >= s.cfg.tokenRent && MsolToSol(s, s.msolLeg).Success?
    ensures PoolValue(s).value == s.solLeg - s.cfg.tokenRent + MsolToSol(s, s.msolLeg).value
  {
    hide MsolToSol;
  }

  /** With the lamports behind mSOL and its supply as they were, mSOL taken out of the leg at no more
      than the price paid for it leaves the value. */
  lemma SoldLegKeepsValue(s: System, t: System, sold: nat, paid: nat)
    requires s.supply > 0 && t.supply == s.supply && VirtualStaked(t) == VirtualStaked(s)
    requires t.cfg.tokenRent == s.cfg.tokenRent && t.solLeg == s.solLeg + paid && t.msolLeg + sold == s.msolLeg
    requires sold * VirtualStaked(s) <= paid * s.supply
    requires PoolValue(s).Success? && PoolValue(t).Success?
    ensures PoolValue(s).value <= PoolValue(t).value
  {
    PoolValueIs(s);
    PoolValueIs(t);
    Worth(s, s.msolLeg);
    Worth(t, t.msolLeg);
    hide PoolValue, MsolToSol, VirtualStaked;
    var before, after, value := MsolToSol(s, s.msolLeg).value, MsolToSol(t, t.msolLeg).value, VirtualStaked(s);
    assert s.msolLeg * value == t.msolLeg * value + sold * value;
    assert (after + paid + 1) * s.supply == (after + 1) * s.supply + paid * s.supply;
    FloorAtMost(before, s.msolLeg * value, s.supply, after + paid);
  }

  /** mSOL that came into the leg for lamports worth no more leaves the value. */
  lemma BoughtLegKeepsValue(s: System, t: System, sold: nat, bought: nat, paid: nat)
    requires s.supply > 0 && t.supply == s.supply && VirtualStaked(t) == VirtualStaked(s)
    requires t.cfg.tokenRent == s.cfg.tokenRent && t.solLeg + paid == s.solLeg && t.msolLeg == s.msolLeg + bought
    requires sold <= bought && MsolToSol(s, sold) == Success(paid)
    requires PoolValue(s).Success? && PoolValue(t).Success?
    ensures PoolValue(s).value <= PoolValue(t).value
  {
    PoolValueIs(s);
    PoolValueIs(t);
    Worth(s, s.msolLeg);
    Worth(s, sold);
    Worth(t, t.msolLeg);
    hide PoolValue, MsolToSol, VirtualStaked;
    var value := VirtualStaked(s);
    MulLe(s.msolLeg + sold, t.msolLeg, value);
    assert (s.msolLeg + sold) * value == s.msolLeg * value + sold * value;
    FloorSumLe(MsolToSol(s, s.msolLeg).value, paid, MsolToSol(t, t.msolLeg).value,
               s.msolLeg * value, sold * value, s.supply);
  }

  /** The leg may only be worth more when the price did not fall. */
  lemma LegWorthMore(s: System, t: System)
    requires t.cfg.tokenRent == s.cfg.tokenRent && t.solLeg == s.solLeg && t.msolLeg == s.msolLeg
    requires t.supply == s.supply && VirtualStaked(t) >= VirtualStaked(s)
    requires PoolValue(s).Success? && PoolValue(t).Success?
    ensures PoolValue(s).value <= PoolValue(t).value
  {
    PoolValueIs(s);
    PoolValueIs(t);
    Worth(s, s.msolLeg);
    Worth(t, t.msolLeg);
    hide PoolValue, MsolToSol;
    if s.supply > 0 {
      hide VirtualStaked;
      MulLe(VirtualStaked(s), VirtualStaked(t), s.msolLeg);
      FloorAtMost(MsolToSol(s, s.msolLeg).value, s.msolLeg * VirtualStaked(s), s.supply, MsolToSol(t, t.msolLeg).value);
    }
  }

  lemma EmptyLeg(s: System)
    requires s.msolLeg == 0 && PoolValue(s).Success?
    ensures PoolValue(s).value == s.solLeg - s.cfg.tokenRent
  {
    PoolValueIs(s);
    Worth(s, 0);
    hide PoolValue, MsolToSol, VirtualStaked;
    if s.supply > 0 {
      FloorAtMost(MsolToSol(s, 0).value, 0, s.supply, 0);
    }
  }

  lemma DepositedKeepsPool(s: System, t: System, lamports: nat, part: nat, order: nat, swapped: nat, paid: nat)
    requires Backed(s) && Deposited(s, lamports, t, part, order, swapped, paid)
    requires PoolValue(s).Success? && PoolValue(t).Success?
    ensures PoolValue(s).value <= PoolValue(t).value
  {
    hide PoolValue, MsolToSol;
    VirtualAfter(s, t, lamports, part, order, swapped, paid);
    if s.msolLeg == 0 {
      EmptyLeg(s);
      EmptyLeg(t);
    } else if swapped == 0 {
      VirtualGrows(s, t, lamports, part, order, swapped, paid);
      LegWorthMore(s, t);
    } else if swapped == order {
      FullFill(s, t, lamports, part, order, paid);
      SoldLegKeepsValue(s, t, order, lamports);
    } else {
      EmptyLeg(t);
      PoolValueIs(s);
    }
  }

  lemma VirtualGrows(s: System, t: System, lamports: nat, part: nat, order: nat, swapped: nat, paid: nat)
    requires Deposited(s, lamports, t, part, order, swapped, paid)
    ensures VirtualStaked(s) <= VirtualStaked(t)
  {
    hide MsolToSol, IsFloor;
  }

  lemma FullFill(s: System, t: System, lamports: nat, part: nat, order: nat, paid: nat)
    requires Backed(s) && s.msolLeg > 0 && order > 0 && Deposited(s, lamports, t, part, order, order, paid)
    ensures s.supply > 0 && order * VirtualStaked(s) <= lamports * s.supply
    ensures t.supply == s.supply && VirtualStaked(t) == VirtualStaked(s)
  {
    hide MsolToSol;
    MulLe(part, lamports, s.supply);
  }

  /** A deposit never lowers the value of the pool, however much of it the pool fills. */
  lemma DepositKeepsPool(s: System, lamports: u64)
    requires Backed(s) && Deposit(s, lamports).Success?
    requires PoolValue(s).Success? && PoolValue(Deposit(s, lamports).value).Success?
    ensures PoolValue(s).value <= PoolValue(Deposit(s, lamports).value).value
  {
    DepositIs(s, lamports);
    var t := Deposit(s, lamports).value;
    var part := SatSub(lamports, Fee(s, lamports));
    var order, swapped, paid :| Deposited(s, lamports, t, part, order, swapped, paid);
    hide *;
    DepositedKeepsPool(s, t, lamports, part, order, swapped, paid);
  }

  /** Unstaking through the pool never lowers its value: what the treasury takes is part of the fee. */
  lemma LiquidUnstakeKeepsPool(s: System, msol: u64, treasury: bool)
    requires Backed(s) && LiquidUnstake(s, msol, treasury).Success?
    requires PoolValue(s).Success? && PoolValue(LiquidUnstake(s, msol, treasury).value).Success?
    ensures PoolValue(s).value <= PoolValue(LiquidUnstake(s, msol, treasury).value).value
  {
    var t := LiquidUnstake(s, msol, treasury).value;
    UnstakeIs(s, msol, treasury);
    var sold, bought, paid :| Unstaked(s, t, msol, sold, bought, paid);
    hide LiquidUnstake, PoolValue, MsolToSol;
    if s.supply > 0 {
      BoughtLegKeepsValue(s, t, sold, bought, paid);
    } else {
      EmptyLeg(s);
      EmptyLeg(t);
      Worth(s, sold);
    }
  }

  /** `sold` mSOL is paid for, and at least as much goes to the leg. */
  ghost predicate Unstaked(s: System, t: System, msol: nat, sold: nat, bought: nat, paid: nat) {
    && sold <= bought <= msol <= s.msolHeld && MsolToSol(s, sold) == Success(paid) && paid <= s.solLeg
    && t == s.(solLeg := s.solLeg - paid, msolLeg := s.msolLeg + bought, msolHeld := s.msolHeld - bought)
  }

  lemma UnstakeIs(s: System, msol: u64, treasury: bool)
    requires Backed(s) && LiquidUnstake(s, msol, treasury).Success?
    ensures exists sold, bought, paid :: Unstaked(s, LiquidUnstake(s, msol, treasury).value, msol, sold, bought, paid)
  {
    var t := LiquidUnstake(s, msol, treasury).value;
    var wanted := MsolToSol(s, msol).value;
    var available := SatSub(s.solLeg, s.cfg.tokenRent);
    var basisPoints := if wanted >= available then s.cfg.lpMaxFee else LinearFee(s.cfg, available - wanted).value;
    if wanted < available {
      LinearFeeIsBetween(s.cfg, available - wanted);
    }
    var fee := FeeApply(basisPoints, msol);
    hide MsolToSol, LinearFee, IsFloor;
    assert Unstaked(s, t, msol, msol - fee, t.msolLeg - s.msolLeg, s.solLeg - t.solLeg);
  }

  // ---------------------------------------------------------------- shares of the pool

  /** Value of the pool per share, cross-multiplied: adding liquidity never lowers it. */
  lemma AddKeepsShareValue(s: System, lamports: u64)
    requires s.lpMint > 0 && AddLiquidity(s, lamports).Success?
    requires PoolValue(AddLiquidity(s, lamports).value).Success?
    ensures PoolValue(s).Success?
    ensures var t := AddLiquidity(s, lamports).value;
      && PoolValue(t).value == PoolValue(s).value + lamports
      && PoolValue(s).value * t.lpMint <= PoolValue(t).value * s.lpMint
  {
    var t := AddLiquidity(s, lamports).value;
    AddedShares(s, lamports);
    AddedValue(s, t, lamports);
    hide *;
    ShareValue(PoolValue(s).value, lamports, s.lpMint, t.lpMint);
  }

  lemma ShareValue(value: nat, lamports: nat, supply: nat, after: nat)
    requires supply <= after && value * (after - supply) <= lamports * supply
    ensures value * after <= (value + lamports) * supply
  {
    assert value * after == value * supply + value * (after - supply);
  }

  lemma AddedValue(s: System, t: System, lamports: nat)
    requires t == s.(solLeg := s.solLeg + lamports, lpMint := t.lpMint, lpSupply := t.lpSupply)
    requires PoolValue(s).Success? && PoolValue(t).Success?
    ensures PoolValue(t).value == PoolValue(s).value + lamports
  {
    assert VirtualStaked(t) == VirtualStaked(s);
  }

  lemma AddedShares(s: System, lamports: u64)
    requires s.lpMint > 0 && AddLiquidity(s, lamports).Success?
    ensures PoolValue(s).Success?
    ensures var t := AddLiquidity(s, lamports).value;
      && t == s.(solLeg := s.solLeg + lamports, lpMint := t.lpMint, lpSupply := t.lpMint) && t.lpMint >= s.lpMint
      && PoolValue(s).value * (t.lpMint - s.lpMint) <= lamports * s.lpMint
      && (PoolValue(s).value == 0 ==> t.lpMint - s.lpMint == lamports)
  {
    hide MsolToSol;
  }

  /** Removing liquidity never lowers either leg per share that remains. */
  lemma RemoveKeepsLegs(s: System, tokens: u64)
    requires Backed(s) && RemoveLiquidity(s, tokens).Success?
    ensures var t := RemoveLiquidity(s, tokens).value;
      && t.lpMint == s.lpMint - tokens && t.solLeg >= t.cfg.tokenRent
      && (s.solLeg - s.cfg.tokenRent) * t.lpMint <= (t.solLeg - t.cfg.tokenRent) * s.lpMint
      && s.msolLeg * t.lpMint <= t.msolLeg * s.lpMint
  {
    var t := RemoveLiquidity(s, tokens).value;
    RemoveIs(s, tokens);
    hide RemoveLiquidity;
    LegPerShare(s.solLeg - s.cfg.tokenRent, t.solLeg - t.cfg.tokenRent, s.lpMint, tokens);
    LegPerShare(s.msolLeg, t.msolLeg, s.lpMint, tokens);
  }

  lemma LegPerShare(leg: nat, left: nat, supply: nat, tokens: nat)
    requires left <= leg && tokens <= supply && (leg - left) * supply <= tokens * leg
    ensures leg * (supply - tokens) <= left * supply
  {
    assert leg * (supply - tokens) == leg * supply - tokens * leg;
    assert left * supply == leg * supply - (leg - left) * supply;
  }

  /** Each leg pays its floored share. */
  lemma RemoveIs(s: System, tokens: u64)
    requires Backed(s) && RemoveLiquidity(s, tokens).Success?
    ensures var t := RemoveLiquidity(s, tokens).value;
      var available: nat := s.solLeg - s.cfg.tokenRent;
      && tokens <= s.lpMint && t.lpMint == s.lpMint - tokens && t.cfg == s.cfg
      && t.solLeg >= s.cfg.tokenRent && t.solLeg <= s.solLeg && t.msolLeg <= s.msolLeg
      && (s.solLeg - t.solLeg) * s.lpMint <= tokens * available
      && (s.msolLeg - t.msolLeg) * s.lpMint <= tokens * s.msolLeg
      && MsolToSol(s, s.msolLeg - t.msolLeg).Success?
  {
    ShareAtMost(tokens, s.solLeg - s.cfg.tokenRent, s.lpMint);
    hide MsolToSol;
  }

  // ---------------------------------------------------------------- adding, then removing

  /** The mSOL part of a share is worth at most the share of the leg's value and of the lamport its
      rounding lost. */
  lemma LegShare(worth: nat, part: nat, leg: nat, legWorth: nat, value: nat, supply: nat, shares: nat, total: nat)
    requires supply > 0 && worth * supply <= part * value && part * total <= shares * leg
    requires leg * value < (legWorth + 1) * supply
    ensures worth * total <= shares * (legWorth + 1)
  {
    MulLe(worth * supply, part * value, total);
    MulLe(part * total, shares * leg, value);
    MulLe(leg * value, (legWorth + 1) * supply, shares);
    Reorder(worth, supply, total);
    Reorder(part, value, total);
    Reorder(shares, leg, value);
    assert shares * ((legWorth + 1) * supply) == shares * (legWorth + 1) * supply;
    Cancel(worth * total, shares * (legWorth + 1), supply);
  }

  lemma Reorder(a: nat, b: nat, c: nat)
    ensures a * b * c == (a * c) * b == a * (b * c)
  {
  }

  /** The arithmetic of going in and out. */
  lemma InAndOut(sol: nat, worth: nat, available: nat, legWorth: nat, lamports: nat, before: nat, shares: nat)
    requires before > 0 && shares * (available + legWorth) <= lamports * before
    requires sol * (before + shares) <= shares * (available + lamports)
    requires worth * (before + shares) <= shares * (legWorth + 1)
    ensures sol + worth <= lamports
  {
    var total := before + shares;
    assert (sol + worth) * total == sol * total + worth * total;
    assert shares * (available + lamports) + shares * (legWorth + 1)
        == shares * (available + legWorth) + shares * lamports + shares;
    assert (lamports + 1) * total == lamports * before + shares * lamports + total;
    FloorAtMost(sol + worth, (sol + worth) * total, total, lamports);
  }

  /** Adding liquidity to a pool that has shares and removing the minted shares at once gives back no
      more than was added, counting the mSOL at the program's own valuation. */
  lemma NoGainByLiquidity(s: System, lamports: u64, tokens: u64)
    requires Backed(s) && s.lpMint > 0 && AddLiquidity(s, lamports).Success?
    requires var t := AddLiquidity(s, lamports).value;
      tokens == t.lpMint - s.lpMint && RemoveLiquidity(t, tokens).Success?
    ensures var t := AddLiquidity(s, lamports).value;
      var r := RemoveLiquidity(t, tokens).value;
      && r.solLeg <= t.solLeg && r.msolLeg <= t.msolLeg && MsolToSol(t, t.msolLeg - r.msolLeg).Success?
      && (t.solLeg - r.solLeg) + MsolToSol(t, t.msolLeg - r.msolLeg).value <= lamports
  {
    var t := AddLiquidity(s, lamports).value;
    AddedShares(s, lamports);
    PoolValueIs(s);
    AddedIsBacked(s, t, lamports);
    RemoveIs(t, tokens);
    var r := RemoveLiquidity(t, tokens).value;
    var worth := MsolToSol(t, t.msolLeg - r.msolLeg);
    LegShareOf(s, t, t.msolLeg - r.msolLeg, tokens);
    hide MsolToSol, VirtualStaked, AddLiquidity, RemoveLiquidity;
    var sol, available, legWorth := t.solLeg - r.solLeg, s.solLeg - s.cfg.tokenRent, MsolToSol(s, s.msolLeg).value;
    assert t.solLeg - t.cfg.tokenRent == available + lamports;
    Multiplied(available + legWorth, tokens);
    hide *;
    InAndOut(sol, worth.value, available, legWorth, lamports, s.lpMint, tokens);
  }

  lemma Multiplied(a: nat, b: nat)
    ensures a * b == b * a
  {
  }

  lemma AddedIsBacked(s: System, t: System, lamports: nat)
    requires Backed(s) && t == s.(solLeg := s.solLeg + lamports, lpMint := t.lpMint, lpSupply := t.lpMint)
    ensures Backed(t)
  {
  }

  lemma LegShareOf(s: System, t: System, part: nat, tokens: nat)
    requires Backed(s) && t == s.(solLeg := t.solLeg, lpMint := t.lpMint, lpSupply := t.lpSupply)
    requires part <= t.msolLeg && part * t.lpMint <= tokens * t.msolLeg
    requires MsolToSol(t, part).Success? && MsolToSol(s, s.msolLeg).Success?
    ensures MsolToSol(t, part).value * t.lpMint <= tokens * (MsolToSol(s, s.msolLeg).value + 1)
  {
    Worth(t, part);
    Worth(s, s.msolLeg);
    assert VirtualStaked(t) == VirtualStaked(s);
    if s.supply > 0 {
      hide MsolToSol, VirtualStaked, Backed;
      LegShare(MsolToSol(t, part).value, part, s.msolLeg, MsolToSol(s, s.msolLeg).value, VirtualStaked(s), s.supply,
               tokens, t.lpMint);
    }
  }

  // ---------------------------------------------------------------- a pool without shares

  /** Without shares the next provider is minted one to one, whatever the pool holds. */
  lemma FirstShares(s: System, lamports: u64)
    requires Backed(s) && s.lpMint == 0 && AddLiquidity(s, lamports).Success?
    ensures PoolValue(s).Success?
    ensures AddLiquidity(s, lamports).value ==
            s.(solLeg := s.solLeg + lamports, lpMint := lamports, lpSupply := lamports)
  {
    hide MsolToSol;
  }

  /** All shares together take everything; none take nothing. */
  lemma AllShares(s: System, tokens: u64)
    requires Backed(s) && s.lpSupply == s.lpMint == tokens && RemoveLiquidity(s, tokens).Success?
    ensures var t := RemoveLiquidity(s, tokens).value;
      && t.solLeg == (if tokens > 0 then s.cfg.tokenRent else s.solLeg)
      && t.msolLeg == (if tokens > 0 then 0 else s.msolLeg)
      && MsolToSol(s, s.msolLeg - t.msolLeg).Success?
  {
    if tokens > 0 {
      WholeShare(tokens, s.solLeg - s.cfg.tokenRent);
      WholeShare(tokens, s.msolLeg);
    }
    hide MsolToSol, Proportional;
  }

  lemma WholeShare(tokens: nat, leg: nat)
    requires tokens > 0
    ensures var r := Proportional(tokens, leg, tokens); r.Success? ==> r.value == leg
  {
    hide Proportional;
    var r := Proportional(tokens, leg, tokens);
    if r.Success? {
      FloorAtMost(r.value, tokens * leg, tokens, leg);
      FloorAtMost(leg, tokens * leg, tokens, r.value);
    }
  }

  lemma NothingIsWorthNothing(s: System)
    requires MsolToSol(s, 0).Success?
    ensures MsolToSol(s, 0).value == 0
  {
    Worth(s, 0);
    assert 0 * VirtualStaked(s) == 0;
  }

  /** Adding liquidity and removing the minted shares at once gives back no more than was added, counting
      the mSOL at the program's own valuation, exactly when the pool had shares before, or was worth
      nothing, or nothing was added. The exception is real: when all shares were burned and funds are
      left, the next provider takes them. */
  lemma NoGainByLiquidityIff(s: System, lamports: u64, tokens: u64)
    requires Backed(s) && AddLiquidity(s, lamports).Success?
    requires var t := AddLiquidity(s, lamports).value;
      tokens == t.lpMint - s.lpMint && RemoveLiquidity(t, tokens).Success?
    ensures var t := AddLiquidity(s, lamports).value;
      var r := RemoveLiquidity(t, tokens).value;
      && PoolValue(s).Success? && r.solLeg <= t.solLeg && r.msolLeg <= t.msolLeg
      && MsolToSol(t, t.msolLeg - r.msolLeg).Success?
      && ((t.solLeg - r.solLeg) + MsolToSol(t, t.msolLeg - r.msolLeg).value <= lamports <==>
          s.lpMint > 0 || PoolValue(s).value == 0 || lamports == 0)
  {
    if s.lpMint > 0 {
      AddedShares(s, lamports);
      NoGainByLiquidity(s, lamports, tokens);
    } else {
      TakesEverything(s, lamports, tokens);
    }
    hide *;
  }

  lemma TakesEverything(s: System, lamports: u64, tokens: u64)
    requires Backed(s) && s.lpMint == 0 && AddLiquidity(s, lamports).Success?
    requires var t := AddLiquidity(s, lamports).value; tokens == t.lpMint && RemoveLiquidity(t, tokens).Success?
    ensures var t := AddLiquidity(s, lamports).value;
      var r := RemoveLiquidity(t, tokens).value;
      && PoolValue(s).Success? && r.solLeg <= t.solLeg && r.msolLeg <= t.msolLeg
      && MsolToSol(t, t.msolLeg - r.msolLeg).Success?
      && ((t.solLeg - r.solLeg) + MsolToSol(t, t.msolLeg - r.msolLeg).value <= lamports <==>
          PoolValue(s).value == 0 || lamports == 0)
  {
    FirstShares(s, lamports);
    var t := AddLiquidity(s, lamports).value;
    AddedIsBacked(s, t, lamports);
    AllShares(t, tokens);
    hide AddLiquidity, RemoveLiquidity, Backed, MsolToSol, VirtualStaked;
    PoolValueIs(s);
    LegWorthSame(s, t);
    if lamports == 0 {
      NothingIsWorthNothing(t);
    }
  }

  lemma LegWorthSame(s: System, t: System)
    requires t == s.(solLeg := t.solLeg, lpMint := t.lpMint, lpSupply := t.lpSupply)
    ensures MsolToSol(t, t.msolLeg) == MsolToSol(s, s.msolLeg)
  {
    assert VirtualStaked(t) == VirtualStaked(s);
  }
}
