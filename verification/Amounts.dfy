/** What the users' instructions pay, to the lamport: each amount is the floor of a product of the
    fields of the state, and each instruction is accepted exactly when those amounts meet its limits. */
module Amounts {
  import opened Base
  import opened Calc
  import opened Model
  import opened Ledger
  import opened Instructions
  import opened Machine
  import opened Invariant

  // ---------------------------------------------------------------- shares and their worth

  /** Everything under control. */
  function Under(s: System): nat {
    s.active + s.delayed + s.emergency + s.reserve
  }

  /** What of it backs mSOL. */
  function Behind(s: System): nat {
    if Under(s) >= s.ticketBalance then Under(s) - s.ticketBalance else 0
  }

  lemma BehindIs(s: System)
    ensures TotalLamports(s) == Under(s) && VirtualStaked(s) == Behind(s)
  {
  }

  /** `lamports` is what so much mSOL is worth, with so much behind a supply. */
  ghost predicate IsWorth(lamports: nat, msol: nat, behind: nat, supply: nat) {
    if supply == 0 then lamports == msol else IsFloor(lamports, msol * behind, supply)
  }

  /** Shares of a whole: so many of a supply entitle to this part of a leg. */
  ghost predicate Entitles(part: nat, shares: nat, leg: nat, supply: nat) {
    if supply == 0 then part == shares else IsFloor(part, shares * leg, supply)
  }

  /** `msol` is what so many lamports buy. */
  ghost predicate Buys(msol: nat, lamports: nat, behind: nat, supply: nat) {
    if supply == 0 || behind == 0 then msol == lamports else IsFloor(msol, lamports * supply, behind)
  }

  ghost predicate Cents(part: nat, whole: nat, cents: nat) {
    IsFloor(part, whole * cents, 1_000_000)
  }

  ghost predicate Points(part: nat, whole: nat, points: nat) {
    IsFloor(part, whole * points, 10_000)
  }

  lemma OneFloor(a: nat, b: nat, n: nat, d: nat)
    requires IsFloor(a, n, d) && IsFloor(b, n, d)
    ensures a == b
  {
    FloorAtMost(a, n, d, b);
    FloorAtMost(b, n, d, a);
  }

  lemma ProportionalIff(amount: nat, numerator: nat, denominator: nat, q: nat)
    requires denominator > 0
    ensures Proportional(amount, numerator, denominator) == Success(q) <==>
            IsFloor(q, amount * numerator, denominator) && q <= U64_MAX
  {
    var r := Proportional(amount, numerator, denominator);
    hide Proportional;
    if IsFloor(q, amount * numerator, denominator) && q <= U64_MAX {
      MulLe(q + 1, U64_MAX + 1, denominator);
      OneFloor(q, r.value, amount * numerator, denominator);
    }
    if r.Success? {
      FloorAtMost(r.value, amount * numerator, denominator, U64_MAX);
    }
  }

  lemma WorthIff(s: System, msol: nat, lamports: nat)
    ensures MsolToSol(s, msol) == Success(lamports) <==>
            && Under(s) <= U64_MAX && IsWorth(lamports, msol, Behind(s), s.supply)
            && (s.supply > 0 ==> lamports <= U64_MAX)
    ensures MsolToSol(s, msol) == Success(lamports) && msol <= U64_MAX ==> lamports <= U64_MAX
  {
    BehindIs(s);
    if s.supply > 0 {
      ProportionalIff(msol, Behind(s), s.supply, lamports);
    }
    hide VirtualStaked, TotalLamports, Behind, Under;
  }

  lemma BuysIff(s: System, lamports: u64, msol: nat)
    ensures MsolFromLamports(s, lamports) == Success(msol) <==>
            Under(s) <= U64_MAX && Buys(msol, lamports, Behind(s), s.supply) && msol <= U64_MAX
  {
    BehindIs(s);
    if s.supply > 0 && Behind(s) > 0 {
      ProportionalIff(lamports, s.supply, Behind(s), msol);
    }
    hide VirtualStaked, TotalLamports, Behind, Under;
  }

  lemma CentsIff(cents: nat, whole: u64, part: nat)
    requires cents <= MAX_BP_CENTS
    ensures FeeCentsApply(cents, whole) == part <==> Cents(part, whole, cents)
  {
    if Cents(part, whole, cents) {
      OneFloor(part, FeeCentsApply(cents, whole), whole * cents, MAX_BP_CENTS);
    }
  }

  lemma PointsIff(points: nat, whole: u64, part: nat)
    requires points <= MAX_BASIS_POINTS
    ensures FeeApply(points, whole) == part <==> Points(part, whole, points)
  {
    if Points(part, whole, points) {
      OneFloor(part, FeeApply(points, whole), whole * points, MAX_BASIS_POINTS);
    }
  }

  // ---------------------------------------------------------------- delayed unstake

  /** What an order of so much mSOL is worth, and the fee on it; the rest is a ticket worth issuing. */
  ghost predicate OrderTerms(s: System, msol: nat, value: nat, fee: nat) {
    && IsWorth(value, msol, Behind(s), s.supply) && value <= U64_MAX
    && Cents(fee, value, s.cfg.delayedUnstakeFee) && fee <= value && value - fee >= s.cfg.minWithdraw
  }

  /** The ticket holds what the mSOL was worth less the fee, and is for this epoch, or for the next one
      when stake was moved in this one already. */
  function Ordered(s: System, msol: nat, newKey: Key, amount: nat): System
    requires msol <= s.supply && msol <= s.msolHeld
  {
    var epoch := if s.deltaEpoch == s.clock.epoch then s.clock.epoch + 1 else s.clock.epoch;
    s.(tickets := s.tickets + [Ticket(newKey, amount, epoch)], ticketCount := s.ticketCount + 1,
       ticketBalance := s.ticketBalance + amount, supply := s.supply - msol, msolHeld := s.msolHeld - msol)
  }

  /** No address is used twice, and the machine's integers hold one more ticket. */
  predicate OrderFits(s: System, newKey: Key, amount: nat) {
    && (forall k :: 0 <= k < |s.tickets| ==> s.tickets[k].id != newKey)
    && s.ticketBalance + amount <= U64_MAX && s.ticketCount + 1 <= U64_MAX
  }

  lemma OrderUnstakeIff(s: System, msol: u64, newKey: Key)
    requires Backed(s)
    ensures var r := OrderUnstake(s, msol, newKey);
      && (r.Success? <==>
          && !s.cfg.paused && msol <= s.msolHeld && Under(s) <= U64_MAX
          && exists value: nat, fee: nat :: OrderTerms(s, msol, value, fee) && OrderFits(s, newKey, value - fee))
      && (r.Success? ==>
          exists value: nat, fee: nat :: OrderTerms(s, msol, value, fee) && msol <= s.supply
            && r.value == Ordered(s, msol, newKey, value - fee))
  {
    hide IsWorth, Cents, Behind, Under, MsolToSol, FeeCentsApply, IsFloor;
    var r := OrderUnstake(s, msol, newKey);
    var worth := MsolToSol(s, msol);
    if worth.Success? {
      WorthIff(s, msol, worth.value);
      var fee := FeeCentsApply(s.cfg.delayedUnstakeFee, worth.value);
      CentsIff(s.cfg.delayedUnstakeFee, worth.value, fee);
      if r.Success? {
        assert OrderTerms(s, msol, worth.value, fee);
      }
    }
    if value: nat, fee: nat :| OrderTerms(s, msol, value, fee) && OrderFits(s, newKey, value - fee) {
      WorthIff(s, msol, value);
      CentsIff(s.cfg.delayedUnstakeFee, value, fee);
    }
  }

  // ---------------------------------------------------------------- the pool's fee

  /** The fee is the minimum from the target on; below it the maximum less the floored part of the
      difference that the liquidity is of the target. */
  ghost predicate FeeAt(cfg: Config, points: nat, liquidity: nat) {
    if liquidity >= cfg.lpTarget then points == cfg.lpMinFee
    else
      && cfg.lpMinFee <= points <= cfg.lpMaxFee
      && var difference: nat := cfg.lpMaxFee - cfg.lpMinFee;
         IsFloor(cfg.lpMaxFee - points, difference * liquidity, cfg.lpTarget)
  }

  lemma LinearFeeIff(cfg: Config, liquidity: nat, points: nat)
    requires cfg.lpMinFee <= cfg.lpMaxFee <= MAX_BASIS_POINTS && cfg.lpTarget > 0
    ensures LinearFee(cfg, liquidity) == Success(points) <==> FeeAt(cfg, points, liquidity)
  {
    LinearFeeIsBetween(cfg, liquidity);
    if liquidity < cfg.lpTarget {
      var cut: nat := cfg.lpMaxFee - LinearFee(cfg, liquidity).value;
      ProportionalIff(cfg.lpMaxFee - cfg.lpMinFee, liquidity, cfg.lpTarget, cut);
      if points <= cfg.lpMaxFee && IsFloor(cfg.lpMaxFee - points, (cfg.lpMaxFee - cfg.lpMinFee) * liquidity,
                                           cfg.lpTarget) {
        OneFloor(cut, cfg.lpMaxFee - points, (cfg.lpMaxFee - cfg.lpMinFee) * liquidity, cfg.lpTarget);
      }
    }
  }

  /** It is the maximum on an empty pool, and falls as liquidity grows. */
  lemma FeeFalls(cfg: Config, less: nat, more: nat)
    requires cfg.lpMinFee <= cfg.lpMaxFee <= MAX_BASIS_POINTS && cfg.lpTarget > 0 && less <= more
    ensures LinearFee(cfg, 0) == Success(cfg.lpMaxFee)
    ensures LinearFee(cfg, less).Success? && LinearFee(cfg, more).Success?
    ensures LinearFee(cfg, more).value <= LinearFee(cfg, less).value
  {
    LinearFeeIsBetween(cfg, less);
    LinearFeeIsBetween(cfg, more);
    LinearFeeIff(cfg, 0, cfg.lpMaxFee);
    if more < cfg.lpTarget {
      var delta: nat := cfg.lpMaxFee - cfg.lpMinFee;
      LinearFeeIff(cfg, less, LinearFee(cfg, less).value);
      LinearFeeIff(cfg, more, LinearFee(cfg, more).value);
      MulLe(less, more, delta);
      FloorAtMost(cfg.lpMaxFee - LinearFee(cfg, less).value, delta * less, cfg.lpTarget,
                  cfg.lpMaxFee - LinearFee(cfg, more).value);
    }
  }

  // ---------------------------------------------------------------- unstaking through the pool

  /** The fee is that at the liquidity which is left when the whole value is taken; the user is paid what
      the mSOL less the fee is worth, and the treasury's cut comes out of the fee. */
  ghost predicate SaleTerms(s: System, msol: nat, treasury: bool, wanted: nat, points: nat, fee: nat, paid: nat,
                            cut: nat) {
    && IsWorth(wanted, msol, Behind(s), s.supply) && (s.supply > 0 ==> wanted <= U64_MAX)
    && (if wanted + s.cfg.tokenRent >= s.solLeg then points == s.cfg.lpMaxFee
        else FeeAt(s.cfg, points, s.solLeg - s.cfg.tokenRent - wanted))
    && Points(fee, msol, points) && fee <= msol
    && IsWorth(paid, msol - fee, Behind(s), s.supply) && paid + s.cfg.tokenRent <= Min(s.solLeg, U64_MAX)
    && paid >= s.cfg.minWithdraw
    && (if treasury then Points(cut, fee, s.cfg.treasuryCut) else cut == 0)
  }

  function Sold(s: System, msol: nat, paid: nat, cut: nat): System
    requires paid <= s.solLeg && cut <= msol <= s.msolHeld
  {
    s.(solLeg := s.solLeg - paid, msolLeg := s.msolLeg + (msol - cut), msolHeld := s.msolHeld - (msol - cut))
  }

  lemma FeeChosen(s: System, wanted: nat, points: nat)
    requires ConfigOk(s.cfg) && s.cfg.tokenRent <= s.solLeg
    ensures var available := SatSub(s.solLeg, s.cfg.tokenRent);
      var chosen := if wanted >= available then Success(s.cfg.lpMaxFee) else LinearFee(s.cfg, available - wanted);
      && (chosen == Success(points) <==>
          if wanted + s.cfg.tokenRent >= s.solLeg then points == s.cfg.lpMaxFee
          else FeeAt(s.cfg, points, s.solLeg - s.cfg.tokenRent - wanted))
      && (chosen == Success(points) ==> points <= MAX_BASIS_POINTS)
      && chosen.Success?
  {
    if wanted + s.cfg.tokenRent < s.solLeg {
      LinearFeeIff(s.cfg, s.solLeg - s.cfg.tokenRent - wanted, points);
      LinearFeeIsBetween(s.cfg, s.solLeg - s.cfg.tokenRent - wanted);
    }
  }

  lemma LiquidUnstakeIff(s: System, msol: u64, treasury: bool)
    requires Backed(s)
    ensures var r := LiquidUnstake(s, msol, treasury);
      && (r.Success? <==>
          && !s.cfg.paused && msol <= s.msolHeld && Under(s) <= U64_MAX
          && exists wanted: nat, points: nat, fee: nat, paid: nat, cut: nat ::
               SaleTerms(s, msol, treasury, wanted, points, fee, paid, cut))
      && (r.Success? ==>
          exists wanted: nat, points: nat, fee: nat, paid: nat, cut: nat ::
            SaleTerms(s, msol, treasury, wanted, points, fee, paid, cut)
            && paid <= s.solLeg && cut <= msol <= s.msolHeld && r.value == Sold(s, msol, paid, cut))
  {
    hide IsWorth, Points, FeeAt, Behind, Under, MsolToSol, FeeApply, LinearFee, IsFloor;
    if LiquidUnstake(s, msol, treasury).Success? {
      SaleHasTerms(s, msol, treasury);
    }
    if wanted: nat, points: nat, fee: nat, paid: nat, cut: nat :|
         SaleTerms(s, msol, treasury, wanted, points, fee, paid, cut) && !s.cfg.paused && msol <= s.msolHeld
             && Under(s) <= U64_MAX {
      TermsAreAccepted(s, msol, treasury, wanted, points, fee, paid, cut);
    }
  }

  lemma SaleHasTerms(s: System, msol: u64, treasury: bool)
    requires Backed(s) && LiquidUnstake(s, msol, treasury).Success?
    ensures !s.cfg.paused && msol <= s.msolHeld && Under(s) <= U64_MAX
    ensures exists wanted: nat, points: nat, fee: nat, paid: nat, cut: nat ::
              SaleTerms(s, msol, treasury, wanted, points, fee, paid, cut)
              && paid <= s.solLeg && cut <= msol <= s.msolHeld
              && LiquidUnstake(s, msol, treasury).value == Sold(s, msol, paid, cut)
  {
    hide IsWorth, Points, FeeAt, Behind, Under, MsolToSol, LinearFee, IsFloor;
    var available := SatSub(s.solLeg, s.cfg.tokenRent);
    var wanted := MsolToSol(s, msol).value;
    WorthIff(s, msol, wanted);
    var points := (if wanted >= available then Success(s.cfg.lpMaxFee) else LinearFee(s.cfg, available - wanted)).value;
    FeeChosen(s, wanted, points);
    var fee := FeeApply(points, msol);
    PointsIff(points, msol, fee);
    var paid := MsolToSol(s, msol - fee).value;
    WorthIff(s, msol - fee, paid);
    var cut := if treasury then FeeApply(s.cfg.treasuryCut, fee) else 0;
    if treasury {
      PointsIff(s.cfg.treasuryCut, fee, cut);
    }
    hide FeeApply;
    assert SaleTerms(s, msol, treasury, wanted, points, fee, paid, cut);
  }

  lemma TermsAreAccepted(s: System, msol: u64, treasury: bool, wanted: nat, points: nat, fee: nat, paid: nat, cut: nat)
    requires Backed(s) && SaleTerms(s, msol, treasury, wanted, points, fee, paid, cut)
    requires !s.cfg.paused && msol <= s.msolHeld && Under(s) <= U64_MAX
    ensures LiquidUnstake(s, msol, treasury).Success?
  {
    hide IsWorth, Points, FeeAt, Behind, Under, MsolToSol, LinearFee, IsFloor;
    WorthIff(s, msol, wanted);
    FeeChosen(s, wanted, points);
    PointsIff(points, msol, fee);
    WorthIff(s, msol - fee, paid);
    if treasury {
      PointsIff(s.cfg.treasuryCut, fee, cut);
    }
    hide FeeApply;
  }

  // ---------------------------------------------------------------- liquidity

  /** What the mSOL leg is worth, and the shares that so many lamports buy of both legs together. */
  ghost predicate ProvisionTerms(s: System, lamports: nat, leg: nat, shares: nat) {
    && IsWorth(leg, s.msolLeg, Behind(s), s.supply) && (s.supply > 0 ==> leg <= U64_MAX)
    && s.cfg.tokenRent <= s.solLeg && s.solLeg - s.cfg.tokenRent + leg <= U64_MAX
    && Buys(shares, lamports, s.solLeg - s.cfg.tokenRent + leg, s.lpMint) && s.lpMint + shares <= U64_MAX
  }

  lemma AddLiquidityIff(s: System, lamports: u64)
    requires Backed(s)
    ensures var r := AddLiquidity(s, lamports);
      && (r.Success? <==>
          && !s.cfg.paused && lamports >= s.cfg.minDeposit && s.solLeg + lamports <= Min(s.cfg.liquidityCap, U64_MAX)
          && Under(s) <= U64_MAX && exists leg: nat, shares: nat :: ProvisionTerms(s, lamports, leg, shares))
      && (r.Success? ==>
          exists leg: nat, shares: nat :: ProvisionTerms(s, lamports, leg, shares)
            && r.value == s.(solLeg := s.solLeg + lamports, lpMint := s.lpMint + shares, lpSupply := s.lpMint + shares))
  {
    hide IsWorth, Buys, Behind, Under, MsolToSol, SharesFromValue, IsFloor;
    var r := AddLiquidity(s, lamports);
    var worth := MsolToSol(s, s.msolLeg);
    if worth.Success? && s.solLeg - s.cfg.tokenRent + worth.value <= U64_MAX {
      WorthIff(s, s.msolLeg, worth.value);
      var shares := SharesFromValue(lamports, s.solLeg - s.cfg.tokenRent + worth.value, s.lpMint);
      if shares.Success? {
        SharesIff(lamports, s.solLeg - s.cfg.tokenRent + worth.value, s.lpMint, shares.value);
        if r.Success? {
          assert ProvisionTerms(s, lamports, worth.value, shares.value);
        }
      }
    }
    if leg: nat, shares: nat :| ProvisionTerms(s, lamports, leg, shares) {
      WorthIff(s, s.msolLeg, leg);
      SharesIff(lamports, s.solLeg - s.cfg.tokenRent + leg, s.lpMint, shares);
    }
  }

  lemma SharesIff(value: u64, total: nat, supply: nat, shares: nat)
    ensures SharesFromValue(value, total, supply) == Success(shares) <==>
            Buys(shares, value, total, supply) && shares <= U64_MAX
  {
    if supply > 0 && total > 0 {
      ProportionalIff(value, supply, total, shares);
    }
  }

  /** What so many shares take from each leg, worth at least the smallest withdrawal together. */
  ghost predicate ExitTerms(s: System, tokens: nat, sol: nat, msol: nat, worth: nat) {
    && s.cfg.tokenRent <= s.solLeg
    && Entitles(sol, tokens, s.solLeg - s.cfg.tokenRent, s.lpMint) && Entitles(msol, tokens, s.msolLeg, s.lpMint)
    && sol <= U64_MAX && msol <= U64_MAX
    && IsWorth(worth, msol, Behind(s), s.supply) && s.cfg.minWithdraw <= sol + worth <= U64_MAX
  }

  lemma PartOfLeg(part: nat, shares: nat, leg: nat, supply: nat)
    requires shares <= supply && Entitles(part, shares, leg, supply)
    ensures part <= leg
  {
    if supply > 0 {
      MulLe(shares, supply, leg);
      FloorAtMost(part, shares * leg, supply, leg);
    }
  }

  lemma RemoveLiquidityIff(s: System, tokens: u64)
    requires Backed(s)
    ensures var r := RemoveLiquidity(s, tokens);
      && (r.Success? <==>
          && !s.cfg.paused && tokens <= s.lpMint && Under(s) <= U64_MAX
          && exists sol: nat, msol: nat, worth: nat :: ExitTerms(s, tokens, sol, msol, worth))
      && (r.Success? ==>
          exists sol: nat, msol: nat, worth: nat :: ExitTerms(s, tokens, sol, msol, worth)
            && sol <= s.solLeg && msol <= s.msolLeg && tokens <= s.lpMint
            && r.value == s.(solLeg := s.solLeg - sol, msolLeg := s.msolLeg - msol, msolHeld := s.msolHeld + msol,
                             lpMint := s.lpMint - tokens, lpSupply := s.lpMint - tokens))
  {
    hide IsWorth, Entitles, Behind, Under, MsolToSol, Proportional, IsFloor;
    var r := RemoveLiquidity(s, tokens);
    var available: nat := s.solLeg - s.cfg.tokenRent;
    if r.Success? {
      var sol, msol := Proportional(tokens, available, s.lpMint).value, Proportional(tokens, s.msolLeg, s.lpMint).value;
      var worth := MsolToSol(s, msol).value;
      EntitlesIff(tokens, available, s.lpMint, sol);
      EntitlesIff(tokens, s.msolLeg, s.lpMint, msol);
      WorthIff(s, msol, worth);
      assert ExitTerms(s, tokens, sol, msol, worth);
    }
    if sol: nat, msol: nat,
        worth: nat :| ExitTerms(s, tokens, sol, msol, worth) && tokens <= s.lpMint && Under(s) <= U64_MAX {
      EntitlesIff(tokens, available, s.lpMint, sol);
      EntitlesIff(tokens, s.msolLeg, s.lpMint, msol);
      WorthIff(s, msol, worth);
      PartOfLeg(sol, tokens, available, s.lpMint);
      PartOfLeg(msol, tokens, s.msolLeg, s.lpMint);
    }
  }

  lemma EntitlesIff(tokens: u64, leg: nat, supply: nat, part: nat)
    ensures Proportional(tokens, leg, supply) == Success(part) <==>
        Entitles(part, tokens, leg, supply) && part <= U64_MAX
  {
    if supply > 0 {
      ProportionalIff(tokens, leg, supply, part);
    }
  }
}
