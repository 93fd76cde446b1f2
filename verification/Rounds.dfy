/** Nobody gains by going around: value computed by the floored conversions never comes out of a
    deposit and an unstake, or of adding and removing liquidity, and never leaves the pool. */
module Rounds {
  import opened Base
  import opened Calc
  import opened Model
  import opened Ledger
  import opened Instructions
  import opened Invariant

  lemma FloorSumLe(a: nat, b: nat, c: nat, x: nat, y: nat, d: nat)
    requires d > 0 && a * d <= x && b * d <= y && x + y < (c + 1) * d
    ensures a + b <= c
  {
    assert (a + b) * d == a * d + b * d;
    if a + b >= c + 1 {
      MulLe(c + 1, a + b, d);
    }
  }

  /** The value of mSOL as the program computes it, said without division. */
  lemma Worth(s: System, msol: nat)
    ensures MsolToSol(s, msol).Success? && s.supply > 0 ==>
              IsFloor(MsolToSol(s, msol).value, msol * VirtualStaked(s), s.supply)
    ensures s.supply == 0 && TotalLamports(s) <= U64_MAX ==> MsolToSol(s, msol) == Success(msol)
    ensures MsolToSol(s, msol).Success? ==> TotalLamports(s) <= U64_MAX
  {
  }

  lemma MoreIsWorthMore(s: System, a: nat, b: nat)
    requires a <= b && MsolToSol(s, a).Success? && MsolToSol(s, b).Success?
    ensures MsolToSol(s, a).value <= MsolToSol(s, b).value
  {
    Worth(s, a);
    Worth(s, b);
    if s.supply > 0 {
      MulLe(a, b, VirtualStaked(s));
      FloorAtMost(MsolToSol(s, a).value, a * VirtualStaked(s), s.supply, MsolToSol(s, b).value);
    }
  }

  // ---------------------------------------------------------------- deposit, then unstake

  /** What a deposit turns the books into: `order` is what the depositor receives, of which `swapped`
      comes out of the pool for `paid` lamports. */
  ghost predicate Deposited(s: System, lamports: nat, t: System, part: nat, order: nat, swapped: nat, paid: nat) {
    && part <= lamports && paid <= lamports && swapped <= order && swapped <= s.msolLeg
    && (if s.supply == 0 || VirtualStaked(s) == 0 then order == part
        else IsFloor(order, part * s.supply, VirtualStaked(s)))
    && (swapped == 0 ==> paid == 0)
    && (0 < swapped == order ==> paid == lamports)
    && (0 < swapped < order ==> MsolToSol(s, swapped) == Success(paid) && swapped == s.msolLeg)
    && (swapped == 0 ==> order == 0 || s.msolLeg == 0)
    && t == s.(msolLeg := s.msolLeg - swapped, msolHeld := s.msolHeld + order, solLeg := s.solLeg + paid,
               supply := s.supply + (order - swapped), reserve := s.reserve + (lamports - paid),
               reserveLamports := s.reserveLamports + (lamports - paid))
  }

  function Fee(s: System, lamports: nat): nat {
    FeeCentsApply(s.cfg.depositFee, lamports)
  }

  lemma DepositIs(s: System, lamports: u64)
    requires Deposit(s, lamports).Success?
    ensures exists order, swapped, paid ::
              Deposited(s, lamports, Deposit(s, lamports).value, SatSub(lamports, Fee(s, lamports)), order, swapped,
                        paid)
  {
    var t := Deposit(s, lamports).value;
    var part := SatSub(lamports, Fee(s, lamports));
    var order := MsolFromLamports(s, part).value;
    var swapped := Min(order, s.msolLeg);
    var paid: nat := t.solLeg - s.solLeg;
    hide FeeCentsApply, IsFloor, VirtualStaked, TotalLamports, CheckStakingCap, MintSupply;
    assert Deposited(s, lamports, t, part, order, swapped, paid);
  }

  /** Multiplication as a name, so that the proof below is linear in its products. */
  function Times(a: int, b: int): int {
    a * b
  }

  /** The arithmetic of a partial fill, both sides scaled by the supply. What the order's own
      rounding left over, lamports * supply - order * value, pays for what the pool's rounding gave. */
  lemma PartialFill(value: nat, supply: nat, lamports: nat, order: nat, swapped: nat, paid: nat)
    requires 0 < swapped < order && swapped <= supply && paid <= lamports
    requires Times(order, value) <= Times(lamports, supply) && IsFloor(paid, swapped * value, supply)
    ensures Times(order, value + (lamports - paid)) < Times(lamports + 1, supply + (order - swapped))
  {
    hide Times, IsFloor;
    RoundingOfPaid(value, supply, order, swapped, paid);
    SpareCovers(value, supply, lamports, order, swapped);
    LeftSide(value, supply, lamports, order, paid);
    RightSide(supply, lamports, order, swapped);
    LessByScale(Times(order, value + (lamports - paid)), Times(lamports + 1, supply + (order - swapped)), supply);
  }

  /** The pool sells nothing, or the whole order. */
  lemma NoneOrAll(value: nat, supply: nat, lamports: nat, order: nat, swapped: nat, paid: nat)
    requires supply > 0 && Times(order, value) <= Times(lamports, supply)
    requires swapped == paid == 0 || (swapped == order && paid == lamports)
    ensures Times(order, value + (lamports - paid)) < Times(lamports + 1, supply + (order - swapped))
  {
    if swapped == paid == 0 {
      assert order * (value + lamports) == order * value + order * lamports;
      assert (lamports + 1) * (supply + order) == lamports * supply + order * lamports + supply + order;
    } else {
      assert (lamports + 1) * supply == lamports * supply + supply;
    }
  }

  lemma RoundingOfPaid(value: nat, supply: nat, order: nat, swapped: nat, paid: nat)
    requires IsFloor(paid, swapped * value, supply)
    ensures Times(swapped, Times(order, value)) + order <= Times(paid, Times(order, supply)) + Times(order, supply)
  {
    MulLe(swapped * value + 1, (paid + 1) * supply, order);
    assert order * (swapped * value + 1) == swapped * (order * value) + order;
    assert order * ((paid + 1) * supply) == paid * (order * supply) + order * supply;
  }

  lemma SpareCovers(value: nat, supply: nat, lamports: nat, order: nat, swapped: nat)
    requires swapped <= supply && Times(order, value) <= Times(lamports, supply)
    ensures Times(swapped, Times(lamports, supply)) - Times(swapped, Times(order, value))
         <= Times(Times(lamports, supply), supply) - Times(Times(order, value), supply)
  {
    var ov, ls := order * value, lamports * supply;
    MulLe(swapped, supply, ls - ov);
    assert swapped * (ls - ov) == swapped * ls - swapped * ov;
  }

  lemma LeftSide(value: int, supply: int, lamports: int, order: int, paid: int)
    ensures Times(Times(order, value + (lamports - paid)), supply)
         == Times(Times(order, value), supply)
             + Times(lamports, Times(order, supply)) - Times(paid, Times(order, supply))
  {
  }

  lemma RightSide(supply: int, lamports: int, order: int, swapped: int)
    requires 0 <= swapped <= supply
    ensures Times(Times(lamports + 1, supply + (order - swapped)), supply)
         >= Times(Times(lamports, supply), supply) + Times(lamports, Times(order, supply))
            - Times(swapped, Times(lamports, supply)) + Times(order, supply)
  {
    MulLe(0, supply - swapped, supply);
    Expanded(supply, lamports, order, swapped);
  }

  lemma Expanded(supply: int, lamports: int, order: int, swapped: int)
    ensures (lamports + 1) * (supply + (order - swapped)) * supply
         == (lamports * supply) * supply + lamports * (order * supply) - swapped * (lamports * supply)
            + (supply - swapped) * supply + order * supply
  {
  }

  lemma LessByScale(a: int, b: int, c: nat)
    ensures Times(a, c) < Times(b, c) ==> a < b
  {
    if b <= a {
      MulLe(0, a - b, c);
      assert (a - b) * c == a * c - b * c;
    }
  }

  /** The lamports behind mSOL grow by what stayed in the reserve, or make up for a shortfall first. */
  lemma VirtualAfter(s: System, t: System, lamports: nat, part: nat, order: nat, swapped: nat, paid: nat)
    requires Deposited(s, lamports, t, part, order, swapped, paid)
    ensures VirtualStaked(t) <= VirtualStaked(s) + (lamports - paid)
    ensures VirtualStaked(s) > 0 ==> VirtualStaked(t) == VirtualStaked(s) + (lamports - paid)
  {
  }

  /** With supply before the deposit, the shares received are worth at most what was deposited. */
  lemma ReceivedAtMost(s: System, t: System, lamports: nat, part: nat, order: nat, swapped: nat, paid: nat)
    requires Backed(s) && s.supply > 0 && Deposited(s, lamports, t, part, order, swapped, paid)
    ensures Times(order, VirtualStaked(t)) < Times(lamports + 1, t.supply)
  {
    var value, supply := VirtualStaked(s), s.supply;
    VirtualAfter(s, t, lamports, part, order, swapped, paid);
    if 0 < swapped < order {
      Worth(s, swapped);
    }
    assert swapped <= supply && t.supply == supply + (order - swapped);
    var after := VirtualStaked(t);
    if value > 0 {
      assert order * value <= part * supply;
      MulLe(part, lamports, supply);
      hide Backed, VirtualStaked, IsFloor;
      if 0 < swapped < order {
        PartialFill(value, supply, lamports, order, swapped, paid);
      } else {
        NoneOrAll(value, supply, lamports, order, swapped, paid);
      }
    } else {
      NothingBehind(lamports, supply, order, swapped, paid, after);
    }
  }

  lemma NothingBehind(lamports: nat, supply: nat, order: nat, swapped: nat, paid: nat, after: nat)
    requires supply > 0 && swapped <= supply && swapped <= order && paid <= lamports && after <= lamports - paid
    requires 0 < swapped == order ==> paid == lamports
    ensures Times(order, after) < Times(lamports + 1, supply + (order - swapped))
  {
    MulLe(after, lamports, order);
    MulLe(order, supply + (order - swapped), lamports);
    assert (lamports + 1) * (supply + (order - swapped))
        == lamports * (supply + (order - swapped)) + supply + (order - swapped);
    if swapped == order > 0 {
      assert order * after == 0;
    }
  }

  /** Depositing and then unstaking everything received pays back no more than was deposited, in full,
      partial and no fill from the pool, exactly when mSOL was in circulation before, or nothing was
      behind it, or the fee took the whole deposit. The exception is real: with no mSOL in circulation
      the first depositor is minted one to one and gets whatever the reserve already held. */
  lemma NoGainByDepositIff(s: System, lamports: u64)
    requires Backed(s) && Deposit(s, lamports).Success?
    ensures var t := Deposit(s, lamports).value;
      && t.msolHeld >= s.msolHeld
      && var back := MsolToSol(t, t.msolHeld - s.msolHeld);
      back.Success? ==>
        (back.value <= lamports <==> s.supply > 0 || VirtualStaked(s) == 0 || SatSub(lamports, Fee(s, lamports)) == 0)
  {
    DepositIs(s, lamports);
    var t := Deposit(s, lamports).value;
    var part := SatSub(lamports, Fee(s, lamports));
    var order, swapped, paid :| Deposited(s, lamports, t, part, order, swapped, paid);
    HeldAfter(s, t, lamports, part, order, swapped, paid);
    hide *;
    if s.supply > 0 {
      GainWithSupply(s, t, lamports, part, order, swapped, paid);
    } else {
      GainWithoutSupply(s, t, lamports, part, order, swapped, paid);
    }
  }

  lemma HeldAfter(s: System, t: System, lamports: nat, part: nat, order: nat, swapped: nat, paid: nat)
    requires Deposited(s, lamports, t, part, order, swapped, paid)
    ensures t.msolHeld == s.msolHeld + order
  {
  }

  lemma GainWithSupply(s: System, t: System, lamports: nat, part: nat, order: nat, swapped: nat, paid: nat)
    requires Backed(s) && s.supply > 0 && Deposited(s, lamports, t, part, order, swapped, paid)
    ensures MsolToSol(t, order).Success? ==> MsolToSol(t, order).value <= lamports
  {
    ReceivedAtMost(s, t, lamports, part, order, swapped, paid);
    Worth(t, order);
    SupplyStays(s, t, lamports, part, order, swapped, paid);
    hide *;
    if MsolToSol(t, order).Success? {
      WorthBelow(MsolToSol(t, order).value, order, VirtualStaked(t), t.supply, lamports);
    }
  }

  lemma SupplyStays(s: System, t: System, lamports: nat, part: nat, order: nat, swapped: nat, paid: nat)
    requires s.supply > 0 && Deposited(s, lamports, t, part, order, swapped, paid)
    ensures t.supply > 0
  {
  }

  lemma WorthBelow(q: nat, shares: nat, value: nat, supply: nat, bound: nat)
    requires IsFloor(q, shares * value, supply) && Times(shares, value) < Times(bound + 1, supply)
    ensures q <= bound
  {
    FloorAtMost(q, shares * value, supply, bound);
  }

  lemma GainWithoutSupply(s: System, t: System, lamports: nat, part: nat, order: nat, swapped: nat, paid: nat)
    requires Backed(s) && s.supply == 0 && Deposited(s, lamports, t, part, order, swapped, paid)
    ensures MsolToSol(t, order).Success? ==>
        (MsolToSol(t, order).value <= lamports <==> VirtualStaked(s) == 0 || part == 0)
  {
    VirtualAfter(s, t, lamports, part, order, swapped, paid);
    Worth(t, order);
    hide MsolToSol, VirtualStaked;
    if part > 0 && MsolToSol(t, order).Success? {
      WholeShare(MsolToSol(t, order).value, order, VirtualStaked(t));
    }
  }

  /** The only shares are worth everything. */
  lemma WholeShare(q: nat, shares: nat, value: nat)
    requires shares > 0 && IsFloor(q, shares * value, shares)
    ensures q == value
  {
    FloorAtMost(q, shares * value, shares, value);
    if q < value {
      MulLe(q + 1, value, shares);
    }
  }

  /** By delayed ticket the depositor gets no more back, and through the pool no more either. */
  lemma NoWayBackGains(s: System, lamports: u64, newKey: Key, treasury: bool)
    requires Backed(s) && Deposit(s, lamports).Success? && s.supply > 0
    requires var t := Deposit(s, lamports).value; t.msolHeld - s.msolHeld <= U64_MAX
    ensures var t := Deposit(s, lamports).value;
      && t.msolHeld >= s.msolHeld
      && var received: u64 := t.msolHeld - s.msolHeld;
      && (OrderUnstake(t, received, newKey).Success? ==>
            OrderUnstake(t, received, newKey).value.ticketBalance <= t.ticketBalance + lamports)
      && (LiquidUnstake(t, received, treasury).Success? ==>
            LiquidUnstake(t, received, treasury).value.solLeg >= t.solLeg - lamports)
  {
    hide *;
    NoGainByDepositIff(s, lamports);
    var t := Deposit(s, lamports).value;
    var received: u64 := t.msolHeld - s.msolHeld;
    TicketPays(t, received, newKey);
    PoolPays(t, received, treasury);
  }

  lemma TicketPays(s: System, msol: u64, newKey: Key)
    ensures var r := OrderUnstake(s, msol, newKey);
      r.Success? ==> MsolToSol(s, msol).Success? && r.value.ticketBalance <= s.ticketBalance + MsolToSol(s, msol).value
  {
    hide MsolToSol;
  }

  lemma PoolPays(s: System, msol: u64, treasury: bool)
    ensures var r := LiquidUnstake(s, msol, treasury);
      r.Success? ==> MsolToSol(s, msol).Success? && r.value.solLeg >= s.solLeg - MsolToSol(s, msol).value
  {
    hide MsolToSol, LinearFee;
    var r := LiquidUnstake(s, msol, treasury);
    if r.Success? {
      var sold: nat :| sold <= msol && MsolToSol(s, sold).Success?
          && r.value.solLeg == s.solLeg - MsolToSol(s, sold).value;
      MoreIsWorthMore(s, sold, msol);
    }
  }
}
