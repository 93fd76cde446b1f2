/** Every instruction keeps the books balanced and fails on none of their subtractions or
    self-checks. */
module Invariant {
  import opened Base
  import opened Calc
  import opened Sums
  import opened Model
  import opened Ledger
  import opened Instructions
  import opened Machine
  import opened Books
  import opened BooksSteps

  function TicketAmount(): Ticket -> nat {
    (t: Ticket) => t.amount
  }

  /** The real accounts hold at least what the program accounts for, and the ticket totals are
      those of the open tickets. */
  ghost predicate Backed(s: System) {
    && ConfigOk(s.cfg)
    && s.clock.epoch < NEVER
    && s.reserve + s.cfg.tokenRent <= s.reserveLamports
    && MintSupply(s) <= s.supply
    && s.lpMint <= s.lpSupply
    && s.cfg.tokenRent <= s.solLeg
    && s.ticketBalance == Sum(s.tickets, TicketAmount())
    && s.ticketCount == |s.tickets|
  }

  ghost predicate Inv(s: System) {
    Balanced(s) && Backed(s)
  }

  /** While validators are iterated every record is active and nothing is cooling down. */
  ghost predicate Drained(s: System) {
    s.upgrader.IteratingValidators? ==> AllActive(s.stakes)
  }

  // ---------------------------------------------------------------- parts shared by instructions

  lemma SameNativeKeeps(s: System, t: System)
    requires Balanced(s) && SameBooks(s, t) && t.native == s.native
    ensures Balanced(t)
  {
    hide Sum;
    OutsideKeepsBalanced(s, t);
  }

  lemma DeactivateNativeKeeps(s: System, account: Key)
    requires Balanced(s) && s.clock.epoch < NEVER
    ensures DeactivateNative(s, account).Success? ==>
              Balanced(DeactivateNative(s, account).value) && account in s.native
              && !DeactivateNative(s, account).value.native[account].Live()
  {
    hide Sum;
    var result := DeactivateNative(s, account);
    if result.Success? {
      OutsideKeepsBalanced(s, result.value);
    }
  }

  /** A split leaves both accounts their rent, and the new account is nobody's yet. */
  lemma SplitNativeKeeps(s: System, from: Key, to: Key, amount: nat)
    requires Balanced(s)
    ensures SplitNative(s, from, to, amount).Success? ==>
              && Balanced(SplitNative(s, from, to, amount).value)
              && (forall k :: 0 <= k < |s.stakes| ==> s.stakes[k].account != to)
  {
    hide Sum;
    var result := SplitNative(s, from, to, amount);
    if result.Success? {
      OutsideKeepsBalanced(s, result.value);
    }
  }

  // ---------------------------------------------------------------- users

  lemma DepositKeeps(s: System, lamports: u64)
    requires Inv(s)
    ensures !Broken(Deposit(s, lamports))
    ensures Deposit(s, lamports).Success? ==> Inv(Deposit(s, lamports).value)
  {
    hide Sum, Balanced;
    SwapIsCovered(s, lamports);
    var r := Deposit(s, lamports);
    if r.Success? {
      DepositKeepsBooks(s, lamports);
      SameNativeKeeps(s, r.value);
    }
  }

  lemma DepositKeepsBooks(s: System, lamports: u64)
    ensures Deposit(s, lamports).Success? ==>
        SameBooks(s, Deposit(s, lamports).value) && Deposit(s, lamports).value.native == s.native
  {
    hide MsolFromLamports, MsolToSol;
  }

  /** What the pool's part of an order costs is never more than what was deposited. */
  lemma SwapIsCovered(s: System, lamports: u64)
    requires Backed(s)
    ensures var order := MsolFromLamports(s, SatSub(lamports, FeeCentsApply(s.cfg.depositFee, lamports)));
      order.Success? ==>
          forall swapped: nat :: swapped <= order.value && swapped <= s.msolLeg && MsolToSol(s, swapped).Success? ==>
        MsolToSol(s, swapped).value <= lamports
  {
    hide Sum;
    var part := SatSub(lamports, FeeCentsApply(s.cfg.depositFee, lamports));
    var order := MsolFromLamports(s, part);
    if order.Success? {
      var V, S := VirtualStaked(s), s.supply;
      forall swapped: nat | swapped <= order.value && swapped <= s.msolLeg && MsolToSol(s, swapped).Success?
        ensures MsolToSol(s, swapped).value <= lamports
      {
        if S > 0 && V > 0 {
          // swapped * V <= order * V <= part * S
          MulLe(swapped, order.value, V);
          MulLe(part, lamports, S);
          assert swapped * V < (lamports + 1) * S;
          FloorAtMost(MsolToSol(s, swapped).value, swapped * V, S, lamports);
        } else if S > 0 {
          FloorAtMost(MsolToSol(s, swapped).value, swapped * V, S, lamports);
        }
      }
    }
  }

  lemma DepositStakeAccountKeeps(s: System, account: Key, j: nat)
    requires Inv(s)
    ensures !Broken(DepositStakeAccount(s, account, j))
    ensures DepositStakeAccount(s, account, j).Success? ==> Inv(DepositStakeAccount(s, account, j).value)
  {
    if account in s.native && j < |s.validators| && s.validators[j].vote == s.native[account].voter
       && s.native[account].Live() && s.native[account].lamports == s.native[account].stake + s.native[account].rent {
      EnterStakeKeeps(s, account, j);
    }
    hide Inv, EnterStake;
  }

  lemma EnterStakeKeeps(s: System, account: Key, j: nat)
    requires Inv(s) && account in s.native && j < |s.validators| && s.validators[j].vote == s.native[account].voter
    requires s.native[account].Live()
    requires s.native[account].lamports == s.native[account].stake + s.native[account].rent
    ensures !Broken(EnterStake(s, account, j))
    ensures EnterStake(s, account, j).Success? ==> Inv(EnterStake(s, account, j).value)
  {
    hide Sum;
    var stake := s.native[account];
    TrackedFails(s.upgrader, s.validators[j], stake.stake, j);
    if !stake.ours {
      var taken := s.(native := s.native[account := stake.(ours := true)]);
      forall k | 0 <= k < |s.stakes| ensures s.stakes[k].account != account {
        assert RecordOk(s.stakes[k], s.native);
      }
      OutsideKeepsBalanced(s, taken);
      PushActiveKeeps(taken, account, stake.stake, j);
      var booked := PushActive(taken, account, stake.stake, j);
      var r := EnterStake(s, account, j);
      hide Tracked;
      if r.Success? {
        SameNativeKeeps(booked.value, r.value);
      }
    }
  }

  lemma TrackedFails(u: Upgrader, v: ValidatorRecord, amount: nat, j: nat)
    ensures Tracked(u, v, amount, j).Failure? ==> Tracked(u, v, amount, j).error == Overflow
  {
  }

  /** The account split off goes to the user, who was nobody's record. */
  lemma SharedKeeps(s: System, i: nat, newKey: Key, split: nat)
    requires Balanced(s) && i < |s.stakes|
    ensures var shared := SplitNative(s, s.stakes[i].account, newKey, split);
      && !Broken(shared)
      && (shared.Success? ==>
            && newKey in shared.value.native
            && var given :=
               shared.value.(native := shared.value.native[newKey := shared.value.native[newKey].(ours := false)]);
            && Balanced(given) && given == s.(native := given.native)
            && given.native[s.stakes[i].account].voter == s.native[s.stakes[i].account].voter)
  {
    hide Sum;
    var account := s.stakes[i].account;
    SplitNativeKeeps(s, account, newKey, split);
    var shared := SplitNative(s, account, newKey, split);
    if shared.Success? {
      OutsideKeepsBalanced(shared.value,
                           shared.value.(native :=
                                         shared.value.native[newKey := shared.value.native[newKey].(ours := false)]));
    }
  }

  lemma BookedIs(s: System, i: nat, j: nat, delegated: nat, epoch: nat)
    requires i < |s.stakes| && j < |s.validators|
    ensures var r := BookDelegation(s, i, j, delegated, epoch);
      r.Success? ==> r.value == s.(active := r.value.active, upgrader := r.value.upgrader, stakes := r.value.stakes,
                                   validators := r.value.validators)
  {
  }

  lemma GiveStakeKeeps(s: System, i: nat, account: Key, j: nat, split: nat, burned: nat, newKey: Key)
    requires Inv(s) && i < |s.stakes| && j < |s.validators| && s.upgrader.Done?
    requires s.stakes[i].account == account && s.stakes[i].status.Active? && split <= s.stakes[i].delegated
    requires s.native[account].voter == s.validators[j].vote
    ensures !Broken(GiveStake(s, i, account, j, split, burned, newKey))
    ensures GiveStake(s, i, account, j, split, burned, newKey).Success? ==>
              Inv(GiveStake(s, i, account, j, split, burned, newKey).value)
  {
    hide Sum, SplitNative, BookDelegation, Balanced;
    var paid := BurnMsol(s, burned);
    if paid.Success? {
      SameNativeKeeps(s, paid.value);
      SharedKeeps(paid.value, i, newKey, split);
      var shared := SplitNative(paid.value, account, newKey, split);
      if shared.Success? {
        var given :=
          shared.value.(native := shared.value.native[newKey := shared.value.native[newKey].(ours := false)]);
        BookDelegationKeeps(given, i, j, s.stakes[i].delegated - split, s.stakes[i].updateEpoch);
        BookedIs(given, i, j, s.stakes[i].delegated - split, s.stakes[i].updateEpoch);
      }
    }
  }

  lemma WithdrawStakeAccountKeeps(s: System, i: nat, account: Key, j: nat, msol: u64, newKey: Key, treasury: bool)
    requires Inv(s)
    ensures !Broken(WithdrawStakeAccount(s, i, account, j, msol, newKey, treasury))
    ensures WithdrawStakeAccount(s, i, account, j, msol, newKey, treasury).Success? ==>
              Inv(WithdrawStakeAccount(s, i, account, j, msol, newKey, treasury).value)
  {
    hide Sum;
    if i < |s.stakes| && j < |s.validators| && s.stakes[i].account == account && s.stakes[i].status.Active?
       && s.native[account].voter == s.validators[j].vote && s.upgrader.Done? && msol <= s.msolHeld {
      ValueFits(s, msol);
      var terms := WithdrawTerms(s, msol, s.stakes[i].delegated, treasury);
      if terms.Success? {
        GiveStakeKeeps(s, i, account, j, terms.value.0, terms.value.1, newKey);
      }
    }
  }

  /** The value of held mSOL is a `u64`, so the fee on it is at most the value. */
  lemma ValueFits(s: System, msol: u64)
    requires Backed(s)
    ensures MsolToSol(s, msol).Success? ==> MsolToSol(s, msol).value <= U64_MAX
  {
    if MsolToSol(s, msol).Success? && s.supply > 0 {
      FloorAtMost(MsolToSol(s, msol).value, msol * VirtualStaked(s), s.supply, U64_MAX);
    }
  }

  lemma OrderUnstakeKeeps(s: System, msol: u64, newKey: Key)
    requires Inv(s)
    ensures !Broken(OrderUnstake(s, msol, newKey))
    ensures OrderUnstake(s, msol, newKey).Success? ==> Inv(OrderUnstake(s, msol, newKey).value)
  {
    hide Sum;
    ValueFits(s, msol);
    var r := OrderUnstake(s, msol, newKey);
    if r.Success? {
      SameNativeKeeps(s, r.value);
      SumPush(s.tickets, r.value.tickets[|s.tickets|], TicketAmount());
    }
  }

  /** The ticket totals cover every open ticket, so neither subtraction of a claim can fail. */
  /** A due ticket that the lamports in the reserve cover and the reserve on the books does not. */
  predicate ClaimShort(s: System, k: nat) {
    && !s.cfg.paused && k < |s.tickets| && CheckTicket(s, s.tickets[k]).Pass?
    && s.reserve < s.tickets[k].amount <= s.reserveLamports - s.cfg.tokenRent
  }

  /** Neither ticket total can underflow; the reserve on the books can, and exactly then. */
  lemma ClaimKeeps(s: System, k: nat)
    requires Inv(s)
    ensures Broken(Claim(s, k)) <==> ClaimShort(s, k)
    ensures ClaimShort(s, k) ==> Claim(s, k) == Failure(ReserveUnderflow)
    ensures Claim(s, k).Success? ==> Inv(Claim(s, k).value)
  {
    hide Sum;
    if k < |s.tickets| {
      SumMember(s.tickets, k, TicketAmount());
      SumSwapRemove(s.tickets, k, TicketAmount());
      var r := Claim(s, k);
      if r.Success? {
        SameNativeKeeps(s, r.value);
      }
    }
  }

  // ---------------------------------------------------------------- liquidity pool

  lemma LinearFeeIsBetween(cfg: Config, lamports: nat)
    requires cfg.lpMinFee <= cfg.lpMaxFee <= MAX_BASIS_POINTS && cfg.lpTarget > 0
    ensures LinearFee(cfg, lamports).Success?
    ensures cfg.lpMinFee <= LinearFee(cfg, lamports).value <= cfg.lpMaxFee
  {
    if lamports < cfg.lpTarget {
      var delta := SatSub(cfg.lpMaxFee, cfg.lpMinFee);
      MulLe(lamports, cfg.lpTarget, delta);
      MulLe(delta + 1, U64_MAX + 1, cfg.lpTarget);
      FloorAtMost(Proportional(delta, lamports, cfg.lpTarget).value, delta * lamports, cfg.lpTarget, delta);
    }
  }

  lemma LiquidUnstakeKeeps(s: System, msol: u64, treasury: bool)
    requires Inv(s)
    ensures !Broken(LiquidUnstake(s, msol, treasury))
    ensures LiquidUnstake(s, msol, treasury).Success? ==> Inv(LiquidUnstake(s, msol, treasury).value)
  {
    hide Sum;
    var wanted := MsolToSol(s, msol);
    var available := SatSub(s.solLeg, s.cfg.tokenRent);
    if wanted.Success? && wanted.value < available {
      LinearFeeIsBetween(s.cfg, available - wanted.value);
    }
    var r := LiquidUnstake(s, msol, treasury);
    if r.Success? {
      SameNativeKeeps(s, r.value);
    }
  }

  lemma AddLiquidityKeeps(s: System, lamports: u64)
    requires Inv(s)
    ensures !Broken(AddLiquidity(s, lamports))
    ensures AddLiquidity(s, lamports).Success? ==> Inv(AddLiquidity(s, lamports).value)
  {
    hide Sum;
    var r := AddLiquidity(s, lamports);
    if r.Success? {
      SameNativeKeeps(s, r.value);
    }
  }

  /** A share of the whole is at most the whole. */
  lemma ShareAtMost(tokens: nat, whole: nat, supply: nat)
    requires tokens <= supply
    ensures var r := Proportional(tokens, whole, supply); r.Success? && supply > 0 ==> r.value <= whole
  {
    if supply > 0 && Proportional(tokens, whole, supply).Success? {
      MulLe(tokens, supply, whole);
      FloorAtMost(Proportional(tokens, whole, supply).value, tokens * whole, supply, whole);
    }
  }

  lemma RemoveLiquidityKeeps(s: System, tokens: u64)
    requires Inv(s)
    ensures !Broken(RemoveLiquidity(s, tokens))
    ensures RemoveLiquidity(s, tokens).Success? ==> Inv(RemoveLiquidity(s, tokens).value)
  {
    hide Sum, RemoveLiquidity, Balanced, Backed;
    RemoveLiquidityBacked(s, tokens);
    RemoveLiquidityKeepsBooks(s, tokens);
    if RemoveLiquidity(s, tokens).Success? {
      SameNativeKeeps(s, RemoveLiquidity(s, tokens).value);
    }
  }

  lemma RemoveLiquidityBacked(s: System, tokens: u64)
    requires Backed(s)
    ensures !Broken(RemoveLiquidity(s, tokens))
    ensures RemoveLiquidity(s, tokens).Success? ==> Backed(RemoveLiquidity(s, tokens).value)
  {
    if tokens <= s.lpMint {
      ShareAtMost(tokens, s.solLeg - s.cfg.tokenRent, s.lpMint);
    }
    MsolToSolError(s);
    hide Sum, MsolToSol, IsFloor, Proportional;
  }

  lemma RemoveLiquidityKeepsBooks(s: System, tokens: u64)
    ensures RemoveLiquidity(s, tokens).Success? ==>
              SameBooks(s, RemoveLiquidity(s, tokens).value) && RemoveLiquidity(s, tokens).value.native == s.native
  {
    hide MsolToSol, Proportional;
  }

  lemma MsolToSolError(s: System)
    ensures forall msol: nat {:trigger MsolToSol(s, msol)} :: !Broken(MsolToSol(s, msol))
  {
  }

  // ---------------------------------------------------------------- update cranks

  lemma BeginKeeps(s: System, i: nat, account: Key, j: nat)
    requires Inv(s)
    ensures !Broken(Begin(s, i, account, j))
    ensures var r := Begin(s, i, account, j);
      r.Success? ==>
        && Inv(r.value) && r.value == Sync(s) && SameBooks(s, r.value) && r.value.native == s.native
        && i < |s.stakes| && s.stakes[i].account == account && j < |s.validators|
        && s.native[account].voter == s.validators[j].vote
        && r.value.reserve + r.value.cfg.tokenRent == r.value.reserveLamports
  {
    hide Sum;
    SameNativeKeeps(s, Sync(s));
  }

  lemma MintFeesKeeps(s: System, incoming: nat)
    requires Inv(s)
    ensures !Broken(MintProtocolFees(s, incoming))
    ensures var r := MintProtocolFees(s, incoming);
      r.Success? ==> Inv(r.value) && r.value == s.(supply := r.value.supply, msolHeld := r.value.msolHeld)
  {
    hide Sum;
    var r := MintProtocolFees(s, incoming);
    if r.Success? {
      SameNativeKeeps(s, r.value);
    }
  }

  lemma SweepExtraKeeps(s: System, account: Key, extra: nat, treasury: bool)
    requires Inv(s) && account in s.native
    requires s.native[account].rent + s.native[account].stake + extra <= s.native[account].lamports
    ensures !Broken(SweepExtra(s, account, extra, treasury))
    ensures var r := SweepExtra(s, account, extra, treasury);
      r.Success? ==>
        && Inv(r.value) && SameBooks(s, r.value) && r.value.cfg == s.cfg && r.value.clock == s.clock
        && account in r.value.native
        && r.value.native[account] == s.native[account].(lamports := s.native[account].lamports - extra)
        && r.value.reserveLamports - r.value.reserve == s.reserveLamports - s.reserve
  {
    hide Sum, MintProtocolFees;
    var r := SweepExtra(s, account, extra, treasury);
    var stake := s.native[account];
    if extra > 0 && s.reserve + extra <= U64_MAX {
      var swept := s.(reserve := s.reserve + extra, reserveLamports := s.reserveLamports + extra,
                      native := s.native[account := stake.(lamports := stake.lamports - extra)]);
      OutsideKeepsBalanced(s, swept);
      if treasury {
        MintFeesKeeps(swept, extra);
      }
    }
  }

  lemma UpdatePriceKeeps(s: System)
    requires Inv(s)
    ensures !Broken(UpdatePrice(s))
    ensures UpdatePrice(s).Success? ==> Inv(UpdatePrice(s).value)
  {
    hide Sum;
    var r := UpdatePrice(s);
    if r.Success? {
      SameNativeKeeps(s, r.value);
    }
  }

  /** Everything after the opening: the record is upgraded, its extra lamports are swept, its
      growth is taxed and booked, the price set, the phase perhaps changed. */
  lemma UpdateActiveKeeps(s: System, i: nat, account: Key, j: nat, treasury: bool)
    requires Inv(s)
    ensures !Broken(UpdateActive(s, i, account, j, treasury))
    ensures UpdateActive(s, i, account, j, treasury).Success? ==>
              Inv(UpdateActive(s, i, account, j, treasury).value)
                  && Drained(UpdateActive(s, i, account, j, treasury).value)
  {
    hide Sum, SweepExtra, UpgradeRecord, BookActive;
    BeginKeeps(s, i, account, j);
    var begun := Begin(s, i, account, j);
    if begun.Success? && s.native[account].Live() && !s.stakes[i].status.Deactivating?
        && !s.upgrader.IteratingValidators? {
      UpgradeStage(begun.value, i, j);
      var upgraded := UpgradeRecord(begun.value, i, j);
      if upgraded.Success? {
        var stake := s.native[account];
        var extra := stake.lamports - stake.rent - stake.stake;
        SweepExtraKeeps(upgraded.value, account, extra, treasury);
        var swept := SweepExtra(upgraded.value, account, extra, treasury);
        if swept.Success? {
          BookActiveKeeps(swept.value, i, j, stake.stake, treasury);
        }
      }
    }
  }

  lemma UpgradeStage(s: System, i: nat, j: nat)
    requires Inv(s) && i < |s.stakes| && j < |s.validators|
    requires s.native[s.stakes[i].account].voter == s.validators[j].vote && s.native[s.stakes[i].account].Live()
    requires !s.stakes[i].status.Deactivating?
    ensures !Broken(UpgradeRecord(s, i, j))
    ensures var r := UpgradeRecord(s, i, j);
      r.Success? ==>
        && Inv(r.value) && r.value.cfg == s.cfg && r.value.clock == s.clock && r.value.native == s.native
        && r.value.reserve == s.reserve && r.value.reserveLamports == s.reserveLamports
        && (r.value.upgrader.IteratingValidators? <==> s.upgrader.IteratingValidators?)
        && |r.value.stakes| == |s.stakes| && |r.value.validators| == |s.validators|
        && r.value.stakes[i] == s.stakes[i].(status := StakeStatus.Active)
        && r.value.validators[j].vote == s.validators[j].vote
  {
    hide Sum;
    UpgradeRecordKeeps(s, i, j);
  }

  lemma BookActiveKeeps(s: System, i: nat, j: nat, delegated: nat, treasury: bool)
    requires Inv(s) && i < |s.stakes| && j < |s.validators|
    requires s.stakes[i].status.Active? && s.native[s.stakes[i].account].voter == s.validators[j].vote
    requires !s.upgrader.IteratingValidators? && s.reserve + s.cfg.tokenRent == s.reserveLamports
    ensures !Broken(BookActive(s, i, j, delegated, treasury))
    ensures BookActive(s, i, j, delegated, treasury).Success? ==>
              Inv(BookActive(s, i, j, delegated, treasury).value)
                  && Drained(BookActive(s, i, j, delegated, treasury).value)
  {
    hide Sum, MintProtocolFees, UpdatePrice, NextPhase;
    var minted := if delegated >= s.stakes[i].delegated && treasury
                  then MintProtocolFees(s, delegated - s.stakes[i].delegated) else Success(s);
    if delegated >= s.stakes[i].delegated && treasury {
      MintFeesKeeps(s, delegated - s.stakes[i].delegated);
    }
    if minted.Success? {
      BookDelegationKeeps(minted.value, i, j, delegated, s.clock.epoch);
      var booked := BookDelegation(minted.value, i, j, delegated, s.clock.epoch);
      if booked.Success? {
        CloseKeeps(booked.value);
      }
    }
  }

  lemma CloseKeeps(s: System)
    requires Inv(s) && !s.upgrader.IteratingValidators?
    ensures !Broken(UpdatePrice(s))
    ensures UpdatePrice(s).Success? ==>
              var priced := UpdatePrice(s).value;
              && priced == s.(price := priced.price)
              && !Broken(NextPhase(priced))
              && (NextPhase(priced).Success? ==> Inv(NextPhase(priced).value) && Drained(NextPhase(priced).value))
  {
    hide Sum;
    UpdatePriceKeeps(s);
    var priced := UpdatePrice(s);
    if priced.Success? {
      NextPhaseKeeps(priced.value);
    }
  }

  /** The one update the upgrader does not survive: a stake already counted as active turns out
      deactivated while its validator's balance is still to be re-derived. */
  predicate Disturbs(s: System, i: nat, j: nat) {
    && i < |s.stakes| && s.stakes[i].status.Active?
    && (s.upgrader.IteratingStakes?
        || (s.upgrader.IteratingValidators? && j >= s.upgrader.visited && s.stakes[i].delegated > 0))
  }

  lemma UpdateDeactivatedKeeps(s: System, i: nat, account: Key, j: nat, treasury: bool)
    requires Inv(s) && !Disturbs(s, i, j)
    ensures !Broken(UpdateDeactivated(s, i, account, j, treasury))
    ensures UpdateDeactivated(s, i, account, j, treasury).Success? ==>
              && Inv(UpdateDeactivated(s, i, account, j, treasury).value)
              && (Drained(s) ==> Drained(UpdateDeactivated(s, i, account, j, treasury).value))
  {
    hide Sum, DetectDelinquent, RetireStake;
    BeginKeeps(s, i, account, j);
    var begun := Begin(s, i, account, j);
    if begun.Success? && !s.native[account].Live() {
      DetectStage(begun.value, i, j);
      var detected := DetectDelinquent(begun.value, i, j);
      if detected.Success? {
        RetireStakeKeeps(detected.value, i, treasury);
        assert SwapRemove(detected.value.stakes, i) == SwapRemove(s.stakes, i);
      }
    }
  }

  lemma DetectStage(s: System, i: nat, j: nat)
    requires Inv(s) && i < |s.stakes| && j < |s.validators| && !Disturbs(s, i, j)
    requires s.native[s.stakes[i].account].voter == s.validators[j].vote && !s.native[s.stakes[i].account].Live()
    ensures !Broken(DetectDelinquent(s, i, j))
    ensures var r := DetectDelinquent(s, i, j);
      r.Success? ==>
        && Inv(r.value) && r.value.cfg == s.cfg && r.value.clock == s.clock && r.value.native == s.native
        && |r.value.stakes| == |s.stakes| && !r.value.stakes[i].status.Active?
        && r.value.stakes == s.stakes[i := r.value.stakes[i]] && r.value.upgrader == s.upgrader
        && r.value.stakes[i].account == s.stakes[i].account && r.value.stakes[i].delegated == s.stakes[i].delegated
  {
    hide Sum;
    if s.stakes[i].status.Active? {
      StartCoolingKeeps(s, i, j, true);
    }
  }

  lemma RetireStakeKeeps(s: System, i: nat, treasury: bool)
    requires Inv(s) && i < |s.stakes| && !s.stakes[i].status.Active? && !s.native[s.stakes[i].account].Live()
    ensures !Broken(RetireStake(s, i, treasury))
    ensures RetireStake(s, i, treasury).Success? ==>
              && Inv(RetireStake(s, i, treasury).value)
              && RetireStake(s, i, treasury).value.stakes == SwapRemove(s.stakes, i)
              && (if s.upgrader.IteratingStakes? then Drained(RetireStake(s, i, treasury).value)
                  else RetireStake(s, i, treasury).value.upgrader == s.upgrader)
  {
    hide Sum, MintProtocolFees;
    var account := s.stakes[i].account;
    assert RecordOk(s.stakes[i], s.native);
    var balance: nat := s.native[account].lamports - s.native[account].rent;
    if balance >= s.stakes[i].delegated && treasury {
      MintFeesKeeps(s, balance - s.stakes[i].delegated);
    }
    var minted := if balance >= s.stakes[i].delegated && treasury
                  then MintProtocolFees(s, balance - s.stakes[i].delegated) else Success(s);
    if minted.Success? {
      var withdrawn := WithdrawAll(minted.value, account);
      if withdrawn.Success? {
        SameNativeKeeps(minted.value, withdrawn.value);
        ReleaseKeeps(withdrawn.value, i);
      }
    }
  }

  lemma CloseRecordKeeps(s: System, account: Key)
    requires Inv(s) && forall k :: 0 <= k < |s.stakes| ==> s.stakes[k].account != account
    ensures var r := CloseRecord(s, account);
      && !Broken(r)
      && (r.Success? ==>
            && Inv(r.value) && r.value.stakes == s.stakes
            && (if s.upgrader.IteratingStakes? then Drained(r.value) else r.value.upgrader == s.upgrader))
  {
    hide Sum;
    UpdatePriceKeeps(s);
    var priced := UpdatePrice(s);
    if priced.Success? {
      var closed := priced.value.(native := priced.value.native - {account});
      OutsideKeepsBalanced(priced.value, closed);
      NextPhaseKeeps(closed);
    }
  }

  lemma ReleaseKeeps(s: System, i: nat)
    requires Inv(s) && i < |s.stakes| && !s.stakes[i].status.Active? && !s.native[s.stakes[i].account].Live()
    ensures !Broken(ReleaseCooled(s, i))
    ensures ReleaseCooled(s, i).Success? ==>
              var r := CloseRecord(ReleaseCooled(s, i).value, s.stakes[i].account);
              && !Broken(r)
              && (r.Success? ==>
                    && Inv(r.value) && r.value.stakes == SwapRemove(s.stakes, i)
                    && (if s.upgrader.IteratingStakes? then Drained(r.value) else r.value.upgrader == s.upgrader))
  {
    hide Sum, CloseRecord;
    ReleaseCooledKeeps(s, i);
    var released := ReleaseCooled(s, i);
    if released.Success? {
      RecordsAfterRemove(s.stakes, s.native, i);
      assert released.value.stakes == SwapRemove(s.stakes, i);
      CloseRecordKeeps(released.value, s.stakes[i].account);
    }
  }

  lemma FinalizeUpgradeKeeps(s: System, maxValidators: u32)
    requires Inv(s)
    ensures s.upgrader.IteratingValidators? ==> !Broken(FinalizeUpgrade(s, maxValidators))
    ensures FinalizeUpgrade(s, maxValidators).Success? ==> Inv(FinalizeUpgrade(s, maxValidators).value)
  {
    hide Sum;
    if s.upgrader.IteratingValidators? {
      FinalizeBatchKeeps(s, maxValidators);
    }
  }

  // ---------------------------------------------------------------- stake-delta cranks

  lemma TouchedKeeps(s: System, j: nat)
    requires Inv(s) && j < |s.validators| && s.upgrader.Done?
    ensures Inv(Touch(s, j))
  {
    hide Sum;
    TouchKeeps(s, Touch(s, j), j, s.clock.epoch);
  }

  /** The reserve pays for an account nobody holds yet. */
  lemma FundKeeps(s: System, j: nat, amount: nat, newKey: Key)
    requires Inv(s) && j < |s.validators| && newKey !in s.native
    requires amount <= s.reserveLamports && amount <= s.reserve
    ensures var stake :=
        StakeAccount(s.validators[j].vote, amount, s.clock.epoch, NEVER, amount + s.stakeRent, s.stakeRent, true);
      var funded := s.(reserve := s.reserve - amount, reserveLamports := s.reserveLamports - amount,
                       native := s.native[newKey := stake]);
      && Inv(funded)
      && (forall k :: 0 <= k < |s.stakes| ==> s.stakes[k].account != newKey)
      && RecordOk(StakeRecord(newKey, amount, s.clock.epoch, false, StakeStatus.Active), funded.native)
  {
    hide Sum;
    var stake :=
      StakeAccount(s.validators[j].vote, amount, s.clock.epoch, NEVER, amount + s.stakeRent, s.stakeRent, true);
    var funded := s.(reserve := s.reserve - amount, reserveLamports := s.reserveLamports - amount,
                     native := s.native[newKey := stake]);
    OutsideKeepsBalanced(s, funded);
  }

  lemma StakeIntoKeeps(s: System, j: nat, amount: nat, newKey: Key)
    requires Inv(s) && j < |s.validators| && s.upgrader.Done? && newKey !in s.native
    ensures Broken(StakeInto(s, j, amount, newKey)) <==> s.reserve < amount <= s.reserveLamports
    ensures Broken(StakeInto(s, j, amount, newKey)) ==> StakeInto(s, j, amount, newKey) == Failure(ReserveUnderflow)
    ensures StakeInto(s, j, amount, newKey).Success? ==> Inv(StakeInto(s, j, amount, newKey).value)
  {
    hide Sum, RecordOk, RecordsOk;
    if amount <= s.reserveLamports && amount <= s.reserve {
      FundKeeps(s, j, amount, newKey);
      var stake :=
        StakeAccount(s.validators[j].vote, amount, s.clock.epoch, NEVER, amount + s.stakeRent, s.stakeRent, true);
      var funded := s.(reserve := s.reserve - amount, reserveLamports := s.reserveLamports - amount,
                       native := s.native[newKey := stake]);
      PushActiveKeeps(funded, newKey, amount, j);
      var booked := PushActive(funded, newKey, amount, j);
      if booked.Success? {
        TouchedKeeps(booked.value, j);
      }
    }
  }

  /** The staking crank is allowed now, and has something to stake into this validator. */
  predicate StakeReady(s: System, j: nat, vote: Key, newKey: Key) {
    && newKey !in s.native && !s.cfg.paused && s.upgrader.Done? && 0 < StakeDelta(s) <= U64_MAX
    && j < |s.validators| && s.validators[j].vote == vote
    && (s.validators[j].deltaEpoch == s.clock.epoch ==> s.extraRuns > 0) && InDeltaWindow(s)
  }

  /** What it would stake. */
  function StakeWanted(s: System, j: nat): Result<nat>
    requires j < |s.validators| && StakeDelta(s) > 0
  {
    var target :- ValidatorTarget(s, s.validators[j], Min(s.active + StakeDelta(s), U64_MAX));
    Success(StakeAmount(StakeDelta(s), s.validators[j].active, target, s.cfg.minStake))
  }

  /** It would stake lamports that are in the reserve, and not in the reserve on the books. */
  predicate StakeShort(s: System, j: nat, vote: Key, newKey: Key) {
    && StakeReady(s, j, vote, newKey) && StakeWanted(s, j).Success?
    && s.reserve < StakeWanted(s, j).value <= s.reserveLamports
  }

  /** Staking does not underflow the books but for the reserve, and exactly then. */
  lemma StakeReserveKeeps(s: System, j: nat, vote: Key, newKey: Key)
    requires Inv(s)
    ensures Broken(StakeReserve(s, j, vote, newKey)) <==> StakeShort(s, j, vote, newKey)
    ensures StakeShort(s, j, vote, newKey) ==> StakeReserve(s, j, vote, newKey) == Failure(ReserveUnderflow)
    ensures StakeReserve(s, j, vote, newKey).Success? ==> Inv(StakeReserve(s, j, vote, newKey).value)
  {
    hide Sum, StakeInto, ValidatorTarget, StakeAmount, StakeDelta, InDeltaWindow;
    if s.upgrader.Done? && j < |s.validators| && newKey !in s.native {
      TargetError(s, s.validators[j]);
      var counted := if s.validators[j].deltaEpoch == s.clock.epoch && s.extraRuns > 0
                     then s.(extraRuns := s.extraRuns - 1) else s;
      SameNativeKeeps(s, counted);
      if StakeDelta(s) > 0 && StakeWanted(s, j).Success? {
        StakeIntoKeeps(counted, j, StakeWanted(s, j).value, newKey);
      }
      hide Inv;
    }
  }

  lemma TargetError(s: System, v: ValidatorRecord)
    ensures forall total: nat {:trigger ValidatorTarget(s, v, total)} :: !Broken(ValidatorTarget(s, v, total))
  {
  }

  lemma CoolWholeKeeps(s: System, i: nat, j: nat, emergency: bool)
    requires Inv(s) && i < |s.stakes| && j < |s.validators| && s.upgrader.Done?
    requires s.stakes[i].status.Active? && s.native[s.stakes[i].account].voter == s.validators[j].vote
    ensures !Broken(CoolWhole(s, i, j, emergency))
    ensures CoolWhole(s, i, j, emergency).Success? ==> Inv(CoolWhole(s, i, j, emergency).value)
  {
    hide Sum;
    DeactivateNativeKeeps(s, s.stakes[i].account);
    var stopped := DeactivateNative(s, s.stakes[i].account);
    if stopped.Success? {
      StartCoolingKeeps(stopped.value, i, j, emergency);
    }
  }

  /** The split-off account exists, deactivates, and is nobody's record yet. */
  lemma SplitAndStopKeeps(s: System, i: nat, amount: nat, newKey: Key)
    requires Inv(s) && i < |s.stakes|
    ensures var shared := SplitNative(s, s.stakes[i].account, newKey, amount);
      shared.Success? ==>
        && amount <= s.native[s.stakes[i].account].stake
        && var stopped := DeactivateNative(shared.value, newKey);
           stopped.Success? ==>
             && Inv(stopped.value) && SameBooks(s, stopped.value) && stopped.value.cfg == s.cfg
             && (forall k :: 0 <= k < |s.stakes| ==> s.stakes[k].account != newKey)
             && newKey in stopped.value.native && stopped.value.native[newKey].ours
             && Funded(stopped.value.native[newKey]) && !stopped.value.native[newKey].Live()
             && stopped.value.native[newKey].voter == s.native[s.stakes[i].account].voter
             && stopped.value.native[s.stakes[i].account].voter == s.native[s.stakes[i].account].voter
  {
    hide Sum;
    assert RecordOk(s.stakes[i], s.native);
    SplitNativeKeeps(s, s.stakes[i].account, newKey, amount);
    var shared := SplitNative(s, s.stakes[i].account, newKey, amount);
    if shared.Success? {
      DeactivateNativeKeeps(shared.value, newKey);
    }
  }

  lemma CoolPartKeeps(s: System, i: nat, j: nat, amount: nat, newKey: Key, emergency: bool)
    requires Inv(s) && i < |s.stakes| && j < |s.validators| && s.upgrader.Done?
    requires s.stakes[i].status.Active? && s.native[s.stakes[i].account].voter == s.validators[j].vote
    requires s.native[s.stakes[i].account].stake == s.stakes[i].delegated
    ensures !Broken(CoolPart(s, i, j, amount, newKey, emergency))
    ensures CoolPart(s, i, j, amount, newKey, emergency).Success? ==>
        Inv(CoolPart(s, i, j, amount, newKey, emergency).value)
  {
    hide Sum, SplitNative, DeactivateNative;
    SplitAndStopKeeps(s, i, amount, newKey);
    CallErrors(s, s.stakes[i].account, newKey, amount);
    var shared := SplitNative(s, s.stakes[i].account, newKey, amount);
    if shared.Success? {
      var stopped := DeactivateNative(shared.value, newKey);
      if stopped.Success? {
        SplitCoolingKeeps(stopped.value, i, j, amount, newKey, emergency);
      }
    }
  }

  lemma CallErrors(s: System, from: Key, to: Key, amount: nat)
    ensures !Broken(SplitNative(s, from, to, amount))
    ensures forall t: System {:trigger DeactivateNative(t, to)} :: !Broken(DeactivateNative(t, to))
  {
  }

  lemma DeactivateStakeKeeps(s: System, i: nat, account: Key, j: nat, newKey: Key)
    requires Inv(s)
    ensures !Broken(DeactivateStake(s, i, account, j, newKey))
    ensures DeactivateStake(s, i, account, j, newKey).Success? ==> Inv(DeactivateStake(s, i, account, j, newKey).value)
  {
    hide Sum, CoolWhole, CoolPart, ValidatorTarget;
    if i < |s.stakes| && j < |s.validators| && s.upgrader.Done? && s.stakes[i].account == account
       && s.stakes[i].status.Active? && account in s.native && s.native[account].voter == s.validators[j].vote
       && s.native[account].stake == s.stakes[i].delegated {
      var marked := s.(deltaEpoch := s.clock.epoch);
      SameNativeKeeps(s, marked);
      CoolWholeKeeps(marked, i, j, false);
      TargetError(s, s.validators[j]);
      forall amount: nat
        ensures var cooled := CoolPart(s, i, j, amount, newKey, false);
          !Broken(cooled) && (cooled.Success? ==> j < |cooled.value.validators| && Inv(Touch(cooled.value, j)))
      {
        CoolPartKeeps(s, i, j, amount, newKey, false);
        var cooled := CoolPart(s, i, j, amount, newKey, false);
        if cooled.Success? {
          CoolPartShape(s, i, j, amount, newKey, false);
          TouchedKeeps(cooled.value, j);
        }
      }
    }
  }

  lemma CoolPartShape(s: System, i: nat, j: nat, amount: nat, newKey: Key, emergency: bool)
    requires i < |s.stakes| && j < |s.validators|
    ensures var r := CoolPart(s, i, j, amount, newKey, emergency);
      r.Success? ==>
          |r.value.validators| == |s.validators| && r.value.upgrader == s.upgrader && r.value.clock == s.clock
  {
  }

  // ---------------------------------------------------------------- validator manager

  lemma PartialUnstakeKeeps(s: System, i: nat, account: Key, j: nat, desired: u64, newKey: Key)
    requires Inv(s)
    ensures !Broken(PartialUnstake(s, i, account, j, desired, newKey))
    ensures PartialUnstake(s, i, account, j, desired, newKey).Success? ==>
              Inv(PartialUnstake(s, i, account, j, desired, newKey).value)
  {
    hide Sum, SplitNative, DeactivateNative, OnStakeMoved, StartCooling, SplitCooling, ValidatorTarget;
    if i < |s.stakes| && j < |s.validators| && s.upgrader.Done? && s.stakes[i].account == account
       && s.stakes[i].status.Active? && account in s.native && s.native[account].voter == s.validators[j].vote
       && s.native[account].stake == s.stakes[i].delegated {
      TargetError(s, s.validators[j]);
      MovedWholeKeeps(s, i, j);
      forall amount: nat { MovedPartKeeps(s, i, j, amount, newKey); }
    }
  }

  lemma OnStakeMovedKeeps(s: System, amount: nat)
    requires Inv(s)
    ensures !Broken(OnStakeMoved(s, amount))
    ensures var r := OnStakeMoved(s, amount);
      r.Success? ==> Inv(r.value) && r.value == s.(moveEpoch := r.value.moveEpoch, moved := r.value.moved)
  {
    hide Sum;
    var r := OnStakeMoved(s, amount);
    if r.Success? {
      SameNativeKeeps(s, r.value);
    }
  }

  lemma MovedWholeKeeps(s: System, i: nat, j: nat)
    requires Inv(s) && i < |s.stakes| && j < |s.validators| && s.upgrader.Done?
    requires s.stakes[i].status.Active? && s.native[s.stakes[i].account].voter == s.validators[j].vote
    ensures var stopped := DeactivateNative(s, s.stakes[i].account);
      && !Broken(stopped)
      && (stopped.Success? ==>
            var moved := OnStakeMoved(stopped.value, s.stakes[i].delegated);
            && !Broken(moved)
            && (moved.Success? ==>
                  && i < |moved.value.stakes| && j < |moved.value.validators|
                  && !Broken(StartCooling(moved.value, i, j, true))
                  && (StartCooling(moved.value, i, j, true).Success? ==>
                      Inv(StartCooling(moved.value, i, j, true).value))))
  {
    hide Sum, OnStakeMoved;
    DeactivateNativeKeeps(s, s.stakes[i].account);
    var stopped := DeactivateNative(s, s.stakes[i].account);
    if stopped.Success? {
      OnStakeMovedKeeps(stopped.value, s.stakes[i].delegated);
      var moved := OnStakeMoved(stopped.value, s.stakes[i].delegated);
      if moved.Success? {
        StartCoolingKeeps(moved.value, i, j, true);
      }
    }
  }

  lemma MovedPartKeeps(s: System, i: nat, j: nat, amount: nat, newKey: Key)
    requires Inv(s) && i < |s.stakes| && j < |s.validators| && s.upgrader.Done?
    requires s.stakes[i].status.Active? && s.native[s.stakes[i].account].voter == s.validators[j].vote
    requires s.native[s.stakes[i].account].stake == s.stakes[i].delegated
    ensures var shared := SplitNative(s, s.stakes[i].account, newKey, amount);
      && !Broken(shared)
      && (shared.Success? ==>
            var stopped := DeactivateNative(shared.value, newKey);
            && !Broken(stopped)
            && (stopped.Success? ==>
                  var moved := OnStakeMoved(stopped.value, amount);
                  && !Broken(moved)
                  && (moved.Success? ==>
                        && i < |moved.value.stakes| && j < |moved.value.validators|
                        && !Broken(SplitCooling(moved.value, i, j, amount, newKey, true))
                        && (SplitCooling(moved.value, i, j, amount, newKey, true).Success? ==>
                              Inv(SplitCooling(moved.value, i, j, amount, newKey, true).value)))))
  {
    hide Sum, SplitNative, DeactivateNative, OnStakeMoved;
    CallErrors(s, s.stakes[i].account, newKey, amount);
    SplitAndStopKeeps(s, i, amount, newKey);
    var shared := SplitNative(s, s.stakes[i].account, newKey, amount);
    if shared.Success? {
      var stopped := DeactivateNative(shared.value, newKey);
      if stopped.Success? {
        OnStakeMovedKeeps(stopped.value, amount);
        var moved := OnStakeMoved(stopped.value, amount);
        if moved.Success? {
          SplitCoolingKeeps(moved.value, i, j, amount, newKey, true);
        }
      }
    }
  }

  lemma EmergencyUnstakeKeeps(s: System, i: nat, account: Key, j: nat)
    requires Inv(s)
    ensures !Broken(EmergencyUnstake(s, i, account, j))
    ensures EmergencyUnstake(s, i, account, j).Success? ==> Inv(EmergencyUnstake(s, i, account, j).value)
  {
    hide Sum, OnStakeMoved, CoolWhole;
    if i < |s.stakes| && j < |s.validators| && s.upgrader.Done? && s.stakes[i].account == account
       && s.stakes[i].status.Active? && account in s.native && s.native[account].voter == s.validators[j].vote {
      OnStakeMovedKeeps(s, s.stakes[i].delegated);
      var moved := OnStakeMoved(s, s.stakes[i].delegated);
      if moved.Success? {
        CoolWholeKeeps(moved.value, i, j, true);
      }
    }
  }

  lemma AddValidatorKeeps(s: System, vote: Key, score: u32)
    requires Inv(s)
    ensures !Broken(AddValidator(s, vote, score))
    ensures AddValidator(s, vote, score).Success? ==> Inv(AddValidator(s, vote, score).value)
  {
    hide Sum;
    var r := AddValidator(s, vote, score);
    if r.Success? {
      PushValidatorKeeps(s, r.value, ValidatorRecord(vote, 0, score, NEVER, 0));
    }
  }

  lemma ScoreCovered(s: System, j: nat)
    requires Inv(s) && j < |s.validators|
    ensures s.validators[j].score <= s.totalScore
  {
    SumMember(s.validators, j, Score());
  }

  lemma RemoveValidatorKeeps(s: System, j: nat, vote: Key)
    requires Inv(s)
    ensures !Broken(RemoveValidator(s, j, vote))
    ensures RemoveValidator(s, j, vote).Success? ==> Inv(RemoveValidator(s, j, vote).value)
  {
    hide Sum;
    if j < |s.validators| {
      ScoreCovered(s, j);
      var r := RemoveValidator(s, j, vote);
      if r.Success? {
        DropValidatorKeeps(s, r.value, j);
      }
    }
  }

  lemma SetValidatorScoreKeeps(s: System, j: nat, vote: Key, score: u32)
    requires Inv(s)
    ensures !Broken(SetValidatorScore(s, j, vote, score))
    ensures SetValidatorScore(s, j, vote, score).Success? ==> Inv(SetValidatorScore(s, j, vote, score).value)
  {
    hide Sum;
    if j < |s.validators| {
      ScoreCovered(s, j);
      var r := SetValidatorScore(s, j, vote, score);
      if r.Success? {
        SetScoreKeeps(s, r.value, j, score);
      }
    }
  }

  // ---------------------------------------------------------------- housekeeping cranks

  lemma MergeStakesKeeps(s: System, c: nat, canonical: Key, i: nat, account: Key, j: nat, extra: nat)
    requires Inv(s)
    ensures !Broken(MergeStakes(s, c, canonical, i, account, j, extra))
    ensures MergeStakes(s, c, canonical, i, account, j, extra).Success? ==>
              Inv(MergeStakes(s, c, canonical, i, account, j, extra).value)
  {
    hide Sum, MergeRecords;
    if c < |s.stakes| && i < |s.stakes| && j < |s.validators| && s.upgrader.Done?
       && s.stakes[c].account == canonical && s.stakes[i].account == account && canonical != account
       && s.stakes[c].status.Active? && s.stakes[i].status.Active?
       && s.native[canonical].voter == s.validators[j].vote && s.native[account].voter == s.validators[j].vote {
      MergeRecordsKeeps(s, c, i, j, extra);
      var merged := MergeRecords(s, c, i, j, extra);
      if merged.Success? {
        MergeRecordsShape(s, c, i, j, extra);
        var r := MergeStakes(s, c, canonical, i, account, j, extra);
        if r.Success? {
          OutsideKeepsBalanced(merged.value, r.value);
        }
      }
    }
  }

  /** The source account is no longer listed. */
  lemma MergeRecordsShape(s: System, c: nat, i: nat, j: nat, extra: nat)
    requires RecordsOk(s.stakes, s.native) && c < |s.stakes| && i < |s.stakes| && c != i && j < |s.validators|
    ensures var r := MergeRecords(s, c, i, j, extra);
      r.Success? ==>
        && r.value == s.(active := r.value.active, stakes := r.value.stakes, validators := r.value.validators)
        && forall k :: 0 <= k < |r.value.stakes| ==> r.value.stakes[k].account != s.stakes[i].account
                                                      && r.value.stakes[k].account in s.native
  {
  }

  lemma CreateCanonicalStakeKeeps(s: System, i: nat, account: Key, j: nat, newKey: Key)
    requires Inv(s)
    ensures !Broken(CreateCanonicalStake(s, i, account, j, newKey))
    ensures CreateCanonicalStake(s, i, account, j, newKey).Success? ==>
              Inv(CreateCanonicalStake(s, i, account, j, newKey).value)
  {
    hide Sum;
    if i < |s.stakes| && newKey !in s.native && s.stakes[i].account == account && s.native[account].Live()
        && s.upgrader.Done? {
      assert RecordOk(s.stakes[i], s.native);
      var source := s.native[account];
      var doubled := s.(native := s.native[newKey := source]);
      forall k | 0 <= k < |s.stakes| ensures s.stakes[k].account != newKey {
        assert RecordOk(s.stakes[k], s.native);
      }
      OutsideKeepsBalanced(s, doubled);
      MoveRecordKeeps(doubled, i, newKey);
      var moved := MoveRecord(doubled, i, newKey);
      if moved.Success? {
        OutsideKeepsBalanced(moved.value, moved.value.(native := moved.value.native - {account}));
      }
    }
  }
}
