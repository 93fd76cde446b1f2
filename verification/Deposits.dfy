/** Deposits of lamports and of stake accounts, and withdrawals of stake: exactly when they are accepted,
    and what they make of every field. */
module Deposits {
  import opened Base
  import opened Calc
  import opened Sums
  import opened Model
  import opened Ledger
  import opened Instructions
  import opened Machine
  import opened Books
  import opened BooksSteps
  import opened Invariant
  import opened Amounts

  // ---------------------------------------------------------------- lamports

  /** The order is what the lamports less the fee buy. The pool sells what it has of it: the whole order
      for all the lamports, or its whole leg for what that is worth. The rest is deposited. */
  ghost predicate DepositTerms(s: System, lamports: nat, fee: nat, order: nat, paid: nat) {
    && Cents(fee, lamports, s.cfg.depositFee) && fee <= lamports
    && Buys(order, lamports - fee, Behind(s), s.supply) && order <= U64_MAX
    && (if order == 0 || s.msolLeg == 0 then paid == 0
        else if order <= s.msolLeg then paid == lamports
        else IsWorth(paid, s.msolLeg, Behind(s), s.supply))
    && paid <= lamports
    && (paid < lamports ==> Under(s) + (lamports - paid) <= Min(s.cfg.stakingCap, U64_MAX))
    && (order > s.msolLeg ==> s.supply + (order - s.msolLeg) <= U64_MAX)
  }

  function AfterDeposit(s: System, lamports: nat, order: nat, paid: nat): System
    requires paid <= lamports
  {
    var swapped := Min(order, s.msolLeg);
    s.(msolLeg := s.msolLeg - swapped, msolHeld := s.msolHeld + order, supply := s.supply + (order - swapped),
       solLeg := s.solLeg + paid, reserve := s.reserve + (lamports - paid),
       reserveLamports := s.reserveLamports + (lamports - paid))
  }

  lemma DepositIff(s: System, lamports: u64)
    requires Backed(s)
    ensures var r := Instructions.Deposit(s, lamports);
      && (r.Success? <==>
          && !s.cfg.paused && lamports >= s.cfg.minDeposit && Under(s) <= U64_MAX
          && exists fee: nat, order: nat, paid: nat :: DepositTerms(s, lamports, fee, order, paid))
      && (r.Success? ==>
          exists fee: nat, order: nat, paid: nat :: DepositTerms(s, lamports, fee, order, paid)
            && r.value == AfterDeposit(s, lamports, order, paid))
  {
    if Instructions.Deposit(s, lamports).Success? {
      DepositHasTerms(s, lamports);
    }
    hide DepositTerms, Instructions.Deposit;
    if fee: nat, order: nat, paid: nat :| DepositTerms(s, lamports, fee, order, paid) {
      if !s.cfg.paused && lamports >= s.cfg.minDeposit && Under(s) <= U64_MAX {
        DepositIsAccepted(s, lamports, fee, order, paid);
      }
    }
  }

  lemma DepositHasTerms(s: System, lamports: u64)
    requires Backed(s) && Instructions.Deposit(s, lamports).Success?
    ensures !s.cfg.paused && lamports >= s.cfg.minDeposit && Under(s) <= U64_MAX
    ensures exists fee: nat, order: nat, paid: nat :: DepositTerms(s, lamports, fee, order, paid)
              && Instructions.Deposit(s, lamports).value == AfterDeposit(s, lamports, order, paid)
  {
    BehindIs(s);
    hide IsWorth, Buys, Behind, Under, MsolToSol, MsolFromLamports, IsFloor, TotalLamports;
    var fee := FeeCentsApply(s.cfg.depositFee, lamports);
    CentsIff(s.cfg.depositFee, lamports, fee);
    hide FeeCentsApply;
    var order := MsolFromLamports(s, lamports - fee).value;
    BuysIff(s, lamports - fee, order);
    var swapped := Min(order, s.msolLeg);
    var worth := MsolToSol(s, swapped);
    if worth.Success? {
      WorthIff(s, swapped, worth.value);
    }
    var paid := if swapped == 0 then 0 else if order == swapped then lamports else worth.value;
    assert DepositTerms(s, lamports, fee, order, paid);
  }

  lemma DepositIsAccepted(s: System, lamports: u64, fee: nat, order: nat, paid: nat)
    requires Backed(s) && DepositTerms(s, lamports, fee, order, paid)
    requires !s.cfg.paused && lamports >= s.cfg.minDeposit && Under(s) <= U64_MAX
    ensures Instructions.Deposit(s, lamports).Success?
  {
    BehindIs(s);
    ReserveIsUnder(s);
    hide IsWorth, Buys, Behind, Under, MsolToSol, MsolFromLamports, IsFloor, TotalLamports;
    CentsIff(s.cfg.depositFee, lamports, fee);
    hide FeeCentsApply;
    BuysIff(s, lamports - fee, order);
    WorthIff(s, s.msolLeg, paid);
  }

  lemma ReserveIsUnder(s: System)
    ensures s.reserve <= Under(s) && s.active <= Under(s)
  {
  }

  // ---------------------------------------------------------------- stake accounts

  /** A live account with nothing on it but its stake and its rent, whose validator is listed, and which
      fits under the cap. */
  predicate Depositable(s: System, account: Key, j: nat) {
    && account in s.native && j < |s.validators|
    && var a := s.native[account];
    && a.deactivationEpoch == NEVER && s.clock.epoch >= a.activationEpoch && a.stake >= s.cfg.minStake
    && a.lamports == a.stake + a.rent && s.validators[j].vote == a.voter
    && Under(s) + a.stake <= Min(s.cfg.stakingCap, U64_MAX)
  }

  /** The validator at j is one whose balance the upgrader still re-derives. */
  predicate StillDerived(u: Upgrader, j: nat) {
    u.IteratingStakes? || (u.IteratingValidators? && j >= u.visited)
  }

  /** The list, the validator and the upgrader hold one more record of so much. */
  predicate EntryFits(s: System, j: nat, amount: nat)
    requires j < |s.validators|
  {
    && |s.stakes| < s.cfg.stakeCapacity && s.validators[j].active + amount <= U64_MAX
    && (StillDerived(s.upgrader, j) ==> s.validators[j].upgrading + amount <= U64_MAX)
    && (s.upgrader.IteratingStakes? ==>
        s.upgrader.visited + 1 <= U32_MAX && s.upgrader.activeBalance + amount <= U64_MAX)
  }

  /** The depositor gets what the stake less the fee buys. */
  ghost predicate StakeTerms(s: System, stake: nat, fee: nat, msol: nat) {
    && Cents(fee, stake, s.cfg.depositStakeFee) && fee <= stake
    && Buys(msol, stake - fee, Behind(s), s.supply) && msol <= U64_MAX && (msol > 0 ==> s.supply + msol <= U64_MAX)
  }

  /** A new active record, counted as visited while stakes are visited, and re-derived with its validator
      while that is still to come. */
  function StakeEntered(s: System, account: Key, j: nat, msol: nat): System
    requires account in s.native && j < |s.validators|
  {
    var a, v := s.native[account], s.validators[j];
    s.(native := s.native[account := a.(ours := true)], active := s.active + a.stake,
       supply := s.supply + msol, msolHeld := s.msolHeld + msol,
       stakes := s.stakes + [StakeRecord(account, a.stake, s.clock.epoch, false, StakeStatus.Active)],
       validators := s.validators[j := v.(
         active := v.active + a.stake,
         upgrading := if StillDerived(s.upgrader, j) then v.upgrading + a.stake else v.upgrading)],
       upgrader := if s.upgrader.IteratingStakes?
                   then s.upgrader.(visited := s.upgrader.visited + 1,
                                    activeBalance := s.upgrader.activeBalance + a.stake)
                   else s.upgrader)
  }

  lemma DepositStakeIff(s: System, account: Key, j: nat)
    requires Backed(s)
    ensures var r := DepositStakeAccount(s, account, j);
      && (r.Success? <==>
          && !s.cfg.paused && Depositable(s, account, j) && !s.native[account].ours
          && EntryFits(s, j, s.native[account].stake)
          && exists fee: nat, msol: nat :: StakeTerms(s, s.native[account].stake, fee, msol))
      && (r.Success? ==>
          exists fee: nat, msol: nat :: StakeTerms(s, s.native[account].stake, fee, msol)
            && r.value == StakeEntered(s, account, j, msol))
  {
    DepositableIs(s, account, j);
    if Depositable(s, account, j) {
      EnterStakeIff(s, account, j);
    }
    hide EnterStake, Depositable, EntryFits, StakeTerms, StakeEntered, Under;
  }

  lemma DepositableIs(s: System, account: Key, j: nat)
    requires Backed(s)
    ensures var r := DepositStakeAccount(s, account, j);
      if !s.cfg.paused && Depositable(s, account, j) then r == EnterStake(s, account, j) else r.Failure?
  {
    BehindIs(s);
    hide TotalLamports, Tracked, PushActive, MsolFromLamports;
  }

  lemma EnterStakeIff(s: System, account: Key, j: nat)
    requires Depositable(s, account, j) && s.cfg.depositStakeFee <= MAX_BP_CENTS
    ensures var r := EnterStake(s, account, j);
      && (r.Success? <==>
          && !s.native[account].ours && EntryFits(s, j, s.native[account].stake)
          && exists fee: nat, msol: nat :: StakeTerms(s, s.native[account].stake, fee, msol))
      && (r.Success? ==>
          exists fee: nat, msol: nat :: StakeTerms(s, s.native[account].stake, fee, msol)
            && r.value == StakeEntered(s, account, j, msol))
  {
    var stake := s.native[account].stake;
    if EnterStake(s, account, j).Success? {
      EntryHasTerms(s, account, j);
    }
    hide EnterStake, StakeTerms, EntryFits, StakeEntered;
    if fee: nat, msol: nat :| StakeTerms(s, stake, fee, msol) {
      if EntryFits(s, j, stake) && !s.native[account].ours {
        EntryIsAccepted(s, account, j, fee, msol);
      }
    }
  }

  lemma EntryHasTerms(s: System, account: Key, j: nat)
    requires Depositable(s, account, j) && s.cfg.depositStakeFee <= MAX_BP_CENTS && EnterStake(s, account, j).Success?
    ensures !s.native[account].ours && EntryFits(s, j, s.native[account].stake)
    ensures exists fee: nat, msol: nat :: StakeTerms(s, s.native[account].stake, fee, msol)
              && EnterStake(s, account, j).value == StakeEntered(s, account, j, msol)
  {
    var stake := s.native[account].stake;
    ReserveIsUnder(s);
    TrackedIff(s, j, stake);
    var fee := FeeCentsApply(s.cfg.depositStakeFee, stake);
    CentsIff(s.cfg.depositStakeFee, stake, fee);
    hide FeeCentsApply, Buys, Behind, Under, MsolFromLamports, IsFloor, PushActive, Tracked, EntryFits, StillDerived;
    PushEntered(s, account, j);
    var msol := MsolFromLamports(s, stake - fee).value;
    BuysIff(s, stake - fee, msol);
    assert StakeTerms(s, stake, fee, msol);
  }

  lemma EntryIsAccepted(s: System, account: Key, j: nat, fee: nat, msol: nat)
    requires Depositable(s, account, j) && !s.native[account].ours && s.cfg.depositStakeFee <= MAX_BP_CENTS
    requires EntryFits(s, j, s.native[account].stake) && StakeTerms(s, s.native[account].stake, fee, msol)
    ensures EnterStake(s, account, j).Success?
  {
    var stake := s.native[account].stake;
    ReserveIsUnder(s);
    TrackedIff(s, j, stake);
    CentsIff(s.cfg.depositStakeFee, stake, fee);
    assert |s.stakes| < s.cfg.stakeCapacity;
    hide FeeCentsApply, Buys, Behind, IsFloor, PushActive, Tracked, EntryFits, StillDerived, MsolFromLamports;
    PushEntered(s, account, j);
    BuysIff(s, stake - fee, msol);
    hide Under;
  }

  lemma PushEntered(s: System, account: Key, j: nat)
    requires Depositable(s, account, j) && s.active + s.native[account].stake <= U64_MAX
    ensures var a := s.native[account];
      var r := PushActive(s.(native := s.native[account := a.(ours := true)]), account, a.stake, j);
      if EntryFits(s, j, a.stake) then r == Success(StakeEntered(s, account, j, 0)) else r.Failure?
  {
    hide Under;
  }

  lemma TrackedIff(s: System, j: nat, amount: nat)
    requires j < |s.validators| && |s.stakes| < s.cfg.stakeCapacity
    ensures Tracked(s.upgrader, s.validators[j], amount, j).Success? <==> EntryFits(s, j, amount)
  {
  }

  // ---------------------------------------------------------------- stake given back

  /** The value of the mSOL less the fee is split off; both parts stay at the minimum. With a treasury
      only the mSOL that the split buys is burned, if that is less. */
  ghost predicate GiveTerms(s: System, msol: nat, delegated: nat, treasury: bool, value: nat, fee: nat, back: nat,
                            burned: nat) {
    && IsWorth(value, msol, Behind(s), s.supply) && value <= U64_MAX && value >= s.cfg.minWithdraw
    && Cents(fee, value, s.cfg.withdrawStakeFee) && fee <= value
    && s.cfg.minStake <= value - fee && value - fee + s.cfg.minStake <= delegated
    && (if treasury then Buys(back, value - fee, Behind(s), s.supply) && back <= U64_MAX && burned == Min(msol, back)
        else burned == msol)
  }

  /** A listed active record, untouched since its last update, of a listed validator. */
  predicate Givable(s: System, i: nat, account: Key, j: nat) {
    && i < |s.stakes| && j < |s.validators| && s.stakes[i].account == account
    && s.stakes[i].status.Active? && !s.stakes[i].emergency
    && account in s.native && s.native[account].deactivationEpoch == NEVER
    && s.native[account].voter == s.validators[j].vote && s.native[account].stake == s.stakes[i].delegated
  }

  function Given(s: System, i: nat, account: Key, j: nat, newKey: Key, split: nat, burned: nat): System
    requires i < |s.stakes| && j < |s.validators| && account in s.native
    requires split <= s.active && split <= s.stakes[i].delegated && split <= s.validators[j].active
    requires split <= s.native[account].stake && split <= s.native[account].lamports
    requires burned <= s.supply && burned <= s.msolHeld
  {
    var a := s.native[account];
    s.(supply := s.supply - burned, msolHeld := s.msolHeld - burned, active := s.active - split,
       stakes := s.stakes[i := s.stakes[i].(delegated := s.stakes[i].delegated - split)],
       validators := s.validators[j := s.validators[j].(active := s.validators[j].active - split)],
       native := s.native[account := a.(stake := a.stake - split, lamports := a.lamports - split)]
                         [newKey :=
                          a.(stake := split, lamports := split + s.stakeRent, rent := s.stakeRent, ours := false)])
  }

  /** The balances cover any part of the record. */
  predicate Covers(s: System, i: nat, account: Key, j: nat, split: nat) {
    && i < |s.stakes| && j < |s.validators| && account in s.native
    && split <= s.active && split <= s.stakes[i].delegated && split <= s.validators[j].active
    && split <= s.native[account].stake && split + s.native[account].rent <= s.native[account].lamports
  }

  lemma InvCovers(s: System, i: nat, account: Key, j: nat, split: nat)
    requires Inv(s) && s.upgrader.Done? && Givable(s, i, account, j) && split <= s.stakes[i].delegated
    ensures Covers(s, i, account, j, split)
  {
    assert RecordOk(s.stakes[i], s.native);
    RecordCovered(s, i, j);
    SumMember(s.stakes, i, ActiveStake());
    hide Sum;
  }

  lemma WithdrawStakeIff(s: System, i: nat, account: Key, j: nat, msol: u64, newKey: Key, treasury: bool)
    requires Inv(s)
    ensures var r := WithdrawStakeAccount(s, i, account, j, msol, newKey, treasury);
      && (r.Success? <==>
          && newKey !in s.native && !s.cfg.paused && s.cfg.withdrawStakeEnabled && s.upgrader.Done?
          && msol <= s.msolHeld && Under(s) <= U64_MAX && Givable(s, i, account, j)
          && exists value: nat, fee: nat, back: nat, burned: nat ::
               GiveTerms(s, msol, s.stakes[i].delegated, treasury, value, fee, back, burned))
      && (r.Success? ==>
          exists value: nat, fee: nat, back: nat, burned: nat ::
            GiveTerms(s, msol, s.stakes[i].delegated, treasury, value, fee, back, burned)
            && Covers(s, i, account, j, value - fee) && burned <= s.supply && burned <= s.msolHeld
            && r.value == Given(s, i, account, j, newKey, value - fee, burned))
  {
    GivableIs(s, i, account, j, msol, newKey, treasury);
    hide WithdrawStakeAccount, GiveTerms, Given, WithdrawTerms, GiveStake, Under, Inv;
    if Givable(s, i, account,
               j) && s.upgrader.Done? && newKey !in s.native && msol <= s.msolHeld && Under(s) <= U64_MAX {
      GiveIff(s, i, account, j, msol, newKey, treasury);
    }
  }

  lemma GivableIs(s: System, i: nat, account: Key, j: nat, msol: u64, newKey: Key, treasury: bool)
    ensures var r := WithdrawStakeAccount(s, i, account, j, msol, newKey, treasury);
      if newKey !in s.native && !s.cfg.paused && s.cfg.withdrawStakeEnabled && s.upgrader.Done?
         && msol <= s.msolHeld && Under(s) <= U64_MAX && Givable(s, i, account, j)
      then
        var terms := WithdrawTerms(s, msol, s.stakes[i].delegated, treasury);
        if terms.Success? && terms.value.0 <= s.stakes[i].delegated
        then r == GiveStake(s, i, account, j, terms.value.0, terms.value.1, newKey) else r.Failure?
      else r.Failure?
  {
    BehindIs(s);
    hide GiveStake, MsolToSol, MsolFromLamports, FeeCentsApply, TotalLamports;
  }

  lemma GiveIff(s: System, i: nat, account: Key, j: nat, msol: u64, newKey: Key, treasury: bool)
    requires Inv(s) && s.upgrader.Done? && Givable(s, i, account, j) && newKey !in s.native
    requires msol <= s.msolHeld && Under(s) <= U64_MAX
    ensures var terms := WithdrawTerms(s, msol, s.stakes[i].delegated, treasury);
      && (terms.Success? <==>
          exists value: nat, fee: nat, back: nat, burned: nat ::
            GiveTerms(s, msol, s.stakes[i].delegated, treasury, value, fee, back, burned))
      && (terms.Success? ==>
          && terms.value.0 <= s.stakes[i].delegated
          && var r := GiveStake(s, i, account, j, terms.value.0, terms.value.1, newKey);
          && r.Success?
          && exists value: nat, fee: nat, back: nat, burned: nat ::
            GiveTerms(s, msol, s.stakes[i].delegated, treasury, value, fee, back, burned)
            && Covers(s, i, account, j, value - fee) && burned <= s.supply && burned <= s.msolHeld
            && r.value == Given(s, i, account, j, newKey, value - fee, burned))
  {
    var delegated := s.stakes[i].delegated;
    var terms := WithdrawTerms(s, msol, delegated, treasury);
    if terms.Success? {
      TermsHold(s, msol, delegated, treasury);
      var value: nat, fee: nat, back: nat :| GiveTerms(s, msol, delegated, treasury, value, fee, back, terms.value.1)
                                             && terms.value.0 == value - fee;
      hide GiveTerms, WithdrawTerms, Given;
      InvCovers(s, i, account, j, value - fee);
      GiveStakeIs(s, i, account, j, value - fee, terms.value.1, newKey);
    }
    if value: nat, fee: nat, back: nat,
        burned: nat :| GiveTerms(s, msol, delegated, treasury, value, fee, back, burned) {
      TermsSuffice(s, msol, delegated, treasury, value, fee, back, burned);
    }
  }

  lemma TermsHold(s: System, msol: u64, delegated: nat, treasury: bool)
    requires Backed(s) && WithdrawTerms(s, msol, delegated, treasury).Success? && msol <= s.msolHeld
    ensures var (split, burned) := WithdrawTerms(s, msol, delegated, treasury).value;
      && 0 < split <= delegated && burned <= s.supply && burned <= s.msolHeld
      && exists value: nat, fee: nat, back: nat ::
           GiveTerms(s, msol, delegated, treasury, value, fee, back, burned) && split == value - fee
  {
    hide IsWorth, Buys, Behind, Under, MsolToSol, MsolFromLamports, IsFloor;
    var value := MsolToSol(s, msol).value;
    WorthIff(s, msol, value);
    var fee := FeeCentsApply(s.cfg.withdrawStakeFee, value);
    CentsIff(s.cfg.withdrawStakeFee, value, fee);
    hide FeeCentsApply;
    var back := if treasury then MsolFromLamports(s, value - fee).value else 0;
    if treasury {
      BuysIff(s, value - fee, back);
    }
    assert GiveTerms(s, msol, delegated, treasury, value, fee, back,
                     WithdrawTerms(s, msol, delegated, treasury).value.1);
  }

  lemma TermsSuffice(s: System, msol: u64, delegated: nat, treasury: bool, value: nat, fee: nat, back: nat, burned: nat)
    requires Backed(s) && GiveTerms(s, msol, delegated, treasury, value, fee, back, burned) && Under(s) <= U64_MAX
    ensures WithdrawTerms(s, msol, delegated, treasury) == Success((value - fee, burned))
  {
    hide IsWorth, Buys, Behind, Under, MsolToSol, MsolFromLamports, IsFloor;
    WorthIff(s, msol, value);
    CentsIff(s.cfg.withdrawStakeFee, value, fee);
    hide FeeCentsApply;
    if treasury {
      BuysIff(s, value - fee, back);
    }
  }

  lemma GiveStakeIs(s: System, i: nat, account: Key, j: nat, split: nat, burned: nat, newKey: Key)
    requires s.upgrader.Done? && Givable(s, i, account, j) && Covers(s, i, account, j, split) && newKey !in s.native
    requires split > 0 && burned <= s.supply && burned <= s.msolHeld
    ensures GiveStake(s, i, account, j, split, burned, newKey)
         == Success(Given(s, i, account, j, newKey, split, burned))
  {
    var a := s.native[account];
    var left := a.(stake := a.stake - split, lamports := a.lamports - split);
    var ours := a.(stake := split, lamports := split + s.stakeRent, rent := s.stakeRent);
    assert s.native[account := left][newKey := ours][newKey := ours.(ours := false)]
        == s.native[account := left][newKey := ours.(ours := false)];
  }
}
