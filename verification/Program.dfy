/** The program as it runs: one mutable state with its two lists, changed field by field. Every
    instruction is proved to do what `Instructions` says of it, and to fail when that fails.
    The runtime discards the writes of a failed instruction; `Execute` stands for it. */
module Program {
  import opened Base
  import opened Calc
  import opened Sums
  import opened Model
  import opened Ledger
  import Spec = Instructions
  import Machine
  import Shapes
  import Invariant
  import Safety

  /** The instruction went through and left the state its specification says, or both failed, with
      the same error up to which of several arithmetic panics came first. */
  predicate Refines(r: Result<()>, after: System, expected: Result<System>) {
    if expected.Success? then r.Success? && after == expected.value
    else r.Failure? && SameError(r.error, expected.error)
  }

  /** What follows once a deposited stake was entered with its validator and the upgrader. */
  function Entered(s: System, account: Key, amount: nat): Result<System> {
    if |s.stakes| >= s.cfg.stakeCapacity then Failure(ListOverflow) else
    var msol :- MsolFromLamports(s, SatSub(amount, FeeCentsApply(s.cfg.depositStakeFee, amount)));
    var total :- Add(s.active, amount);
    MintMsol(s.(active := total, stakes := s.stakes + [StakeRecord(account, amount, s.clock.epoch, false, Active)]),
             msol)
  }

  function Moved(s: System, validator: ValidatorRecord, unstaked: nat, toEmergency: bool): Result<System> {
    var _ :- Sub(validator.active, unstaked);
    var total :- Sub(s.active, unstaked);
    AddCooling(s.(active := total), toEmergency, unstaked)
  }

  function WithEpoch(s: System, j: nat, epoch: nat): System
    requires j < |s.validators|
  {
    s.(validators := s.validators[j := s.validators[j].(deltaEpoch := epoch)])
  }

  /** The state with two local copies written back. */
  function Written(s: System, i: nat, stake: StakeRecord, j: nat, validator: ValidatorRecord): System
    requires i < |s.stakes| && j < |s.validators|
  {
    s.(stakes := s.stakes[i := stake], validators := s.validators[j := validator])
  }

  /** The parts of a record its removal looks at. */
  ghost predicate SameStake(a: StakeRecord, b: StakeRecord) {
    a.account == b.account && a.delegated == b.delegated && a.emergency == b.emergency
  }

  function WithRecord(s: System, i: nat, stake: StakeRecord): System
    requires i < |s.stakes|
  {
    s.(stakes := s.stakes[i := stake])
  }

  lemma DetectedRecord(s: System, i: nat, j: nat)
    requires i < |s.stakes| && j < |s.validators|
    ensures var r := Spec.DetectDelinquent(s, i, j);
      r.Success? ==>
          i < |r.value.stakes| && r.value.stakes == s.stakes[i := r.value.stakes[i]] && r.value.native == s.native
                     && r.value.stakes[i].account == s.stakes[i].account
  {
  }

  /** t is s with other lists. */
  ghost predicate OtherLists(s: System, t: System) {
    t == s.(stakes := t.stakes, validators := t.validators)
  }

  /** Both fail alike, or both succeed and differ in the lists as before. */
  ghost predicate Parallel(s: System, a: Result<System>, t: System, b: Result<System>) {
    if a.Failure? then b == a
    else b.Success? && b.value == a.value.(stakes := t.stakes, validators := t.validators)
         && a.value.stakes == s.stakes && a.value.validators == s.validators
  }

  lemma FeesIgnoreLists(s: System, t: System, incoming: nat)
    requires OtherLists(s, t)
    ensures Parallel(s, Model.MintProtocolFees(s, incoming), t, Model.MintProtocolFees(t, incoming))
  {
    SharesIgnoreLists(s, t, FeeApply(s.cfg.rewardFee, incoming));
    hide MsolFromLamports, FeeApply;
  }

  lemma SweepIgnoresLists(s: System, t: System, account: Key, extra: nat, treasury: bool)
    requires OtherLists(s, t) && account in s.native && extra <= s.native[account].lamports
    ensures Parallel(s, Spec.SweepExtra(s, account, extra, treasury), t, Spec.SweepExtra(t, account, extra, treasury))
  {
    hide Model.MintProtocolFees;
    if extra > 0 && s.reserve + extra <= U64_MAX && treasury {
      var native := s.native[account := s.native[account].(lamports := s.native[account].lamports - extra)];
      FeesIgnoreLists(s.(reserve := s.reserve + extra, reserveLamports := s.reserveLamports + extra, native := native),
                      t.(reserve := s.reserve + extra, reserveLamports := s.reserveLamports + extra, native := native),
                          extra);
    }
  }

  lemma WithdrawIgnoresLists(s: System, t: System, account: Key)
    requires OtherLists(s, t) && account in s.native
    ensures Parallel(s, Spec.WithdrawAll(s, account), t, Spec.WithdrawAll(t, account))
  {
  }

  lemma BeginKeepsLists(s: System, i: nat, account: Key, j: nat)
    ensures var r := Spec.Begin(s, i, account, j);
      r.Success? ==> r.value.stakes == s.stakes && r.value.validators == s.validators && r.value.native == s.native
                     && r.value.upgrader == s.upgrader && r.value.cfg.paused == s.cfg.paused
                     && i < |s.stakes| && j < |s.validators| && account in s.native
  {
  }

  lemma SameEpoch(s: System, j: nat)
    requires j < |s.validators|
    ensures WithEpoch(s, j, s.validators[j].deltaEpoch) == s
  {
    assert s.validators[j := s.validators[j]] == s.validators;
  }

  class State {
    var cfg: Config
    var clock: Clock
    var active: nat
    var delayed: nat
    var emergency: nat
    var reserve: nat
    var supply: nat
    var price: nat
    var ticketCount: nat
    var ticketBalance: nat
    var totalScore: nat
    var deltaEpoch: nat
    var extraRuns: nat
    var moveEpoch: nat
    var moved: nat
    var upgrader: Upgrader
    var stakes: seq<StakeRecord>
    var validators: seq<ValidatorRecord>
    var lpSupply: nat
    var reserveLamports: nat
    var stakeRent: nat
    var solLeg: nat
    var msolLeg: nat
    var msolHeld: nat
    var lpMint: nat
    var native: map<Key, StakeAccount>
    var tickets: seq<Ticket>
    var flags: set<Key>

    function View(): System
      reads this
    {
      System(cfg, clock, active, delayed, emergency, reserve, supply, price, ticketCount, ticketBalance, totalScore,
             deltaEpoch, extraRuns, moveEpoch, moved, upgrader, stakes, validators, lpSupply, reserveLamports,
                 stakeRent,
             solLeg, msolLeg, msolHeld, lpMint, native, tickets, flags)
    }

    // -------------------------------------------------------------- users

    method Deposit(lamports: u64) returns (r: Result<()>)
      modifies this
      ensures Refines(r, View(), Spec.Deposit(old(View()), lamports))
    {
      hide MsolFromLamports, MsolToSol, FeeCentsApply, CheckStakingCap, Spec.FillOrder;
      :- Require(!cfg.paused, ProgramIsPaused);
      :- Require(lamports >= cfg.minDeposit, DepositAmountIsTooLow);
      :- Require(msolLeg + msolHeld <= supply, UnregisteredMsolMinted);
      var solFees := FeeCentsApply(cfg.depositFee, lamports);
      var order :- MsolFromLamports(View(), SatSub(lamports, solFees));
      var swapped := Min(order, msolLeg);
      var solSwapped := 0;
      if swapped > 0 {
        if order == swapped {
          solSwapped := lamports;
        } else {
          solSwapped :- MsolToSol(View(), swapped);
        }
      }
      var deposited :- Sub(lamports, solSwapped);
      :- if deposited > 0 then CheckStakingCap(View(), deposited) else Pass;
      r := FillOrder(order, swapped, solSwapped, deposited);
    }

    /** The pool's part changes hands, the rest goes to the reserve and is minted. */
    method FillOrder(order: nat, swapped: nat, solSwapped: nat, deposited: nat) returns (r: Result<()>)
      requires swapped <= msolLeg && swapped <= order
      modifies this`msolLeg, this`msolHeld, this`solLeg, this`reserve, this`reserveLamports, this`supply
      ensures Refines(r, View(), Spec.FillOrder(old(View()), order, swapped, solSwapped, deposited))
    {
      hide Model.MintMsol, Spec.AddToReserve;
      SwapLegs(swapped, solSwapped);
      var _ :- AddToReserve(deposited);
      r := MintMsol(order - swapped);
    }

    method SwapLegs(msol: nat, sol: nat)
      requires msol <= msolLeg
      modifies this`msolLeg, this`msolHeld, this`solLeg
      ensures View()
          == old(View()).(msolLeg := old(msolLeg) - msol, msolHeld := old(msolHeld) + msol, solLeg := old(solLeg) + sol)
    {
      msolLeg, msolHeld, solLeg := msolLeg - msol, msolHeld + msol, solLeg + sol;
    }

    method AddToReserve(lamports: nat) returns (r: Result<()>)
      modifies this`reserve, this`reserveLamports
      ensures Refines(r, View(), Spec.AddToReserve(old(View()), lamports))
    {
      if lamports > 0 {
        reserveLamports := reserveLamports + lamports;
        reserve :- Add(reserve, lamports);
      }
      return Success(());
    }

    method OrderUnstake(msol: u64, newKey: Key) returns (r: Result<()>)
      modifies this
      ensures Refines(r, View(), Spec.OrderUnstake(old(View()), msol, newKey))
    {
      hide MsolToSol, FeeCentsApply, Spec.IssueTicket;
      :- Require(forall t :: t in tickets ==> t.id != newKey, AccountAlreadyInUse);
      :- Require(!cfg.paused, ProgramIsPaused);
      :- Require(msol <= msolHeld, NotEnoughUserFunds);
      var value :- MsolToSol(View(), msol);
      var amount :- Sub(value, FeeCentsApply(cfg.delayedUnstakeFee, value));
      :- Require(amount >= cfg.minWithdraw, WithdrawAmountIsTooLow);
      r := IssueTicket(msol, amount, newKey);
    }

    /** The mSOL is burned, and its value is owed on a new ticket. */
    method IssueTicket(msol: u64, amount: nat, newKey: Key) returns (r: Result<()>)
      requires msol <= msolHeld
      modifies this`ticketBalance, this`ticketCount, this`msolHeld, this`supply, this`tickets
      ensures Refines(r, View(), Spec.IssueTicket(old(View()), msol, amount, newKey))
    {
      ticketBalance :- Add(ticketBalance, amount);
      ticketCount :- Add(ticketCount, 1);
      var _ :- BurnMsol(msol);
      var created :- Add(clock.epoch, if clock.epoch == deltaEpoch then 1 else 0);
      tickets := tickets + [Ticket(newKey, amount, created)];
      return Success(());
    }

    method Claim(k: nat) returns (r: Result<()>)
      modifies this
      ensures Refines(r, View(), Spec.Claim(old(View()), k))
    {
      hide Spec.PayTicket;
      if cfg.paused {
        return Failure(ProgramIsPaused);
      }
      :- Require(k < |tickets|, CallFailed);
      :- Spec.CheckTicket(View(), tickets[k]);
      var lamports := tickets[k].amount;
      var available :- Sub(reserveLamports, cfg.tokenRent);
      :- Require(lamports <= available, TicketNotReady);
      r := PayTicket(k, lamports);
    }

    /** The ticket is closed and paid from the reserve. */
    method PayTicket(k: nat, lamports: nat) returns (r: Result<()>)
      requires k < |tickets| && lamports <= reserveLamports
      modifies this`ticketBalance, this`ticketCount, this`tickets, this`reserve, this`reserveLamports
      ensures Refines(r, View(), Spec.PayTicket(old(View()), k, lamports))
    {
      ticketBalance :- Sub(ticketBalance, lamports);
      ticketCount :- Sub(ticketCount, 1);
      tickets := SwapRemove(tickets, k);
      r := TransferFromReserve(lamports);
      assert View() == old(View()).(ticketBalance := ticketBalance, ticketCount := ticketCount, tickets := tickets,
                                    reserve := reserve, reserveLamports := reserveLamports);
    }

    /** The stake comes in as an active record; while the upgrader runs it is entered as visited. */
    method DepositStakeAccount(account: Key, j: nat) returns (r: Result<()>)
      modifies this
      ensures Refines(r, View(), Spec.DepositStakeAccount(old(View()), account, j))
    {
      hide CheckStakingCap, Spec.EnterStake;
      :- Require(!cfg.paused, ProgramIsPaused);
      :- Require(msolLeg + msolHeld <= supply, UnregisteredMsolMinted);
      var _ :- CheckedVirtual(View());
      :- Require(account in native, StakeNotDelegated);
      var delegation := native[account];
      :- Require(delegation.Live(), RequiredActiveStake);
      :- Require(clock.epoch >= delegation.activationEpoch, DepositingNotActivatedStake);
      :- Require(delegation.stake >= cfg.minStake, TooLowDelegationInDepositingStake);
      :- Require(delegation.lamports == delegation.stake + delegation.rent, WrongStakeBalance);
      :- CheckStakingCap(View(), delegation.stake);
      :- FindValidator(View(), j, delegation.voter);
      r := EnterStake(account, j);
    }

    /** The validator and the upgrader take the stake, the program takes over its authorities. */
    method EnterStake(account: Key, j: nat) returns (r: Result<()>)
      requires account in native && j < |validators|
      modifies this
      ensures Refines(r, View(), Spec.EnterStake(old(View()), account, j))
    {
      hide MsolFromLamports, FeeCentsApply, Tracked, PushActive, Entered;
      var delegation := native[account];
      var validator :- TrackDeposit(validators[j], delegation.stake, j);
      validators := validators[j := validator];
      :- Require(!delegation.ours, RedepositingMarinadeStake);
      native := native[account := delegation.(ours := true)];
      EnteredAfterTracking(old(View()), View(), account, delegation.stake, j);
      r := EnterActive(account, delegation.stake);
    }

    /** The record is listed, the depositor is paid in mSOL, and the total follows. */
    method EnterActive(account: Key, amount: nat) returns (r: Result<()>)
      modifies this`stakes, this`msolHeld, this`supply, this`active
      ensures Refines(r, View(), Entered(old(View()), account, amount))
    {
      hide MsolFromLamports, FeeCentsApply;
      :- Require(|stakes| < cfg.stakeCapacity, ListOverflow);
      stakes := stakes + [StakeRecord(account, amount, clock.epoch, false, StakeStatus.Active)];
      var fee := FeeCentsApply(cfg.depositStakeFee, amount);
      SharesIgnoreLists(View(), old(View()), SatSub(amount, fee));
      var msol :- MsolFromLamports(View(), SatSub(amount, fee));
      var _ :- MintMsol(msol);
      active :- Add(active, amount);
      return Success(());
    }

    /** The part of a deposit the upgrader must know of in its present phase. */
    method TrackDeposit(listed: ValidatorRecord, amount: nat, j: nat) returns (r: Result<ValidatorRecord>)
      modifies this`upgrader
      ensures var tracked := Tracked(old(upgrader), listed, amount, j);
        if tracked.Success? then r == Success(tracked.value.0) && upgrader == tracked.value.1
        else r == Failure(tracked.error)
    {
      var balance :- Add(listed.active, amount);
      var validator := listed.(active := balance);
      match upgrader {
        case IteratingStakes(visited, activeBalance, _) =>
          // it is entered as processed already
          var nextVisited :- Add32(visited, 1);
          var nextBalance :- Add(activeBalance, amount);
          upgrader := upgrader.(visited := nextVisited, activeBalance := nextBalance);
          var upgrading :- Add(validator.upgrading, amount);
          validator := validator.(upgrading := upgrading);
        case IteratingValidators(visited, _) =>
          if j >= visited {
            var upgrading :- Add(validator.upgrading, amount);
            validator := validator.(upgrading := upgrading);
          }
        case Done =>
      }
      return Success(validator);
    }

    // -------------------------------------------------------------- transfers

    method TransferToReserve(amount: nat) returns (r: Result<()>)
      modifies this`reserve, this`reserveLamports
      ensures if old(reserve) + amount <= U64_MAX then
                r.Success? && reserve == old(reserve) + amount && reserveLamports == old(reserveLamports) + amount
              else r == Failure(Overflow)
    {
      reserveLamports := reserveLamports + amount;
      reserve :- Add(reserve, amount);
      return Success(());
    }

    method TransferFromReserve(amount: nat) returns (r: Result<()>)
      requires amount <= reserveLamports
      modifies this`reserve, this`reserveLamports
      ensures if amount <= old(reserve) then
                r.Success? && reserve == old(reserve) - amount && reserveLamports == old(reserveLamports) - amount
              else r == Failure(Underflow)
    {
      reserveLamports := reserveLamports - amount;
      reserve :- Sub(reserve, amount);
      return Success(());
    }

    method BurnMsol(amount: nat) returns (r: Result<()>)
      modifies this`msolHeld, this`supply
      ensures Refines(r, View(), Model.BurnMsol(old(View()), amount))
    {
      if amount > msolHeld {
        return Failure(NotEnoughUserFunds);
      }
      msolHeld := msolHeld - amount;
      supply :- Sub(supply, amount);
      return Success(());
    }

    method MintMsol(amount: nat) returns (r: Result<()>)
      modifies this`msolHeld, this`supply
      ensures Refines(r, View(), Model.MintMsol(old(View()), amount))
    {
      if amount > 0 {
        msolHeld := msolHeld + amount;
        supply :- Add(supply, amount);
      }
      return Success(());
    }

    method WithdrawStakeAccount(i: nat, account: Key, j: nat, msol: u64, newKey: Key, treasury: bool)
        returns (r: Result<()>)
      requires cfg.minStake > 0
      modifies this
      ensures Refines(r, View(), Spec.WithdrawStakeAccount(old(View()), i, account, j, msol, newKey, treasury))
    {
      hide MsolToSol, MsolFromLamports, FeeCentsApply, Spec.GiveStake;
      :- Require(newKey !in native, AccountAlreadyInUse);
      :- Require(!cfg.paused, ProgramIsPaused);
      :- Require(cfg.withdrawStakeEnabled, WithdrawStakeAccountIsNotEnabled);
      :- Require(upgrader.Done?, DelinquentUpgraderIsNotDone);
      var _ :- CheckedVirtual(View());
      :- Require(msol <= msolHeld, NotEnoughUserFunds);
      :- FindStake(View(), i, account);
      var stake := stakes[i];
      :- Require(stake.status == StakeStatus.Active, RequiredActiveStake);
      :- Require(!stake.emergency, StakeAccountIsEmergencyUnstaking);
      :- Require(account in native, StakeNotDelegated);
      :- Require(native[account].Live(), RequiredActiveStake);
      :- Require(j < |validators|, ListIndexOutOfBounds);
      var validator := validators[j];
      :- CheckStakeAmountAndValidator(View(), account, stake.delegated, validator.vote);
      var value :- MsolToSol(View(), msol);
      :- Require(value >= cfg.minWithdraw, WithdrawAmountIsTooLow);
      var split :- Sub(value, FeeCentsApply(cfg.withdrawStakeFee, value));
      :- Require(split >= cfg.minStake, WithdrawStakeLamportsIsTooLow);
      :- Require(stake.delegated >= split, SelectedStakeAccountHasNotEnoughFunds);
      :- Require(stake.delegated - split >= cfg.minStake, StakeAccountRemainderTooLow);
      var fees := 0;
      if treasury {
        var back :- MsolFromLamports(View(), split);
        fees := SatSub(msol, back);
      }
      var burned := msol - fees;
      r := GiveStake(i, account, j, split, burned, newKey);
    }

    /** The mSOL is burned, and the user becomes the owner of the account split off. */
    method GiveStake(i: nat, account: Key, j: nat, split: nat, burned: nat, newKey: Key) returns (r: Result<()>)
      requires i < |stakes| && j < |validators| && 0 < split <= stakes[i].delegated && upgrader.Done?
      modifies this
      ensures Refines(r, View(), Spec.GiveStake(old(View()), i, account, j, split, burned, newKey))
    {
      hide SplitNative, Model.BurnMsol;
      var stake, validator := stakes[i], validators[j];
      var _ :- BurnMsol(burned);
      var _ :- SplitStake(account, newKey, split);
      Shapes.SplitOnlyNative(old(View()).(supply := supply, msolHeld := msolHeld), account, newKey, split);
      stake := stake.(delegated := stake.delegated - split);
      var balance :- Sub(validator.active, split);
      validator := validator.(active := balance);
      active :- Sub(active, split);
      stakes := stakes[i := stake];
      validators := validators[j := validator];
      native := native[newKey := native[newKey].(ours := false)];
      return Success(());
    }

    // -------------------------------------------------------------- liquidity pool

    method LiquidUnstake(msol: u64, treasury: bool) returns (r: Result<()>)
      modifies this
      ensures Refines(r, View(), Spec.LiquidUnstake(old(View()), msol, treasury))
    {
      hide MsolToSol, FeeApply, Spec.SellToPool, Spec.LinearFee;
      :- Require(!cfg.paused, ProgramIsPaused);
      :- Require(msol <= msolHeld, NotEnoughUserFunds);
      var available := SatSub(solLeg, cfg.tokenRent);
      var wanted :- MsolToSol(View(), msol);
      var basisPoints := cfg.lpMaxFee;
      if wanted < available {
        basisPoints :- Spec.LinearFee(cfg, available - wanted);
      }
      var fee := FeeApply(basisPoints, msol);
      var sold :- Sub(msol, fee);
      var paid :- MsolToSol(View(), sold);
      var needed :- Add(paid, cfg.tokenRent);
      :- Require(needed <= solLeg, InsufficientLiquidity);
      :- Require(paid >= cfg.minWithdraw, WithdrawAmountIsTooLow);
      var cut := 0;
      if treasury {
        cut := FeeApply(cfg.treasuryCut, fee);
      }
      r := SellToPool(msol, paid, cut);
    }

    method SellToPool(msol: nat, paid: nat, cut: nat) returns (r: Result<()>)
      requires paid <= solLeg && msol <= msolHeld
      modifies this`solLeg, this`msolLeg, this`msolHeld
      ensures Refines(r, View(), Spec.SellToPool(old(View()), msol, paid, cut))
    {
      solLeg := solLeg - paid;
      var toPool :- Sub(msol, cut);
      msolLeg, msolHeld := msolLeg + toPool, msolHeld - toPool;
      assert View() == old(View()).(solLeg := solLeg, msolLeg := msolLeg, msolHeld := msolHeld);
      return Success(());
    }

    method AddLiquidity(lamports: u64) returns (r: Result<()>)
      modifies this
      ensures Refines(r, View(), Spec.AddLiquidity(old(View()), lamports))
    {
      hide MsolToSol;
      :- Require(!cfg.paused, ProgramIsPaused);
      :- Require(lamports >= cfg.minDeposit, DepositAmountIsTooLow);
      var after :- Add(solLeg, lamports);
      :- Require(after <= cfg.liquidityCap, LiquidityIsCapped);
      :- Require(lpMint <= lpSupply, UnregisteredLPMinted);
      lpSupply := lpMint;
      var available :- Sub(solLeg, cfg.tokenRent);
      ValueIgnoresPool(View(), old(View()), msolLeg);
      var legValue :- MsolToSol(View(), msolLeg);
      var poolValue :- Add(available, legValue);
      var shares :- SharesFromValue(lamports, poolValue, lpSupply);
      solLeg := solLeg + lamports;
      lpMint := lpMint + shares;
      lpSupply :- Add(lpSupply, shares);
      return Success(());
    }

    method RemoveLiquidity(tokens: u64) returns (r: Result<()>)
      modifies this
      ensures Refines(r, View(), Spec.RemoveLiquidity(old(View()), tokens))
    {
      hide MsolToSol, Proportional;
      :- Require(!cfg.paused, ProgramIsPaused);
      :- Require(tokens <= lpMint, NotEnoughUserFunds);
      if lpMint <= lpSupply {
        lpSupply := lpMint;
      }
      var available :- Sub(solLeg, cfg.tokenRent);
      var solOut :- Proportional(tokens, available, lpSupply);
      var msolOut :- Proportional(tokens, msolLeg, lpSupply);
      ValueIgnoresPool(View(), old(View()), msolOut);
      var msolValue :- MsolToSol(View(), msolOut);
      var value :- Add(solOut, msolValue);
      :- Require(value >= cfg.minWithdraw, WithdrawAmountIsTooLow);
      r := PayShare(tokens, solOut, msolOut);
    }

    /** Both legs pay, and the shares are burned. */
    method PayShare(tokens: nat, solOut: nat, msolOut: nat) returns (r: Result<()>)
      requires tokens <= lpMint
      modifies this`solLeg, this`msolLeg, this`msolHeld, this`lpMint, this`lpSupply
      ensures Refines(r, View(), Spec.PayShare(old(View()), tokens, solOut, msolOut, old(lpSupply)))
    {
      if solOut > solLeg || msolOut > msolLeg {
        return Failure(CallFailed);
      }
      solLeg := solLeg - solOut;
      msolLeg, msolHeld := msolLeg - msolOut, msolHeld + msolOut;
      lpMint := lpMint - tokens;
      lpSupply :- Sub(lpSupply, tokens);
      assert View() == old(View()).(solLeg := solLeg, msolLeg := msolLeg, msolHeld := msolHeld, lpMint := lpMint,
                                    lpSupply := lpSupply);
      return Success(());
    }

    // -------------------------------------------------------------- update cranks

    /** The virtual reserve and supply take the real values. */
    method Synchronise()
      modifies this`reserve, this`supply, this`cfg
      ensures View() == Sync(old(View()))
    {
      reserve := SatSub(reserveLamports, cfg.tokenRent);
      if msolLeg + msolHeld > supply {
        cfg := cfg.(stakingCap := 0);
      }
      supply := msolLeg + msolHeld;
    }

    /** The common opening: synchronise, then read the record and its validator. */
    method Begin(i: nat, account: Key, j: nat) returns (r: Result<(StakeRecord, ValidatorRecord)>)
      modifies this`reserve, this`supply, this`cfg
      ensures var begun := Spec.Begin(old(View()), i, account, j);
        if begun.Success? then
          && View() == begun.value && i < |stakes| && j < |validators| && stakes[i].account == account
          && account in native
          && r == Success((stakes[i], validators[j]))
        else r.Failure? && SameError(r.error, begun.error)
    {
      if cfg.paused {
        return Failure(ProgramIsPaused);
      }
      var _ :- CheckedVirtual(View());
      var _ :- Add(reserve, cfg.tokenRent);
      Synchronise();
      :- FindStake(View(), i, account);
      :- Require(account in native, StakeNotDelegated);
      :- FindValidator(View(), j, native[account].voter);
      return Success((stakes[i], validators[j]));
    }

    /** The protocol's part of what came in, minted to the treasury. */
    method MintProtocolFees(incoming: nat) returns (r: Result<()>)
      modifies this`msolHeld, this`supply
      ensures Refines(r, View(), Model.MintProtocolFees(old(View()), incoming))
    {
      hide MsolFromLamports, FeeApply, Model.MintMsol;
      var msol :- MsolFromLamports(View(), FeeApply(cfg.rewardFee, incoming));
      r := MintMsol(msol);
    }

    method CheckUpgradeProgression() returns (r: Result<()>)
      modifies this`upgrader
      ensures Refines(r, View(), NextPhase(old(View())))
    {
      match upgrader {
        case IteratingStakes(visited, activeBalance, delinquent) =>
          if visited == |stakes| {
            if activeBalance != active {
              return Failure(UpgradingInvariantViolation);
            }
            upgrader := IteratingValidators(0, delinquent);
          }
        case _ =>
      }
      return Success(());
    }

    method UpdateActive(i: nat, account: Key, j: nat, treasury: bool) returns (r: Result<()>)
      modifies this
      ensures Refines(r, View(), Spec.UpdateActive(old(View()), i, account, j, treasury))
    {
      hide Spec.Begin, Spec.RefreshActive;
      :- Require(!cfg.paused, ProgramIsPaused);
      :- Require(!upgrader.IteratingValidators?, DelinquentUpgraderIsNotDone);
      BeginKeepsLists(View(), i, account, j);
      var begun :- Begin(i, account, j);
      :- Require(native[account].Live(), RequiredActiveStake);
      :- Require(begun.0.status != Deactivating, RequiredActiveStake);
      r := RefreshActive(i, account, j, begun.0, begun.1, treasury);
    }

    /** `record` and `listed` are worked on as local copies and written back at the end. */
    method RefreshActive(i: nat, account: Key, j: nat, record: StakeRecord, listed: ValidatorRecord, treasury: bool)
      returns (r: Result<()>)
      requires i < |stakes| && stakes[i] == record && j < |validators| && validators[j] == listed && account in native
      modifies this
      ensures Refines(r, View(), Spec.RefreshActive(old(View()), i, account, j, treasury))
    {
      hide UpgradeRecord, Spec.SweepExtra, Spec.BookActive;
      var delegation := native[account];
      var upgraded :- DelinquentUpgrade(i, j, record, listed);
      var stake, validator := upgraded.0, upgraded.1;
      var balance :- Sub(delegation.lamports, delegation.rent);
      var extra := SatSub(balance, delegation.stake);
      SweepIgnoresLists(View(), Written(View(), i, stake, j, validator), account, extra, treasury);
      var _ :- SweepExtra(account, extra, treasury);
      r := BookActive(i, j, stake, validator, delegation.stake, treasury);
    }

    /** A record nobody classified before becomes Active and is counted. */
    method DelinquentUpgrade(i: nat, j: nat, record: StakeRecord, listed: ValidatorRecord)
      returns (r: Result<(StakeRecord, ValidatorRecord)>)
      requires i < |stakes| && stakes[i] == record && j < |validators| && validators[j] == listed
      modifies this`upgrader
      ensures var upgraded := UpgradeRecord(old(View()), i, j);
        if upgraded.Success? then r.Success? && Written(View(), i, r.value.0, j, r.value.1) == upgraded.value
        else r.Failure? && SameError(r.error, upgraded.error)
    {
      var stake, validator := record, listed;
      if stake.status == StakeStatus.Unknown {
        stake := stake.(status := StakeStatus.Active);
        :- Require(upgrader.IteratingStakes?, UpgradingInvariantViolation);
        var visited :- Add32(upgrader.visited, 1);
        var total :- Add(upgrader.activeBalance, stake.delegated);
        upgrader := upgrader.(visited := visited, activeBalance := total);
        :- Require(total <= active, UpgradingInvariantViolation);
        var upgrading :- Add(validator.upgrading, stake.delegated);
        validator := validator.(upgrading := upgrading);
        :- Require(upgrading <= validator.active, UpgradingInvariantViolation);
      } else {
        assert stakes[i := stake] == stakes && validators[j := validator] == validators;
      }
      return Success((stake, validator));
    }

    /** Lamports above the delegation go to the reserve, and the protocol's part of them is minted. */
    /** What the account holds beyond its stake and rent goes to the reserve. */
    method WithdrawExtra(account: Key, extra: nat) returns (r: Result<()>)
      requires account in native && extra <= native[account].lamports
      modifies this`reserve, this`reserveLamports, this`native
      ensures if old(reserve) + extra > U64_MAX then r == Failure(Overflow)
              else
                && r.Success?
                && View() == old(View()).(
                     reserve := old(reserve) + extra, reserveLamports := old(reserveLamports) + extra,
                     native := old(native)[account :=
                                           old(native)[account].(lamports := old(native)[account].lamports - extra)])
    {
      native := native[account := native[account].(lamports := native[account].lamports - extra)];
      r := TransferToReserve(extra);
      assert View() == old(View()).(reserve := reserve, reserveLamports := reserveLamports, native := native);
    }

    method SweepExtra(account: Key, extra: nat, treasury: bool) returns (r: Result<()>)
      requires account in native && extra <= native[account].lamports
      modifies this`reserve, this`reserveLamports, this`native, this`msolHeld, this`supply
      ensures Refines(r, View(), Spec.SweepExtra(old(View()), account, extra, treasury))
    {
      hide Model.MintProtocolFees;
      if extra > 0 {
        var _ :- WithdrawExtra(account, extra);
        if treasury {
          var _ :- MintProtocolFees(extra);
        }
      }
      return Success(());
    }

    /** Rewards are taxed and booked, losses are booked. */
    method BookActive(i: nat, j: nat, stake: StakeRecord, validator: ValidatorRecord, delegated: nat, treasury: bool)
      returns (r: Result<()>)
      requires i < |stakes| && j < |validators|
      modifies this
      ensures Refines(r, View(),
                      Spec.BookActive(Written(old(View()), i, stake, j, validator), i, j, delegated, treasury))
    {
      hide Model.MintProtocolFees, Spec.BookAndPrice;
      if delegated >= stake.delegated && treasury {
        FeesIgnoreLists(View(), Written(View(), i, stake, j, validator), delegated - stake.delegated);
        var _ :- MintProtocolFees(delegated - stake.delegated);
      }
      r := BookAndPrice(i, j, stake, validator, delegated);
    }

    method BookAndPrice(i: nat, j: nat, record: StakeRecord, listed: ValidatorRecord, delegated: nat)
        returns (r: Result<()>)
      requires i < |stakes| && j < |validators|
      modifies this
      ensures Refines(r, View(), Spec.BookAndPrice(Written(old(View()), i, record, j, listed), i, j, delegated))
    {
      hide ValidatorBooked, UpgraderBooked, Spec.PriceAndAdvance;
      BookedInSteps(View(), i, j, record, listed, delegated);
      hide BookDelegation;
      var stake := record;
      var validator :- BookChange(stake.delegated, listed, delegated);
      stake := stake.(updateEpoch := clock.epoch);
      stake := stake.(delegated := delegated);
      WriteValidator(j, validator);
      r := PriceAndAdvance(i, stake);
    }

    method WriteValidator(j: nat, validator: ValidatorRecord)
      requires j < |validators|
      modifies this`validators
      ensures View() == old(View()).(validators := old(validators)[j := validator])
    {
      validators := validators[j := validator];
    }

    /** The price is set, the record written back, and perhaps the phase changed. */
    method PriceAndAdvance(i: nat, stake: StakeRecord) returns (r: Result<()>)
      requires i < |stakes|
      modifies this`price, this`stakes, this`upgrader
      ensures Refines(r, View(), Spec.PriceAndAdvance(WithRecord(old(View()), i, stake)))
    {
      hide MsolToSol, NextPhase;
      ValueIgnoresPool(View(), WithRecord(View(), i, stake), PRICE_DENOMINATOR);
      price :- MsolToSol(View(), PRICE_DENOMINATOR);
      stakes := stakes[i := stake];
      :- Require(reserve + cfg.tokenRent == reserveLamports, AssertionFailed);
      r := CheckUpgradeProgression();
    }

    /** The change of a delegation on the validator, the total and the upgrader. */
    method BookChange(before: nat, listed: ValidatorRecord, delegated: nat) returns (r: Result<ValidatorRecord>)
      modifies this`active, this`upgrader
      ensures var validator := ValidatorBooked(old(upgrader), listed, before, delegated);
        var total := if delegated >= before then Add(old(active), delegated - before)
                     else Sub(old(active), before - delegated);
        var booked := UpgraderBooked(old(upgrader), before, delegated);
        if validator.Success? && total.Success? && booked.Success? then
          r == validator && active == total.value && upgrader == booked.value
        else r.Failure? && r.error in {Overflow, Underflow}
    {
      var validator := listed;
      if delegated >= before {
        var rewards := delegated - before;
        var balance :- Add(validator.active, rewards);
        validator := validator.(active := balance);
        active :- Add(active, rewards);
        if upgrader.IteratingStakes? {
          var upgrading :- Add(validator.upgrading, rewards);
          validator := validator.(upgrading := upgrading);
          var total :- Add(upgrader.activeBalance, rewards);
          upgrader := upgrader.(activeBalance := total);
        }
      } else {
        var slashed := before - delegated;
        var balance :- Sub(validator.active, slashed);
        validator := validator.(active := balance);
        active :- Sub(active, slashed);
        if upgrader.IteratingStakes? {
          var upgrading :- Sub(validator.upgrading, slashed);
          validator := validator.(upgrading := upgrading);
          var total :- Sub(upgrader.activeBalance, slashed);
          upgrader := upgrader.(activeBalance := total);
        }
      }
      return Success(validator);
    }

    method UpdateDeactivated(i: nat, account: Key, j: nat, treasury: bool) returns (r: Result<()>)
      modifies this
      ensures Refines(r, View(), Spec.UpdateDeactivated(old(View()), i, account, j, treasury))
    {
      hide Spec.Begin, Spec.DetectDelinquent, Spec.RetireStake;
      BeginKeepsLists(View(), i, account, j);
      var begun :- Begin(i, account, j);
      :- Require(!native[account].Live(), RequiredDeactivatingStake);
      DetectedRecord(View(), i, j);
      ghost var detected := Spec.DetectDelinquent(View(), i, j);
      ghost var shown := if detected.Success? then detected.value.stakes[i] else begun.0;
      var stake :- DetectDelinquent(i, j, begun.0, begun.1);
      r := RetireStake(i, stake, treasury, shown);
    }

    /** A record still called active was deactivated by somebody else: the emergency procedure comes
        first. The record itself is about to be removed and is not written back. */
    method DetectDelinquent(i: nat, j: nat, record: StakeRecord, listed: ValidatorRecord)
        returns (r: Result<StakeRecord>)
      requires i < |stakes| && stakes[i] == record && j < |validators| && validators[j] == listed
      modifies this`active, this`delayed, this`emergency, this`validators
      ensures var detected := Spec.DetectDelinquent(old(View()), i, j);
        if detected.Success? then
          && r.Success? && i < |detected.value.stakes| && View().(stakes := detected.value.stakes) == detected.value
          && SameStake(r.value, detected.value.stakes[i])
        else r.Failure? && SameError(r.error, detected.error)
    {
      var stake, validator := record, listed;
      if stake.status == StakeStatus.Active {
        if stake.emergency {
          return Failure(StakeAccountIsEmergencyUnstaking);
        }
        stake := stake.(emergency := true);
        validator :- MoveToCooling(validator, stake.delegated, true);
        validators := validators[j := validator];
      }
      return Success(stake);
    }

    /** `shown` is the record of the specification, which the program holds only as the local `stake`. */
    method RetireStake(i: nat, stake: StakeRecord, treasury: bool, ghost shown: StakeRecord) returns (r: Result<()>)
      requires i < |stakes| && SameStake(stake, shown) && stake.account in native
      modifies this
      ensures Refines(r, View(), Spec.RetireStake(WithRecord(old(View()), i, shown), i, treasury))
    {
      hide Spec.CollectStake, ReleaseCooled, Spec.CloseRecord;
      var _ :- CollectStake(i, stake, treasury, shown);
      var _ :- Release(i, stake, shown);
      assert SwapRemove(stakes, i) == SwapRemove(stakes[i := shown], i);
      r := CloseRecord(i, stake.account);
    }

    /** The price is set, then the record and its account are gone. */
    method CloseRecord(i: nat, account: Key) returns (r: Result<()>)
      requires i < |stakes|
      modifies this`price, this`stakes, this`native, this`upgrader
      ensures Refines(r, View(), Spec.CloseRecord(old(View()).(stakes := SwapRemove(old(stakes), i)), account))
    {
      hide MsolToSol, NextPhase;
      ValueIgnoresPool(View(), View().(stakes := SwapRemove(stakes, i)), PRICE_DENOMINATOR);
      price :- MsolToSol(View(), PRICE_DENOMINATOR);
      stakes := SwapRemove(stakes, i);
      native := native - {account};
      r := CheckUpgradeProgression();
    }

    /** What came in is taxed, everything is withdrawn to the reserve, and the rent is passed on. */
    method CollectStake(i: nat, stake: StakeRecord, treasury: bool, ghost shown: StakeRecord) returns (r: Result<()>)
      requires i < |stakes| && SameStake(stake, shown) && stake.account in native
      modifies this`reserve, this`reserveLamports, this`msolHeld, this`supply
      ensures Refines(r, WithRecord(View(), i, shown),
                      Spec.CollectStake(WithRecord(old(View()), i, shown), i, treasury))
    {
      hide Model.MintProtocolFees, Spec.WithdrawAll;
      var account := native[stake.account];
      var balance :- Sub(account.lamports, account.rent);
      if balance >= stake.delegated && treasury {
        FeesIgnoreLists(View(), WithRecord(View(), i, shown), balance - stake.delegated);
        var _ :- MintProtocolFees(balance - stake.delegated);
      }
      WithdrawIgnoresLists(View(), WithRecord(View(), i, shown), stake.account);
      r := WithdrawAll(stake.account);
    }

    method WithdrawAll(account: Key) returns (r: Result<()>)
      requires account in native && native[account].rent <= native[account].lamports
      modifies this`reserve, this`reserveLamports
      ensures Refines(r, View(), Spec.WithdrawAll(old(View()), account))
    {
      var stake := native[account];
      :- Require(clock.epoch > stake.deactivationEpoch, CallFailed);
      var _ :- TransferToReserve(stake.lamports);
      // the rent is passed on; it is part of what just came in
      r := TransferFromReserve(stake.rent);
    }

    /** While stakes are visited, what the bucket does not hold was counted as active. */
    method ReleaseDelinquent(amount: nat, fromEmergency: bool) returns (r: Result<()>)
      requires upgrader.IteratingStakes?
      modifies this`active, this`delayed, this`emergency, this`upgrader
      ensures var bucket := if fromEmergency then old(emergency) else old(delayed);
        var missing := SatSub(amount, bucket);
        && (r.Success? <==> old(upgrader).delinquentBalance + missing <= U64_MAX && missing <= old(active))
        && (r.Failure? ==> r.error in {Overflow, Underflow})
        && (r.Success? ==>
              && active == old(active) - missing
              && delayed == (if fromEmergency then old(delayed) else SatSub(old(delayed), amount))
              && emergency == (if fromEmergency then SatSub(old(emergency), amount) else old(emergency))
              && upgrader == old(upgrader).(delinquentBalance := old(upgrader).delinquentBalance + missing))
    {
      var missing: nat;
      if !fromEmergency {
        var available := Min(delayed, amount);
        delayed := delayed - available;
        missing := amount - available;
      } else {
        var available := Min(emergency, amount);
        emergency := emergency - available;
        missing := amount - available;
      }
      var total :- Add(upgrader.delinquentBalance, missing);
      upgrader := upgrader.(delinquentBalance := total);
      active :- Sub(active, missing);
      return Success(());
    }

    /** The buckets follow; the record stays in the list until the price is set. */
    method Release(i: nat, stake: StakeRecord, ghost shown: StakeRecord) returns (r: Result<()>)
      requires i < |stakes| && SameStake(stake, shown)
      modifies this`active, this`delayed, this`emergency, this`upgrader
      ensures Refines(r, View().(stakes := SwapRemove(stakes[i := shown], i)),
                      ReleaseCooled(WithRecord(old(View()), i, shown), i))
    {
      hide SwapRemove;
      if stake.delegated != 0 {
        if upgrader.IteratingStakes? {
          var _ :- ReleaseDelinquent(stake.delegated, stake.emergency);
        } else if !stake.emergency {
          delayed :- Sub(delayed, stake.delegated);
        } else {
          emergency :- Sub(emergency, stake.delegated);
        }
      }
      assert View() == old(View()).(active := active, delayed := delayed, emergency := emergency, upgrader := upgrader);
      return Success(());
    }

    // -------------------------------------------------------------- housekeeping cranks

    method MergeStakes(c: nat, canonical: Key, i: nat, account: Key, j: nat, extra: nat) returns (r: Result<()>)
      modifies this
      ensures Refines(r, View(), Spec.MergeStakes(old(View()), c, canonical, i, account, j, extra))
    {
      hide Spec.JoinStakes;
      if cfg.paused {
        return Failure(ProgramIsPaused);
      }
      :- Require(upgrader.Done?, DelinquentUpgraderIsNotDone);
      :- Require(j < |validators|, ListIndexOutOfBounds);
      var validator := validators[j];
      :- FindStake(View(), c, canonical);
      var target := stakes[c];
      :- Require(canonical in native, StakeNotDelegated);
      :- Require(target.status == StakeStatus.Active
                 && native[canonical].Live(), DestinationStakeMustNotBeDeactivating);
      :- Require(target.delegated == native[canonical].stake, DestinationStakeMustBeUpdated);
      :- Require(native[canonical].voter == validator.vote, InvalidDestinationStakeDelegation);
      :- FindStake(View(), i, account);
      var source := stakes[i];
      :- Require(account in native, StakeNotDelegated);
      var sourceAccount := native[account];
      :- Require(source.status == StakeStatus.Active && sourceAccount.Live(), SourceStakeMustNotBeDeactivating);
      :- Require(source.delegated == sourceAccount.stake, SourceStakeMustBeUpdated);
      :- Require(sourceAccount.lamports == sourceAccount.stake + sourceAccount.rent, SourceStakeMustBeUpdated);
      :- Require(sourceAccount.voter == validator.vote, InvalidSourceStakeDelegation);
      :- Require(canonical != account && extra <= sourceAccount.rent, CallFailed);
      r := JoinStakes(c, canonical, i, account, j, extra);
    }

    /** The stake program's merge, and its booking; the rent of the source is withdrawn afterwards. */
    method JoinStakes(c: nat, canonical: Key, i: nat, account: Key, j: nat, extra: nat) returns (r: Result<()>)
      requires c < |stakes| && i < |stakes| && c != i && j < |validators| && canonical in native && account in native
      requires stakes[c].account == canonical && stakes[i].account == account
          && extra <= native[account].rent <= native[account].lamports
      requires stakes[c].delegated == native[canonical].stake && stakes[i].delegated == native[account].stake
      modifies this`validators, this`active, this`stakes, this`native
      ensures Refines(r, View(), Spec.JoinStakes(old(View()), c, i, j, extra))
    {
      hide Ledger.MergeRecords;
      var source, joined := native[account], native[canonical];
      joined := joined.(stake := joined.stake + source.stake + extra, lamports := joined.lamports + source.lamports);
      var returned := source.rent - extra;
      MergeKeepsAccounts(View(), c, i, j, extra);
      var _ :- MergeRecords(c, i, j, extra, joined.stake);
      native := native[canonical := joined.(lamports := joined.lamports - returned)] - {account};
      return Success(());
    }

    /** `merged` is the stake of the canonical account after the merge. */
    method MergeRecords(c: nat, i: nat, j: nat, extra: nat, merged: nat) returns (r: Result<()>)
      requires c < |stakes| && i < |stakes| && c != i && j < |validators|
      requires merged == stakes[c].delegated + stakes[i].delegated + extra
      modifies this`validators, this`active, this`stakes
      ensures Refines(r, View(), Ledger.MergeRecords(old(View()), c, i, j, extra))
    {
      hide SwapRemove;
      var validator := validators[j];
      var balance :- Add(validator.active, extra);
      validators := validators[j := validator.(active := balance)];
      active :- Add(active, extra);
      stakes := stakes[c := stakes[c].(delegated := merged)];
      stakes := SwapRemove(stakes, i);
      assert View() == old(View()).(validators := validators, active := active, stakes := stakes);
      return Success(());
    }

    /** The new record is pushed before the old one is swap-removed. */
    method CreateCanonicalStake(i: nat, account: Key, j: nat, newKey: Key) returns (r: Result<()>)
      modifies this
      ensures Refines(r, View(), Spec.CreateCanonicalStake(old(View()), i, account, j, newKey))
      ensures r.Success? ==>
                stakes == old(stakes)[i := StakeRecord(newKey, old(stakes)[i].delegated, clock.epoch, false,
                                                       StakeStatus.Active)]
    {
      if cfg.paused {
        return Failure(ProgramIsPaused);
      }
      :- Require(upgrader.Done?, DelinquentUpgraderIsNotDone);
      :- Require(j < |validators|, ListIndexOutOfBounds);
      :- Require(newKey !in native, AccountAlreadyInUse);
      :- FindStake(View(), i, account);
      var record := stakes[i];
      :- Require(account in native, StakeNotDelegated);
      var source := native[account];
      :- Require(source.Live(), SourceStakeMustNotBeDeactivating);
      :- Require(record.delegated == source.stake, SourceStakeMustBeUpdated);
      :- Require(source.lamports == source.stake + source.rent, SourceStakeMustBeUpdated);
      :- Require(source.voter == validators[j].vote, InvalidSourceStakeDelegation);
      :- Require(|stakes| < cfg.stakeCapacity, ListOverflow);
      native := native[newKey := source] - {account};
      ghost var before := stakes;
      var canonical := StakeRecord(newKey, source.stake, clock.epoch, false, StakeStatus.Active);
      stakes := stakes + [canonical];
      stakes := SwapRemove(stakes, i);
      PushThenRemoveReplaces(before, i, canonical);
      assert View() == old(View()).(stakes := stakes, native := native);
      return Success(());
    }

    // -------------------------------------------------------------- validators

    method AddValidator(vote: Key, score: u32) returns (r: Result<()>)
      modifies this
      ensures Refines(r, View(), Spec.AddValidator(old(View()), vote, score))
    {
      if vote in flags {
        return Failure(AccountAlreadyInUse);
      }
      :- Require(!cfg.paused, ProgramIsPaused);
      :- Require(upgrader.Done?, DelinquentUpgraderIsNotDone);
      :- Require(|validators| < cfg.validatorCapacity, ListOverflow);
      validators := validators + [ValidatorRecord(vote, 0, score, NEVER, 0)];
      totalScore :- Add32(totalScore, score);
      flags := flags + {vote};
      return Success(());
    }

    method RemoveValidator(j: nat, vote: Key) returns (r: Result<()>)
      modifies this
      ensures Refines(r, View(), Spec.RemoveValidator(old(View()), j, vote))
    {
      if cfg.paused {
        return Failure(ProgramIsPaused);
      }
      :- Require(upgrader.Done?, DelinquentUpgraderIsNotDone);
      :- FindValidator(View(), j, vote);
      var validator := validators[j];
      :- Require(validator.active == 0, RemovingValidatorWithBalance);
      totalScore :- Sub(totalScore, validator.score);
      validators := SwapRemove(validators, j);
      flags := flags - {vote};
      assert View() == old(View()).(totalScore := totalScore, validators := validators, flags := flags);
      return Success(());
    }

    method SetValidatorScore(j: nat, vote: Key, score: u32) returns (r: Result<()>)
      modifies this
      ensures Refines(r, View(), Spec.SetValidatorScore(old(View()), j, vote, score))
    {
      if cfg.paused {
        return Failure(ProgramIsPaused);
      }
      :- FindValidator(View(), j, vote);
      var validator := validators[j];
      totalScore :- Sub(totalScore, validator.score);
      validator := validator.(score := score);
      totalScore :- Add32(totalScore, score);
      validators := validators[j := validator];
      return Success(());
    }

    // -------------------------------------------------------------- calls to the stake program

    method StopStake(account: Key) returns (r: Result<()>)
      modifies this`native
      ensures Refines(r, View(), DeactivateNative(old(View()), account))
    {
      if account !in native || !native[account].Live() {
        return Failure(CallFailed);
      }
      native := native[account := native[account].(deactivationEpoch := clock.epoch)];
      return Success(());
    }

    method SplitStake(from: Key, to: Key, amount: nat) returns (r: Result<()>)
      modifies this`native
      ensures Refines(r, View(), SplitNative(old(View()), from, to, amount))
    {
      if from !in native || to in native || native[from].stake < amount
         || native[from].lamports < amount + native[from].rent {
        return Failure(CallFailed);
      }
      var source := native[from];
      native := native[from := source.(stake := source.stake - amount, lamports := source.lamports - amount)];
      native := native[to := source.(stake := amount, lamports := amount + stakeRent, rent := stakeRent)];
      return Success(());
    }

    // -------------------------------------------------------------- stake-delta cranks

    /** The reserve pays, and the new account is delegated and recorded. */
    method FundStake(j: nat, newKey: Key, amount: nat) returns (r: Result<()>)
      requires j < |validators| && upgrader.Done?
      modifies this
      ensures Refines(r, View(), Spec.StakeInto(old(View()), j, amount, newKey))
    {
      hide Spec.StakeInto;
      StakeIntoInSteps(View(), j, amount, newKey);
      hide Recorded;
      var _ :- PayNewStake(j, newKey, amount);
      r := RecordStake(j, newKey, amount);
    }

    /** The account of the new stake, paid for and delegated. */
    method PayNewStake(j: nat, newKey: Key, amount: nat) returns (r: Result<()>)
      requires j < |validators|
      modifies this`reserve, this`reserveLamports, this`native
      ensures if amount > old(reserveLamports) then r == Failure(CallFailed)
              else if amount > old(reserve) then r == Failure(Underflow)
              else
                r == Success(()) && View() == Paid(old(View()), j, amount, newKey)
    {
      if amount > reserveLamports {
        return Failure(CallFailed);
      }
      var _ :- TransferFromReserve(amount);
      var vote := validators[j].vote;
      native := native[newKey := StakeAccount(vote, amount, clock.epoch, NEVER, amount + stakeRent, stakeRent, true)];
      assert View() == old(View()).(reserve := reserve, reserveLamports := reserveLamports, native := native);
      return Success(());
    }

    /** The record is listed, the validator and the total follow, and the epoch is marked. */
    method RecordStake(j: nat, newKey: Key, amount: nat) returns (r: Result<()>)
      requires j < |validators|
      modifies this`stakes, this`validators, this`deltaEpoch, this`active
      ensures var v := old(validators)[j];
        if |old(stakes)| >= cfg.stakeCapacity then r == Failure(ListOverflow)
        else if v.active + amount > U64_MAX || old(active) + amount > U64_MAX then r == Failure(Overflow)
        else r == Success(()) && View() == Recorded(old(View()), j, amount, newKey)
    {
      var record := StakeRecord(newKey, amount, clock.epoch, false, StakeStatus.Active);
      :- Require(|stakes| < cfg.stakeCapacity, ListOverflow);
      stakes := stakes + [record];
      var balance :- Add(validators[j].active, amount);
      var validator := validators[j].(active := balance, deltaEpoch := clock.epoch);
      deltaEpoch := clock.epoch;
      validators := validators[j := validator];
      active :- Add(active, amount);
      assert View()
          == old(View()).(active := active, deltaEpoch := deltaEpoch, stakes := stakes, validators := validators);
      return Success(());
    }

    method StakeReserve(j: nat, vote: Key, newKey: Key) returns (r: Result<()>)
      modifies this
      ensures Refines(r, View(), Spec.StakeReserve(old(View()), j, vote, newKey))
    {
      hide StakeDelta, ValidatorTarget, Spec.StakeInto, InDeltaWindow, Spec.StakeAmount;
      :- Require(newKey !in native, AccountAlreadyInUse);
      :- Require(!cfg.paused, ProgramIsPaused);
      :- Require(upgrader.Done?, DelinquentUpgraderIsNotDone);
      var delta := StakeDelta(View());
      :- Require(delta <= U64_MAX && -delta <= U64_MAX, Overflow);
      if delta <= 0 {
        return Success(());
      }
      var totalTarget := Min(active + delta, U64_MAX);
      :- FindValidator(View(), j, vote);
      var validator := validators[j];
      if validator.deltaEpoch == clock.epoch {
        if extraRuns == 0 {
          return Success(());
        }
        extraRuns := extraRuns - 1;
      }
      WindowIgnoresRuns(old(View()), View());
      :- Require(InDeltaWindow(View()), TooEarlyForStakeDelta);
      TargetIgnoresRuns(View(), old(View()), validator, totalTarget);
      var target :- ValidatorTarget(View(), validator, totalTarget);
      r := StakeToward(j, newKey, delta, target);
    }

    /** Up to the target, or the whole remainder; too little is left for another day. */
    method StakeToward(j: nat, newKey: Key, delta: nat, target: nat) returns (r: Result<()>)
      requires j < |validators| && upgrader.Done? && delta > 0
      modifies this
      ensures var amount := Spec.StakeAmount(delta, old(validators)[j].active, target, old(cfg).minStake);
        Refines(r, View(), if amount == 0 then Success(old(View())) else Spec.StakeInto(old(View()), j, amount, newKey))
    {
      hide Spec.StakeInto;
      var validator := validators[j];
      if validator.active >= target {
        return Success(());
      }
      var stakeTarget := Min(target - validator.active, delta);
      if delta - stakeTarget < cfg.minStake {
        stakeTarget := delta;
      }
      if stakeTarget < cfg.minStake {
        return Success(());
      }
      r := FundStake(j, newKey, stakeTarget);
    }

    method DeactivateStake(i: nat, account: Key, j: nat, newKey: Key) returns (r: Result<()>)
      modifies this
      ensures Refines(r, View(), Spec.DeactivateStake(old(View()), i, account, j, newKey))
    {
      hide StakeDelta, ValidatorTarget, Spec.CoolWhole, Spec.CoolPart;
      :- Require(newKey !in native, AccountAlreadyInUse);
      :- Require(!cfg.paused, ProgramIsPaused);
      :- FindStake(View(), i, account);
      var stake := stakes[i];
      :- Require(upgrader.Done?, DelinquentUpgraderIsNotDone);
      :- Require(stake.status == StakeStatus.Active, RequiredActiveStake);
      :- Require(!stake.emergency, StakeAccountIsEmergencyUnstaking);
      :- Require(j < |validators|, ListIndexOutOfBounds);
      var validator := validators[j];
      :- Require(InDeltaWindow(View()), TooEarlyForStakeDelta);
      var delta := StakeDelta(View());
      :- Require(delta < 0, UnstakingOnPositiveDelta);
      var deficit: nat := -delta;
      :- Require(deficit <= U64_MAX, Overflow);
      :- CheckStakeAmountAndValidator(View(), account, stake.delegated, validator.vote);
      var target :- ValidatorTarget(View(), validator, SatSub(active, deficit));
      if validator.active <= target {
        return Success(());
      }
      var fromValidator: nat := validator.active - target;
      var accountTarget := SatSub(stake.delegated, Min(fromValidator, deficit));
      var twice :- Add(cfg.minStake, cfg.minStake);
      if accountTarget < twice {
        // any stake-delta activity marks the epoch
        deltaEpoch := clock.epoch;
        var _ :- UnstakeWhole(i, account, j, stake, validator);
      } else {
        if validator.deltaEpoch == clock.epoch {
          return Success(());
        }
        var split: nat := stake.delegated - accountTarget;
        :- Require(accountTarget < stake.delegated && split <= deficit, AssertionFailed);
        var _ :- UnstakePart(i, account, j, stake, validator, split, newKey);
      }
      return Success(());
    }

    /** The whole stake account is deactivated. */
    method UnstakeWhole(i: nat, account: Key, j: nat, stake: StakeRecord, validator: ValidatorRecord)
        returns (r: Result<()>)
      requires i < |stakes| && stakes[i] == stake && stake.account == account
      requires j < |validators| && validators[j] == validator
      modifies this
      ensures Refines(r, View(), Spec.CoolWhole(old(View()), i, j, false))
    {
      hide DeactivateNative, StartCooling;
      var _ :- StopStake(account);
      r := BookWhole(i, j, stake, validator, false);
    }

    /** A part is split off into a new account, which is deactivated and recorded. */
    method UnstakePart(i: nat, account: Key, j: nat, stake: StakeRecord, listed: ValidatorRecord, split: nat,
                       newKey: Key)
      returns (r: Result<()>)
      requires i < |stakes| && stakes[i] == stake && stake.account == account
      requires j < |validators| && validators[j] == listed
      modifies this
      ensures var cooled := Spec.CoolPart(old(View()), i, j, split, newKey, false);
        && (cooled.Success? ==> j < |cooled.value.validators|)
        && Refines(r, View(), if cooled.Success? then Success(Spec.Touch(cooled.value, j)) else cooled)
    {
      hide SplitNative, DeactivateNative, SplitCooling;
      var validator := listed.(deltaEpoch := clock.epoch);
      :- Require(|stakes| < cfg.stakeCapacity, ListOverflow);
      var _ :- SplitStake(account, newKey, split);
      var _ :- StopStake(newKey);
      var _ :- BookSplit(i, j, stake, validator, split, newKey, false);
      deltaEpoch := clock.epoch;
      return Success(());
    }

    // -------------------------------------------------------------- bookkeeping of cooling stake

    /** The balances and the bucket follow the unstaked amount. */
    method MoveToCooling(validator: ValidatorRecord, unstaked: nat, toEmergency: bool)
        returns (r: Result<ValidatorRecord>)
      modifies this`active, this`delayed, this`emergency
      ensures var expected := Moved(old(View()), validator, unstaked, toEmergency);
        if expected.Success? then
          && r == Success(validator.(active := validator.active - unstaked)) && unstaked <= validator.active
          && View() == expected.value
        else r.Failure? && SameError(r.error, expected.error)
    {
      var balance :- Sub(validator.active, unstaked);
      active :- Sub(active, unstaked);
      if toEmergency {
        emergency :- Add(emergency, unstaked);
      } else {
        delayed :- Add(delayed, unstaked);
      }
      return Success(validator.(active := balance));
    }

    method PushRecord(record: StakeRecord)
      modifies this`stakes
      ensures View() == old(View()).(stakes := old(stakes) + [record])
    {
      stakes := stakes + [record];
    }

    method WriteRecords(i: nat, stake: StakeRecord, j: nat, validator: ValidatorRecord)
      requires i < |stakes| && j < |validators|
      modifies this`stakes, this`validators
      ensures View() == Written(old(View()), i, stake, j, validator)
    {
      stakes := stakes[i := stake];
      validators := validators[j := validator];
    }

    method BookWhole(i: nat, j: nat, record: StakeRecord, listed: ValidatorRecord, toEmergency: bool)
        returns (r: Result<()>)
      requires i < |stakes| && stakes[i] == record && j < |validators| && validators[j] == listed
      modifies this
      ensures Refines(r, View(), StartCooling(old(View()), i, j, toEmergency))
    {
      var stake := record.(emergency := toEmergency);
      stake := stake.(status := Deactivating);
      var validator :- MoveToCooling(listed, stake.delegated, toEmergency);
      WriteRecords(i, stake, j, validator);
      return Success(());
    }

    /** `listed` is the listed validator, up to the epoch of its last stake-delta. */
    method BookSplit(i: nat, j: nat, record: StakeRecord, listed: ValidatorRecord, split: nat, newKey: Key,
                     toEmergency: bool)
      returns (r: Result<()>)
      requires i < |stakes| && stakes[i] == record
      requires j < |validators| && listed == validators[j].(deltaEpoch := listed.deltaEpoch)
      modifies this
      ensures var cooled := SplitCooling(old(View()), i, j, split, newKey, toEmergency);
        && (cooled.Success? ==>
              && j < |cooled.value.validators| && cooled.value.clock == old(clock)
              && cooled.value.validators[j].deltaEpoch == old(validators)[j].deltaEpoch)
        && Refines(r, View(), if cooled.Success? then Success(WithEpoch(cooled.value, j, listed.deltaEpoch))
                              else cooled)
    {
      if |stakes| >= cfg.stakeCapacity {
        return Failure(ListOverflow);
      }
      SplitInSteps(View(), i, j, split, newKey, toEmergency, listed);
      hide SplitCooling, Moved, WithEpoch;
      var left :- Sub(record.delegated, split);
      var stake := record.(delegated := left);
      var validator :- MoveToCooling(listed, split, toEmergency);
      WriteRecords(i, stake, j, validator);
      PushRecord(StakeRecord(newKey, split, clock.epoch, toEmergency, Deactivating));
      return Success(());
    }

    // -------------------------------------------------------------- validator manager

    method OnStakeMoved(amount: nat) returns (r: Result<()>)
      modifies this`moveEpoch, this`moved
      ensures Refines(r, View(), Model.OnStakeMoved(old(View()), amount))
    {
      if clock.epoch != moveEpoch {
        moveEpoch := clock.epoch;
        moved := 0;
      }
      moved :- Add(moved, amount);
      var total :- CheckedTotal(View());
      :- Require(moved <= FeeApply(cfg.maxStakeMoved, total), MovingStakeIsCapped);
      return Success(());
    }

    method PartialUnstake(i: nat, account: Key, j: nat, desired: u64, newKey: Key) returns (r: Result<()>)
      modifies this
      ensures Refines(r, View(), Spec.PartialUnstake(old(View()), i, account, j, desired, newKey))
    {
      hide StakeDelta, ValidatorTarget, DeactivateNative, Model.OnStakeMoved, StartCooling, Spec.MovePart;
      :- Require(newKey !in native, AccountAlreadyInUse);
      :- Require(!cfg.paused, ProgramIsPaused);
      :- Require(upgrader.Done?, DelinquentUpgraderIsNotDone);
      :- Require(desired >= cfg.minStake, DesiredUnstakeAmountTooLow);
      :- Require(j < |validators|, ListIndexOutOfBounds);
      var validator := validators[j];
      :- FindStake(View(), i, account);
      var stake := stakes[i];
      :- Require(stake.status == StakeStatus.Active, RequiredActiveStake);
      :- Require(!stake.emergency, StakeAccountIsEmergencyUnstaking);
      :- CheckStakeAmountAndValidator(View(), account, stake.delegated, validator.vote);
      var totalTarget := active + StakeDelta(View());
      :- Require(0 <= totalTarget <= U64_MAX, Overflow);
      var target :- ValidatorTarget(View(), validator, totalTarget);
      var enough :- Add(target, cfg.minStake);
      if validator.active <= enough {
        return Success(());
      }
      var amount := Min(desired, validator.active - target);
      if SatSub(stake.delegated, amount) < cfg.minStake {
        var _ :- StopStake(account);
        var _ :- OnStakeMoved(stake.delegated);
        r := BookWhole(i, j, stake, validator, true);
      } else {
        r := MovePart(i, account, j, stake, validator, amount, newKey);
      }
    }

    method MovePart(i: nat, account: Key, j: nat, stake: StakeRecord, validator: ValidatorRecord, amount: nat,
                    newKey: Key)
        returns (r: Result<()>)
      requires i < |stakes| && stakes[i] == stake && j < |validators| && validators[j] == validator
      modifies this
      ensures Refines(r, View(), Spec.MovePart(old(View()), i, account, j, amount, newKey))
    {
      hide SplitNative, DeactivateNative, Model.OnStakeMoved, SplitCooling;
      if |stakes| >= cfg.stakeCapacity {
        return Failure(ListOverflow);
      }
      var _ :- SplitStake(account, newKey, amount);
      var _ :- StopStake(newKey);
      var _ :- OnStakeMoved(amount);
      ghost var cooled := SplitCooling(View(), i, j, amount, newKey, true);
      r := BookSplit(i, j, stake, validator, amount, newKey, true);
      if cooled.Success? {
        SameEpoch(cooled.value, j);
      }
    }

    method EmergencyUnstake(i: nat, account: Key, j: nat) returns (r: Result<()>)
      modifies this
      ensures Refines(r, View(), Spec.EmergencyUnstake(old(View()), i, account, j))
    {
      hide DeactivateNative, Model.OnStakeMoved, StartCooling;
      :- Require(!cfg.paused, ProgramIsPaused);
      :- Require(upgrader.Done?, DelinquentUpgraderIsNotDone);
      :- FindStake(View(), i, account);
      var stake := stakes[i];
      :- Require(stake.status == StakeStatus.Active, RequiredActiveStake);
      :- Require(!stake.emergency, StakeAccountIsEmergencyUnstaking);
      :- Require(j < |validators|, ListIndexOutOfBounds);
      var validator := validators[j];
      :- Require(validator.score == 0, EmergencyUnstakingFromNonZeroScoredValidator);
      :- CheckStakeAmountAndValidator(View(), account, stake.delegated, validator.vote);
      var _ :- OnStakeMoved(stake.delegated);
      var _ :- StopStake(account);
      r := BookWhole(i, j, stake, validator, true);
    }

    // -------------------------------------------------------------- the first state

    /** After all checks the whole state is set at once; the accounts around it are only looked at. */
    method Initialize(rewardFee: u32, minStake: u64, slotsForDelta: u64, lpTarget: u64, lpMaxFee: u32, lpMinFee: u32,
                      treasuryCut: u32) returns (r: Result<()>)
      modifies this
      ensures Refines(r, View(), Machine.Initialize(old(View()), rewardFee, minStake, slotsForDelta, lpTarget, lpMaxFee,
                                                    lpMinFee, treasuryCut))
    {
      if rewardFee > Machine.MAX_REWARD_FEE {
        return Failure(RewardsFeeIsTooHigh);
      }
      :- Require(slotsForDelta >= Machine.MIN_UPDATE_WINDOW, UpdateWindowIsTooLow);
      :- Require(minStake >= Machine.MIN_STAKE_LOWER_LIMIT, MinStakeIsTooLow);
      :- Require(reserveLamports == cfg.tokenRent, WrongInitialBalance);
      :- Require(msolLeg + msolHeld == 0, MintIsNotEmpty);
      :- Require(lpMint == 0, MintIsNotEmpty);
      :- Require(solLeg == cfg.tokenRent, WrongInitialBalance);
      :- Machine.CheckPoolSettings(lpTarget, lpMaxFee, lpMinFee, treasuryCut);
      var first := cfg.(
        paused := false, minDeposit := 1, minWithdraw := 1, stakingCap := U64_MAX, minStake := minStake,
        slotsForDelta := slotsForDelta, rewardFee := rewardFee, depositFee := 0, depositStakeFee := 0,
            delayedUnstakeFee := 0,
        withdrawStakeFee := 0, withdrawStakeEnabled := false, maxStakeMoved := MAX_BASIS_POINTS, lpTarget := lpTarget,
        lpMaxFee := lpMaxFee, lpMinFee := lpMinFee, treasuryCut := treasuryCut, liquidityCap := U64_MAX);
      SetInner(System(
        first, clock, 0, 0, 0, 0, 0, PRICE_DENOMINATOR, 0, 0, 0, NEVER, 0, 0, 0, Done, [], [], 0,
        reserveLamports, stakeRent, solLeg, msolLeg, msolHeld, lpMint, native, [], {}));
      return Success(());
    }

    method SetInner(s: System)
      modifies this
      ensures View() == s
    {
      SetBalances(s);
      SetProgress(s);
      SetAccounts(s);
    }

    method SetBalances(s: System)
      modifies this`cfg, this`clock, this`active, this`delayed, this`emergency, this`reserve, this`supply, this`price,
        this`ticketCount, this`ticketBalance
      ensures cfg == s.cfg && clock == s.clock && active == s.active && delayed == s.delayed && emergency == s.emergency
      ensures reserve == s.reserve && supply == s.supply && price == s.price
      ensures ticketCount == s.ticketCount && ticketBalance == s.ticketBalance
    {
      cfg, clock, active, delayed, emergency := s.cfg, s.clock, s.active, s.delayed, s.emergency;
      reserve, supply, price, ticketCount, ticketBalance := s.reserve, s.supply, s.price, s.ticketCount,
          s.ticketBalance;
    }

    method SetProgress(s: System)
      modifies this`totalScore, this`deltaEpoch, this`extraRuns, this`moveEpoch, this`moved, this`upgrader, this`stakes,
        this`validators, this`lpSupply
      ensures totalScore == s.totalScore && deltaEpoch == s.deltaEpoch && extraRuns == s.extraRuns
      ensures moveEpoch == s.moveEpoch && moved == s.moved && upgrader == s.upgrader
      ensures stakes == s.stakes && validators == s.validators && lpSupply == s.lpSupply
    {
      totalScore, deltaEpoch, extraRuns, moveEpoch, moved := s.totalScore, s.deltaEpoch, s.extraRuns, s.moveEpoch,
          s.moved;
      upgrader, stakes, validators, lpSupply := s.upgrader, s.stakes, s.validators, s.lpSupply;
    }

    method SetAccounts(s: System)
      modifies this`reserveLamports, this`stakeRent, this`solLeg, this`msolLeg, this`msolHeld, this`lpMint, this`native,
        this`tickets, this`flags
      ensures reserveLamports == s.reserveLamports && stakeRent == s.stakeRent && solLeg == s.solLeg
      ensures msolLeg == s.msolLeg && msolHeld == s.msolHeld && lpMint == s.lpMint
      ensures native == s.native && tickets == s.tickets && flags == s.flags
    {
      reserveLamports, stakeRent, solLeg, msolLeg := s.reserveLamports, s.stakeRent, s.solLeg, s.msolLeg;
      msolHeld, lpMint, native, tickets, flags := s.msolHeld, s.lpMint, s.native, s.tickets, s.flags;
    }

    // -------------------------------------------------------------- the runtime

    /** The instruction of a step. */
    method Process(step: Machine.Step) returns (r: Result<()>)
      requires !step.Configure? && !step.SetExtraRuns? && !step.Around?
      requires cfg.minStake > 0
      modifies this
      ensures Refines(r, View(), Machine.Apply(old(View()), step))
    {
      hide Spec.Deposit, Spec.DepositStakeAccount, Spec.WithdrawStakeAccount, Spec.OrderUnstake, Spec.Claim,
           Spec.LiquidUnstake, Spec.AddLiquidity, Spec.RemoveLiquidity, Spec.UpdateActive, Spec.UpdateDeactivated,
           Spec.FinalizeUpgrade, Spec.StakeReserve, Spec.DeactivateStake, Spec.PartialUnstake, Spec.EmergencyUnstake,
           Spec.AddValidator, Spec.RemoveValidator, Spec.SetValidatorScore, Spec.MergeStakes, Spec.CreateCanonicalStake,
           SameError;
      hide View;
      match step {
        case DoDeposit(lamports) => r := Deposit(lamports);
        case DoDepositStake(account, j) => r := DepositStakeAccount(account, j);
        case DoWithdrawStake(i, account, j, msol, newKey, treasury) =>
          r := WithdrawStakeAccount(i, account, j, msol, newKey, treasury);
        case DoOrderUnstake(msol, newKey) => r := OrderUnstake(msol, newKey);
        case DoClaim(k) => r := Claim(k);
        case DoLiquidUnstake(msol, treasury) => r := LiquidUnstake(msol, treasury);
        case DoAddLiquidity(lamports) => r := AddLiquidity(lamports);
        case DoRemoveLiquidity(tokens) => r := RemoveLiquidity(tokens);
        case DoUpdateActive(i, account, j, treasury) => r := UpdateActive(i, account, j, treasury);
        case DoUpdateDeactivated(i, account, j, treasury) => r := UpdateDeactivated(i, account, j, treasury);
        case DoFinalizeUpgrade(maxValidators) => r := FinalizeUpgrade(maxValidators);
        case DoStakeReserve(j, vote, newKey) => r := StakeReserve(j, vote, newKey);
        case DoDeactivateStake(i, account, j, newKey) => r := DeactivateStake(i, account, j, newKey);
        case DoPartialUnstake(i, account, j, desired, newKey) => r := PartialUnstake(i, account, j, desired, newKey);
        case DoEmergencyUnstake(i, account, j) => r := EmergencyUnstake(i, account, j);
        case DoAddValidator(vote, score) => r := AddValidator(vote, score);
        case DoRemoveValidator(j, vote) => r := RemoveValidator(j, vote);
        case DoSetScore(j, vote, score) => r := SetValidatorScore(j, vote, score);
        case DoMergeStakes(c, canonical, i, account, j, extra) => r := MergeStakes(c, canonical, i, account, j, extra);
        case DoCreateCanonical(i, account, j, newKey) => r := CreateCanonicalStake(i, account, j, newKey);
      }
    }

    /** One transaction: the instruction runs, and if it fails its writes are discarded. Whatever is
        proved of the machine's runs is thereby proved of the program; the ledger invariant first of all. */
    method Execute(step: Machine.Step) returns (r: Result<()>)
      requires !step.Configure? && !step.SetExtraRuns? && !step.Around?
      requires cfg.minStake > 0
      modifies this
      ensures View() == Machine.Next(old(View()), step)
      ensures var expected := Machine.Apply(old(View()), step);
        if expected.Success? then r.Success? else r.Failure? && SameError(r.error, expected.error)
      ensures Invariant.Inv(old(View())) && !Safety.StepDisturbs(old(View()), step) ==> Invariant.Inv(View())
    {
      hide Machine.Apply, Invariant.Inv, Safety.StepDisturbs;
      var before := View();
      KeepsInvariant(before, step);
      r := Process(step);
      if r.Failure? {
        SetInner(before);
      }
    }

    // -------------------------------------------------------------- finalizing the upgrade

    /** The loop over the validators, up to `maxValidators` of them. */
    method FinalizeUpgrade(maxValidators: u32) returns (r: Result<()>)
      modifies this
      ensures Refines(r, View(), Spec.FinalizeUpgrade(old(View()), maxValidators))
    {
      if cfg.paused {
        return Failure(ProgramIsPaused);
      }
      :- Require(upgrader.IteratingValidators?, UpgradingInvariantViolation);
      var visited: nat, left: nat, budget: nat := upgrader.visited, upgrader.balanceLeft, maxValidators;
      ghost var before := old(View());
      while visited < |validators| && budget > 0
        invariant View() == before.(validators := validators)
        invariant FinalizeFrom(before.validators, before.upgrader.visited, before.upgrader.balanceLeft, maxValidators)
               == FinalizeFrom(validators, visited, left, budget)
        decreases budget
      {
        var validator := validators[visited];
        var gap :- Sub(validator.active, validator.upgrading);
        left :- Sub(left, gap);
        validator := validator.(active := validator.upgrading);
        validator := validator.(upgrading := 0);
        validators := validators[visited := validator];
        visited := visited + 1;
        budget := budget - 1;
      }
      if visited == |validators| {
        if left != 0 {
          return Failure(UpgradingInvariantViolation);
        }
        upgrader := Done;
      } else {
        upgrader := IteratingValidators(visited, left);
      }
      return Success(());
    }
  }

  lemma ValueIgnoresPool(s: System, t: System, msol: nat)
    requires TotalLamports(s) == TotalLamports(t) && s.ticketBalance == t.ticketBalance && s.supply == t.supply
    ensures MsolToSol(s, msol) == MsolToSol(t, msol)
  {
  }

  lemma WindowIgnoresRuns(s: System, t: System)
    requires t == s.(extraRuns := t.extraRuns)
    ensures InDeltaWindow(t) == InDeltaWindow(s)
  {
  }

  lemma TargetIgnoresRuns(s: System, t: System, validator: ValidatorRecord, total: nat)
    requires s.totalScore == t.totalScore
    ensures ValidatorTarget(s, validator, total) == ValidatorTarget(t, validator, total)
  {
  }

  lemma SharesIgnoreLists(s: System, t: System, lamports: nat)
    requires TotalLamports(s) == TotalLamports(t) && s.ticketBalance == t.ticketBalance && s.supply == t.supply
    ensures MsolFromLamports(s, lamports) == MsolFromLamports(t, lamports)
  {
  }

  /** The rest of a deposit, on the state with the validator and the upgrader written back. */
  lemma EnteredAfterTracking(s: System, t: System, account: Key, amount: nat, j: nat)
    requires j < |s.validators| && Tracked(s.upgrader, s.validators[j], amount, j).Success?
    requires var (validator, upgrader) := Tracked(s.upgrader, s.validators[j], amount, j).value;
      t == s.(native := t.native, validators := s.validators[j := validator], upgrader := upgrader)
    ensures var r := Entered(t, account, amount);
      var msol := MsolFromLamports(s, SatSub(amount, FeeCentsApply(s.cfg.depositStakeFee, amount)));
      var booked := PushActive(s.(native := t.native), account, amount, j);
      if |s.stakes| >= s.cfg.stakeCapacity then r == Failure(ListOverflow)
      else if msol.Failure? then r == Failure(msol.error)
      else if booked.Failure? then r.Failure? && SameError(r.error, booked.error)
      else r == Model.MintMsol(booked.value, msol.value)
  {
    hide FeeCentsApply, Tracked;
    SharesIgnoreLists(t, s, SatSub(amount, FeeCentsApply(s.cfg.depositStakeFee, amount)));
    hide MsolFromLamports;
  }

  /** The state with the account of a new stake paid for. */
  function Paid(s: System, j: nat, amount: nat, newKey: Key): System
    requires j < |s.validators| && amount <= s.reserve && amount <= s.reserveLamports
  {
    s.(reserve := s.reserve - amount, reserveLamports := s.reserveLamports - amount,
       native := s.native[newKey := StakeAccount(s.validators[j].vote, amount, s.clock.epoch, NEVER,
                                                 amount + s.stakeRent, s.stakeRent, true)])
  }

  /** The state with a new stake on the books. */
  function Recorded(s: System, j: nat, amount: nat, newKey: Key): System
    requires j < |s.validators|
  {
    var v := s.validators[j];
    s.(active := s.active + amount, deltaEpoch := s.clock.epoch,
       stakes := s.stakes + [StakeRecord(newKey, amount, s.clock.epoch, false, Active)],
       validators := s.validators[j := v.(active := v.active + amount, deltaEpoch := s.clock.epoch)])
  }

  /** Funding in the program's order. */
  lemma StakeIntoInSteps(s: System, j: nat, amount: nat, newKey: Key)
    requires j < |s.validators| && s.upgrader.Done?
    ensures var r := Spec.StakeInto(s, j, amount, newKey);
      if amount > s.reserveLamports then r == Failure(CallFailed)
      else if amount > s.reserve then r == Failure(ReserveUnderflow)
      else if |s.stakes| >= s.cfg.stakeCapacity then r == Failure(ListOverflow)
      else if s.validators[j].active + amount > U64_MAX || s.active + amount > U64_MAX then r == Failure(Overflow)
      else r == Success(Recorded(Paid(s, j, amount, newKey), j, amount, newKey))
    ensures amount <= s.reserve && amount <= s.reserveLamports ==> Paid(s, j, amount, newKey).validators == s.validators
  {
    var v := s.validators[j];
    var touched := v.(active := v.active + amount, deltaEpoch := s.clock.epoch);
    assert s.validators[j := v.(active := v.active + amount)][j := touched] == s.validators[j := touched];
  }

  /** A split in the program's order: balances, bucket, the two records, the new one. */
  lemma SplitInSteps(s: System, i: nat, j: nat, split: nat, newKey: Key, toEmergency: bool, listed: ValidatorRecord)
    requires i < |s.stakes| && |s.stakes| < s.cfg.stakeCapacity
    requires j < |s.validators| && listed == s.validators[j].(deltaEpoch := listed.deltaEpoch)
    ensures var r := SplitCooling(s, i, j, split, newKey, toEmergency);
      var moved := Moved(s, listed, split, toEmergency);
      if split > s.stakes[i].delegated then r.Failure? && SameError(r.error, Underflow)
      else if moved.Failure? then r.Failure? && SameError(r.error, moved.error)
      else
        && split <= listed.active && moved.value.stakes == s.stakes && moved.value.validators == s.validators
        && moved.value.clock == s.clock
        && var left := s.stakes[i].(delegated := s.stakes[i].delegated - split);
           var written := Written(moved.value, i, left, j, listed.(active := listed.active - split));
           var pushed := written.(stakes := written.stakes
                                  + [StakeRecord(newKey, split, s.clock.epoch, toEmergency, Deactivating)]);
           && r.Success? && |r.value.validators| == |s.validators| && r.value.clock == s.clock
           && r.value.validators[j].deltaEpoch == s.validators[j].deltaEpoch
           && WithEpoch(r.value, j, listed.deltaEpoch) == pushed
  {
  }

  lemma MergeKeepsAccounts(s: System, c: nat, i: nat, j: nat, extra: nat)
    requires c < |s.stakes| && i < |s.stakes| && c != i && j < |s.validators|
    ensures Ledger.MergeRecords(s, c, i, j, extra).Success? ==>
        Ledger.MergeRecords(s, c, i, j, extra).value.native == s.native
  {
  }

  /** The booking of a change on two local copies. */
  lemma BookedInSteps(s: System, i: nat, j: nat, record: StakeRecord, listed: ValidatorRecord, delegated: nat)
    requires i < |s.stakes| && j < |s.validators|
    ensures var r := BookDelegation(Written(s, i, record, j, listed), i, j, delegated, s.clock.epoch);
      var validator := ValidatorBooked(s.upgrader, listed, record.delegated, delegated);
      var total := if delegated >= record.delegated then Add(s.active, delegated - record.delegated)
                   else Sub(s.active, record.delegated - delegated);
      var booked := UpgraderBooked(s.upgrader, record.delegated, delegated);
      if validator.Success? && total.Success? && booked.Success? then
        r == Success(Written(s.(active := total.value, upgrader := booked.value), i,
                             record.(delegated := delegated, updateEpoch := s.clock.epoch), j, validator.value))
      else r.Failure? && r.error in {Overflow, Underflow}
  {
    var stake := record.(delegated := delegated, updateEpoch := s.clock.epoch);
    assert s.stakes[i := record][i := stake] == s.stakes[i := stake];
    var validator := ValidatorBooked(s.upgrader, listed, record.delegated, delegated);
    if validator.Success? {
      assert s.validators[j := listed][j := validator.value] == s.validators[j := validator.value];
    }
  }

  lemma KeepsInvariant(s: System, step: Machine.Step)
    ensures Invariant.Inv(s) && !Safety.StepDisturbs(s, step) ==> Invariant.Inv(Machine.Next(s, step))
  {
    hide Machine.Apply, Invariant.Inv;
    if Invariant.Inv(s) && !Safety.StepDisturbs(s, step) {
      Safety.StepKeeps(s, step);
    }
  }
}
