/** Concrete states on which a property fails that the other files prove under a condition. */
module Examples {
  import opened Base
  import opened Calc
  import opened Sums
  import opened Model
  import opened Ledger
  import opened Instructions
  import opened Machine
  import opened Books
  import opened BooksSteps
  import opened Invariant
  import opened Safety
  import opened Upgrade
  import opened Disturbances
  import opened Price
  import opened FromStart

  const CONFIG: Config :=
    Config(paused := false, tokenRent := 1_000, minDeposit := 1, minWithdraw := 1, stakingCap := 1_000_000_000,
           minStake := MIN_STAKE_LOWER_LIMIT, slotsForDelta := MIN_UPDATE_WINDOW, rewardFee := 0, depositFee := 0,
           depositStakeFee := 0, delayedUnstakeFee := 0, withdrawStakeFee := 10_000, withdrawStakeEnabled := true,
           maxStakeMoved := MAX_BASIS_POINTS, lpTarget := MIN_LIQUIDITY_TARGET, lpMaxFee := 300, lpMinFee := 30,
           treasuryCut := 0, liquidityCap := 1_000_000_000, stakeCapacity := 10, validatorCapacity := 10)

  function Idle(): System {
    System(cfg := CONFIG, clock := Clock(5, 0, 0, 0), active := 0, delayed := 0, emergency := 0, reserve := 0,
           supply := 0,
           price := PRICE_DENOMINATOR, ticketCount := 0, ticketBalance := 0, totalScore := 0, deltaEpoch := NEVER,
           extraRuns := 0, moveEpoch := 0, moved := 0, upgrader := Done, stakes := [], validators := [], lpSupply := 0,
           reserveLamports := 1_000, stakeRent := 50, solLeg := 1_000, msolLeg := 0, msolHeld := 0, lpMint := 0,
           native := map[], tickets := [], flags := {})
  }

  // ---------------------------------------------------------------- the first depositor

  /** With no mSOL in circulation, a deposit is minted one to one. */
  lemma MintedOneToOne(s: System, lamports: u64)
    requires s.supply == 0 && MintSupply(s) == 0 && !s.cfg.paused && lamports >= s.cfg.minDeposit && lamports > 0
    requires Affordable(s, lamports)
    ensures Deposit(s, lamports) == Success(Credited(s, lamports))
  {
    assert 0 * lamports == 0;
    hide MsolToSol, Proportional;
  }

  predicate Affordable(s: System, lamports: nat) {
    s.cfg.depositFee == 0 && TotalLamports(s) + lamports <= s.cfg.stakingCap <= U64_MAX
  }

  function Credited(s: System, lamports: nat): System {
    s.(supply := lamports, msolHeld := lamports, reserve := s.reserve + lamports,
       reserveLamports := s.reserveLamports + lamports)
  }

  function Endowed(): System {
    Idle().(reserve := 100, reserveLamports := 1_100)
  }

  function FirstDeposit(): System {
    Credited(Endowed(), 50)
  }

  lemma EndowedIsBacked()
    ensures Backed(Endowed())
  {
    SumEmpty(Endowed().tickets, TicketAmount());
    hide Sum;
  }

  lemma WorthThrice(s: System)
    requires s.supply == 50 && s.active == 0 && s.delayed == 0 && s.emergency == 0 && s.reserve == 150
        && s.ticketBalance == 0
    ensures MsolToSol(s, 50) == Success(150)
  {
    assert VirtualStaked(s) == 150 && TotalLamports(s) == 150;
    hide VirtualStaked, TotalLamports;
  }

  lemma FirstBuckets()
    ensures var s := FirstDeposit();
      s.supply == 50 && s.active == 0 && s.delayed == 0 && s.emergency == 0 && s.reserve == 150 && s.ticketBalance == 0
  {
  }

  lemma Worth150()
    ensures MsolToSol(FirstDeposit(), 50) == Success(150)
  {
    hide FirstDeposit, MsolToSol;
    FirstBuckets();
    WorthThrice(FirstDeposit());
  }

  lemma FirstIsAccepted()
    ensures Affordable(Endowed(), 50)
    ensures Endowed().supply == 0 && MintSupply(Endowed()) == 0 && !Endowed().cfg.paused
        && 50 >= Endowed().cfg.minDeposit
  {
  }

  lemma FirstDepositIs()
    ensures Deposit(Endowed(), 50) == Success(FirstDeposit())
  {
    hide Deposit, Credited, Endowed, Idle, Affordable, MintSupply;
    FirstIsAccepted();
    MintedOneToOne(Endowed(), 50);
  }

  lemma HeldAfterFirst()
    ensures FirstDeposit().msolHeld - Endowed().msolHeld == 50
  {
  }

  /** 100 lamports are in the reserve and no mSOL exists. A deposit of 50 buys mSOL worth 150. */
  lemma FirstDepositorGains()
    ensures Backed(Endowed()) && Deposit(Endowed(), 50) == Success(FirstDeposit())
    ensures FirstDeposit().msolHeld - Endowed().msolHeld == 50 && MsolToSol(FirstDeposit(), 50) == Success(150)
  {
    EndowedIsBacked();
    Worth150();
    FirstDepositIs();
    HeldAfterFirst();
    hide *;
  }

  // ---------------------------------------------------------------- the treasury's withdrawal

  const STAKER: StakeAccount := StakeAccount(7, 50_000_001, 0, NEVER, 50_000_051, 50, true)

  function Staked(): System {
    Idle().(active := 50_000_001, supply := 40_000_000, msolHeld := 40_000_000,
            stakes := [StakeRecord(1, 50_000_001, 5, false, StakeStatus.Active)],
            validators := [ValidatorRecord(7, 50_000_001, 0, NEVER, 0)], flags := {7}, native := map[1 := STAKER])
  }

  lemma StakedIsBacked()
    ensures Backed(Staked())
  {
    SumEmpty(Staked().tickets, TicketAmount());
    hide Sum;
  }

  lemma Terms()
    ensures WithdrawTerms(Staked(), 20_000_000, 50_000_001, true) == Success((24_750_000, 19_799_999))
  {
    assert MsolToSol(Staked(), 20_000_000) == Success(25_000_000);
    assert FeeCentsApply(10_000, 25_000_000) == 250_000;
    assert MsolFromLamports(Staked(), 24_750_000) == Success(19_799_999);
    hide MsolToSol, MsolFromLamports, FeeCentsApply;
  }

  lemma Withdraws()
    ensures WithdrawStakeAccount(Staked(), 0, 1, 0, 20_000_000, 2, true).Success?
  {
    Terms();
    hide WithdrawTerms;
  }

  /** A withdrawal of stake that pays the treasury lowers the price: 19 799 999 shares are burned
      for 24 750 000 lamports, which were worth a fraction more. */
  lemma TreasuryWithdrawalDips()
    ensures Backed(Staked())
    ensures var r := WithdrawStakeAccount(Staked(), 0, 1, 0, 20_000_000, 2, true);
      r.Success? && !PriceKept(Staked(), r.value)
  {
    hide WithdrawStakeAccount, WithdrawTerms, Backed, PriceKept;
    StakedIsBacked();
    Withdraws();
    Terms();
    assert VirtualStaked(Staked()) == 50_000_001;
    WithdrawStakeKeepsPriceIff(Staked(), 0, 1, 0, 20_000_000, 2, true);
    assert (24_750_000 * 40_000_000) % 50_000_001 != 0;
  }

  // ---------------------------------------------------------------- a disturbed upgrade

  /** One record nobody classified yet, natively active, on one validator. */
  ghost predicate Lone(s: System, r: StakeRecord, v: ValidatorRecord) {
    && s.stakes == [r] && s.validators == [v] && r.status.Unknown?
    && s.upgrader == IteratingStakes(0, 0, 0) && !s.cfg.paused && Sync(s) == s
    && r.account in s.native
    && var a := s.native[r.account];
    && a.Live() && a.voter == v.vote && a.stake == r.delegated && a.lamports == a.stake + a.rent
    && v.upgrading == 0 && v.active == r.delegated == s.active
    && s.reserve + s.cfg.tokenRent == s.reserveLamports <= U64_MAX && TotalLamports(s) <= U64_MAX
  }

  /** Its update ends the first phase, with the validator's balance re-derived in full. */
  function Classified(s: System, r: StakeRecord, v: ValidatorRecord, price: nat): System {
    s.(price := price, upgrader := IteratingValidators(0, 0),
       stakes := [r.(status := StakeStatus.Active, updateEpoch := s.clock.epoch)],
       validators := [v.(upgrading := r.delegated)])
  }

  lemma Classifies(s: System, r: StakeRecord, v: ValidatorRecord, price: nat)
    requires Lone(s, r, v) && MsolToSol(s, PRICE_DENOMINATOR) == Success(price)
    ensures UpdateActive(s, 0, r.account, 0, false) == Success(Classified(s, r, v, price))
  {
    var upgraded := s.(upgrader := IteratingStakes(1, r.delegated, 0), stakes := [r.(status := StakeStatus.Active)],
                       validators := [v.(upgrading := r.delegated)]);
    assert s.stakes[0 := r.(status := StakeStatus.Active)] == upgraded.stakes;
    assert s.validators[0 := v.(upgrading := r.delegated)] == upgraded.validators;
    assert UpgradeRecord(s, 0, 0) == Success(upgraded);
    var booked := upgraded.(stakes := [r.(status := StakeStatus.Active, updateEpoch := s.clock.epoch)]);
    assert upgraded.stakes[0 := booked.stakes[0]] == booked.stakes;
    assert upgraded.validators[0 := v.(upgrading := r.delegated)] == upgraded.validators;
    assert BookDelegation(upgraded, 0, 0, r.delegated, s.clock.epoch) == Success(booked);
    assert UpdatePrice(booked) == Success(booked.(price := price)) by {
      assert VirtualStaked(booked) == VirtualStaked(s);
    }
    hide UpgradeRecord, BookDelegation, UpdatePrice, MsolToSol;
    assert NextPhase(booked.(price := price)) == Success(Classified(s, r, v, price));
  }

  /** Then somebody deactivated the stake account, and an epoch went by. */
  ghost predicate LoneStopped(s: System, r: StakeRecord, v: ValidatorRecord) {
    && s.stakes == [r] && s.validators == [v] && r.status.Active? && !r.emergency && r.delegated > 0
    && s.upgrader == IteratingValidators(0, 0) && !s.cfg.paused && Sync(s) == s
    && r.account in s.native
    && var a := s.native[r.account];
    && !a.Live() && a.voter == v.vote && a.lamports == r.delegated + a.rent && s.clock.epoch > a.deactivationEpoch
    && v.active == r.delegated == s.active && s.emergency == 0
    && s.reserve + s.cfg.tokenRent == s.reserveLamports
    && s.reserveLamports + TotalLamports(s) + a.lamports <= U64_MAX
  }

  function Retired(s: System, r: StakeRecord, v: ValidatorRecord, price: nat): System {
    s.(active := 0, reserve := s.reserve + r.delegated, reserveLamports := s.reserveLamports + r.delegated,
       price := price,
       stakes := [], validators := [v.(active := 0)], native := s.native - {r.account})
  }

  lemma Retires(s: System, r: StakeRecord, v: ValidatorRecord, price: nat)
    requires LoneStopped(s, r, v) && MsolToSol(s, PRICE_DENOMINATOR) == Success(price)
    ensures v.active == r.delegated && UpdateDeactivated(s, 0, r.account, 0, false) == Success(Retired(s, r, v, price))
  {
    var a := s.native[r.account];
    var cooling := r.(emergency := true, status := Deactivating);
    var detected := s.(active := 0, emergency := r.delegated, stakes := [cooling], validators := [v.(active := 0)]);
    assert s.stakes[0 := cooling] == detected.stakes;
    assert s.validators[0 := v.(active := 0)] == detected.validators;
    assert DetectDelinquent(s, 0, 0) == Success(detected);
    var collected := detected.(reserve := s.reserve + r.delegated, reserveLamports := s.reserveLamports + r.delegated);
    assert CollectStake(detected, 0, false) == Success(collected);
    var released := collected.(emergency := 0, stakes := []);
    assert SwapRemove([cooling], 0) == [];
    assert ReleaseCooled(collected, 0) == Success(released);
    assert UpdatePrice(released) == Success(released.(price := price)) by {
      assert VirtualStaked(released) == VirtualStaked(s);
    }
    hide DetectDelinquent, CollectStake, ReleaseCooled, UpdatePrice, MsolToSol;
  }

  lemma RetiredIsJammed(s: System, r: StakeRecord, v: ValidatorRecord, price: nat)
    requires s.upgrader == IteratingValidators(0, 0) && v.upgrading > 0
    ensures Jammed(Retired(s, r, v, price))
  {
    var t := Retired(s, r, v, price);
    assert t.validators[0..] == t.validators == [v.(active := 0)];
    assert t.validators[1..] == [];
  }

  const RECORD: StakeRecord := StakeRecord(1, 50_000_001, 4, false, StakeStatus.Unknown)
  const VALIDATOR: ValidatorRecord := ValidatorRecord(7, 50_000_001, 0, NEVER, 0)
  const PRICE: nat := 5_368_709_227

  function BeforeUpdate(): System {
    Staked().(upgrader := IteratingStakes(0, 0, 0), stakes := [RECORD])
  }

  function AfterUpdate(): System {
    Classified(BeforeUpdate(), RECORD, VALIDATOR, PRICE)
  }

  function AfterStop(): System {
    AfterUpdate().(clock := Clock(6, 0, 0, 0), native := map[1 := STAKER.(deactivationEpoch := 5)])
  }

  function Disturbance(): seq<Step> {
    [DoUpdateActive(0, 1, 0, false), Around(StopDelinquent(1)), Around(Tick(Clock(6, 0, 0, 0))),
     DoUpdateDeactivated(0, 1, 0, false)]
  }

  lemma StartsSound()
    ensures var s := BeforeUpdate(); RecordsOk(s.stakes, s.native) && ValidatorsOk(s)
  {
    assert BeforeUpdate().validators[0].vote == 7;
  }

  lemma StartsBacked()
    ensures Backed(BeforeUpdate())
  {
    SumEmpty(BeforeUpdate().tickets, TicketAmount());
    hide Sum;
  }

  lemma {:induction false} SumOfOne<T>(item: T, weight: T -> nat)
    ensures Sum([item], weight) == weight(item)
  {
    assert [item][1..] == [];
  }

  lemma StartsAddedUp()
    ensures var s := BeforeUpdate();
      && s.active == Sum(s.validators, Balance()) && s.active == Sum(s.stakes, OldActive({}))
      && s.delayed == Sum(s.stakes, OldCooling({}, false)) && s.emergency == Sum(s.stakes, OldCooling({}, true))
      && s.validators[0].active == Sum(s.stakes, OldActiveOn({}, s.native, s.validators[0].vote))
  {
    hide Sum;
    SumOfOne(VALIDATOR, Balance());
    SumOfOne(RECORD, OldActive({}));
    SumOfOne(RECORD, OldCooling({}, false));
    SumOfOne(RECORD, OldCooling({}, true));
    SumOfOne(RECORD, OldActiveOn({}, BeforeUpdate().native, VALIDATOR.vote));
  }

  lemma StartsUpgrade()
    ensures BeforeUpgrade(BeforeUpdate(), {})
  {
    hide Sum, Backed, RecordsOk, ValidatorsOk;
    StartsSound();
    StartsBacked();
    StartsAddedUp();
  }

  lemma StartsLone()
    ensures Lone(BeforeUpdate(), RECORD, VALIDATOR)
  {
  }

  ghost predicate OnlyStaked(s: System) {
    && s.active == 50_000_001 && s.delayed == 0 && s.emergency == 0 && s.reserve == 0 && s.ticketBalance == 0
    && s.supply == 40_000_000
  }

  lemma PriceOf(s: System)
    requires OnlyStaked(s)
    ensures MsolToSol(s, PRICE_DENOMINATOR) == Success(PRICE)
  {
    assert VirtualStaked(s) == 50_000_001 && TotalLamports(s) == 50_000_001;
    hide VirtualStaked, TotalLamports;
  }

  lemma StartsStaked()
    ensures OnlyStaked(BeforeUpdate())
  {
  }

  lemma FirstStep()
    ensures Next(BeforeUpdate(), DoUpdateActive(0, 1, 0, false)) == AfterUpdate()
  {
    hide UpdateActive, Classified, MsolToSol, Lone, BeforeUpdate, OnlyStaked;
    StartsLone();
    StartsStaked();
    PriceOf(BeforeUpdate());
    Classifies(BeforeUpdate(), RECORD, VALIDATOR, PRICE);
  }

  lemma Stops(s: System)
    requires s.native == map[1 := STAKER] && s.clock.epoch == 5
    ensures Next(Next(s, Around(StopDelinquent(1))), Around(Tick(Clock(6, 0, 0, 0))))
         == s.(clock := Clock(6, 0, 0, 0), native := map[1 := STAKER.(deactivationEpoch := 5)])
  {
    assert map[1 := STAKER][1 := STAKER.(deactivationEpoch := 5)] == map[1 := STAKER.(deactivationEpoch := 5)];
  }

  lemma StoppedSynced()
    ensures Sync(AfterStop()) == AfterStop()
  {
  }

  lemma StoppedAlone()
    ensures LoneStopped(AfterStop(), AfterUpdate().stakes[0], AfterUpdate().validators[0])
  {
    hide Sync;
    StoppedSynced();
  }

  lemma UpdatedNative()
    ensures AfterUpdate().native == map[1 := STAKER] && AfterUpdate().clock.epoch == 5
  {
  }

  lemma StoppedStaked()
    ensures OnlyStaked(AfterStop())
  {
  }

  lemma StoppedPhase()
    ensures AfterStop().upgrader == IteratingValidators(0, 0)
  {
  }

  lemma UpdatedFacts()
    ensures |AfterUpdate().stakes| == 1 && AfterUpdate().stakes[0].account == 1
    ensures |AfterUpdate().validators| == 1 && AfterUpdate().validators[0].upgrading > 0
  {
  }

  lemma LastStep()
    ensures Jammed(Next(AfterStop(), DoUpdateDeactivated(0, 1, 0, false)))
  {
    hide UpdateDeactivated, Retired, MsolToSol, LoneStopped, AfterStop, AfterUpdate, Jammed, OnlyStaked;
    StoppedAlone();
    StoppedStaked();
    StoppedPhase();
    UpdatedFacts();
    PriceOf(AfterStop());
    var r, v := AfterUpdate().stakes[0], AfterUpdate().validators[0];
    Retires(AfterStop(), r, v, PRICE);
    RetiredIsJammed(AfterStop(), r, v, PRICE);
  }

  lemma MiddleSteps()
    ensures Next(Next(AfterUpdate(), Around(StopDelinquent(1))), Around(Tick(Clock(6, 0, 0, 0)))) == AfterStop()
  {
    hide Next, AfterUpdate;
    UpdatedNative();
    Stops(AfterUpdate());
  }

  lemma FourSteps(s: System, steps: seq<Step>)
    requires |steps| == 4
    ensures Run(s, steps) == Next(Next(Next(Next(s, steps[0]), steps[1]), steps[2]), steps[3])
  {
    hide Apply, Next;
    RunFirst(s, steps);
    RunFirst(Next(s, steps[0]), steps[1..]);
    RunFirst(Next(Next(s, steps[0]), steps[1]), steps[2..]);
    RunFirst(Next(Next(Next(s, steps[0]), steps[1]), steps[2]), steps[3..]);
    hide Run;
    assert steps[1..][1..] == steps[2..] && steps[2..][1..] == steps[3..] && steps[3..][1..] == [];
  }

  lemma RunFirst(s: System, steps: seq<Step>)
    requires steps != []
    ensures Run(s, steps) == Run(Next(s, steps[0]), steps[1..])
    ensures |steps| == 1 ==> Run(s, steps) == Next(s, steps[0])
  {
    hide Apply, Next;
  }

  /** From a start the upgrade promises to finish from, four steps nobody can prevent, of which the
      last is the disturbance, leave an upgrade that no run ever finishes. */
  lemma DisturbedNeverDone(more: seq<Step>)
    ensures BeforeUpgrade(BeforeUpdate(), {})
    ensures !Run(Run(BeforeUpdate(), Disturbance()), more).upgrader.Done?
  {
    hide BeforeUpdate, AfterUpdate, AfterStop, Next, Run, Jammed, BeforeUpgrade;
    StartsUpgrade();
    FirstStep();
    MiddleSteps();
    LastStep();
    FourSteps(BeforeUpdate(), Disturbance());
    JammedForever(Run(BeforeUpdate(), Disturbance()), more);
  }

  // ---------------------------------------------------------------- a skipped record

  /** Two records of equal stake nobody classified yet, on one validator; the first is natively active. */
  ghost predicate Pair(s: System, a: StakeRecord, b: StakeRecord, v: ValidatorRecord) {
    && s.stakes == [a, b] && s.validators == [v] && a.status.Unknown? && a.delegated == b.delegated
    && s.upgrader == IteratingStakes(0, 0, 0) && !s.cfg.paused && Sync(s) == s
    && a.account in s.native
    && var n := s.native[a.account];
    && n.Live() && n.voter == v.vote && n.stake == a.delegated && n.lamports == n.stake + n.rent
    && v.upgrading == 0 && v.active == s.active == a.delegated + b.delegated
    && s.reserve + s.cfg.tokenRent == s.reserveLamports <= U64_MAX && TotalLamports(s) <= U64_MAX
  }

  function HalfVisited(s: System, a: StakeRecord, b: StakeRecord, v: ValidatorRecord, price: nat): System {
    s.(price := price, upgrader := IteratingStakes(1, a.delegated, 0),
       stakes := [a.(status := StakeStatus.Active, updateEpoch := s.clock.epoch), b],
       validators := [v.(upgrading := a.delegated)])
  }

  lemma VisitsFirst(s: System, a: StakeRecord, b: StakeRecord, v: ValidatorRecord, price: nat)
    requires Pair(s, a, b, v) && MsolToSol(s, PRICE_DENOMINATOR) == Success(price)
    ensures UpdateActive(s, 0, a.account, 0, false) == Success(HalfVisited(s, a, b, v, price))
  {
    var upgraded := s.(upgrader := IteratingStakes(1, a.delegated, 0), stakes := [a.(status := StakeStatus.Active), b],
                       validators := [v.(upgrading := a.delegated)]);
    assert s.stakes[0 := a.(status := StakeStatus.Active)] == upgraded.stakes;
    assert s.validators[0 := v.(upgrading := a.delegated)] == upgraded.validators;
    assert UpgradeRecord(s, 0, 0) == Success(upgraded);
    var booked := upgraded.(stakes := [a.(status := StakeStatus.Active, updateEpoch := s.clock.epoch), b]);
    assert upgraded.stakes[0 := booked.stakes[0]] == booked.stakes;
    assert upgraded.validators[0 := v.(upgrading := a.delegated)] == upgraded.validators;
    assert BookDelegation(upgraded, 0, 0, a.delegated, s.clock.epoch) == Success(booked);
    assert UpdatePrice(booked) == Success(booked.(price := price)) by {
      assert VirtualStaked(booked) == VirtualStaked(s);
    }
    hide UpgradeRecord, BookDelegation, UpdatePrice, MsolToSol;
    assert NextPhase(booked.(price := price)) == Success(HalfVisited(s, a, b, v, price));
  }

  /** Then somebody deactivated the first stake account, and an epoch went by. */
  ghost predicate PairStopped(s: System, a: StakeRecord, b: StakeRecord, v: ValidatorRecord) {
    && s.stakes == [a, b] && s.validators == [v] && a.status.Active? && !a.emergency && a.delegated == b.delegated > 0
    && s.upgrader == IteratingStakes(1, a.delegated, 0) && !s.cfg.paused && Sync(s) == s
    && a.account in s.native
    && var n := s.native[a.account];
    && !n.Live() && n.voter == v.vote && n.lamports == a.delegated + n.rent && s.clock.epoch > n.deactivationEpoch
    && v.active == s.active == a.delegated + b.delegated && s.emergency == 0
    && s.reserve + s.cfg.tokenRent == s.reserveLamports
    && s.reserveLamports + TotalLamports(s) + n.lamports <= U64_MAX
  }

  /** Its removal makes the visited records as many as the listed ones, of which none was visited. */
  function PairRetired(s: System, a: StakeRecord, b: StakeRecord, v: ValidatorRecord, price: nat): System {
    s.(active := b.delegated, reserve := s.reserve + a.delegated, reserveLamports := s.reserveLamports + a.delegated,
       price := price, upgrader := IteratingValidators(0, 0), stakes := [b], validators := [v.(active := b.delegated)],
       native := s.native - {a.account})
  }

  lemma RetiresFirst(s: System, a: StakeRecord, b: StakeRecord, v: ValidatorRecord, price: nat)
    requires PairStopped(s, a, b, v) && MsolToSol(s, PRICE_DENOMINATOR) == Success(price)
    ensures UpdateDeactivated(s, 0, a.account, 0, false) == Success(PairRetired(s, a, b, v, price))
  {
    var cooling := a.(emergency := true, status := Deactivating);
    var detected := s.(active := b.delegated, emergency := a.delegated, stakes := [cooling, b],
                       validators := [v.(active := b.delegated)]);
    assert s.stakes[0 := cooling] == detected.stakes;
    assert s.validators[0 := v.(active := b.delegated)] == detected.validators;
    assert DetectDelinquent(s, 0, 0) == Success(detected);
    var collected := detected.(reserve := s.reserve + a.delegated, reserveLamports := s.reserveLamports + a.delegated);
    assert CollectStake(detected, 0, false) == Success(collected);
    var released := collected.(emergency := 0, stakes := [b]);
    assert SwapRemove([cooling, b], 0) == [b];
    assert ReleaseCooled(collected, 0) == Success(released);
    assert UpdatePrice(released) == Success(released.(price := price)) by {
      assert VirtualStaked(released) == VirtualStaked(s);
    }
    hide DetectDelinquent, CollectStake, ReleaseCooled, UpdatePrice, MsolToSol;
  }

  function PairDone(s: System, b: StakeRecord, v: ValidatorRecord): System {
    s.(upgrader := Done, validators := [v.(active := v.upgrading, upgrading := 0)])
  }

  lemma FinishesPair(s: System, b: StakeRecord, v: ValidatorRecord)
    requires s.upgrader == IteratingValidators(0, 0) && !s.cfg.paused && s.validators == [v] && v.active == v.upgrading
    ensures FinalizeUpgrade(s, 1) == Success(PairDone(s, b, v))
  {
    assert s.validators[0 := v.(active := v.upgrading, upgrading := 0)] == PairDone(s, b, v).validators;
  }

  const FIRST: StakeRecord := StakeRecord(1, 50_000_000, 4, false, StakeStatus.Unknown)
  const SECOND: StakeRecord := StakeRecord(2, 50_000_000, 4, false, StakeStatus.Unknown)
  const SHARED: ValidatorRecord := ValidatorRecord(7, 100_000_000, 0, NEVER, 0)
  const VISITED_FIRST: StakeRecord := StakeRecord(1, 50_000_000, 5, false, StakeStatus.Active)
  const HALF: ValidatorRecord := ValidatorRecord(7, 100_000_000, 0, NEVER, 50_000_000)
  const EQUAL: StakeAccount := StakeAccount(7, 50_000_000, 0, NEVER, 50_000_050, 50, true)

  function TwoRecords(): System {
    Idle().(active := 100_000_000, supply := 100_000_000, msolHeld := 100_000_000, upgrader := IteratingStakes(0, 0, 0),
            stakes := [FIRST, SECOND], validators := [SHARED], flags := {7}, native := map[1 := EQUAL, 2 := EQUAL])
  }

  function OneVisited(): System {
    HalfVisited(TwoRecords(), FIRST, SECOND, SHARED, PRICE_DENOMINATOR)
  }

  function OneStopped(): System {
    OneVisited().(clock := Clock(6, 0, 0, 0), native := map[1 := EQUAL.(deactivationEpoch := 5), 2 := EQUAL])
  }

  function OneRetired(): System {
    PairRetired(OneStopped(), VISITED_FIRST, SECOND, HALF, PRICE_DENOMINATOR)
  }

  function OneSkipped(): System {
    PairDone(OneRetired(), SECOND, OneRetired().validators[0])
  }

  function Skipping(): seq<Step> {
    [DoUpdateActive(0, 1, 0, false), Around(StopDelinquent(1)), Around(Tick(Clock(6, 0, 0, 0))),
     DoUpdateDeactivated(0, 1, 0, false), DoFinalizeUpgrade(1)]
  }

  lemma {:induction false} SumOfTwo<T>(a: T, b: T, weight: T -> nat)
    ensures Sum([a, b], weight) == weight(a) + weight(b)
  {
    assert [a, b] == [a] + [b];
    SumPush([a], b, weight);
    SumOfOne(a, weight);
  }

  lemma TwoSound()
    ensures var s := TwoRecords(); RecordsOk(s.stakes, s.native) && ValidatorsOk(s)
  {
    assert TwoRecords().validators[0].vote == 7;
  }

  lemma TwoBacked()
    ensures Backed(TwoRecords())
  {
    SumEmpty(TwoRecords().tickets, TicketAmount());
    hide Sum;
  }

  lemma TwoAddedUp()
    ensures var s := TwoRecords();
      && s.active == Sum(s.validators, Balance()) && s.active == Sum(s.stakes, OldActive({}))
      && s.delayed == Sum(s.stakes, OldCooling({}, false)) && s.emergency == Sum(s.stakes, OldCooling({}, true))
      && s.validators[0].active == Sum(s.stakes, OldActiveOn({}, s.native, s.validators[0].vote))
  {
    hide Sum;
    SumOfOne(SHARED, Balance());
    SumOfTwo(FIRST, SECOND, OldActive({}));
    SumOfTwo(FIRST, SECOND, OldCooling({}, false));
    SumOfTwo(FIRST, SECOND, OldCooling({}, true));
    SumOfTwo(FIRST, SECOND, OldActiveOn({}, TwoRecords().native, SHARED.vote));
  }

  lemma TwoStartUpgrade()
    ensures BeforeUpgrade(TwoRecords(), {})
  {
    hide Sum, Backed, RecordsOk, ValidatorsOk;
    TwoSound();
    TwoBacked();
    TwoAddedUp();
  }

  ghost predicate AtPar(s: System) {
    && s.active == 100_000_000 && s.delayed == 0 && s.emergency == 0 && s.reserve == 0 && s.ticketBalance == 0
    && s.supply == 100_000_000
  }

  lemma ParPrice(s: System)
    requires AtPar(s)
    ensures MsolToSol(s, PRICE_DENOMINATOR) == Success(PRICE_DENOMINATOR)
  {
    assert VirtualStaked(s) == 100_000_000 && TotalLamports(s) == 100_000_000;
    hide VirtualStaked, TotalLamports;
  }

  lemma TwoArePair()
    ensures Pair(TwoRecords(), FIRST, SECOND, SHARED) && AtPar(TwoRecords())
  {
  }

  lemma SkipFirst()
    ensures Next(TwoRecords(), DoUpdateActive(0, 1, 0, false)) == OneVisited()
  {
    hide UpdateActive, HalfVisited, MsolToSol, Pair, TwoRecords, AtPar;
    TwoArePair();
    ParPrice(TwoRecords());
    VisitsFirst(TwoRecords(), FIRST, SECOND, SHARED, PRICE_DENOMINATOR);
  }

  lemma PairStops(s: System)
    requires s.native == map[1 := EQUAL, 2 := EQUAL] && s.clock.epoch == 5
    ensures Next(Next(s, Around(StopDelinquent(1))), Around(Tick(Clock(6, 0, 0, 0))))
         == s.(clock := Clock(6, 0, 0, 0), native := map[1 := EQUAL.(deactivationEpoch := 5), 2 := EQUAL])
  {
    assert s.native[1 := EQUAL.(deactivationEpoch := 5)] == map[1 := EQUAL.(deactivationEpoch := 5), 2 := EQUAL];
  }

  lemma VisitedNative()
    ensures OneVisited().native == map[1 := EQUAL, 2 := EQUAL] && OneVisited().clock.epoch == 5
  {
  }

  lemma SkipStops()
    ensures Next(Next(OneVisited(), Around(StopDelinquent(1))), Around(Tick(Clock(6, 0, 0, 0)))) == OneStopped()
  {
    hide Next, OneVisited;
    VisitedNative();
    PairStops(OneVisited());
  }

  lemma StoppedPairSynced()
    ensures Sync(OneStopped()) == OneStopped() && AtPar(OneStopped()) && !OneStopped().cfg.paused
  {
  }

  lemma StoppedPairLists()
    ensures var s := OneStopped();
      && s.stakes == [VISITED_FIRST, SECOND] && s.validators == [HALF]
      && s.upgrader == IteratingStakes(1, 50_000_000, 0)
      && s.native == map[1 := EQUAL.(deactivationEpoch := 5), 2 := EQUAL] && s.clock.epoch == 6
  {
  }

  lemma StoppedPairReserve()
    ensures var s := OneStopped(); s.reserve + s.cfg.tokenRent == s.reserveLamports == 1_000
  {
  }

  lemma StoppedIsPair()
    ensures PairStopped(OneStopped(), VISITED_FIRST, SECOND, HALF)
  {
    StoppedPairSynced();
    StoppedPairLists();
    StoppedPairReserve();
    hide Sync, OneStopped;
  }

  lemma SkipRetires()
    ensures Next(OneStopped(), DoUpdateDeactivated(0, 1, 0, false)) == OneRetired()
  {
    hide UpdateDeactivated, PairRetired, MsolToSol, PairStopped, OneStopped, AtPar, Sync;
    StoppedPairSynced();
    StoppedIsPair();
    ParPrice(OneStopped());
    RetiresFirst(OneStopped(), VISITED_FIRST, SECOND, HALF, PRICE_DENOMINATOR);
  }

  lemma RetiredFacts()
    ensures var s := OneRetired();
      && s.upgrader == IteratingValidators(0, 0) && !s.cfg.paused && s.stakes == [SECOND]
      && s.validators == [ValidatorRecord(7, 50_000_000, 0, NEVER, 50_000_000)]
  {
  }

  lemma SkipFinishes()
    ensures Next(OneRetired(), DoFinalizeUpgrade(1)) == OneSkipped()
    ensures var s := OneSkipped();
      && s.upgrader.Done? && s.stakes == [SECOND] && s.validators == [ValidatorRecord(7, 50_000_000, 0, NEVER, 0)]
  {
    hide OneRetired, FinalizeUpgrade;
    RetiredFacts();
    FinishesPair(OneRetired(), SECOND, OneRetired().validators[0]);
  }

  lemma SkippingRuns()
    ensures Run(TwoRecords(), Skipping()) == OneSkipped()
  {
    hide TwoRecords, OneVisited, OneStopped, OneRetired, OneSkipped, Next, Run;
    SkipFirst();
    SkipStops();
    SkipRetires();
    SkipFinishes();
    RunFirst(TwoRecords(), Skipping());
    FourSteps(OneVisited(), Skipping()[1..]);
  }

  /** Done, with a record never visited and a balance that no active record stands for. */
  ghost predicate LeftBehind(s: System) {
    && s.upgrader.Done? && |s.stakes| == |s.validators| == 1
    && s.stakes[0].status.Unknown? && s.stakes[0].delegated == s.validators[0].active > 0
    && Sum(s.stakes, ActiveStakeOn(s.native, s.validators[0].vote)) == 0
    && !Sound(s)
  }

  /** Once the upgrade is done, the program itself refuses to update a record it skipped. */
  lemma LeftBehindIsStuck(s: System, account: Key, j: nat, treasury: bool)
    requires LeftBehind(s)
    ensures UpdateActive(s, 0, account, j, treasury).Failure?
  {
    hide CheckedVirtual, Sum, Sound;
  }

  lemma SkippedIsLeftBehind(s: System)
    requires s.upgrader.Done? && s.stakes == [SECOND] && s.validators == [ValidatorRecord(7, 50_000_000, 0, NEVER, 0)]
    ensures LeftBehind(s)
  {
    SumOfOne(SECOND, ActiveStakeOn(s.native, 7));
    assert s.validators[0].vote == 7 && s.validators[0].active == 50_000_000;
    hide Sum;
  }

  /** From a start the upgrade promises to finish well from, five steps, of which the fourth is the
      disturbance, complete it with one record never visited, whose stake its validator still shows and
      which no update of an active stake will take. */
  lemma SkippedRecordEndsDone()
    ensures BeforeUpgrade(TwoRecords(), {}) && LeftBehind(Run(TwoRecords(), Skipping()))
    ensures forall account, j, treasury ::
              UpdateActive(Run(TwoRecords(), Skipping()), 0, account, j, treasury).Failure?
  {
    hide *;
    TwoStartUpgrade();
    SkippingRuns();
    SkipFinishes();
    SkippedIsLeftBehind(OneSkipped());
    forall account, j, treasury
      ensures UpdateActive(OneSkipped(), 0, account, j, treasury).Failure?
    {
      LeftBehindIsStuck(OneSkipped(), account, j, treasury);
    }
  }

  // ---------------------------------------------------------------- the reserve on the books

  const SETTINGS: Setup := Setup(0, MIN_STAKE_LOWER_LIMIT, MIN_UPDATE_WINDOW, MIN_LIQUIDITY_TARGET, 300, 30, 0)

  function Fresh(): System {
    Idle().(cfg := CONFIG.(stakingCap := U64_MAX, withdrawStakeFee := 0, withdrawStakeEnabled := false,
                           liquidityCap := U64_MAX))
  }

  lemma FreshIsInitialized()
    ensures Initialized(Fresh())
  {
    assert Initialize(Idle(), SETTINGS.rewardFee, SETTINGS.minStake, SETTINGS.slotsForDelta, SETTINGS.lpTarget,
                      SETTINGS.lpMaxFee, SETTINGS.lpMinFee, SETTINGS.treasuryCut) == Success(Fresh());
    hide Initialize;
  }

  /** One validator without stake has the whole target, and everything to be staked was given to the
      reserve since the last synchronisation. */
  predicate GivenOnly(s: System, v: ValidatorRecord, amount: nat) {
    && s.validators == [v] && v.active == s.active == s.delayed == s.ticketBalance == s.reserve == 0
    && v.score == s.totalScore > 0 && v.deltaEpoch != s.clock.epoch
    && s.reserveLamports == s.cfg.tokenRent + amount && 0 < s.cfg.minStake <= amount <= U64_MAX
    && s.upgrader.Done? && !s.cfg.paused && InDeltaWindow(s)
  }

  lemma WholeProportion(amount: nat, score: nat)
    requires score > 0 && amount <= U64_MAX
    ensures Proportional(amount, score, score) == Success(amount)
  {
    MulLe(amount + 1, U64_MAX + 1, score);
    var r := Proportional(amount, score, score);
    FloorAtMost(r.value, amount * score, score, amount);
    FloorAtMost(amount, amount * score, score, r.value);
    hide Proportional;
  }

  lemma GivenIsShort(s: System, v: ValidatorRecord, amount: nat, newKey: Key)
    requires GivenOnly(s, v, amount) && newKey !in s.native
    ensures StakeReserve(s, 0, v.vote, newKey) == Failure(ReserveUnderflow) && StakeShort(s, 0, v.vote, newKey)
  {
    WholeProportion(amount, v.score);
    hide Proportional, InDeltaWindow;
    assert StakeDelta(s) == amount;
  }

  const NEWCOMER: ValidatorRecord := ValidatorRecord(7, 0, 1, NEVER, 0)

  function Given(): System {
    Fresh().(validators := [NEWCOMER], totalScore := 1, flags := {7}, reserveLamports := 20_001_000)
  }

  lemma Adds()
    ensures Next(Fresh(), DoAddValidator(7, 1)) == Given().(reserveLamports := 1_000)
  {
    assert Fresh().validators + [NEWCOMER] == [NEWCOMER];
    assert Fresh().flags + {7} == {7};
  }

  lemma Gives(s: System)
    requires s.reserveLamports == 1_000
    ensures Next(s, Around(DonateToReserve(20_000_000))) == s.(reserveLamports := 20_001_000)
  {
  }

  lemma GivenIs()
    ensures GivenOnly(Given(), NEWCOMER, 20_000_000) && 9 !in Given().native
    ensures Given().(reserveLamports := 1_000).(reserveLamports := 20_001_000) == Given()
  {
  }

  function Gift(): seq<Step> {
    [DoAddValidator(7, 1), Around(DonateToReserve(20_000_000))]
  }

  lemma GiftRuns()
    ensures Run(Fresh(), Gift()) == Given()
  {
    hide Fresh, Given, Next, Run;
    Adds();
    GivenIs();
    Gives(Given().(reserveLamports := 1_000));
    RunFirst(Fresh(), Gift());
    RunFirst(Given().(reserveLamports := 1_000), Gift()[1..]);
  }

  lemma GivenFails()
    ensures StakeShort(Given(), 0, 7, 9) && StakeReserve(Given(), 0, 7, 9) == Failure(ReserveUnderflow)
  {
    hide Given, StakeShort, StakeReserve, GivenOnly;
    GivenIs();
    GivenIsShort(Given(), NEWCOMER, 20_000_000, 9);
  }

  /** From `initialize`, a validator and a gift to the reserve are enough: the staking crank wants to stake
      the gift, and its subtraction from the reserve on the books underflows. */
  lemma GiftIsNotStaked()
    ensures Initialized(Fresh())
    ensures StakeShort(Run(Fresh(), Gift()), 0, 7, 9)
    ensures Apply(Run(Fresh(), Gift()), DoStakeReserve(0, 7, 9)) == Failure(ReserveUnderflow)
  {
    hide Fresh, Given, Gift, Initialized, StakeShort, StakeReserve, Run;
    FreshIsInitialized();
    GiftRuns();
    GivenFails();
  }

  function Waited(): System {
    Staked().(tickets := [Ticket(4, 100, 3)], ticketCount := 1, ticketBalance := 100, reserveLamports := 1_100)
  }

  lemma WaitedIsBacked()
    ensures Backed(Waited()) && TotalLamports(Waited()) >= Waited().ticketBalance
  {
    SumOfOne(Ticket(4, 100, 3), TicketAmount());
    hide Sum;
  }

  /** A ticket of 100 lamports is due and 100 lamports beyond the rent are in the reserve, but they were
      given to it: the claim fails until the next update. */
  lemma GiftIsNotClaimed()
    ensures Backed(Waited()) && TotalLamports(Waited()) >= Waited().ticketBalance
    ensures Waited().tickets[0].amount == 100 <= Waited().reserveLamports - Waited().cfg.tokenRent
    ensures ClaimShort(Waited(), 0) && Claim(Waited(), 0) == Failure(ReserveUnderflow)
  {
    WaitedIsBacked();
    hide Backed, TotalLamports;
  }

  // ---------------------------------------------------------------- a split of one lamport

  /** One active record on one validator with the whole target, and a deficit that leaves it more than
      twice the minimum. */
  predicate LoneDeficit(s: System, r: StakeRecord, v: ValidatorRecord, deficit: nat) {
    && s.stakes == [r] && s.validators == [v] && r.status.Active? && !r.emergency
    && r.delegated == v.active == s.active && v.score == s.totalScore > 0 && v.deltaEpoch != s.clock.epoch
    && r.account in s.native
    && var a := s.native[r.account];
    && a.Live() && a.voter == v.vote && a.stake == r.delegated && a.lamports == a.stake + a.rent
    && s.emergency == 0 && s.ticketBalance == SatSub(s.reserveLamports, s.cfg.tokenRent) + s.delayed + deficit
    && 0 < deficit && 0 < s.cfg.minStake && deficit + 2 * s.cfg.minStake <= r.delegated <= U64_MAX
    && s.delayed + deficit <= U64_MAX && s.cfg.stakeCapacity > 1
    && s.upgrader.Done? && !s.cfg.paused && InDeltaWindow(s)
  }

  lemma SplitsDeficit(s: System, r: StakeRecord, v: ValidatorRecord, deficit: nat, newKey: Key)
    requires LoneDeficit(s, r, v, deficit) && newKey !in s.native
    ensures var t := DeactivateStake(s, 0, r.account, 0, newKey);
      t.Success? && t.value.stakes == [r.(delegated := r.delegated - deficit),
                                       StakeRecord(newKey, deficit, s.clock.epoch, false, Deactivating)]
  {
    assert StakeDelta(s) == 0 - deficit;
    WholeProportion(s.active - deficit, v.score);
    hide StakeDelta, Proportional, InDeltaWindow;
    assert UnstakeToward(s, 0, 0, s.active - deficit, deficit, newKey).Success?;
  }

  const SOLE: StakeRecord := StakeRecord(1, 50_000_000, 5, false, StakeStatus.Active)
  const HOST: ValidatorRecord := ValidatorRecord(7, 50_000_000, 1, NEVER, 0)

  function Owing(): System {
    Idle().(active := 50_000_000, supply := 50_000_000, msolHeld := 50_000_000, totalScore := 1,
            stakes := [SOLE], validators := [HOST], flags := {7}, native := map[1 := EQUAL],
            tickets := [Ticket(4, 1, 5)], ticketCount := 1, ticketBalance := 1)
  }

  lemma OwingLists()
    ensures var s := Owing();
      && s.stakes == [SOLE] && s.validators == [HOST] && s.native == map[1 := EQUAL]
      && s.cfg == CONFIG && s.clock == Clock(5, 0, 0, 0)
  {
  }

  lemma OwingTotals()
    ensures var s := Owing();
      && s.active == 50_000_000 && s.totalScore == 1 && s.emergency == s.delayed == 0 && s.ticketBalance == 1
      && s.reserveLamports == 1_000 && s.upgrader.Done?
  {
  }

  lemma OwingIs()
    ensures LoneDeficit(Owing(), SOLE, HOST, 1) && 9 !in Owing().native
    ensures Owing().clock.epoch == 5 && Owing().cfg == CONFIG
  {
    OwingLists();
    OwingTotals();
    hide Owing;
  }

  lemma OwingIsBacked()
    ensures Backed(Owing()) && Owing().totalScore == Sum(Owing().validators, Score())
  {
    SumOfOne(Ticket(4, 1, 5), TicketAmount());
    SumOfOne(HOST, Score());
    hide Sum;
  }

  /** With one lamport owed on tickets and nothing in the reserve, one lamport is split off: far from
      twice the minimum stake. */
  lemma OneLamportIsSplit()
    ensures Backed(Owing()) && Owing().totalScore == Sum(Owing().validators, Score())
    ensures var t := DeactivateStake(Owing(), 0, 1, 0, 9);
      && t.Success? && |t.value.stakes| == 2
      && t.value.stakes[1] == StakeRecord(9, 1, 5, false, Deactivating)
      && t.value.stakes[1].delegated < Owing().cfg.minStake
  {
    OwingIs();
    OwingIsBacked();
    hide Owing, DeactivateStake, LoneDeficit, Backed, Sum;
    SplitsDeficit(Owing(), SOLE, HOST, 1, 9);
  }

  // ---------------------------------------------------------------- a pool without shares

  /** All shares were burned outside, and some SOL is left. */
  predicate Abandoned(s: System, left: nat, given: nat) {
    && s.lpMint == s.lpSupply == s.msolLeg == s.supply == 0 && TotalLamports(s) <= U64_MAX && !s.cfg.paused
    && s.solLeg == s.cfg.tokenRent + left && 0 < s.cfg.minDeposit <= given
    && s.solLeg + given <= s.cfg.liquidityCap <= U64_MAX && s.cfg.minWithdraw <= left + given
  }

  function Provided(s: System, given: nat): System {
    s.(solLeg := s.solLeg + given, lpMint := given, lpSupply := given)
  }

  lemma NothingInLeg(s: System)
    requires s.supply == 0 && TotalLamports(s) <= U64_MAX
    ensures MsolToSol(s, 0) == Success(0)
  {
  }

  lemma ProviderEnters(s: System, left: nat, given: u64)
    requires Abandoned(s, left, given)
    ensures AddLiquidity(s, given) == Success(Provided(s, given))
  {
    NothingInLeg(s);
    hide MsolToSol, TotalLamports;
  }

  lemma ProviderLeaves(s: System, left: nat, given: u64)
    requires Abandoned(s, left, given)
    ensures var r := RemoveLiquidity(Provided(s, given), given); r.Success? && r.value.solLeg == s.cfg.tokenRent
  {
    assert TotalLamports(Provided(s, given)) == TotalLamports(s);
    NothingInLeg(Provided(s, given));
    AllOfLeg(left + given, given);
    AllOfLeg(0, given);
    hide MsolToSol, Proportional, TotalLamports;
  }

  lemma TakesAll(s: System, left: nat, given: u64)
    requires Abandoned(s, left, given)
    ensures AddLiquidity(s, given) == Success(Provided(s, given))
    ensures var t := Provided(s, given);
      var r := RemoveLiquidity(t, given);
      r.Success? && t.lpMint == given && t.solLeg - r.value.solLeg == left + given
  {
    ProviderEnters(s, left, given);
    ProviderLeaves(s, left, given);
    hide AddLiquidity, RemoveLiquidity;
  }

  lemma AllOfLeg(leg: nat, tokens: nat)
    requires tokens > 0 && leg <= U64_MAX
    ensures Proportional(tokens, leg, tokens) == Success(leg)
  {
    MulLe(leg + 1, U64_MAX + 1, tokens);
    var r := Proportional(tokens, leg, tokens);
    FloorAtMost(r.value, tokens * leg, tokens, leg);
    FloorAtMost(leg, tokens * leg, tokens, r.value);
    hide Proportional;
  }

  function Deserted(): System {
    Idle().(solLeg := 1_100)
  }

  lemma DesertedIs()
    ensures Backed(Deserted()) && Abandoned(Deserted(), 100, 50) && Deserted().cfg.tokenRent == 1_000
  {
    SumEmpty(Deserted().tickets, TicketAmount());
    hide Sum;
  }

  /** All shares were burned and 100 lamports are left: 50 put in come back as 150. */
  lemma NextProviderGains()
    ensures Backed(Deserted()) && AddLiquidity(Deserted(), 50) == Success(Provided(Deserted(), 50))
    ensures var t := Provided(Deserted(), 50);
      var r := RemoveLiquidity(t, 50);
      r.Success? && t.lpMint == 50 && t.solLeg - r.value.solLeg == 150
  {
    hide AddLiquidity, RemoveLiquidity, Backed, Abandoned, Provided, Deserted;
    DesertedIs();
    TakesAll(Deserted(), 100, 50);
  }
}
