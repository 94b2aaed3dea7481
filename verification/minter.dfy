/** The minter's entry points as pure state transitions. Each takes the storage, the
    chain context of the call and its parameters, and either fails (the whole
    operation is rolled back) or returns the new storage, the outbound effects and,
    for oven operations, the update sent back to the oven.

    In the contract the fee, time and index arithmetic is written as expressions
    that are evaluated at each statement that uses them, so every explicit check
    that precedes the first such statement (sender, oven maximum, liquidated flag)
    fires before any arithmetic failure can. */
module Minter {
  import opened MinterTypes
  import opened MinterMath
  import opened Arith

  // ---------------------------------------------------------------------------
  // The shared preamble: advance the global index, accrue the oven's fee
  // ---------------------------------------------------------------------------

  datatype Refresh = Refresh(numPeriods: nat, interestIndex: nat, lastUpdateTime: int)

  /** Advances the global interest index by the whole periods elapsed since the last
      update, at the current stability fee. Fails (`sp.as_nat`) if time went back. */
  function RefreshIndex(s: Storage, now: int): (r: Result<Refresh>)
    ensures r.Success? <==> now >= s.lastInterestIndexUpdateTime
    // only whole periods are consumed; the remainder is less than one period
    ensures r.Success? ==>
      && r.value.lastUpdateTime == s.lastInterestIndexUpdateTime + r.value.numPeriods * SECONDS_PER_COMPOUND
      && r.value.lastUpdateTime <= now < r.value.lastUpdateTime + SECONDS_PER_COMPOUND
    ensures r.Success? ==> r.value.interestIndex == Compound(s.interestIndex, s.stabilityFee, r.value.numPeriods)
  {
    var timeDeltaSeconds :- AsNat(now - s.lastInterestIndexUpdateTime);
    var numPeriods := timeDeltaSeconds / SECONDS_PER_COMPOUND;
    DivBounds(timeDeltaSeconds, SECONDS_PER_COMPOUND);
    Success(Refresh(numPeriods, Compound(s.interestIndex, s.stabilityFee, numPeriods),
                    s.lastInterestIndexUpdateTime + numPeriods * SECONDS_PER_COMPOUND))
  }

  /** Writes a refreshed index and update time into storage. */
  function Advance(s: Storage, rf: Refresh): Storage
  {
    s.(interestIndex := rf.interestIndex, lastInterestIndexUpdateTime := rf.lastUpdateTime)
  }

  /** `s2` differs from `s` only in its index and update time; the index is the one
      compounded over the elapsed periods (so it did not decrease), and the update
      time moved forward by whole periods to within one period of `now`. */
  predicate IndexAdvanced(s: Storage, s2: Storage, now: int)
  {
    && s2 == s.(interestIndex := s2.interestIndex, lastInterestIndexUpdateTime := s2.lastInterestIndexUpdateTime)
    && RefreshIndex(s, now).Success?
    && s2.interestIndex == RefreshIndex(s, now).value.interestIndex
    && s.interestIndex <= s2.interestIndex
    && s.lastInterestIndexUpdateTime <= s2.lastInterestIndexUpdateTime <= now
    && now < s2.lastInterestIndexUpdateTime + SECONDS_PER_COMPOUND
    && (s2.lastInterestIndexUpdateTime - s.lastInterestIndexUpdateTime) % SECONDS_PER_COMPOUND == 0
  }

  lemma AdvanceIsIndexAdvanced(s: Storage, now: int)
    requires now >= s.lastInterestIndexUpdateTime
    ensures IndexAdvanced(s, Advance(s, RefreshIndex(s, now).value), now)
  {
    var rf := RefreshIndex(s, now).value;
    ModOfMultiple(rf.numPeriods, SECONDS_PER_COMPOUND);
  }

  /** The oven as a properly sequenced registry hands it in: a non-negative fee and
      an index that is positive and not ahead of the minter's. */
  predicate WellSequenced(s: Storage, oven: Oven)
  {
    oven.stabilityFeeTokens >= 0 && 0 < oven.interestIndex <= s.interestIndex
  }

  datatype Accrual = Accrual(refresh: Refresh, stabilityFeeTokens: nat)

  /** Refreshes the global index and brings the oven's fee up to it:
      `newStabilityFeeTokens = stabilityFeeTokens + accrued`. */
  function Accrue(s: Storage, now: int, oven: Oven): (r: Result<Accrual>)
    ensures r.Failure? ==> r.error == ArithmeticFailure
    ensures r.Success? <==>
      && oven.stabilityFeeTokens >= 0
      && RefreshIndex(s, now).Success?
      && AccruedInterest(oven.interestIndex, oven.borrowedTokens, oven.stabilityFeeTokens as nat,
                         RefreshIndex(s, now).value.interestIndex).Success?
    ensures r.Success? ==> RefreshIndex(s, now) == Success(r.value.refresh)
    // the new fee is the old one plus what accrued up to the refreshed index
    ensures r.Success? ==>
      r.value.stabilityFeeTokens
        == oven.stabilityFeeTokens
           + AccruedInterest(oven.interestIndex, oven.borrowedTokens, oven.stabilityFeeTokens as nat,
                             r.value.refresh.interestIndex).value
    ensures r.Success? ==> r.value.stabilityFeeTokens >= oven.stabilityFeeTokens
    ensures now >= s.lastInterestIndexUpdateTime && WellSequenced(s, oven) ==> r.Success?
  {
    var stabilityFeeTokens :- AsNat(oven.stabilityFeeTokens);
    var rf :- RefreshIndex(s, now);
    var accrued :- AccruedInterest(oven.interestIndex, oven.borrowedTokens, stabilityFeeTokens, rf.interestIndex);
    Success(Accrual(rf, stabilityFeeTokens + accrued))
  }

  /** The update of an oven step is addressed to the calling oven and carries the
      refreshed index; the storage advanced by the call's refresh. */
  predicate Synchronised(s: Storage, txn: Txn, oven: Oven, step: OvenStep)
  {
    && IndexAdvanced(s, step.storage, txn.now)
    && step.update.ovenAddress == oven.ovenAddress
    && step.update.interestIndex == step.storage.interestIndex
  }

  /** The fee an oven owes after the call's accrual (only meaningful when it succeeds). */
  function NewFee(s: Storage, txn: Txn, oven: Oven): nat
  {
    var a := Accrue(s, txn.now, oven);
    if a.Success? then a.value.stabilityFeeTokens else 0
  }

  // ---------------------------------------------------------------------------
  // mintTokensToStabilityAndDevFund
  // ---------------------------------------------------------------------------

  /** `devTokens` is the developer fund's proportional share of `tokensToMint` at
      `split` (scaled by PRECISION), rounded down. */
  predicate DevShare(devTokens: nat, tokensToMint: nat, split: nat)
  {
    devTokens * PRECISION <= tokensToMint * split < devTokens * PRECISION + PRECISION
  }

  /** The two mints that route `tokensToMint` to the developer and stability funds. */
  function FundMints(s: Storage, tokensToMint: nat): (r: Result<seq<Effect>>)
    ensures r.Failure? <==> (tokensToMint * s.stabilityDevFundSplit) / PRECISION > tokensToMint
    ensures s.stabilityDevFundSplit <= PRECISION ==> r.Success?
    ensures r.Success? ==>
      && |r.value| == 2
      && r.value[0].Mint? && r.value[0].to == s.developerFundContractAddress
      && r.value[1].Mint? && r.value[1].to == s.stabilityFundContractAddress
      && r.value[0].tokens + r.value[1].tokens == tokensToMint
      && DevShare(r.value[0].tokens, tokensToMint, s.stabilityDevFundSplit)
  {
    var split :- SplitFunds(tokensToMint, s.stabilityDevFundSplit);
    Success([Mint(s.developerFundContractAddress, split.devFundTokens),
             Mint(s.stabilityFundContractAddress, split.stabilityFundTokens)])
  }

  // ---------------------------------------------------------------------------
  // Entry points
  // ---------------------------------------------------------------------------

  /** getInterestIndex: refreshes the index and calls `callback` back with it. */
  function GetInterestIndex(s: Storage, txn: Txn, callback: Address): (r: Result<IndexStep>)
    ensures txn.amount != 0 ==> r == Failure(AmountNotAllowed)
    ensures txn.amount == 0 ==> (r.Success? <==> txn.now >= s.lastInterestIndexUpdateTime)
    ensures r.Success? ==>
      && IndexAdvanced(s, r.value.storage, txn.now)
      && r.value.effects == [IndexCallback(callback, r.value.storage.interestIndex)]
  {
    if txn.amount != 0 then Failure(AmountNotAllowed)
    else
      var rf :- RefreshIndex(s, txn.now);
      AdvanceIsIndexAdvanced(s, txn.now);
      Success(IndexStep(Advance(s, rf), [IndexCallback(callback, rf.interestIndex)]))
  }

  /** borrow: adds `tokensToBorrow` to the oven's principal and mints them to the
      owner, provided the oven stays collateralized. */
  function Borrow(s: Storage, txn: Txn, oven: Oven, oraclePrice: nat, tokensToBorrow: nat): (r: Result<OvenStep>)
    ensures txn.sender != s.ovenProxyContractAddress ==> r == Failure(NotOvenProxy)
    ensures txn.sender == s.ovenProxyContractAddress && oven.isLiquidated ==> r == Failure(OvenLiquidated)
    ensures r.Success? ==>
      && Synchronised(s, txn, oven, r.value)
      && r.value.effects == [Mint(oven.ownerAddress, tokensToBorrow)]
      && r.value.update.borrowedTokens == oven.borrowedTokens + tokensToBorrow
      && r.value.update.stabilityFeeTokens == NewFee(s, txn, oven) >= oven.stabilityFeeTokens
      && !r.value.update.isLiquidated
      && r.value.update.sendAmount == txn.balance
      && Collateralized(oven.ovenBalance, oraclePrice,
                        r.value.update.borrowedTokens + r.value.update.stabilityFeeTokens,
                        s.collateralizationPercentage)
  {
    if txn.sender != s.ovenProxyContractAddress then Failure(NotOvenProxy)
    else if oven.isLiquidated then Failure(OvenLiquidated)
    else
      var a :- Accrue(s, txn.now, oven);
      var newTotalBorrowedTokens := oven.borrowedTokens + tokensToBorrow;
      var totalOutstandingTokens := newTotalBorrowedTokens + a.stabilityFeeTokens;
      if !Collateralized(oven.ovenBalance, oraclePrice, totalOutstandingTokens, s.collateralizationPercentage)
      then Failure(OvenUnderCollateralized)
      else
        AdvanceIsIndexAdvanced(s, txn.now);
        Success(OvenStep(
          Advance(s, a.refresh),
          [Mint(oven.ownerAddress, tokensToBorrow)],
          OvenUpdate(oven.ovenAddress, newTotalBorrowedTokens, a.stabilityFeeTokens,
                     a.refresh.interestIndex, oven.isLiquidated, txn.balance)))
  }

  datatype Repayment = Repayment(feeRepaid: nat, remainingFee: nat, remainingBorrowed: nat)

  /** How a repayment of `tokensToRepay` is applied to an oven owing `borrowedTokens`
      of principal and `stabilityFeeTokens` of fee: fee first, then principal.
      Fails (`sp.as_nat`) when the repayment exceeds the whole debt. */
  function ApplyRepayment(borrowedTokens: nat, stabilityFeeTokens: nat, tokensToRepay: nat): (r: Result<Repayment>)
    ensures r.Success? <==> tokensToRepay <= borrowedTokens + stabilityFeeTokens
    ensures r.Success? ==>
      var p := r.value;
      // nothing is lost: the debt falls by exactly the repayment, the fee part of it is `feeRepaid`
      && p.remainingBorrowed + p.remainingFee + tokensToRepay == borrowedTokens + stabilityFeeTokens
      && p.feeRepaid + p.remainingFee == stabilityFeeTokens
      && p.remainingBorrowed <= borrowedTokens
      // fee first: principal falls only once the fee is cleared
      && (p.remainingBorrowed < borrowedTokens ==> p.remainingFee == 0)
      && (tokensToRepay >= stabilityFeeTokens ==> p.remainingFee == 0)
  {
    if tokensToRepay < stabilityFeeTokens then
      Success(Repayment(tokensToRepay, stabilityFeeTokens - tokensToRepay, borrowedTokens))
    else
      var remainingBorrowedTokenBalance :- AsNat(borrowedTokens - (tokensToRepay - stabilityFeeTokens));
      Success(Repayment(stabilityFeeTokens, 0, remainingBorrowedTokenBalance))
  }

  /** repay: burns `tokensToRepay` from the owner, applying it to the fee first and
      to the principal only once the fee is cleared; the fee part is minted to the
      developer and stability funds. */
  function Repay(s: Storage, txn: Txn, oven: Oven, tokensToRepay: nat): (r: Result<OvenStep>)
    ensures txn.sender != s.ovenProxyContractAddress ==> r == Failure(NotOvenProxy)
    ensures txn.sender == s.ovenProxyContractAddress && oven.isLiquidated ==> r == Failure(OvenLiquidated)
    ensures r.Success? ==>
      var newFee := NewFee(s, txn, oven);
      var u := r.value.update;
      && Synchronised(s, txn, oven, r.value)
      && !u.isLiquidated
      && u.sendAmount == txn.balance
      // the debt falls by exactly the repayment
      && u.borrowedTokens + u.stabilityFeeTokens + tokensToRepay == oven.borrowedTokens + newFee
      && u.borrowedTokens <= oven.borrowedTokens
      && u.stabilityFeeTokens <= newFee
      // principal is only touched once the fee is fully repaid
      && (u.borrowedTokens < oven.borrowedTokens ==> u.stabilityFeeTokens == 0)
      && (tokensToRepay >= newFee ==> u.stabilityFeeTokens == 0)
      // the repaid fee goes to the funds; the whole repayment is burned
      && |r.value.effects| == 3
      && r.value.effects[0].Mint? && r.value.effects[0].to == s.developerFundContractAddress
      && r.value.effects[1].Mint? && r.value.effects[1].to == s.stabilityFundContractAddress
      && r.value.effects[0].tokens + r.value.effects[1].tokens == newFee - u.stabilityFeeTokens
      && DevShare(r.value.effects[0].tokens, newFee - u.stabilityFeeTokens, s.stabilityDevFundSplit)
      && r.value.effects[2] == Burn(oven.ownerAddress, tokensToRepay)
  {
    if txn.sender != s.ovenProxyContractAddress then Failure(NotOvenProxy)
    else if oven.isLiquidated then Failure(OvenLiquidated)
    else
      var a :- Accrue(s, txn.now, oven);
      var p :- ApplyRepayment(oven.borrowedTokens, a.stabilityFeeTokens, tokensToRepay);
      var mints :- FundMints(s, p.feeRepaid);
      AdvanceIsIndexAdvanced(s, txn.now);
      Success(OvenStep(
        Advance(s, a.refresh),
        mints + [Burn(oven.ownerAddress, tokensToRepay)],
        OvenUpdate(oven.ovenAddress, p.remainingBorrowed, p.remainingFee,
                   a.refresh.interestIndex, oven.isLiquidated, txn.balance)))
  }

  /** deposit: accepts collateral (the value attached by the oven proxy) into an
      oven that is not liquidated, refreshing its fee; principal is unchanged. */
  function Deposit(s: Storage, txn: Txn, oven: Oven): (r: Result<OvenStep>)
    ensures txn.sender != s.ovenProxyContractAddress ==> r == Failure(NotOvenProxy)
    ensures txn.sender == s.ovenProxyContractAddress && s.ovenMax.Some? && txn.balance > s.ovenMax.value
            ==> r == Failure(OvenMaximumExceeded)
    ensures (txn.sender == s.ovenProxyContractAddress && !(s.ovenMax.Some? && txn.balance > s.ovenMax.value)
             && oven.isLiquidated) ==> r == Failure(OvenLiquidated)
    ensures (txn.sender == s.ovenProxyContractAddress && !(s.ovenMax.Some? && txn.balance > s.ovenMax.value)
             && !oven.isLiquidated && Accrue(s, txn.now, oven).Success?) ==> r.Success?
    ensures r.Success? ==>
      && Synchronised(s, txn, oven, r.value)
      && r.value.effects == []
      && r.value.update.borrowedTokens == oven.borrowedTokens
      && r.value.update.stabilityFeeTokens == NewFee(s, txn, oven) >= oven.stabilityFeeTokens
      && !r.value.update.isLiquidated
      && r.value.update.sendAmount == txn.balance
      && (s.ovenMax.Some? ==> r.value.update.sendAmount <= s.ovenMax.value)
  {
    if txn.sender != s.ovenProxyContractAddress then Failure(NotOvenProxy)
    else if s.ovenMax.Some? && txn.balance > s.ovenMax.value then Failure(OvenMaximumExceeded)
    else if oven.isLiquidated then Failure(OvenLiquidated)
    else
      var a :- Accrue(s, txn.now, oven);
      AdvanceIsIndexAdvanced(s, txn.now);
      Success(OvenStep(
        Advance(s, a.refresh),
        [],
        OvenUpdate(oven.ovenAddress, oven.borrowedTokens, a.stabilityFeeTokens,
                   a.refresh.interestIndex, oven.isLiquidated, txn.balance)))
  }

  /** withdraw: sends `mutezToWithdraw` to the owner and returns the rest of the
      oven's collateral to it. There is no liquidated-oven guard. When the oven owes
      anything, the collateral left behind must keep it collateralized. */
  function Withdraw(s: Storage, txn: Txn, oven: Oven, oraclePrice: nat, mutezToWithdraw: nat): (r: Result<OvenStep>)
    ensures txn.sender != s.ovenProxyContractAddress ==> r == Failure(NotOvenProxy)
    ensures r.Success? ==>
      var u := r.value.update;
      && Synchronised(s, txn, oven, r.value)
      && mutezToWithdraw * MUTEZ_TO_KOLIBRI_CONVERSION <= oven.ovenBalance
      && r.value.effects == [Send(oven.ownerAddress, mutezToWithdraw)]
      && u.sendAmount + mutezToWithdraw == oven.ovenBalance / MUTEZ_TO_KOLIBRI_CONVERSION
      && oven.ovenBalance / MUTEZ_TO_KOLIBRI_CONVERSION <= MAX_MUTEZ
      && u.borrowedTokens == oven.borrowedTokens
      && u.stabilityFeeTokens == NewFee(s, txn, oven) >= oven.stabilityFeeTokens
      && u.isLiquidated == oven.isLiquidated
      && Collateralized(oven.ovenBalance - mutezToWithdraw * MUTEZ_TO_KOLIBRI_CONVERSION, oraclePrice,
                        u.borrowedTokens + u.stabilityFeeTokens, s.collateralizationPercentage)
  {
    if txn.sender != s.ovenProxyContractAddress then Failure(NotOvenProxy)
    else
      var a :- Accrue(s, txn.now, oven);
      var totalOutstandingTokens := oven.borrowedTokens + a.stabilityFeeTokens;
      var withdrawAmount := mutezToWithdraw * MUTEZ_TO_KOLIBRI_CONVERSION;
      if totalOutstandingTokens > 0 && withdrawAmount > oven.ovenBalance then Failure(ArithmeticFailure)
      else if totalOutstandingTokens > 0
              && CollateralizationPercentage(oven.ovenBalance - withdrawAmount, oraclePrice, totalOutstandingTokens).value
                 < s.collateralizationPercentage
      then Failure(OvenUnderCollateralized)
      else if oven.ovenBalance / MUTEZ_TO_KOLIBRI_CONVERSION > MAX_MUTEZ then Failure(MutezOverflow)
      else if mutezToWithdraw > oven.ovenBalance / MUTEZ_TO_KOLIBRI_CONVERSION then Failure(MutezUnderflow)
      else
        WithinBalance(oven.ovenBalance, mutezToWithdraw);
        AdvanceIsIndexAdvanced(s, txn.now);
        Success(OvenStep(
          Advance(s, a.refresh),
          [Send(oven.ownerAddress, mutezToWithdraw)],
          OvenUpdate(oven.ovenAddress, oven.borrowedTokens, a.stabilityFeeTokens, a.refresh.interestIndex,
                     oven.isLiquidated, oven.ovenBalance / MUTEZ_TO_KOLIBRI_CONVERSION - mutezToWithdraw)))
  }

  /** A withdrawal fits in the oven's balance in Kolibri units exactly when it fits
      in the balance rounded down to whole mutez. */
  lemma WithinBalance(ovenBalance: nat, mutez: nat)
    ensures mutez * MUTEZ_TO_KOLIBRI_CONVERSION <= ovenBalance <==> mutez <= ovenBalance / MUTEZ_TO_KOLIBRI_CONVERSION
  {
    var c := MUTEZ_TO_KOLIBRI_CONVERSION;
    DivBounds(ovenBalance, c);
    if mutez <= ovenBalance / c {
      MulLe(mutez, ovenBalance / c, c);
    } else {
      MulLe(ovenBalance / c + 1, mutez, c);
      assert (ovenBalance / c + 1) * c == (ovenBalance / c) * c + c;
    }
  }

  /** The fee charged on top of the outstanding debt when an oven is liquidated. */
  function LiquidationFee(s: Storage, outstanding: nat): (r: nat)
    ensures r * PRECISION <= outstanding * s.liquidationFeePercent < r * PRECISION + PRECISION
  {
    DivBounds(outstanding * s.liquidationFeePercent, PRECISION);
    (outstanding * s.liquidationFeePercent) / PRECISION
  }

  /** The effects of a liquidation: the liquidator burns the debt and the
      liquidation fee, the fees are minted to the two funds, and the whole
      collateral (converted to mutez, which must fit in 64 bits) is sent to the
      liquidator. */
  function LiquidationEffects(s: Storage, liquidatorAddress: Address, outstanding: nat,
                              liquidationFee: nat, fees: nat, ovenBalance: nat): (r: Result<seq<Effect>>)
    ensures r.Success? <==>
      FundMints(s, fees).Success? && ovenBalance / MUTEZ_TO_KOLIBRI_CONVERSION <= MAX_MUTEZ
    ensures r.Success? ==>
      && |r.value| == 4
      && r.value[0] == Burn(liquidatorAddress, outstanding + liquidationFee)
      && r.value[1].Mint? && r.value[1].to == s.developerFundContractAddress
      && r.value[2].Mint? && r.value[2].to == s.stabilityFundContractAddress
      && r.value[1].tokens + r.value[2].tokens == fees
      && DevShare(r.value[1].tokens, fees, s.stabilityDevFundSplit)
      && r.value[3] == Send(liquidatorAddress, ovenBalance / MUTEZ_TO_KOLIBRI_CONVERSION)
  {
    var mints :- FundMints(s, fees);
    if ovenBalance / MUTEZ_TO_KOLIBRI_CONVERSION > MAX_MUTEZ then Failure(MutezOverflow)
    else
      var effects := [Burn(liquidatorAddress, outstanding + liquidationFee)] + mints
        + [Send(liquidatorAddress, ovenBalance / MUTEZ_TO_KOLIBRI_CONVERSION)];
      assert effects[1] == mints[0] && effects[2] == mints[1];
      Success(effects)
  }

  /** liquidate: an oven strictly below the minimum percentage is closed. The
      liquidator burns its debt plus the liquidation fee, the fee part of that is
      minted to the funds, the liquidator receives all the collateral and the oven
      is left empty and marked liquidated. */
  function Liquidate(s: Storage, txn: Txn, oven: Oven, oraclePrice: nat, liquidatorAddress: Address): (r: Result<OvenStep>)
    ensures txn.sender != s.ovenProxyContractAddress ==> r == Failure(NotOvenProxy)
    ensures txn.sender == s.ovenProxyContractAddress && oven.isLiquidated ==> r == Failure(OvenLiquidated)
    ensures r.Success? ==> Accrue(s, txn.now, oven).Success?
    ensures r.Success? ==> Liquidated(s, txn, oven, Accrue(s, txn.now, oven).value, oraclePrice, liquidatorAddress, r.value)
  {
    if txn.sender != s.ovenProxyContractAddress then Failure(NotOvenProxy)
    else if oven.isLiquidated then Failure(OvenLiquidated)
    else
      var a :- Accrue(s, txn.now, oven);
      CloseOven(s, txn, oven, a, oraclePrice, liquidatorAddress)
  }

  /** What a successful liquidation does, given the accrual `a` of the call:
      only an oven that owes something and is strictly below the minimum is
      closed; it is left empty and marked liquidated, the liquidator burns the
      debt plus the liquidation fee, the fees are minted to the two funds, and
      the whole collateral, which must fit in a mutez amount, goes to the
      liquidator. */
  predicate Liquidated(s: Storage, txn: Txn, oven: Oven, a: Accrual, oraclePrice: nat,
                       liquidatorAddress: Address, step: OvenStep)
  {
    var outstanding := oven.borrowedTokens + a.stabilityFeeTokens;
    var fee := LiquidationFee(s, outstanding);
    && Synchronised(s, txn, oven, step)
    && outstanding > 0
    && CollateralizationPercentage(oven.ovenBalance, oraclePrice, outstanding).value < s.collateralizationPercentage
    && step.update.borrowedTokens == 0
    && step.update.stabilityFeeTokens == 0
    && step.update.isLiquidated
    && step.update.sendAmount == 0
    && |step.effects| == 4
    && step.effects[0] == Burn(liquidatorAddress, outstanding + fee)
    && step.effects[1].Mint? && step.effects[1].to == s.developerFundContractAddress
    && step.effects[2].Mint? && step.effects[2].to == s.stabilityFundContractAddress
    && step.effects[1].tokens + step.effects[2].tokens == a.stabilityFeeTokens + fee
    && DevShare(step.effects[1].tokens, a.stabilityFeeTokens + fee, s.stabilityDevFundSplit)
    && oven.ovenBalance / MUTEZ_TO_KOLIBRI_CONVERSION <= MAX_MUTEZ
    && step.effects[3] == Send(liquidatorAddress, oven.ovenBalance / MUTEZ_TO_KOLIBRI_CONVERSION)
  }

  /** The part of liquidate after the fee has accrued to `a`. */
  function CloseOven(s: Storage, txn: Txn, oven: Oven, a: Accrual, oraclePrice: nat,
                     liquidatorAddress: Address): (r: Result<OvenStep>)
    requires RefreshIndex(s, txn.now) == Success(a.refresh)
    ensures r.Success? ==> Liquidated(s, txn, oven, a, oraclePrice, liquidatorAddress, r.value)
  {
    var totalOutstandingTokens := oven.borrowedTokens + a.stabilityFeeTokens;
    var collateralizationPercentage :- CollateralizationPercentage(oven.ovenBalance, oraclePrice, totalOutstandingTokens);
    if collateralizationPercentage >= s.collateralizationPercentage then Failure(NotUnderCollateralized)
    else
      var liquidationFee := LiquidationFee(s, totalOutstandingTokens);
      var effects :- LiquidationEffects(s, liquidatorAddress, totalOutstandingTokens, liquidationFee,
                                        a.stabilityFeeTokens + liquidationFee, oven.ovenBalance);
      AdvanceIsIndexAdvanced(s, txn.now);
      Success(OvenStep(
        Advance(s, a.refresh),
        effects,
        OvenUpdate(oven.ovenAddress, 0, 0, a.refresh.interestIndex, true, 0)))
  }

  /** updateParams: the governor sets new fee, liquidation fee, minimum percentage
      and oven maximum, after the index has been compounded at the old fee. */
  function UpdateParams(s: Storage, txn: Txn, params: Params): (r: Result<Storage>)
    ensures txn.sender != s.governorContractAddress ==> r == Failure(NotGovernor)
    ensures txn.sender == s.governorContractAddress ==> (r.Success? <==> txn.now >= s.lastInterestIndexUpdateTime)
    ensures r.Success? ==>
      && r.value.stabilityFee == params.stabilityFee
      && r.value.liquidationFeePercent == params.liquidationFeePercent
      && r.value.collateralizationPercentage == params.collateralizationPercentage
      && r.value.ovenMax == params.ovenMax
      // the index was advanced under the old parameters
      && IndexAdvanced(s, r.value.(stabilityFee := s.stabilityFee,
                                   liquidationFeePercent := s.liquidationFeePercent,
                                   collateralizationPercentage := s.collateralizationPercentage,
                                   ovenMax := s.ovenMax), txn.now)
      && r.value.interestIndex == RefreshIndex(s, txn.now).value.interestIndex
  {
    if txn.sender != s.governorContractAddress then Failure(NotGovernor)
    else
      var rf :- RefreshIndex(s, txn.now);
      AdvanceIsIndexAdvanced(s, txn.now);
      Success(Advance(s, rf).(stabilityFee := params.stabilityFee,
                              liquidationFeePercent := params.liquidationFeePercent,
                              collateralizationPercentage := params.collateralizationPercentage,
                              ovenMax := params.ovenMax))
  }
}
