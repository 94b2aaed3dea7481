/** Properties of the minter that relate several calls or state when a call succeeds:
    the index only grows and the update time only moves by whole periods, over any
    sequence of calls; refreshing twice at the same time changes nothing; each guard
    rejects exactly the calls it should; a liquidated oven stays liquidated; repay
    and liquidate never mint more than they burn. */
module MinterProperties {
  import opened MinterTypes
  import opened MinterMath
  import opened Minter
  import opened Arith

  // ---------------------------------------------------------------------------
  // Index engine
  // ---------------------------------------------------------------------------

  /** A second refresh at the same time consumes no period and leaves the index alone. */
  lemma RefreshIsIdempotent(s: Storage, now: int)
    requires now >= s.lastInterestIndexUpdateTime
    ensures var s2 := Advance(s, RefreshIndex(s, now).value);
            && RefreshIndex(s2, now).value.numPeriods == 0
            && Advance(s2, RefreshIndex(s2, now).value) == s2
  {
    var s2 := Advance(s, RefreshIndex(s, now).value);
    var delta := now - s2.lastInterestIndexUpdateTime;
    assert 0 <= delta < SECONDS_PER_COMPOUND;
    DivUnique(delta, SECONDS_PER_COMPOUND, 0);
  }

  /** The part of the elapsed time short of a whole period is carried to the next call. */
  lemma RefreshCarriesRemainder(s: Storage, now: int)
    requires now >= s.lastInterestIndexUpdateTime
    ensures now - RefreshIndex(s, now).value.lastUpdateTime
         == (now - s.lastInterestIndexUpdateTime) % SECONDS_PER_COMPOUND
  {
    var rf := RefreshIndex(s, now).value;
    var delta: nat := now - s.lastInterestIndexUpdateTime;
    assert rf.numPeriods * SECONDS_PER_COMPOUND <= delta < rf.numPeriods * SECONDS_PER_COMPOUND + SECONDS_PER_COMPOUND;
    DivUnique(delta, SECONDS_PER_COMPOUND, rf.numPeriods);
  }

  /** Once a whole period has passed at a fee that earns at least one unit per period,
      the index strictly grows and the update time moves forward. */
  lemma RefreshGrowsAfterAPeriod(s: Storage, now: int)
    requires now >= s.lastInterestIndexUpdateTime + SECONDS_PER_COMPOUND
    requires s.interestIndex * s.stabilityFee >= PRECISION
    ensures RefreshIndex(s, now).value.interestIndex > s.interestIndex
    ensures RefreshIndex(s, now).value.lastUpdateTime > s.lastInterestIndexUpdateTime
  {
    var rf := RefreshIndex(s, now).value;
    var delta: nat := now - s.lastInterestIndexUpdateTime;
    DivMonotone(SECONDS_PER_COMPOUND, delta, SECONDS_PER_COMPOUND);
    MulDivCancel(1, SECONDS_PER_COMPOUND);
    assert rf.numPeriods >= 1;
    CompoundMonotoneInPeriods(s.interestIndex, s.stabilityFee, 1, rf.numPeriods);
    MulDivCancel(1, PRECISION);
    DivMonotone(PRECISION, s.interestIndex * 1 * s.stabilityFee, PRECISION);
  }

  // ---------------------------------------------------------------------------
  // Any sequence of calls
  // ---------------------------------------------------------------------------

  /** One call to any entry point except updateContracts. */
  datatype Request =
    | GetInterestIndexCall(callback: Address)
    | BorrowCall(oven: Oven, oraclePrice: nat, tokensToBorrow: nat)
    | RepayCall(oven: Oven, tokensToRepay: nat)
    | DepositCall(oven: Oven)
    | WithdrawCall(oven: Oven, oraclePrice: nat, mutezToWithdraw: nat)
    | LiquidateCall(oven: Oven, oraclePrice: nat, liquidatorAddress: Address)
    | UpdateParamsCall(params: Params)
  {
    predicate IsOvenCall() {
      !GetInterestIndexCall? && !UpdateParamsCall?
    }
  }

  /** The index and update time of `s2` are those of `s` moved forward by whole periods. */
  predicate ClockAdvanced(s: Storage, s2: Storage)
  {
    && s.interestIndex <= s2.interestIndex
    && s.lastInterestIndexUpdateTime <= s2.lastInterestIndexUpdateTime
    && (s2.lastInterestIndexUpdateTime - s.lastInterestIndexUpdateTime) % SECONDS_PER_COMPOUND == 0
  }

  /** The oven operation a request names. */
  function OvenCall(s: Storage, txn: Txn, req: Request): Result<OvenStep>
    requires req.IsOvenCall()
  {
    match req
    case BorrowCall(oven, price, amount) => Borrow(s, txn, oven, price, amount)
    case RepayCall(oven, amount) => Repay(s, txn, oven, amount)
    case DepositCall(oven) => Deposit(s, txn, oven)
    case WithdrawCall(oven, price, amount) => Withdraw(s, txn, oven, price, amount)
    case LiquidateCall(oven, price, liquidator) => Liquidate(s, txn, oven, price, liquidator)
  }

  /** The storage after one call, when it succeeds. */
  function Execute(s: Storage, txn: Txn, req: Request): (r: Result<Storage>)
    ensures r.Success? ==> ClockAdvanced(s, r.value)
  {
    match req
    case GetInterestIndexCall(callback) =>
      var step :- GetInterestIndex(s, txn, callback);
      Success(step.storage)
    case UpdateParamsCall(params) => UpdateParams(s, txn, params)
    case _ =>
      var step :- OvenCall(s, txn, req);
      Success(step.storage)
  }

  /** The storage after a sequence of calls; a failing call is rolled back. */
  function Run(s: Storage, calls: seq<(Txn, Request)>): Storage
    decreases |calls|
  {
    if calls == [] then s
    else
      var r := Execute(s, calls[0].0, calls[0].1);
      Run(if r.Success? then r.value else s, calls[1..])
  }

  /** Over any sequence of calls the index never decreases and the update time only
      moves forward by whole periods. */
  lemma {:induction false} RunAdvancesClock(s: Storage, calls: seq<(Txn, Request)>)
    ensures ClockAdvanced(s, Run(s, calls))
    decreases |calls|
  {
    if calls == [] {
    } else {
      var r := Execute(s, calls[0].0, calls[0].1);
      var s1 := if r.Success? then r.value else s;
      assert ClockAdvanced(s, s1);
      RunAdvancesClock(s1, calls[1..]);
      ClockAdvancedTransitive(s, s1, Run(s1, calls[1..]));
    }
  }

  lemma ClockAdvancedTransitive(s1: Storage, s2: Storage, s3: Storage)
    requires ClockAdvanced(s1, s2) && ClockAdvanced(s2, s3)
    ensures ClockAdvanced(s1, s3)
  {
    ModSum(s2.lastInterestIndexUpdateTime - s1.lastInterestIndexUpdateTime,
           s3.lastInterestIndexUpdateTime - s2.lastInterestIndexUpdateTime, SECONDS_PER_COMPOUND);
  }

  /** A liquidated oven stays liquidated: every operation on it fails except
      withdraw, which reports it as still liquidated. */
  lemma LiquidatedIsTerminal(s: Storage, txn: Txn, req: Request)
    requires req.IsOvenCall() && req.oven.isLiquidated
    ensures OvenCall(s, txn, req).Success? ==>
      req.WithdrawCall? && OvenCall(s, txn, req).value.update.isLiquidated
  {
  }

  // ---------------------------------------------------------------------------
  // Governance
  // ---------------------------------------------------------------------------

  /** New rates never apply to time before the update: the index that updateParams
      leaves behind does not depend on the parameters it sets. */
  lemma UpdateParamsNotRetroactive(s: Storage, txn: Txn, p1: Params, p2: Params)
    requires UpdateParams(s, txn, p1).Success?
    ensures UpdateParams(s, txn, p2).Success?
    ensures UpdateParams(s, txn, p1).value.interestIndex == UpdateParams(s, txn, p2).value.interestIndex
    ensures UpdateParams(s, txn, p1).value.lastInterestIndexUpdateTime
         == UpdateParams(s, txn, p2).value.lastInterestIndexUpdateTime
  {
  }

  // ---------------------------------------------------------------------------
  // Guards reject exactly what they should
  // ---------------------------------------------------------------------------

  /** Borrow on a live oven whose fee accrues succeeds exactly when the oven, with
      the new principal and refreshed fee, is collateralized. */
  lemma BorrowRejectsExactlyUnderCollateralized(s: Storage, txn: Txn, oven: Oven, oraclePrice: nat, tokensToBorrow: nat)
    requires txn.sender == s.ovenProxyContractAddress && !oven.isLiquidated
    requires Accrue(s, txn.now, oven).Success?
    ensures Borrow(s, txn, oven, oraclePrice, tokensToBorrow).Success?
        <==> Collateralized(oven.ovenBalance, oraclePrice,
                            oven.borrowedTokens + tokensToBorrow + NewFee(s, txn, oven), s.collateralizationPercentage)
    ensures Borrow(s, txn, oven, oraclePrice, tokensToBorrow).Failure?
        ==> Borrow(s, txn, oven, oraclePrice, tokensToBorrow).error == OvenUnderCollateralized
  {
  }

  /** Withdraw of an amount within the oven's balance succeeds exactly when the
      collateral left behind keeps the oven collateralized (or it owes nothing) and
      the balance in mutez fits a mutez amount. */
  lemma WithdrawRejectsExactlyUnderCollateralized(s: Storage, txn: Txn, oven: Oven, oraclePrice: nat, mutezToWithdraw: nat)
    requires txn.sender == s.ovenProxyContractAddress
    requires Accrue(s, txn.now, oven).Success?
    requires mutezToWithdraw * MUTEZ_TO_KOLIBRI_CONVERSION <= oven.ovenBalance
    ensures Withdraw(s, txn, oven, oraclePrice, mutezToWithdraw).Success?
        <==> && Collateralized(oven.ovenBalance - mutezToWithdraw * MUTEZ_TO_KOLIBRI_CONVERSION, oraclePrice,
                               oven.borrowedTokens + NewFee(s, txn, oven), s.collateralizationPercentage)
             && oven.ovenBalance / MUTEZ_TO_KOLIBRI_CONVERSION <= MAX_MUTEZ
  {
    WithinBalance(oven.ovenBalance, mutezToWithdraw);
  }

  /** Withdrawing more than the oven holds always fails, liquidated or not. */
  lemma WithdrawBeyondBalanceFails(s: Storage, txn: Txn, oven: Oven, oraclePrice: nat, mutezToWithdraw: nat)
    requires mutezToWithdraw * MUTEZ_TO_KOLIBRI_CONVERSION > oven.ovenBalance
    ensures Withdraw(s, txn, oven, oraclePrice, mutezToWithdraw).Failure?
  {
  }

  /** A liquidated oven that owes nothing may still withdraw any amount within its
      balance, as long as that balance fits a mutez amount. */
  lemma WithdrawFromLiquidatedOven(s: Storage, txn: Txn, oven: Oven, oraclePrice: nat, mutezToWithdraw: nat)
    requires txn.sender == s.ovenProxyContractAddress && txn.now >= s.lastInterestIndexUpdateTime
    requires oven.isLiquidated && WellSequenced(s, oven)
    requires oven.borrowedTokens == 0 && oven.stabilityFeeTokens == 0
    requires mutezToWithdraw <= oven.ovenBalance / MUTEZ_TO_KOLIBRI_CONVERSION
    ensures Withdraw(s, txn, oven, oraclePrice, mutezToWithdraw).Success?
        <==> oven.ovenBalance / MUTEZ_TO_KOLIBRI_CONVERSION <= MAX_MUTEZ
    ensures Withdraw(s, txn, oven, oraclePrice, mutezToWithdraw).Success?
        ==> Withdraw(s, txn, oven, oraclePrice, mutezToWithdraw).value.update.isLiquidated
  {
    WithinBalance(oven.ovenBalance, mutezToWithdraw);
    var a := Accrue(s, txn.now, oven).value;
    AccrualOfEmptyOven(oven.interestIndex, a.refresh.interestIndex);
  }

  lemma AccrualOfEmptyOven(ovenIndex: int, minterIndex: nat)
    requires 0 < ovenIndex <= minterIndex
    ensures AccruedInterest(ovenIndex, 0, 0, minterIndex) == Success(0)
  {
  }

  /** Repay on a live oven whose fee accrues succeeds exactly when it does not
      exceed the debt (for any fund split up to 100%). */
  lemma RepayRejectsExactlyOverpayment(s: Storage, txn: Txn, oven: Oven, tokensToRepay: nat)
    requires txn.sender == s.ovenProxyContractAddress && !oven.isLiquidated
    requires Accrue(s, txn.now, oven).Success?
    requires s.stabilityDevFundSplit <= PRECISION
    ensures Repay(s, txn, oven, tokensToRepay).Success?
        <==> tokensToRepay <= oven.borrowedTokens + NewFee(s, txn, oven)
  {
  }

  /** Liquidation of a live oven that owes something succeeds exactly when its
      percentage is strictly below the minimum (and its collateral fits a mutez
      amount); one that owes nothing cannot be liquidated at all. */
  lemma LiquidateRequiresBreach(s: Storage, txn: Txn, oven: Oven, oraclePrice: nat, liquidator: Address)
    requires txn.sender == s.ovenProxyContractAddress && !oven.isLiquidated
    requires Accrue(s, txn.now, oven).Success?
    requires s.stabilityDevFundSplit <= PRECISION
    ensures oven.borrowedTokens + NewFee(s, txn, oven) == 0
        ==> Liquidate(s, txn, oven, oraclePrice, liquidator) == Failure(ArithmeticFailure)
    ensures oven.borrowedTokens + NewFee(s, txn, oven) > 0
        ==> (Liquidate(s, txn, oven, oraclePrice, liquidator).Success?
             <==> && CollateralizationPercentage(oven.ovenBalance, oraclePrice, oven.borrowedTokens + NewFee(s, txn, oven)).value
                     < s.collateralizationPercentage
                  && oven.ovenBalance / MUTEZ_TO_KOLIBRI_CONVERSION <= MAX_MUTEZ)
  {
  }

  /** Deposit into a live, well-sequenced oven under the maximum always succeeds. */
  lemma DepositSucceeds(s: Storage, txn: Txn, oven: Oven)
    requires txn.sender == s.ovenProxyContractAddress && !oven.isLiquidated
    requires s.ovenMax.None? || txn.balance <= s.ovenMax.value
    requires txn.now >= s.lastInterestIndexUpdateTime && WellSequenced(s, oven)
    ensures Deposit(s, txn, oven).Success?
  {
  }

  // ---------------------------------------------------------------------------
  // Token conservation
  // ---------------------------------------------------------------------------

  lemma MintedBurnedAppend(a: seq<Effect>, b: seq<Effect>)
    ensures Minted(a + b) == Minted(a) + Minted(b)
    ensures Burned(a + b) == Burned(a) + Burned(b)
  {
    if a == [] {
      assert a + b == b;
    } else {
      assert (a + b)[1..] == a[1..] + b;
      MintedBurnedAppend(a[1..], b);
    }
  }

  lemma MintedBurnedSingle(e: Effect)
    ensures Minted([e]) == (if e.Mint? then e.tokens else 0)
    ensures Burned([e]) == (if e.Burn? then e.tokens else 0)
  {
    assert [e][1..] == [];
  }

  lemma MintedBurnedOf(effects: seq<Effect>)
    requires |effects| <= 4
    ensures Minted(effects) == (if |effects| > 0 && effects[0].Mint? then effects[0].tokens else 0)
                             + (if |effects| > 1 && effects[1].Mint? then effects[1].tokens else 0)
                             + (if |effects| > 2 && effects[2].Mint? then effects[2].tokens else 0)
                             + (if |effects| > 3 && effects[3].Mint? then effects[3].tokens else 0)
    ensures Burned(effects) == (if |effects| > 0 && effects[0].Burn? then effects[0].tokens else 0)
                             + (if |effects| > 1 && effects[1].Burn? then effects[1].tokens else 0)
                             + (if |effects| > 2 && effects[2].Burn? then effects[2].tokens else 0)
                             + (if |effects| > 3 && effects[3].Burn? then effects[3].tokens else 0)
  {
    if |effects| > 0 {
      assert effects == [effects[0]] + effects[1..];
      MintedBurnedAppend([effects[0]], effects[1..]);
      MintedBurnedSingle(effects[0]);
      MintedBurnedOf(effects[1..]);
    }
  }

  /** Repay burns exactly what it mints to the funds plus the principal it retires,
      so it never mints more than it burns. */
  lemma RepayConservesTokens(s: Storage, txn: Txn, oven: Oven, tokensToRepay: nat)
    requires Repay(s, txn, oven, tokensToRepay).Success?
    ensures var step := Repay(s, txn, oven, tokensToRepay).value;
            && Burned(step.effects) == tokensToRepay
            && Burned(step.effects) == Minted(step.effects) + (oven.borrowedTokens - step.update.borrowedTokens)
  {
    MintedBurnedOf(Repay(s, txn, oven, tokensToRepay).value.effects);
  }

  /** Liquidation burns exactly what it mints to the funds plus the oven's principal. */
  lemma LiquidationConservesTokens(s: Storage, txn: Txn, oven: Oven, oraclePrice: nat, liquidator: Address)
    requires Liquidate(s, txn, oven, oraclePrice, liquidator).Success?
    ensures var step := Liquidate(s, txn, oven, oraclePrice, liquidator).value;
            Burned(step.effects) == Minted(step.effects) + oven.borrowedTokens
  {
    MintedBurnedOf(Liquidate(s, txn, oven, oraclePrice, liquidator).value.effects);
  }
}
