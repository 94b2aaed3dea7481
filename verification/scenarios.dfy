/** The concrete expectations of the contract's own test scenarios, stated against
    the model. Amounts written `N * PRECISION / 10` are decimal fixed-point values. */
module MinterScenarios {
  import opened MinterTypes
  import opened MinterMath
  import opened Minter
  import opened Arith

  /** The storage the contract is originated with when no argument is overridden. */
  function InitialStorage(governor: Address, token: Address, ovenProxy: Address,
                          stabilityFund: Address, developerFund: Address): Storage
  {
    Storage(
      governorContractAddress := governor,
      tokenContractAddress := token,
      ovenProxyContractAddress := ovenProxy,
      stabilityFundContractAddress := stabilityFund,
      developerFundContractAddress := developerFund,
      collateralizationPercentage := 200 * PRECISION,
      stabilityFee := 0,
      lastInterestIndexUpdateTime := 1601871456,
      interestIndex := PRECISION,
      stabilityDevFundSplit := PRECISION / 10,
      liquidationFeePercent := 8 * PRECISION / 100,
      ovenMax := Some(100_000_000)
    )
  }

  /** Two periods back to back compound (1.1, then 1.21); two periods in one update
      are linear (1.2, not 1.21). */
  lemma CompoundScenarios()
    ensures Compound(PRECISION, PRECISION / 10, 1) == 11 * PRECISION / 10
    ensures Compound(11 * PRECISION / 10, PRECISION / 10, 1) == 121 * PRECISION / 100
    ensures Compound(PRECISION, PRECISION / 10, 2) == 12 * PRECISION / 10
  {
  }

  /** Accrual of an oven owing 100 (plus fee), evaluated step by step. */
  lemma AccruedInterestScenario(ovenIndex: nat, borrowed: nat, fee: nat, minterIndex: nat, ratio: nat, expected: nat)
    requires ovenIndex > 0
    requires ratio * ovenIndex == minterIndex * PRECISION
    requires ratio * (borrowed + fee) == (borrowed + fee + expected) * PRECISION
    ensures AccruedInterest(ovenIndex, borrowed, fee, minterIndex) == Success(expected)
  {
    DivUnique(minterIndex * PRECISION, ovenIndex, ratio);
    MulDivCancel(borrowed + fee + expected, PRECISION);
  }

  lemma AccruedInterestScenarios()
    ensures AccruedInterest(PRECISION, 100 * PRECISION, 0, 11 * PRECISION / 10) == Success(10 * PRECISION)
    ensures AccruedInterest(11 * PRECISION / 10, 100 * PRECISION, 10 * PRECISION, 121 * PRECISION / 100) == Success(11 * PRECISION)
    ensures AccruedInterest(PRECISION, 100 * PRECISION, 0, 121 * PRECISION / 100) == Success(21 * PRECISION)
    ensures AccruedInterest(11 * PRECISION / 10, 100 * PRECISION, 0, 121 * PRECISION / 100) == Success(10 * PRECISION)
    ensures AccruedInterest(121 * PRECISION / 100, 100 * PRECISION, 10 * PRECISION, 1331 * PRECISION / 1000) == Success(11 * PRECISION)
    ensures AccruedInterest(11 * PRECISION / 10, 100 * PRECISION, 0, 1331 * PRECISION / 1000) == Success(21 * PRECISION)
  {
    AccruedInterestScenario(PRECISION, 100 * PRECISION, 0, 11 * PRECISION / 10, 11 * PRECISION / 10, 10 * PRECISION);
    AccruedInterestScenario(11 * PRECISION / 10, 100 * PRECISION, 10 * PRECISION, 121 * PRECISION / 100, 11 * PRECISION / 10, 11 * PRECISION);
    AccruedInterestScenario(PRECISION, 100 * PRECISION, 0, 121 * PRECISION / 100, 121 * PRECISION / 100, 21 * PRECISION);
    AccruedInterestScenario(11 * PRECISION / 10, 100 * PRECISION, 0, 121 * PRECISION / 100, 11 * PRECISION / 10, 10 * PRECISION);
    AccruedInterestScenario(121 * PRECISION / 100, 100 * PRECISION, 10 * PRECISION, 1331 * PRECISION / 1000, 11 * PRECISION / 10, 11 * PRECISION);
    AccruedInterestScenario(11 * PRECISION / 10, 100 * PRECISION, 0, 1331 * PRECISION / 1000, 121 * PRECISION / 100, 21 * PRECISION);
  }

  /** An oven holding 2 XTZ at $1 against $1 of debt sits exactly at 200%. */
  lemma ExactlyTwoHundredPercent()
    ensures CollateralizationPercentage(2 * PRECISION, PRECISION, PRECISION) == Success(200 * PRECISION)
  {
  }

  /** ...and so cannot be liquidated under the default 200% minimum. */
  lemma OvenAtMinimumIsNotLiquidated(txn: Txn, liquidator: Address)
    requires txn.sender == "proxy" && txn.now >= 1601871456
    ensures Liquidate(InitialStorage("governor", "token", "proxy", "stability", "developer"), txn,
                      Oven("oven", "owner", 2 * PRECISION, PRECISION, false, 0, PRECISION), PRECISION, liquidator)
         == Failure(NotUnderCollateralized)
  {
    var s := InitialStorage("governor", "token", "proxy", "stability", "developer");
    var a := Accrue(s, txn.now, Oven("oven", "owner", 2 * PRECISION, PRECISION, false, 0, PRECISION));
    assert a.Success? && a.value.stabilityFeeTokens == 0;
    ExactlyTwoHundredPercent();
  }

  /** Borrowing $2 against 2 XTZ at $1 leaves the oven at 100%: rejected. */
  lemma BorrowUnderCollateralizedScenario(txn: Txn)
    requires txn.sender == "proxy" && txn.now >= 1601871456
    ensures Borrow(InitialStorage("governor", "token", "proxy", "stability", "developer"), txn,
                   Oven("oven", "owner", 2 * PRECISION, 0, false, 0, PRECISION), PRECISION, 2 * PRECISION)
         == Failure(OvenUnderCollateralized)
  {
  }

  /** Depositing 100.000001 XTZ over a 100 XTZ maximum is rejected. */
  lemma DepositOverMaximumScenario(txn: Txn)
    requires txn.sender == "proxy" && txn.balance == 100_000_001
    ensures Deposit(InitialStorage("governor", "token", "proxy", "stability", "developer"), txn,
                    Oven("oven", "owner", 100_000_001_000_000_000_000, 2, false, 0, PRECISION))
         == Failure(OvenMaximumExceeded)
  {
  }

  /** Repaying 4 against a fee of 5 (split 25%): the fee drops to 1, the principal
      stays at 12, the developer fund gets 1 and the stability fund 3. */
  lemma RepayLessThanFeeScenario(txn: Txn)
    requires txn.sender == "proxy" && txn.now >= 1601871456
    ensures var s := InitialStorage("governor", "token", "proxy", "stability", "developer")
                       .(stabilityDevFundSplit := PRECISION / 4);
            var r := Repay(s, txn, Oven("oven", "owner", PRECISION, 12, false, 5, PRECISION), 4);
            && r.Success?
            && r.value.update.stabilityFeeTokens == 1
            && r.value.update.borrowedTokens == 12
            && r.value.effects == [Mint("developer", 1), Mint("stability", 3), Burn("owner", 4)]
  {
    var s := InitialStorage("governor", "token", "proxy", "stability", "developer").(stabilityDevFundSplit := PRECISION / 4);
    assert NewFee(s, txn, Oven("oven", "owner", PRECISION, 12, false, 5, PRECISION)) == 5;
  }

  /** Repaying 8 against a fee of 4 and principal 12: the fee is cleared and the
      principal drops to 8. */
  lemma RepayMoreThanFeeScenario(txn: Txn)
    requires txn.sender == "proxy" && txn.now >= 1601871456
    ensures var s := InitialStorage("governor", "token", "proxy", "stability", "developer")
                       .(stabilityDevFundSplit := PRECISION / 4);
            var r := Repay(s, txn, Oven("oven", "owner", PRECISION, 12, false, 4, PRECISION), 8);
            && r.Success?
            && r.value.update.stabilityFeeTokens == 0
            && r.value.update.borrowedTokens == 8
            && r.value.effects == [Mint("developer", 1), Mint("stability", 3), Burn("owner", 8)]
  {
    var s := InitialStorage("governor", "token", "proxy", "stability", "developer").(stabilityDevFundSplit := PRECISION / 4);
    assert NewFee(s, txn, Oven("oven", "owner", PRECISION, 12, false, 4, PRECISION)) == 4;
  }

  /** Repaying twice the debt fails. */
  lemma RepayMoreThanOwedScenario(txn: Txn)
    requires txn.sender == "proxy" && txn.now >= 1601871456
    ensures Repay(InitialStorage("governor", "token", "proxy", "stability", "developer"), txn,
                  Oven("oven", "owner", PRECISION, 12, false, 5, PRECISION), 34).Failure?
  {
    var s := InitialStorage("governor", "token", "proxy", "stability", "developer");
    assert NewFee(s, txn, Oven("oven", "owner", PRECISION, 12, false, 5, PRECISION)) == 5;
  }

  /** One period after time 0 at a 10% fee, with the index at 1.1: updateParams
      compounds at the old fee to 1.21 before installing the new fee. */
  lemma UpdateParamsScenario()
    ensures var s := InitialStorage("governor", "token", "proxy", "stability", "developer")
                       .(stabilityFee := PRECISION / 10, lastInterestIndexUpdateTime := 0,
                         interestIndex := 11 * PRECISION / 10);
            var r := UpdateParams(s, Txn("governor", 0, 0, SECONDS_PER_COMPOUND), Params(1, 2, 3, Some(4_000_000)));
            && r.Success?
            && r.value.interestIndex == 121 * PRECISION / 100
            && r.value.lastInterestIndexUpdateTime == SECONDS_PER_COMPOUND
            && r.value.stabilityFee == 1
  {
    MulDivCancel(1, SECONDS_PER_COMPOUND);
  }

  /** The storage and oven of the liquidation scenario below. */
  function TenPercentStorage(): Storage
  {
    InitialStorage("governor", "token", "proxy", "stability", "developer")
      .(stabilityFee := PRECISION / 10, lastInterestIndexUpdateTime := 0)
  }

  function UnderwaterOven(): Oven
  {
    Oven("oven", "owner", PRECISION, 90 * PRECISION, false, 10 * PRECISION, PRECISION)
  }

  /** One period in, the index is 1.1 and the oven's fee has grown from 10 to 20. */
  lemma UnderwaterOvenAccrual()
    ensures Accrue(TenPercentStorage(), SECONDS_PER_COMPOUND, UnderwaterOven())
         == Success(Accrual(Refresh(1, 11 * PRECISION / 10, SECONDS_PER_COMPOUND), 20 * PRECISION))
  {
    MulDivCancel(1, SECONDS_PER_COMPOUND);
    assert RefreshIndex(TenPercentStorage(), SECONDS_PER_COMPOUND)
        == Success(Refresh(1, 11 * PRECISION / 10, SECONDS_PER_COMPOUND));
    AccruedInterestScenario(PRECISION, 90 * PRECISION, 10 * PRECISION, 11 * PRECISION / 10, 11 * PRECISION / 10, 10 * PRECISION);
  }

  /** With 110 outstanding, the liquidation fee is 8.8 and the 28.8 minted is split
      2.88 to the developer fund and 25.92 to the stability fund. */
  lemma UnderwaterOvenFees()
    ensures CollateralizationPercentage(PRECISION, PRECISION, 110 * PRECISION) == Success(909090909090909000)
    ensures LiquidationFee(TenPercentStorage(), 110 * PRECISION) == 88 * PRECISION / 10
    ensures FundMints(TenPercentStorage(), 288 * PRECISION / 10)
         == Success([Mint("developer", 288 * PRECISION / 100), Mint("stability", 2592 * PRECISION / 100)])
  {
    assert SplitFunds(288 * PRECISION / 10, PRECISION / 10) == Success(FundSplit(288 * PRECISION / 100, 2592 * PRECISION / 100));
  }

  /** The liquidator burns 110 plus the 8.8 fee and receives the whole balance. */
  lemma UnderwaterOvenEffects(liquidator: Address)
    ensures LiquidationEffects(TenPercentStorage(), liquidator, 110 * PRECISION, 88 * PRECISION / 10,
                               288 * PRECISION / 10, PRECISION)
         == Success([Burn(liquidator, 1188 * PRECISION / 10),
                     Mint("developer", 288 * PRECISION / 100),
                     Mint("stability", 2592 * PRECISION / 100),
                     Send(liquidator, PRECISION / MUTEZ_TO_KOLIBRI_CONVERSION)])
  {
    UnderwaterOvenFees();
    DivAntitone(PRECISION, 1, MUTEZ_TO_KOLIBRI_CONVERSION);
    assert [Burn(liquidator, 110 * PRECISION + 88 * PRECISION / 10)]
           + [Mint("developer", 288 * PRECISION / 100), Mint("stability", 2592 * PRECISION / 100)]
           + [Send(liquidator, PRECISION / MUTEZ_TO_KOLIBRI_CONVERSION)]
        == [Burn(liquidator, 1188 * PRECISION / 10),
            Mint("developer", 288 * PRECISION / 100),
            Mint("stability", 2592 * PRECISION / 100),
            Send(liquidator, PRECISION / MUTEZ_TO_KOLIBRI_CONVERSION)];
  }

  /** One period after time 0 at a 10% fee, an oven owing 90 of principal and 10 of
      fee is liquidated: the index goes to 1.1, 10 more fee accrues, the liquidator
      burns 110 plus the 8% fee of 8.8, the funds share 28.8 (10% to the developer
      fund) and the liquidator receives the oven's whole balance. */
  lemma LiquidationScenario(liquidator: Address)
    ensures var r := Liquidate(TenPercentStorage(), Txn("proxy", 1_000_000, 1_000_000, SECONDS_PER_COMPOUND),
                               UnderwaterOven(), PRECISION, liquidator);
            && r.Success?
            && r.value.storage.interestIndex == 11 * PRECISION / 10
            && r.value.storage.lastInterestIndexUpdateTime == SECONDS_PER_COMPOUND
            && r.value.update == OvenUpdate("oven", 0, 0, 11 * PRECISION / 10, true, 0)
            && r.value.effects == [Burn(liquidator, 1188 * PRECISION / 10),
                                   Mint("developer", 288 * PRECISION / 100),
                                   Mint("stability", 2592 * PRECISION / 100),
                                   Send(liquidator, PRECISION / MUTEZ_TO_KOLIBRI_CONVERSION)]
  {
    UnderwaterOvenAccrual();
    UnderwaterOvenFees();
    UnderwaterOvenEffects(liquidator);
  }
}
