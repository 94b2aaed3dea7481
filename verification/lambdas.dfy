/** The pure fixed-point formulas of the minter: interest compounding, per-oven fee
    accrual, the collateralization percentage and the dev/stability fund split.
    Every operand is an unbounded natural number scaled by PRECISION, and every
    division is floor division. */
module MinterMath {
  import opened MinterTypes
  import opened Arith

  /** `sp.as_nat`: fails on a negative integer. */
  function AsNat(x: int): (r: Result<nat>)
    ensures r.Success? <==> x >= 0
    ensures r.Success? ==> r.value as int == x
  {
    if x < 0 then Failure(ArithmeticFailure) else Success(x)
  }

  /** Quotient of `sp.ediv(..).open_some()`: fails when the divisor is zero. */
  function EDiv(a: nat, b: nat): (r: Result<nat>)
    ensures r.Success? <==> b > 0
    ensures r.Success? ==> r.value * b <= a < r.value * b + b
  {
    if b == 0 then Failure(ArithmeticFailure) else DivBounds(a, b); Success(a / b)
  }

  // ---------------------------------------------------------------------------
  // compoundWithLinearApproximation
  // ---------------------------------------------------------------------------

  /** The index after `numPeriods` periods at `stabilityFee` per period, compounded
      by a linear approximation within one update: the result is the initial value
      plus simple (non-compounded) interest on it, rounded down. */
  function Compound(initialValue: nat, stabilityFee: nat, numPeriods: nat): (r: nat)
    ensures r == initialValue + (initialValue * numPeriods * stabilityFee) / PRECISION
    ensures r >= initialValue
    ensures numPeriods == 0 || stabilityFee == 0 ==> r == initialValue
  {
    CompoundIsSimpleInterest(initialValue, stabilityFee, numPeriods);
    (initialValue * (PRECISION + numPeriods * stabilityFee)) / PRECISION
  }

  lemma CompoundIsSimpleInterest(initialValue: nat, stabilityFee: nat, numPeriods: nat)
    ensures (initialValue * (PRECISION + numPeriods * stabilityFee)) / PRECISION
         == initialValue + (initialValue * numPeriods * stabilityFee) / PRECISION
  {
    assert initialValue * (PRECISION + numPeriods * stabilityFee)
        == initialValue * PRECISION + initialValue * numPeriods * stabilityFee;
    DivAddMultiple(initialValue, initialValue * numPeriods * stabilityFee, PRECISION);
  }

  /** More elapsed periods never give a smaller index. */
  lemma CompoundMonotoneInPeriods(initialValue: nat, stabilityFee: nat, n1: nat, n2: nat)
    requires n1 <= n2
    ensures Compound(initialValue, stabilityFee, n1) <= Compound(initialValue, stabilityFee, n2)
  {
    MulLe(n1, n2, initialValue * stabilityFee);
    assert initialValue * n1 * stabilityFee == n1 * (initialValue * stabilityFee);
    assert initialValue * n2 * stabilityFee == n2 * (initialValue * stabilityFee);
    DivMonotone(initialValue * n1 * stabilityFee, initialValue * n2 * stabilityFee, PRECISION);
  }

  // ---------------------------------------------------------------------------
  // calculateNewAccruedInterest
  // ---------------------------------------------------------------------------

  /** Stability fee newly accrued by an oven whose debt (principal plus fee) was last
      synchronised at `ovenInterestIndex` and is now brought to `minterInterestIndex`.
      Fails when the oven index is negative (`sp.as_nat`) or zero (the ediv), and when
      the rescaled debt would be smaller than the old one (`sp.as_nat`). */
  function AccruedInterest(ovenInterestIndex: int, borrowedTokens: nat, stabilityFeeTokens: nat,
                           minterInterestIndex: nat): (r: Result<nat>)
    // fails on a non-positive oven index, and on an oven index ahead of the minter's
    // while there is debt (the rescaled debt would shrink)
    ensures r.Failure? <==>
      ovenInterestIndex <= 0
      || (ovenInterestIndex > minterInterestIndex && borrowedTokens + stabilityFeeTokens > 0)
    ensures ovenInterestIndex == minterInterestIndex > 0 ==> r == Success(0)
    // never more than the exact growth of the debt by the index ratio...
    ensures r.Success? ==>
      r.value * ovenInterestIndex <= (borrowedTokens + stabilityFeeTokens) * (minterInterestIndex - ovenInterestIndex)
    // ...and short of it by less than one token plus the rounding of the ratio
    ensures r.Success? ==>
      AccrualNearlyExact(r.value, ovenInterestIndex, borrowedTokens + stabilityFeeTokens, minterInterestIndex)
  {
    var ovenIndex :- AsNat(ovenInterestIndex);
    var ratio :- EDiv(minterInterestIndex * PRECISION, ovenIndex);
    var totalPrinciple := borrowedTokens + stabilityFeeTokens;
    var newTotalTokens := (ratio * totalPrinciple) / PRECISION;
    AccrualOutcome(ovenIndex, totalPrinciple, minterInterestIndex, ratio, newTotalTokens);
    AsNat(newTotalTokens - totalPrinciple)
  }

  /** What the rescaled debt `newTotal` says about the fee that accrues. */
  lemma AccrualOutcome(ovenIndex: nat, total: nat, minterIndex: nat, ratio: nat, newTotal: nat)
    requires ovenIndex > 0
    requires ratio == (minterIndex * PRECISION) / ovenIndex
    requires newTotal == (ratio * total) / PRECISION
    ensures newTotal < total <==> ovenIndex > minterIndex && total > 0
    ensures ovenIndex == minterIndex ==> newTotal == total
    ensures newTotal >= total ==> (newTotal - total) * ovenIndex <= total * (minterIndex - ovenIndex)
    ensures newTotal >= total ==> AccrualNearlyExact(newTotal - total, ovenIndex, total, minterIndex)
  {
    AccrualFacts(ovenIndex, total, minterIndex, ratio, newTotal);
    AccrualShrinks(ovenIndex, total, minterIndex, ratio, newTotal);
    AccrualLowerBound(ovenIndex, total, minterIndex, ratio, newTotal);
    if ovenIndex > minterIndex && total == 0 {
      assert ratio * total == 0;
    }
    if newTotal >= total {
      assert (newTotal - total) * ovenIndex == newTotal * ovenIndex - total * ovenIndex;
      assert total * (minterIndex - ovenIndex) == minterIndex * total - total * ovenIndex;
    }
  }

  /** `accrued` falls short of the exact growth of `total` by the index ratio
      `minterIndex / ovenIndex` by less than one token plus `total / PRECISION`
      (the rounding of the ratio to PRECISION). */
  predicate AccrualNearlyExact(accrued: int, ovenIndex: int, total: int, minterIndex: int)
  {
    (accrued + 1) * ovenIndex * PRECISION + total * ovenIndex > total * (minterIndex - ovenIndex) * PRECISION
  }

  /** An oven index ahead of the minter's gives a ratio below 1.0, so a positive debt
      rescales to strictly less than itself. */
  lemma AccrualShrinks(ovenIndex: nat, total: nat, minterIndex: nat, ratio: nat, newTotal: nat)
    requires ovenIndex > 0
    requires ratio == (minterIndex * PRECISION) / ovenIndex
    requires newTotal == (ratio * total) / PRECISION
    ensures ovenIndex > minterIndex && total > 0 ==> newTotal < total
  {
    if ovenIndex > minterIndex && total > 0 {
      DivBounds(minterIndex * PRECISION, ovenIndex);
      MulStrict(minterIndex, ovenIndex, PRECISION);
      assert PRECISION * ovenIndex == ovenIndex * PRECISION;
      if ratio >= PRECISION {
        MulLe(PRECISION, ratio, ovenIndex);
      }
      MulStrict(ratio, PRECISION, total);
      DivBounds(ratio * total, PRECISION);
      assert PRECISION * total == total * PRECISION;
      if newTotal >= total {
        MulLe(total, newTotal, PRECISION);
      }
    }
  }

  /** Both floor divisions together lose less than one token plus one unit of the
      ratio's rounding. */
  lemma AccrualLowerBound(ovenIndex: nat, total: nat, minterIndex: nat, ratio: nat, newTotal: nat)
    requires ovenIndex > 0
    requires ratio == (minterIndex * PRECISION) / ovenIndex
    requires newTotal == (ratio * total) / PRECISION
    ensures (newTotal + 1) * ovenIndex * PRECISION + total * ovenIndex > minterIndex * total * PRECISION
    ensures newTotal >= total ==> AccrualNearlyExact(newTotal - total, ovenIndex, total, minterIndex)
  {
    DivBounds(minterIndex * PRECISION, ovenIndex);
    DivBounds(ratio * total, PRECISION);
    // ratio * total < (newTotal + 1) * P, scaled by the oven index
    MulStrict(ratio * total, (newTotal + 1) * PRECISION, ovenIndex);
    // m * P < (ratio + 1) * o, scaled by the debt
    MulLe(minterIndex * PRECISION, (ratio + 1) * ovenIndex, total);
    assert (ratio + 1) * ovenIndex * total == ratio * total * ovenIndex + total * ovenIndex;
    assert minterIndex * PRECISION * total == minterIndex * total * PRECISION;
    assert (newTotal + 1) * PRECISION * ovenIndex == (newTotal + 1) * ovenIndex * PRECISION;
    if newTotal >= total {
      assert (newTotal + 1) * ovenIndex * PRECISION
          == (newTotal - total + 1) * ovenIndex * PRECISION + total * ovenIndex * PRECISION;
      assert total * (minterIndex - ovenIndex) * PRECISION
          == minterIndex * total * PRECISION - total * ovenIndex * PRECISION;
    }
  }

  lemma AccrualFacts(ovenIndex: nat, total: nat, minterIndex: nat, ratio: nat, newTotal: nat)
    requires ovenIndex > 0
    requires ratio == (minterIndex * PRECISION) / ovenIndex
    requires newTotal == (ratio * total) / PRECISION
    ensures ovenIndex <= minterIndex ==> newTotal >= total
    ensures ovenIndex == minterIndex ==> newTotal == total
    ensures newTotal * ovenIndex <= minterIndex * total
  {
    if ovenIndex <= minterIndex {
      MulLe(ovenIndex, minterIndex, PRECISION);
      DivMonotone(ovenIndex * PRECISION, minterIndex * PRECISION, ovenIndex);
      assert ovenIndex * PRECISION == PRECISION * ovenIndex;
      MulDivCancel(PRECISION, ovenIndex);
      assert ratio >= PRECISION;
      MulLe(PRECISION, ratio, total);
      DivMonotone(PRECISION * total, ratio * total, PRECISION);
      assert PRECISION * total == total * PRECISION;
      MulDivCancel(total, PRECISION);
      if ovenIndex == minterIndex {
        assert ratio == PRECISION;
        assert ratio * total == total * PRECISION;
      }
    }
    DivBounds(minterIndex * PRECISION, ovenIndex);
    DivBounds(ratio * total, PRECISION);
    // newTotal * P <= ratio * total and ratio * ovenIndex <= minterIndex * P
    MulLe(newTotal * PRECISION, ratio * total, ovenIndex);
    MulLe(ratio * ovenIndex, minterIndex * PRECISION, total);
    assert (newTotal * ovenIndex) * PRECISION == newTotal * PRECISION * ovenIndex;
    assert ratio * total * ovenIndex == ratio * ovenIndex * total;
    assert minterIndex * PRECISION * total == (minterIndex * total) * PRECISION;
    MulCancel(newTotal * ovenIndex, minterIndex * total, PRECISION);
  }

  // ---------------------------------------------------------------------------
  // computeCollateralizationPercentage
  // ---------------------------------------------------------------------------

  /** The value of the collateral in Kolibri units at the oracle price. */
  function CollateralValue(ovenBalance: nat, xtzPrice: nat): nat
  {
    (ovenBalance * xtzPrice) / PRECISION
  }

  /** Collateralization percentage of an oven, scaled so that 200% is 200 * 10^18.
      Fails (ediv by zero) when there is no outstanding debt. */
  function CollateralizationPercentage(ovenBalance: nat, xtzPrice: nat, borrowedTokens: nat): (r: Result<nat>)
    ensures r.Success? <==> borrowedTokens > 0
    ensures r.Success? ==> r.value % 100 == 0
    // the percentage is 100 times the floor of collateral value over debt, at PRECISION scale
    ensures r.Success? ==>
      (r.value / 100) * borrowedTokens <= CollateralValue(ovenBalance, xtzPrice) * PRECISION
                                        < (r.value / 100) * borrowedTokens + borrowedTokens
  {
    var ratio :- EDiv(CollateralValue(ovenBalance, xtzPrice) * PRECISION, borrowedTokens);
    Success(ratio * 100)
  }

  /** The minimum-ratio test shared by borrow and withdraw: an oven with no
      outstanding debt passes; otherwise its percentage must reach the minimum. */
  predicate Collateralized(ovenBalance: nat, xtzPrice: nat, outstanding: nat, minimum: nat)
  {
    outstanding > 0 ==> CollateralizationPercentage(ovenBalance, xtzPrice, outstanding).value >= minimum
  }

  /** More collateral never lowers the percentage. */
  lemma PercentageMonotoneInBalance(b1: nat, b2: nat, xtzPrice: nat, debt: nat)
    requires b1 <= b2 && debt > 0
    ensures CollateralizationPercentage(b1, xtzPrice, debt).value
         <= CollateralizationPercentage(b2, xtzPrice, debt).value
  {
    MulLe(b1, b2, xtzPrice);
    DivMonotone(b1 * xtzPrice, b2 * xtzPrice, PRECISION);
    MulLe(CollateralValue(b1, xtzPrice), CollateralValue(b2, xtzPrice), PRECISION);
    DivMonotone(CollateralValue(b1, xtzPrice) * PRECISION, CollateralValue(b2, xtzPrice) * PRECISION, debt);
  }

  /** More debt never raises the percentage. */
  lemma PercentageAntitoneInDebt(ovenBalance: nat, xtzPrice: nat, d1: nat, d2: nat)
    requires 0 < d1 <= d2
    ensures CollateralizationPercentage(ovenBalance, xtzPrice, d2).value
         <= CollateralizationPercentage(ovenBalance, xtzPrice, d1).value
  {
    DivAntitone(CollateralValue(ovenBalance, xtzPrice) * PRECISION, d1, d2);
  }

  // ---------------------------------------------------------------------------
  // mintTokensToStabilityAndDevFund (the arithmetic)
  // ---------------------------------------------------------------------------

  datatype FundSplit = FundSplit(devFundTokens: nat, stabilityFundTokens: nat)

  /** Splits `tokensToMint` between the developer fund (`split` scaled by PRECISION,
      rounded down) and the stability fund (the rest). Fails only when the developer
      share would exceed the whole, which needs a split above 100%. */
  function SplitFunds(tokensToMint: nat, split: nat): (r: Result<FundSplit>)
    ensures r.Failure? <==> (tokensToMint * split) / PRECISION > tokensToMint
    ensures split <= PRECISION ==> r.Success?
    ensures r.Success? ==> r.value.devFundTokens + r.value.stabilityFundTokens == tokensToMint
    // the developer share is the proportional share rounded down
    ensures r.Success? ==>
      r.value.devFundTokens * PRECISION <= tokensToMint * split < r.value.devFundTokens * PRECISION + PRECISION
  {
    var tokensForDevFund := (tokensToMint * split) / PRECISION;
    DivBounds(tokensToMint * split, PRECISION);
    DevShareBounded(tokensToMint, split);
    var tokensForStabilityFund :- AsNat(tokensToMint - tokensForDevFund);
    Success(FundSplit(tokensForDevFund, tokensForStabilityFund))
  }

  lemma DevShareBounded(tokensToMint: nat, split: nat)
    ensures split <= PRECISION ==> (tokensToMint * split) / PRECISION <= tokensToMint
  {
    if split <= PRECISION {
      MulLe(split, PRECISION, tokensToMint);
      assert split * tokensToMint == tokensToMint * split;
      DivMonotone(tokensToMint * split, tokensToMint * PRECISION, PRECISION);
      MulDivCancel(tokensToMint, PRECISION);
    }
  }
}
