# Kolibri minter — accounting model

A Dafny model of the accounting engine of the Kolibri minter contract
(`smart_contracts/minter.py`). The minter keeps a global interest index that
compounds at a per-period stability fee. Each oven (a collateral vault) carries a
snapshot of its principal (`borrowedTokens`), its unpaid fee (`stabilityFeeTokens`)
and the index it was last synchronised at.

Every oven operation follows the same steps:

1. advance the global index by the whole periods elapsed;
2. accrue the oven's fee up to the new index;
3. apply its guards (caller, liquidated flag, oven maximum, collateralization ratio);
4. return a new oven snapshot plus the token mints, burns and XTZ sends it causes.

All amounts are unbounded naturals in fixed point with `PRECISION = 10^18`, and
every division is floor division.

Files:

- `types.dfy` (`MinterTypes`): the storage record, the oven snapshot and the
  update sent back to it, the outbound effects, and the errors.
- `arith.dfy` (`Arith`): facts about multiplication and floor division.
- `lambdas.dfy` (`MinterMath`): the three global lambdas and the fund split.
- `minter.dfy` (`Minter`): the entry points as pure functions. Each returns
  `Result<OvenStep>`, where an `OvenStep` is the storage, the effects and the oven
  update.
- `properties.dfy` (`MinterProperties`): properties that relate calls, including
  any sequence of calls.
- `scenarios.dfy` (`MinterScenarios`): the concrete expectations of the
  contract's own test scenarios, stated against the model.

A failing call is a `Failure(error)`, and the whole operation is rolled back.
Every `sp.as_nat` of a negative number and every `open_some` on a failed `ediv`
raise the same unit failure on chain, because the contract compiles with
`DefaultUnit` exceptions. The model represents all of them as one error,
`ArithmeticFailure`. An underflowing mutez subtraction is `MutezUnderflow`. A
conversion `sp.mutez(ovenBalance // MUTEZ_TO_KOLIBRI_CONVERSION)` whose value does
not fit in the signed 64-bit mutez type is `MutezOverflow`.

In the contract, fee, time and index arithmetic is bound to Python variables as
expressions. Each expression is evaluated at each statement that uses it. So the
explicit checks that precede the first such statement fire before any arithmetic
failure can, and the model keeps that order:

- the sender check comes first;
- then, for deposit, the oven maximum;
- then the liquidated flag;
- then the arithmetic.

## Model

| member | source | states |
|---|---|---|
| MinterMath.AsNat | smart_contracts/minter.py:95 | `sp.as_nat` fails exactly on a negative integer and otherwise returns it unchanged |
| MinterMath.EDiv | smart_contracts/minter.py:483 | the quotient of an `ediv` fails exactly on a zero divisor and otherwise satisfies the floor bounds |
| MinterMath.Compound | smart_contracts/minter.py:489-498 | the linear approximation is the initial value plus simple interest over n periods, rounded down; it never falls below the initial value and equals it when no period elapsed or the fee is zero |
| MinterMath.CompoundMonotoneInPeriods | smart_contracts/minter.py:489-498 | more elapsed periods never give a smaller index |
| MinterMath.AccruedInterest | smart_contracts/minter.py:473-487 | the accrued fee fails exactly when the oven index is not positive, or is ahead of the minter's while principal plus fee is positive; it is zero when the indices agree; it never exceeds the exact growth of principal plus fee by the index ratio, and falls short of it by less than one token plus the rounding of the ratio |
| MinterMath.CollateralizationPercentage | smart_contracts/minter.py:500-513 | the percentage is defined exactly when there is debt; it is a multiple of 100, and one hundredth of it is the floor of collateral value over debt at PRECISION scale (200% is `200 * 10^18`) |
| MinterMath.PercentageMonotoneInBalance | smart_contracts/minter.py:500-513 | more collateral never lowers the percentage |
| MinterMath.PercentageAntitoneInDebt | smart_contracts/minter.py:500-513 | more debt never raises the percentage |
| MinterMath.SplitFunds | smart_contracts/minter.py:438-447 | the split fails exactly when the developer share would exceed the whole, and never for a split up to 100%; the two shares sum to the amount with no rounding loss; the developer share is the proportional share rounded down |
| MinterMath.AccrualOutcome | smart_contracts/minter.py:483-487 | the rescaled debt falls below the old debt exactly when the oven index is ahead of the minter's and there is debt; when it does not, the difference is at most the exact growth by the index ratio and short of it by less than one token plus the ratio's rounding |
| Minter.FundMints | smart_contracts/minter.py:438-447 | routing tokens to the funds fails exactly when the developer share would exceed the whole; otherwise it is two mints, to the developer fund and then the stability fund, whose amounts sum exactly to the tokens routed, the developer's being its proportional share rounded down |
| Minter.RefreshIndex | smart_contracts/minter.py:60-70 | refreshing the index fails exactly when time went backwards; it consumes only whole periods, leaving less than one period unconsumed, and compounds at the current fee |
| Minter.AdvanceIsIndexAdvanced | smart_contracts/minter.py:68-70 | writing the refresh into storage changes only the index and update time; the index does not decrease and the update time moves by a whole number of periods |
| Minter.Accrue | smart_contracts/minter.py:106-117 | the shared preamble fails only arithmetically, and exactly when the oven's fee is negative, the refresh fails or the accrual fails; on success it carries the refresh of the global index, and the new fee is the old fee plus what accrued up to the refreshed index; it succeeds for any well-sequenced oven whenever time has not gone backwards |
| Minter.GetInterestIndex | smart_contracts/minter.py:52-70 | a call with an attached amount is rejected; otherwise it succeeds exactly when time has not gone backwards, stores the index compounded over the whole periods elapsed, and calls the callback back with that index |
| Minter.Borrow | smart_contracts/minter.py:76-138 | borrow rejects a caller other than the oven proxy and a liquidated oven; on success the principal grows by the amount, which is minted to the owner; the fee is refreshed; the storage and the oven take the index compounded over the whole periods elapsed; and the oven is collateralized with the new principal and fee |
| Minter.ApplyRepayment | smart_contracts/minter.py:183-193 | a repayment succeeds exactly when it does not exceed principal plus fee; the debt falls by exactly the repayment; the fee is paid first, and principal falls only once the fee is cleared |
| Minter.Repay | smart_contracts/minter.py:140-204 | repay rejects a wrong caller and a liquidated oven; on success the debt falls by exactly the repayment, fee first; the fee part is minted to the developer fund, at its proportional share rounded down, and to the stability fund; the whole repayment is burned from the owner; the storage and the oven take the compounded index |
| Minter.Deposit | smart_contracts/minter.py:206-254 | deposit rejects a wrong caller, then an attached balance over the oven maximum, then a liquidated oven, and otherwise succeeds whenever the fee accrues; the principal is unchanged, there are no token effects, the collateral is passed back to the oven, and the storage and the oven take the compounded index |
| Minter.Withdraw | smart_contracts/minter.py:256-312 | withdraw has no liquidated guard; on success the amount fits in the balance and is sent to the owner; the balance in whole mutez fits in 64 bits and the rest of it is returned to the oven; the liquidated flag is passed through; the storage and the oven take the compounded index; and the collateral left keeps an indebted oven collateralized |
| Minter.WithinBalance | smart_contracts/minter.py:298-307 | a withdrawal fits in the balance in Kolibri units exactly when it fits in the balance rounded down to whole mutez, so the two checks agree |
| Minter.LiquidationFee | smart_contracts/minter.py:362-363 | the liquidation fee is the outstanding debt times the fee percent, rounded down |
| Minter.Liquidate | smart_contracts/minter.py:314-379 | liquidate rejects a wrong caller and a liquidated oven; it succeeds only for an oven that owes something and is strictly below the minimum; the liquidator burns debt plus fee; the funds receive the oven's fee plus the liquidation fee, the developer its proportional share rounded down; the liquidator receives the whole collateral, which must fit in 64-bit mutez; the oven is emptied and marked liquidated at the compounded index |
| Minter.CloseOven | smart_contracts/minter.py:357-379 | once the fee has accrued, the oven is closed only when it owes something and is strictly below the minimum, with the effects and update listed for liquidate |
| Minter.LiquidationEffects | smart_contracts/minter.py:365-372 | the liquidation effects fail exactly when the fund split fails or the collateral in whole mutez exceeds the 64-bit maximum; otherwise they are the burn of debt plus fee, the two fund mints summing to the fees, and the send of the collateral |
| Minter.UpdateParams | smart_contracts/minter.py:388-410 | only the governor may update; the index is compounded at the old fee before the four parameters are overwritten, and nothing else changes |
| MinterProperties.RefreshIsIdempotent | smart_contracts/minter.py:60-70 | a second refresh at the same time consumes no period and changes nothing |
| MinterProperties.RefreshCarriesRemainder | smart_contracts/minter.py:60-70 | the part of the elapsed time short of a whole period is carried to the next call, never consumed |
| MinterProperties.RefreshGrowsAfterAPeriod | smart_contracts/minter.py:60-70 | once a whole period has passed at a fee that earns at least one unit, the index strictly grows and the update time moves forward |
| MinterProperties.Execute | smart_contracts/minter.py:52-410 | any successful call, to any entry point except updateContracts, moves the index and update time forward by whole periods |
| MinterProperties.RunAdvancesClock | smart_contracts/minter.py:52-410 | over any sequence of calls, with failed ones rolled back, the index never decreases and the update time moves forward only by whole periods |
| MinterProperties.ClockAdvancedTransitive | smart_contracts/minter.py:68-70 | advancing by whole periods twice is advancing by whole periods |
| MinterProperties.LiquidatedIsTerminal | smart_contracts/minter.py:112-113 | on a liquidated oven every oven operation fails except withdraw, which reports the oven as still liquidated |
| MinterProperties.UpdateParamsNotRetroactive | smart_contracts/minter.py:395-400 | new parameters never apply to time before the update: the index updateParams leaves behind does not depend on the parameters it sets |
| MinterProperties.BorrowRejectsExactlyUnderCollateralized | smart_contracts/minter.py:120-128 | a borrow on a live oven whose fee accrues succeeds exactly when the oven is collateralized with the new principal and fee, and otherwise fails as under-collateralized |
| MinterProperties.WithdrawRejectsExactlyUnderCollateralized | smart_contracts/minter.py:294-307 | a withdrawal within the balance succeeds exactly when the collateral left keeps the oven collateralized, or it owes nothing, and the balance in whole mutez fits in 64 bits |
| MinterProperties.WithdrawBeyondBalanceFails | smart_contracts/minter.py:296-307 | withdrawing more than the oven holds always fails |
| MinterProperties.WithdrawFromLiquidatedOven | smart_contracts/minter.py:1996-2030 | a liquidated oven that owes nothing may still withdraw anything within its balance, exactly when that balance in whole mutez fits in 64 bits |
| MinterProperties.AccrualOfEmptyOven | smart_contracts/minter.py:473-487 | an oven owing nothing accrues nothing |
| MinterProperties.RepayRejectsExactlyOverpayment | smart_contracts/minter.py:183-193 | a repay on a live oven whose fee accrues succeeds exactly when it does not exceed the debt, for any split up to 100% |
| MinterProperties.LiquidateRequiresBreach | smart_contracts/minter.py:358-372 | an oven that owes nothing cannot be liquidated (the division by zero fails); one that owes something is liquidated exactly when its percentage is strictly below the minimum and its collateral in whole mutez fits in 64 bits, for any split up to 100% |
| MinterProperties.DepositSucceeds | smart_contracts/minter.py:206-254 | a deposit into a live, well-sequenced oven under the maximum always succeeds |
| MinterProperties.MintedBurnedAppend | smart_contracts/minter.py:438-471 | minted and burned totals add up over concatenated effect lists |
| MinterProperties.MintedBurnedOf | smart_contracts/minter.py:438-471 | minted and burned totals of a short effect list are the sums of its mint and burn amounts |
| MinterProperties.RepayConservesTokens | smart_contracts/minter.py:195-197 | repay burns exactly the repayment, which equals what it mints to the funds plus the principal it retires |
| MinterProperties.LiquidationConservesTokens | smart_contracts/minter.py:365-369 | liquidation burns exactly what it mints to the funds plus the oven's principal |
| MinterScenarios.CompoundScenarios | smart_contracts/minter.py:612-634 | two periods back to back compound 1 to 1.1 to 1.21; two periods in one update are linear, giving 1.2 |
| MinterScenarios.AccruedInterestScenario | smart_contracts/minter.py:473-487 | when the index ratio and the grown debt divide exactly, the accrued fee is the growth of the debt |
| MinterScenarios.AccruedInterestScenarios | smart_contracts/minter.py:573-606 | the six accrual test vectors give 10, 11, 21, 10, 11 and 21 |
| MinterScenarios.ExactlyTwoHundredPercent | smart_contracts/minter.py:920-923 | 2 XTZ at $1 against $1 of debt is exactly 200% |
| MinterScenarios.OvenAtMinimumIsNotLiquidated | smart_contracts/minter.py:910-944 | an oven at exactly the 200% minimum cannot be liquidated |
| MinterScenarios.BorrowUnderCollateralizedScenario | smart_contracts/minter.py:1612-1646 | borrowing $2 against 2 XTZ at $1 is rejected as under-collateralized |
| MinterScenarios.DepositOverMaximumScenario | smart_contracts/minter.py:2215-2260 | a deposit above the 100 XTZ maximum is rejected |
| MinterScenarios.RepayLessThanFeeScenario | smart_contracts/minter.py:1167-1262 | repaying less than the fee lowers only the fee, and only the repaid part is split between the funds |
| MinterScenarios.RepayMoreThanFeeScenario | smart_contracts/minter.py:1070-1165 | repaying more than the fee clears it and retires principal with the rest |
| MinterScenarios.RepayMoreThanOwedScenario | smart_contracts/minter.py:1319-1371 | repaying more than the debt fails |
| MinterScenarios.UpdateParamsScenario | smart_contracts/minter.py:2421-2449 | updateParams compounds one period at the old 10% fee, 1.1 to 1.21, before installing the new fee |
| MinterScenarios.UnderwaterOvenAccrual | smart_contracts/minter.py:641-748 | one period into the liquidation scenario the index is 1.1 and the oven's fee has grown from 10 to 20 |
| MinterScenarios.UnderwaterOvenFees | smart_contracts/minter.py:641-748 | in that scenario the liquidation fee is 8.8, and the 28.8 routed to the funds splits 2.88 to the developer fund and 25.92 to the stability fund |
| MinterScenarios.UnderwaterOvenEffects | smart_contracts/minter.py:641-748 | in that scenario the liquidator burns 118.8, the funds receive 2.88 and 25.92, and the liquidator is sent the oven's balance |
| MinterScenarios.LiquidationScenario | smart_contracts/minter.py:641-748 | the liquidation burns 118.8 from the liquidator, mints 2.88 and 25.92 to the funds, sends the liquidator the collateral, and leaves the oven empty and liquidated at index 1.1 |

## Left out

- updateContracts: it only overwrites the five contract addresses and has no logic of its own.
- Token and oven-proxy calls: `mintTokens`, `burnTokens`, `sp.send`, `updateOvenState` and the getInterestIndex callback become effect records (`Mint`, `Burn`, `Send`, `IndexCallback`) or the `OvenUpdate`. Whether the token contract accepts a burn, and whether the contract holds enough mutez for a send, depend on other contracts' state.
- Addresses are strings compared for equality. The contract's view of the oven proxy and token contracts as typed entry points is not modelled.
- `SECONDS_PER_COMPOUND` and `MUTEZ_TO_KOLIBRI_CONVERSION` are defined in `common/constants.py`, which is not part of this model. Both are arbitrary positive constants, and every property holds for any positive values.
- The separate error messages for `sp.as_nat` and `open_some` failures are not modelled. On chain they are all the same unit failure under `DefaultUnit` exceptions, so the model has the single error `ArithmeticFailure`.
- The doc comment above `computeCollateralizationPercentage` (line 501) says the result is scaled so that 200% is 200_000_000. The code scales 200% to `200 * 10^18`, and the model follows the code.
- The mutez type is reduced to natural numbers. Its signed 64-bit bound is modelled only where the contract converts a natural number to mutez, `sp.mutez(ovenBalance // MUTEZ_TO_KOLIBRI_CONVERSION)` in withdraw (line 307) and liquidate (line 372), which fails with `MutezOverflow`. The other mutez amounts are entry-point arguments or the transaction's balance and amount (`mutezToWithdraw`, `sp.balance`, `sp.amount`), which the Michelson type checker already keeps within 64 bits; the model takes them as naturals and assumes that bound rather than stating it.
- The SmartPy mechanics are not modelled: `sp.global_lambda` and the parameter-type declarations.
- The test scenarios are not modelled as such. Their expected values are restated as lemmas in `scenarios.dfy`. The scenario that checks the liquidator's XTZ receipt needs the concrete conversion constant, so the model states that receipt only as `balance / MUTEZ_TO_KOLIBRI_CONVERSION`.
