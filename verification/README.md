# Peg Stability Module: model and proofs

A Dafny model of the integer engine of the Solana Peg Stability Module, and proofs of
what that engine keeps.  The pool holds two tokens, A and B.  Its price curve says what
a B is worth in A; the redemption-rate curve makes that price accrue by the second, in
fixed point with 27 decimals (RAY).  Traders swap against the vaults, liquidity
providers deposit and withdraw for LP tokens, and an authorised updater posts new rates
under a growth cap.

Numbers are unbounded with every width of the program written out: `u64`, `u128` and
`U256` are ranges, a checked operation returns `None` outside its range, and the plain
`U256` product and the truncating conversion, which abort the transaction, do so too: an
aborted and a failed instruction leave the same state.

## How the project is laid out

| Files | Content |
|---|---|
| `Checked`, `Arith`, `Errors`, `Ledger` | machine ranges and checked operations, floor and ceiling lemmas, errors, token accounts |
| `RayPower` | the square-and-multiply loop and its recursive specification; monotonicity, error bound, exactness |
| `RedemptionRate` | the accruing price, its update rule, and runs of updates |
| `PriceCurve`, `ConstantProduct` | swap quotes and share conversions of the four curves |
| `FeeSchedule`, `SwapCurve`, `PartialFill` | fees, their inverse, quotes with fees taken, and fees charged again on a partial fill |
| `Pool` | every instruction, and the token program used directly, as a function from state to state |
| `PoolMachine` | the same instructions run in place on a class, each proved against its function in `Pool` |
| `PoolInvariants`, `PoolRates`, `ShareValue`, `ShareRuns`, `ProductValue`, `PoolSettlement`, `RoundTrip`, `PoolExit` | what every instruction and every run of instructions keeps |
| `QuoteRules`, `LedgerRules`, `InstructionRules`, `Layouts` | what each operation has to do, as inequalities and account by account, without the functions above; each function meets its rule exactly |
| `CallerLimits` | what a caller's limits change, and what a withdrawal pays the owner |
| `SupplyThreshold`, `ThinPool` | where rounding weighs on few LP tokens: exactly how few, and reachable pools |
| `Bytes`, `CurveCodec`, `InstructionCodec`, `StateCodec` | wire formats, and the rate update on stored bytes |

The main results, roughly hardest first:

* **LP share value** (`ShareRuns`).  Take any run of swaps, deposits and withdrawals, from
  any accounts, successful or not, with every fee, and of direct uses of the token program
  in between, in clock order and without a rate update, on a curve whose price cannot fall
  meanwhile (a stored price, or a rate of at least 1.0 whose posting time has come).  Value per LP token falls by at most one A unit
  spread over the supply for each all-token instruction, by one A unit spread over the
  supply left before the owner's fee is minted for each single-sided withdrawal of B, and
  by nothing for anything else (`RunLosesAtMost`).  Where every such withdrawal leaves
  10^9 LP tokens, which a caller can check beforehand and which always holds for a source
  that is neither the fee account nor the named host, that is at most one part in 10^9
  each (`RunKeepsShareValue`, `PoolSettlement.OrdinaryRunKeepsShareValue`); no supply
  below 10^9 is certain to be enough (`SupplyThreshold.OnePartIff`).
* **Growth cap** (`RedemptionRate.RunGrowthCap`, `PoolRates.ReachableGrowthCap`).  Once a
  rate is posted (rho not zero) under a cap (max_ssr not zero), chi never outgrows the cap
  compounded over the whole time, times one rounding of (2 RAY + 1)/(2 RAY) a second,
  however updates are spaced; nor does the price, once an update has been accepted.
* **Fixed-point power** (`RayPower`).  Two-sided error bound and monotonicity in the
  exponent for bases of at least 1.0, monotonicity in the base, growth above simple
  interest, exactness on integers.
* **Partial fills** (`PartialFill.NeverOverchargesIff`).  From the offer and the fees alone:
  exactly when no curve, pool, price or direction can charge a swap more than it offered.
* **Conservation and supply floor** in every reachable state, whatever is done through the
  token program in between (`PoolInvariants`), and exactly when an LP holder can leave
  (`PoolExit.ReachableExit`): always where the curve has a price, and under a stated condition on the amount with a constant product or an offset.
* **Every instruction in full** (`InstructionRules.InstructionRule`, `CreationRule`).  For
  any state, instruction and clock: the instruction ends in a given state if and only if
  that state is the one rules stated by inequalities and account by account allow, from the rounding
  of a fee to the last LP token; it is refused for everything else.  `QuoteRules` and
  `LedgerRules` do the same for each quote, fee and ledger step, `Layouts` for each byte of
  instructions and accounts.
* **Inverse fees** up to stated rounding, with the exact case in which they fall short.

Three properties one might expect are false of the code; each has a concrete input, and
exactly when it holds is proved.

* A swap with both trading rates in force can charge more than was offered
  (`PartialFill.TwoRatesCanOvercharge`; exactly when: `NeverOverchargesIff`,
  `LargestFillDecides`).
* The inverse of two rates can fall one token short
  (`FeeSchedule.MinimumFeesTakeTheToken`; exactly when: `TwoRateInverse`).
* A withdrawal of B from an account its owner's fee is minted to can cost the remaining
  holders more than one part in 10^9 (`ThinPool.UnfundedWithdrawalLosesMore`; exactly when:
  `SupplyThreshold.OnePartIff`).  `ShareRuns.RunLosesAtMost` bounds that case too.

## Model

| member | source | states |
|---|---|---|
| RayPower.ComputeRpow | program/src/curve/redemption_rate.rs:99-152 | the loop returns the recursive specification, terminating by halving the exponent, with `None` exactly on 256-bit overflow; what each step rounds to is `MulRayIsNearest` |
| RayPower.MulRayIsNearest | program/src/curve/redemption_rate.rs:129-145 | one rounded product is z if and only if z RAY is the multiple of RAY nearest to x y, halves going up, and x y with the half added fits in 256 bits |
| RayPower.RpowSquareAndCube | program/src/curve/redemption_rate.rs:99-152 | carried to the power: x^2 is the nearest multiple for every 128-bit x, never refused, and x^3 the rounded product of x and that |
| RayPower.RpowIsLadder | program/src/curve/redemption_rate.rs:104-151 | the program's special first step and zero base make no difference: it is the plain bit ladder started at 1.0 |
| RayPower.LadderInduction | program/src/curve/redemption_rate.rs:122-150 | any relation between value and exponent kept by one rounded product holds of the whole power; the principle behind the bounds below |
| RayPower.RpowErrorBound | program/src/curve/redemption_rate.rs:99-152 | for x >= RAY, n >= 1 the result is within n - 1 compounded relative roundings of 1/(2 RAY) of the exact power, both sides |
| RayPower.RpowMonotoneInBase | program/src/curve/redemption_rate.rs:99-152 | a larger base never gives a smaller result, and overflows whenever the smaller one does; relates two runs of the loop |
| RayPower.Carry | program/src/curve/redemption_rate.rs:122-150 | adding one to an exponent never lowers the power although every bit of it may flip |
| RayPower.RpowMonotoneInExponent | program/src/curve/redemption_rate.rs:99-152 | for x >= RAY a longer duration never gives a smaller factor, and is computable only if every shorter one is |
| RayPower.RpowDominatesSimpleInterest | program/src/curve/redemption_rate.rs:99-152 | for x >= RAY the result is at least RAY + n (x - RAY), rounding included |
| RayPower.RpowIntegerPowersExact | program/src/curve/redemption_rate.rs:524-557 | the n-th power of an integer m times RAY is exactly m^n RAY, and is computed if and only if the scaled result, rounding half added, fits in 256 bits |
| RedemptionRate.PriceNeverFalls | program/src/curve/redemption_rate.rs:84-94 | for ssr >= 1.0 the price is non-decreasing in time and at least chi, across the early return at the posting time |
| RedemptionRate.AccruedIsScaledPower | program/src/curve/redemption_rate.rs:84-94 | the early return agrees with the accrual formula at duration zero |
| RedemptionRate.HonestUpdateAccepted | program/src/curve/redemption_rate.rs:155-213 | with rates within their bounds, posting the curve's own price as the new chi is accepted if and only if there is no cap or the cap is computable |
| RedemptionRate.UpdateAcceptedIff | program/src/curve/redemption_rate.rs:155-213 | for every curve and input: an update is accepted, and exactly as posted, if and only if its time is not in the future, its rate is between 1.0 and the cap, and, once a rate was posted, time and chi do not go back and a cap's compounded growth is computable and admits chi; a first posting needs nothing more |
| RedemptionRate.UpdateRefusedBecause | program/src/curve/redemption_rate.rs:162-202 | any other update fails with the error of the first requirement it misses |
| RedemptionRate.RunKeepsRateOrder | program/src/curve/redemption_rate.rs:155-213 | over any run of updates max_ssr never changes, rho never passes the clock, rho and chi never fall once rho is set, and one acceptance keeps ssr between 1.0 and the cap |
| RedemptionRate.PostedChiIsPriceFloor | program/src/curve/redemption_rate.rs:84-94 | every chi posted with a non-zero rho stays a lower bound of the price at all later times, whatever is posted after it |
| RedemptionRate.PeriodWithinCap | program/src/curve/redemption_rate.rs:186-202 | one period: a value accepted by the cap check, or accrued at a rate up to the cap, is within exact compound growth at the cap and its rounding |
| RedemptionRate.RunGrowthCap | program/src/curve/redemption_rate.rs:155-213 | over any run from rho != 0 under a cap, chi stays within the cap compounded over the total time, however it is split into updates |
| RedemptionRate.RunPriceCap | program/src/curve/redemption_rate.rs:84-94 | after one acceptance the same bound holds of the price at any later time |
| PriceCurve.FillGuardUnreachable | program/src/curve/redemption_rate.rs:231-247 | a quote buying B fails if and only if the price is zero or the amounts round to zero or overflow; the used-more-than-offered guard never fires |
| QuoteRules.PriceRule | program/src/curve/redemption_rate.rs:84-94 | the price at a time is p if and only if it is the stored one, chi at its own time, or chi grown by the power and rounded down; before that time, and on overflow, there is none |
| QuoteRules.PricedQuoteRule | program/src/curve/redemption_rate.rs:217-256 | a priced quote is (used, out) if and only if out is the floor the offer buys and used the least that pays for it, or the whole offer and the floor of its value, neither of them zero |
| PriceCurve.OptimalFill | program/src/curve/constant_price.rs:92-107 | the fill uses no more than offered, buys the most B the offer can pay for, uses the least A that pays for it, and requoting the amount used returns the same pair |
| PriceCurve.SaleRoundsDown | program/src/curve/redemption_rate.rs:230-230 | selling B uses the whole offer and pays the largest amount not above its value |
| PriceCurve.SwapKeepsWorth | program/src/curve/calculator.rs:395-453 | one swap never lowers the exact worth of the reserves and raises it by less than one A unit |
| PriceCurve.TradesExtractNothing | program/src/curve/calculator.rs:395-453 | no sequence of swaps at one price, in any directions, extracts value; the pool gains less than one unit of A a swap |
| PriceCurve.SellThenBuyBack | program/src/curve/redemption_rate.rs:217-256 | at non-falling prices, selling B and buying back with the proceeds never returns more B |
| PriceCurve.BuyThenSellBack | program/src/curve/redemption_rate.rs:217-256 | at non-rising prices, buying B and selling it back never returns more A than was used |
| PriceCurve.PoolTokensMeaning | program/src/curve/redemption_rate.rs:28-66 | rounding down gives the most LP tokens whose part of the pool is not above the value brought, rounding up the fewest whose part covers it |
| QuoteRules.LpRule | program/src/curve/redemption_rate.rs:28-66 | m LP tokens answer an amount if and only if m is the supply's part, rounded as asked, that its value is of the pool's, with 256-bit intermediate values; so it says when there is no answer |
| PriceCurve.SingleSidedRoundTrip | program/src/curve/redemption_rate.rs:296-340 | a single-sided deposit followed by a single-sided withdrawal for no more LP tokens, over all four side pairs, never gives back more value |
| PriceCurve.AllTokenRoundTrip | program/src/curve/redemption_rate.rs:261-294 | on a priced curve, depositing and withdrawing the same LP tokens returns of each token no more than was paid and at most one unit less |
| PriceCurve.DepositKeepsPerShare | program/src/curve/constant_price.rs:122-158 | an all-token deposit never lowers either reserve per LP token |
| PriceCurve.WithdrawKeepsPerShare | program/src/curve/constant_price.rs:122-158 | an all-token withdrawal never lowers either reserve per LP token |
| ConstantProduct.PoolTokensToTradingTokens | program/src/curve/constant_product.rs:55-95 | the floor-then-bump code computes the share specification for both tokens and both roundings |
| ConstantProduct.ShareUpIsCeilingUnlessTiny | program/src/curve/constant_product.rs:67-88 | rounded up, a share is the exact ceiling unless it is below one token, where it is zero |
| ConstantProduct.SharesRoundTrip | program/src/curve/constant_product.rs:55-95 | the same for the constant-product conversion, for every amount, parts below one token included |
| QuoteRules.TokensRule | program/src/curve/constant_product.rs:55-95 | LP tokens stand for (ta, tb) if and only if these are the rounded parts of both reserves, on each of the four curves |
| ConstantProduct.SwapIsTight | program/src/curve/constant_product.rs:29-49 | a swap keeps the product of the reserves and would not with one source token less |
| ConstantProduct.SwapUsesSource | program/src/curve/constant_product.rs:29-49 | a swap uses at least one source token and never more than offered |
| ConstantProduct.SwapFailsOnlyWhenNothingIsBought | program/src/curve/constant_product.rs:29-49 | a swap without overflow fails if and only if the product is below the grown source reserve or the offer buys nothing |
| QuoteRules.ProductQuoteRule | program/src/curve/constant_product.rs:29-49 | a constant-product quote is (used, out) if and only if what stays is the least that keeps the product with the whole offer, used the least that keeps it with that, and the bounds hold |
| ConstantProduct.DustIsRefused | program/src/curve/constant_product.rs:395-397 | an offer worth less than one token is refused although all products fit |
| ConstantProduct.OffsetSwapIsTight | program/src/curve/offset.rs:45-63 | the same for the offset curve, with the offset added to reserve B, in both directions: product kept, least source charged, most output given |
| Arith.CeilDivIsTight | program/src/curve/constant_product.rs:395-421 | ceiling division, where it answers, gives the least quotient covering the dividend and the least divisor covering it with that quotient |
| FeeSchedule.OneRateInverse | program/src/curve/fees.rs:48-90 | with one rate, grossing up an amount and taking the fee leaves it or one more, minimum fee included |
| FeeSchedule.TwoRateInverse | program/src/curve/fees.rs:132-158 | with two rates the net is in [q - 1, q + 2], and below q if and only if (q + 1) num <= den for the added rates num/den, which is when grossing up adds a single token |
| FeeSchedule.MinimumFeesTakeTheToken | program/src/curve/fees.rs:132-158 | at two rates of 1/1000, one token grosses up to two and both fees leave nothing |
| FeeSchedule.OwnerFeeFitsGrossUp | program/src/curve/base.rs:196-204 | the owner's fee always fits in what grossing up added, for any stored fees |
| FeeSchedule.FeeMonotone | program/src/curve/fees.rs:48-63 | a fee is computable and no larger on any smaller amount |
| QuoteRules.FeeRule | program/src/curve/fees.rs:48-63 | the fee is f if and only if f den <= amount num < (f + 1) den, one token where that floor is zero but something is due, and none without a rate or an amount; it fails exactly on overflow or a zero denominator |
| QuoteRules.GrossUpRule | program/src/curve/fees.rs:74-90 | one rate's inverse is the least p with post den <= p (den - num), and exists exactly for a rate below one without overflow |
| QuoteRules.PreFeeRule | program/src/curve/fees.rs:132-158 | the schedule's inverse grosses up by the rate in force, by both added up when both are, by nothing when neither is |
| QuoteRules.OneActiveRate | program/src/curve/fees.rs:132-158 | of the whole schedule: with one rate in force, on either side, the inverse leaves q or q + 1 after both fees; with none it is q |
| SwapCurve.ComputeSwap | program/src/curve/base.rs:87-133 | the code that reassigns fees after a partial fill computes the specification charged on the grossed-up amount, which `QuoteRules.SwapRule` pins |
| QuoteRules.SwapRule | program/src/curve/base.rs:87-133 | a swap answers r if and only if the fees on the offer, the quote on the rest, what a partial fill grosses up to, the fees on that and the new reserves all meet their own rules |
| QuoteRules.PartialFillIsGrossedUp | program/src/curve/base.rs:113-121 | with at most one rate in force, what a partial fill is charged on, less the fees on it, is what the curve used or one token more |
| SwapCurve.UsedWithinOffer | program/src/curve/base.rs:102-111 | every one of the four curves uses at least one and at most the offered amount |
| SwapCurve.SwapAccounts | program/src/curve/base.rs:123-132 | reserves move by exactly what is swapped, and what is swapped is what the curve used plus both fees |
| PartialFill.OneRateNeverOvercharges | program/src/curve/base.rs:113-121 | with at most one non-zero trading rate every swap, partial fill included, charges at most the offer |
| PartialFill.TwoRatesCanOvercharge | program/src/curve/base.rs:113-121 | with two rates it can: 19 offered, 20 charged |
| PartialFill.TwoRateOverchargeBound | program/src/curve/base.rs:113-121 | by fewer than (2D - N)/(D - N) tokens, N/D being the two rates added up |
| PartialFill.FillAboveAQuarter | program/src/curve/base.rs:102-111 | every curve uses more than a quarter of what it is offered |
| PartialFill.FillIsAttained | program/src/curve/base.rs:113-121 | every fill above a quarter occurs, in a constant-product pool with 64-bit reserves, and the swap is charged it without overflow |
| PartialFill.NeverOverchargesIff | program/src/curve/base.rs:87-133 | for any 64-bit offer and any fees: no curve, vaults, direction or time makes the swap charge more than the offer if and only if every fill above a quarter of what the fees leave is charged within it |
| PartialFill.LargestFillDecides | program/src/curve/base.rs:87-133 | where the largest partial fill can be charged, that is decided by this one fill; an offer of which at most one token is left is never overcharged |
| SwapCurve.WithdrawBasisCovers | program/src/curve/base.rs:191-204 | what a single-sided withdrawal is charged for covers the amount taken and the owner's fee |
| QuoteRules.DepositRule | program/src/curve/base.rs:136-173 | a single-sided deposit mints m and owes the owner g if and only if f and g are the trading and owner fees on half of it, at least on one token, and m is the floor of what is left after both is worth in LP tokens |
| QuoteRules.WithdrawalRule | program/src/curve/base.rs:176-220 | a single-sided withdrawal costs m and owes g if and only if the larger half is grossed up for both fees, g is the owner's fee on that, and m is the ceiling of what the sum is worth in LP tokens |
| LedgerRules.SharedShowsPart | program/src/processor.rs:606-673 | a minted owner fee gives a host its part at the host rate, floor or one token, and the fee account the rest where it exists |
| LedgerRules.PartGivesShared | program/src/processor.rs:606-673 | conversely, every such sharing that fits in 64 bits is the one minted |
| LedgerRules.WithdrawFeeRule | program/src/processor.rs:869-880 | the withdrawal fee is f if and only if f is the fee at the owner's withdrawal rate, where the fee account exists and is not the source, and nothing otherwise |
| LedgerRules.PaidAndBurntRule | program/src/processor.rs:920-940 | paying the fee and burning the rest gives a ledger if and only if, account by account, the source loses both, the fee account gains the fee and the supply falls by what is burnt |
| Ledger.TransferConserves | program/src/processor.rs:154-193 | a token transfer conserves the total over all accounts and touches only its two |
| PoolMachine.Program.ProcessInitialize | program/src/processor.rs:238-452 | creating the pool in place gives the specified state, which is sound, or its error |
| PoolMachine.Program.MintFees | program/src/processor.rs:606-673 | minting the owner's fee, host first, as specified |
| PoolMachine.Program.MintSwapFee | program/src/processor.rs:602-677 | the owner's fee of a swap is priced on the reserves it leaves, less the fee, and minted as specified |
| PoolMachine.Program.ProcessSwap | program/src/processor.rs:464-691 | the swap's updates in program order give the whole specified state or its error |
| PoolMachine.Program.ProcessDepositAll | program/src/processor.rs:694-815 | likewise, all-token deposit |
| PoolMachine.Program.ProcessWithdrawAll | program/src/processor.rs:818-970 | likewise, all-token withdrawal; its fee is `LedgerRules.WithdrawFeeRule` |
| PoolMachine.Program.ProcessDepositSingle | program/src/processor.rs:973-1198 | likewise, single-sided deposit; what it mints is `QuoteRules.DepositRule` |
| PoolMachine.Program.ProcessWithdrawSingle | program/src/processor.rs:1201-1440 | likewise, single-sided withdrawal; its cost is `QuoteRules.WithdrawalRule` |
| PoolMachine.Program.ProcessSetRates | program/src/redemption_rate_processor.rs:26-71 | likewise, rate update; which are accepted is `RedemptionRate.UpdateAcceptedIff` |
| PoolMachine.Program.ProcessDirect | program/fuzz/src/instructions.rs:259-269 | a token-program call by anyone on accounts of their own leaves the whole specified state or its error |
| PoolMachine.Program.Process | program/src/processor.rs:1448-1570 | one dispatched instruction is atomic, the whole new state on success and the old one on error, and keeps the invariant: soundness, totals, accounts, fees |
| PoolMachine.Program.ProcessAll | program/fuzz/src/instructions.rs:202-210 | instructions attempted one after another on the object lead to the specified run and keep the invariant throughout |
| InstructionRules.InstructionRule | program/src/processor.rs:464-1440 | for every state, instruction and clock: the instruction goes through and leaves exactly s' if and only if the rules allow s': swap, both deposits, both withdrawals, rate update and direct token step |
| InstructionRules.CreationRule | program/src/processor.rs:238-452 | a pool is created as s if and only if the vaults it needs are stocked, the LP accounts empty, every fee a proper fraction and the price or offset not zero; s holds exactly the initial LP tokens |
| InstructionRules.DirectRule | program/fuzz/src/instructions.rs:259-269 | a token-program step by anyone goes through if and only if it takes from no locked account and the ledger changes account by account as it says |
| PoolInvariants.SupplyFloor | program/src/processor.rs:746-749 | the supply is at least the initial amount and any other account holds at most the rest |
| PoolInvariants.NextConserves | program/fuzz/src/instructions.rs:243-255 | any attempted instruction of the program conserves A, B and the LP ledger, keeps the initial LP tokens, accounts and fees, and leaves the curve alone unless it updates the rate |
| PoolInvariants.TokenStepKeeps | program/src/processor.rs:315-331 | whatever anyone does through the token program on accounts of their own, transfers into a vault, burning LP tokens, opening and closing accounts, the fee account among them, keeps the pool sound, empties no vault and mints no LP token |
| PoolInvariants.InitializeIsSound | program/src/processor.rs:395-405 | initialization establishes the invariant with exactly the initial supply |
| PoolInvariants.ReachableIsSound | program/src/processor.rs:1041-1044 | in every state reached by the program's instructions and token-program steps in between, supply equals the sum of LP balances and is at least 10^9, and the totals of A and B never grow; under the program's own instructions they are the initial ones |
| PoolRates.RunMovesRateLikeUpdates | program/src/redemption_rate_processor.rs:73-109 | any run of a pool moves its rate exactly as its rate updates alone would |
| PoolRates.ReachableRateInOrder | program/src/curve/redemption_rate.rs:155-213 | between any two moments of a run from initialization in clock order: rho <= now, max_ssr constant, rho and chi non-decreasing once rho is set, whenever that was, and ssr bounded after one acceptance anywhere in the run |
| PoolRates.ReachablePriceFloor | program/src/curve/redemption_rate.rs:84-94 | a chi accepted at any moment of a pool's run, with non-zero rho, is at most the price at the run's end and after |
| PoolRates.ReachableGrowthCap | program/src/curve/redemption_rate.rs:155-213 | between any two moments of a pool's run, the first with a posted rate under a cap, chi and, once an update was accepted, the price stay within the cap compounded since |
| ShareValue.SwapLosesNothing | program/src/processor.rs:541-676 | a swap, its owner and host fees minted as LP tokens, never lowers pool value per LP token |
| ShareValue.DepositSingleLosesNothing | program/src/processor.rs:1049-1194 | nor does a single-sided deposit on either side |
| ShareValue.DepositAllLosesAUnit | program/src/processor.rs:752-812 | an all-token deposit loses at most one A unit of total value |
| ShareValue.WithdrawAllLosesAUnit | program/src/processor.rs:883-968 | so does an all-token withdrawal, withdraw fee included |
| ShareValue.WithdrawSingleLosesAtMost | program/src/processor.rs:1268-1406 | a single-sided withdrawal from any source loses nothing on side A, and on side B at most one A unit spread over the supply left before its owner's fee is minted, which is never zero |
| ShareRuns.StepLosesAtMost | program/src/processor.rs:464-1440 | one attempted trading instruction or token-program step of any kind, from any source, keeps value per LP token up to its allowance |
| ShareRuns.RunLosesAtMost | program/src/processor.rs:464-1440 | over any run between two rate updates, token-program steps in between, value per LP token, at the price of the first and the last moment, falls by at most the sum of the allowances |
| ShareRuns.RunKeepsShareValue | program/src/processor.rs:464-1440 | 10^9 V' S + n S S' >= 10^9 V S' for n successful instructions with an allowance, where every successful withdrawal of B leaves 10^9 LP tokens |
| SupplyThreshold.OnePartIff | program/src/processor.rs:1268-1406 | for every supply left: all successful withdrawals of B that leave it, from all sound pools with a price, cost at most one part in 10^9 if and only if it is at least 10^9 (or zero, which none leaves) |
| SupplyThreshold.BeforeIsReachable | program/src/processor.rs:1049-1194 | each pool that fails below 10^9 is reached from initialization by one deposit and one payment into the vault |
| ThinPool.UnfundedWithdrawalLosesMore | program/src/processor.rs:1297-1380 | a reachable instance: a withdrawal that leaves one LP token takes value per LP token from 1.65 A to 1.00 |
| ThinPool.IsReachable | program/src/processor.rs:238-452 | that pool is reached from initialization by one swap |
| PoolSettlement.OrdinarySourceLeavesSupply | program/src/processor.rs:1297-1380 | a successful withdrawal from an account that is neither the fee account nor the named host leaves at least 10^9 LP tokens |
| PoolSettlement.OrdinaryRunKeepsShareValue | program/src/processor.rs:464-1440 | the 10^9 bound under a condition on the calls alone |
| ProductValue.NextKeepsProduct | program/src/processor.rs:774-778 | on a constant-product or an offset pool, the offset counted, a step without owner fee never lowers the product of the reserves per squared LP token, thanks to the zero-amount rejections in deposits |
| ProductValue.RunKeepsProduct | program/src/processor.rs:910-918 | nor does any run of such swaps, all-token deposits and withdrawals and direct token-program steps |
| PoolSettlement.SwapHonoursMinimum | program/src/processor.rs:464-691 | the payer loses what the quote charges, the payee gains at least the minimum |
| PoolSettlement.DepositAllHonoursMaxima | program/src/processor.rs:764-812 | no more than the maxima is taken, exactly the LP tokens asked for are minted |
| PoolSettlement.WithdrawAllHonoursMinima | program/src/processor.rs:883-968 | exactly the LP tokens offered leave the source, fee included, and at least the minima arrive |
| RoundTrip.DepositThenWithdraw | program/src/processor.rs:694-970 | on the pool, an all-token deposit and a withdrawal of the same LP tokens, from any accounts, leave neither vault lower than before; without a withdrawal fee neither is more than one unit higher and the supply is as before; a fee leaves its LP tokens outstanding |
| PoolSettlement.DepositSingleHonoursMinimum | program/src/processor.rs:1065-1194 | exactly the amount is taken from one side, at least the minimum and never nothing is credited |
| PoolSettlement.WithdrawSingleHonoursMaximum | program/src/processor.rs:1362-1440 | exactly the amount arrives on one side, and an ordinary source pays more than nothing and at most the maximum |
| CallerLimits.LimitsOnlyRefuse | program/src/processor.rs:464-1440 | a call does exactly what it would do without its limits when they are honoured, fails for the slippage when they are not, and limits never let a failing call through |
| CallerLimits.WithdrawAllPaysOwner | program/src/processor.rs:869-940 | an all-token withdrawal raises the fee account's LP balance by the floor of the offered LP tokens' part, or one where that is zero and something is due, and burns the rest; without a fee account, or from it, it burns all |
| CallerLimits.WithdrawSinglePaysOwner | program/src/processor.rs:1284-1400 | a single-sided withdrawal pays the same fee on the LP tokens it burns, on top of them and beside the owner's trading fee |
| PoolSettlement.OwnerFeeSplit | program/src/processor.rs:606-673 | the host gets its part, the fee account the rest, nobody else anything, and supply grows by just that |
| PoolExit.ExitAlwaysPossible | program/fuzz/src/instructions.rs:257-281 | for every curve: a holder can withdraw any amount it holds if and only if the curve's condition on the amount is met, and is paid its exact part of both vaults |
| PoolExit.ReachableExit | program/fuzz/src/instructions.rs:257-281 | the same, with the same amounts, after any run from initialization with token-program steps in between, whether or not the fee account still exists; a pool with a price always pays |
| InstructionCodec.Pack | program/src/instruction.rs:450-540 | pushing onto the buffer field by field builds the encoding |
| InstructionCodec.InstructionRoundTrip | program/src/instruction.rs:313-447 | all nine instructions decode back from their bytes, trailing bytes ignored except after Initialize |
| InstructionCodec.DecodedIsPrefix | program/src/instruction.rs:313-447 | accepted data begins with the encoding of what it decodes to |
| Layouts.DecodedIffLaid | program/src/instruction.rs:313-447 | data decodes to an instruction if and only if each number, flag and key stands byte by byte where that instruction has it |
| CurveCodec.CurveRoundTrip | program/src/curve/base.rs:269-296 | every curve is recovered from its 65-byte slot, whatever the slot held before |
| CurveCodec.FeesRoundTrip | program/src/curve/fees.rs:196-242 | the eight fee numbers are recovered from their bytes |
| StateCodec.Pack | program/src/state.rs:77-86 | packing in place writes the specified account, or fails on a wrong length |
| StateCodec.StateRoundTrip | program/src/state.rs:227-293 | an initialized swap is recovered from its bytes, any other is refused |
| StateCodec.RepackIsIdentity | program/src/state.rs:227-293 | packing back what an account holds changes no byte |
| Layouts.UnpackedIffLaid | program/src/state.rs:227-293 | an account unpacks to a swap if and only if every field stands byte by byte at its offset and the account is marked initialized |
| Layouts.PackedIsLaid | program/src/state.rs:77-86 | packing writes that layout and leaves what lies beyond the curve's own numbers |
| StateCodec.ExtractAgreesWithUnpack | program/src/redemption_rate_processor.rs:112-130 | the curve read at its fixed offset is the one full unpacking sees |
| StateCodec.UpdateFramesAccount | program/src/redemption_rate_processor.rs:73-109 | rewriting with a new rate changes only the 48 bytes of ssr, rho and chi |
| StateCodec.ProcessCurveUpdate | program/src/redemption_rate_processor.rs:26-71 | on the bytes in place: accepted if and only if the account unpacks, holds a redemption-rate curve and the update rule accepts; then only the rate bytes change; otherwise nothing does; the update rule is `RedemptionRate.UpdateAcceptedIff` |

## Where code and comments differ

The model follows the code.

* The comment above the constant-product swap (program/src/curve/constant_product.rs:24-28) promises success on a range in which the ceiling division still refuses a product smaller than the grown source reserve, or the offer buys nothing; `SwapFailsOnlyWhenNothingIsBought` states exactly when, `DustIsRefused` gives an instance.
* The inverse fee is described as the input needed to give an output (program/src/curve/fees.rs:130-131); where the added rates take at most one token of the output plus one, the net falls one token short of it; `TwoRateInverse` states exactly when, `MinimumFeesTakeTheToken` gives an instance.

## Left out

- ConstantProduct and Offset single-sided conversions: their results (`spl-math` `PreciseNumber::sqrt`, not part of this model) are parameters of an instruction, so every invariant of `PoolInvariants` holds whatever they return, but no share-value claim is made for these two curves with owner fees or single-sided steps.
- ShareRuns.RunKeepsShareValue: one part in 10^9 for each instruction asks every successful withdrawal of B to leave 10^9 LP tokens.  `SupplyThreshold.OnePartIff` shows that no smaller supply is enough for every pool; a particular withdrawal that leaves less may still stay within it, and `ShareRuns.RunLosesAtMost` bounds all of them.
- Price order across a rate update is not claimed: the code only requires that chi does not fall.
- Permission accounts: an authorised update is an enabled step (program/src/permission.rs); InitializePermission and UpdatePermission are modelled as encodings only.
- Account iteration, ownership, signer, key and derived-address checks, CPI encoding, mint decimals and token-2022 extensions; token calls are ledger updates that fail on a missing account, insufficient balance or overflow.  The account holding the initial LP tokens belongs to an address the program never signs for, so transfers and burns from it fail.
- Issuing tokens A and B: a transfer from an account that stands for the issuer, and burning them to issue them again a transfer back, since a mint's supply is itself 64 bits wide.  Freezing, delegates and authority changes of token accounts are not modelled.
- The clock is an input of each instruction; a negative timestamp cast to `u128` is a very large one.
- Error codes are those of the program where an instruction returns one; an abort is one more error value, or the `None` of the checked operation around it.
- A stored curve tag always matches its calculator here, because one datatype holds both.
- `normalized_value`, production constraints, error printing, instruction builders, the unsafe generic `unpack`, the JavaScript client, C header, tests and the fuzz harness.
