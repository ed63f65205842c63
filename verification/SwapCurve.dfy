/** The curve a pool carries, and the fee-charging wrappers around it
    (program/src/curve/base.rs). */
module SwapCurve {
  import opened Checked
  import opened Arith
  import opened RayPower
  import opened Errors
  import opened RedemptionRate
  import opened PriceCurve
  import opened FeeSchedule
  import CP = ConstantProduct

  datatype Curve =
    | ConstantProductCurve
    | ConstantPriceCurve(tokenBPrice: U128)
    | OffsetCurve(tokenBOffset: U64)
    | RedemptionRateCurve(rate: RateCurve)

  /** Price of B in A where the curve has one. */
  function PriceOf(c: Curve, now: U128): Option<U256> {
    match c
    case ConstantPriceCurve(price) => Some(price)
    case RedemptionRateCurve(rate) => ConversionRate(rate, now)
    case _ => None
  }

  predicate HasPrice(c: Curve) {
    c.ConstantPriceCurve? || c.RedemptionRateCurve?
  }

  /** Token B as the curve counts it. */
  function CountedB(c: Curve, b: nat): nat {
    if c.OffsetCurve? then b + c.tokenBOffset else b
  }

  function SwapWithoutFees(c: Curve, source: U128, swapSource: U128, swapDestination: U128,
                           dir: TradeDirection, now: U128): Option<Quote>
  {
    match c
    case ConstantProductCurve => CP.Swap(source, swapSource, swapDestination)
    case OffsetCurve(offset) => CP.SwapOffset(offset, source, swapSource, swapDestination, dir)
    case _ =>
      var p :- PriceOf(c, now);
      SwapAt(p, source, dir)
  }

  function PoolTokensToTradingTokens(c: Curve, lp: U128, supply: U128, a: U128, b: U128,
                                     round: Rounding): Option<Tokens> {
    match c
    case ConstantProductCurve => CP.Shares(lp, supply, a, b, round)
    case OffsetCurve(offset) => CP.SharesOffset(offset, lp, supply, a, b, round)
    case _ => ToTradingTokens(lp, supply, a, b, round)
  }

  /** LP tokens for a one-sided amount.  The constant-product and offset curves take a
      square root in spl-math, which is not part of this model; its result is the
      parameter `root`. */
  function SingleSided(c: Curve, amount: U128, a: U128, b: U128, supply: U128, side: TradeDirection,
                       round: Rounding, now: U128, root: Option<U128>): Option<U128>
  {
    if HasPrice(c) then
      var p :- PriceOf(c, now);
      ToPoolTokens(p, amount, a, b, supply, side, round)
    else root
  }

  function ValidateCurve(c: Curve, now: U128): Result<(), SwapError> {
    match c
    case ConstantProductCurve => Ok(())
    case ConstantPriceCurve(price) => if price == 0 then Err(InvalidCurve) else Ok(())
    case OffsetCurve(offset) => if offset == 0 then Err(InvalidCurve) else Ok(())
    case RedemptionRateCurve(rate) =>
      var p :- ConversionRate(rate, now).OrError(CalculationFailure);
      if p == 0 then Err(InvalidCurve) else Ok(())
  }

  function ValidateSupply(c: Curve, a: U64, b: U64): Result<(), SwapError> {
    if a == 0 || (c.ConstantProductCurve? && b == 0) then Err(EmptySupply) else Ok(())
  }

  // ---------------------------------------------------------------------------
  // Swaps with fees
  // ---------------------------------------------------------------------------

  datatype SwapResult = SwapResult(
    newSource: U128, newDestination: U128,
    sourceSwapped: U128, destinationSwapped: U128,
    tradeFee: U128, ownerFee: U128)

  /** Source left for the curve once both fees on the whole offer are set aside. */
  function LessFees(source: U128, fees: Fees): Option<U128> {
    var trade :- fees.TradingFee(source);
    var owner :- fees.OwnerTradingFee(source);
    var total :- Add128(trade, owner);
    Sub(source, total)
  }

  /** The amount fees are charged on: the whole offer if the curve used all of it,
      otherwise what grosses up to the part it used. */
  function FeeBasis(source: U128, less: U128, used: U128, fees: Fees): Option<U128> {
    if used < less then fees.PreTradingFeeAmount(used) else Some(source)
  }

  function SwapWithFees(c: Curve, source: U128, swapSource: U128, swapDestination: U128,
                        dir: TradeDirection, fees: Fees, now: U128): Option<SwapResult>
  {
    var less :- LessFees(source, fees);
    var q :- SwapWithoutFees(c, less, swapSource, swapDestination, dir, now);
    var basis :- FeeBasis(source, less, q.used, fees);
    var tradeFee :- fees.TradingFee(basis);
    var ownerFee :- fees.OwnerTradingFee(basis);
    var totalFees :- Add128(tradeFee, ownerFee);
    var swapped :- Add128(q.used, totalFees);
    var newSource :- Add128(swapSource, swapped);
    var newDestination :- Sub(swapDestination, q.out);
    Some(SwapResult(newSource, newDestination, swapped, q.out, tradeFee, ownerFee))
  }

  /** The swap as the program runs it, recomputing the fees after a partial fill. */
  method ComputeSwap(c: Curve, source: U128, swapSource: U128, swapDestination: U128,
                     dir: TradeDirection, fees: Fees, now: U128) returns (result: Option<SwapResult>)
    ensures result == SwapWithFees(c, source, swapSource, swapDestination, dir, fees, now)
  {
    var tradeFee :- fees.TradingFee(source);
    var ownerFee :- fees.OwnerTradingFee(source);
    var totalFees :- Add128(tradeFee, ownerFee);
    var less :- Sub(source, totalFees);
    var q :- SwapWithoutFees(c, less, swapSource, swapDestination, dir, now);
    if q.used < less {
      var preFee :- fees.PreTradingFeeAmount(q.used);
      tradeFee :- fees.TradingFee(preFee);
      ownerFee :- fees.OwnerTradingFee(preFee);
      totalFees :- Add128(tradeFee, ownerFee);
    }
    var swapped :- Add128(q.used, totalFees);
    var newSource :- Add128(swapSource, swapped);
    var newDestination :- Sub(swapDestination, q.out);
    return Some(SwapResult(newSource, newDestination, swapped, q.out, tradeFee, ownerFee));
  }

  /** Every curve uses something and none uses more than it is offered. */
  lemma UsedWithinOffer(c: Curve, source: U128, swapSource: U128, swapDestination: U128,
                        dir: TradeDirection, now: U128)
    requires SwapWithoutFees(c, source, swapSource, swapDestination, dir, now).Some?
    ensures 0 < SwapWithoutFees(c, source, swapSource, swapDestination, dir, now).value.used <= source
  {
    match c
    case ConstantProductCurve => CP.SwapUsesSource(source, swapSource, swapDestination);
    case OffsetCurve(offset) =>
      match dir {
        case AtoB => CP.SwapUsesSource(source, swapSource, swapDestination + offset);
        case BtoA => CP.SwapUsesSource(source, swapSource + offset, swapDestination);
      }
    case _ =>
  }

  /** A successful swap accounts for every token: the reserves move by exactly what is
      swapped, and what is swapped is what the curve used plus the two fees. */
  lemma SwapAccounts(c: Curve, source: U128, swapSource: U128, swapDestination: U128,
                     dir: TradeDirection, fees: Fees, now: U128)
    requires SwapWithFees(c, source, swapSource, swapDestination, dir, fees, now).Some?
    ensures var r := SwapWithFees(c, source, swapSource, swapDestination, dir, fees, now).value;
            && r.newSource == swapSource + r.sourceSwapped
            && r.newDestination + r.destinationSwapped == swapDestination
            && r.tradeFee + r.ownerFee < r.sourceSwapped
            && LessFees(source, fees).Some?
            && SwapWithoutFees(c, LessFees(source, fees).value, swapSource, swapDestination, dir, now)
               == Some(Quote(r.sourceSwapped - r.tradeFee - r.ownerFee, r.destinationSwapped))
  {
    UsedWithinOffer(c, LessFees(source, fees).value, swapSource, swapDestination, dir, now);
  }

  // ---------------------------------------------------------------------------
  // Single-sided deposits and withdrawals with fees
  // ---------------------------------------------------------------------------

  datatype SingleResult = SingleResult(amount: U128, ownerFee: U128)

  /** A deposit pays the trading fees on half of what it brings. */
  function DepositWithFees(c: Curve, source: U128, a: U128, b: U128, supply: U128, side: TradeDirection,
                           fees: Fees, now: U128, root: Option<U128>): Option<SingleResult>
  {
    if source == 0 then Some(SingleResult(0, 0))
    else
      var half := if source / 2 < 1 then 1 else source / 2;
      var trade :- fees.TradingFee(half);
      var owner :- fees.OwnerTradingFee(half);
      var total :- Add128(trade, owner);
      var net :- Sub(source, total);
      var amount :- SingleSided(c, net, a, b, supply, side, Down, now, root);
      Some(SingleResult(amount, owner))
  }

  /** What a withdrawal is charged for: the amount taken out with its larger half
      grossed up for the trading fees; and the owner's fee within it. */
  function WithdrawBasis(amount: U128, fees: Fees): Option<(U128, U128)> {
    var up :- Add128(amount, 1);
    var half := up / 2;
    var pre :- fees.PreTradingFeeAmount(half);
    var owner :- fees.OwnerTradingFee(pre);
    var rest :- Sub(amount, half);
    var basis :- Add128(rest, pre);
    Some((basis, owner))
  }

  function WithdrawWithFees(c: Curve, amount: U128, a: U128, b: U128, supply: U128, side: TradeDirection,
                            fees: Fees, now: U128, root: Option<U128>): Option<SingleResult>
  {
    if amount == 0 then Some(SingleResult(0, 0))
    else
      var (basis, owner) :- WithdrawBasis(amount, fees);
      var lp :- SingleSided(c, basis, a, b, supply, side, Up, now, root);
      Some(SingleResult(lp, owner))
  }

  /** The charge covers both what leaves and the owner's fee, for any stored fees. */
  lemma WithdrawBasisCovers(amount: U128, fees: Fees)
    requires WithdrawBasis(amount, fees).Some?
    ensures var (basis, owner) := WithdrawBasis(amount, fees).value;
            amount + owner <= basis
  {
    OwnerFeeFitsGrossUp(fees, (amount + 1) / 2);
  }
}
