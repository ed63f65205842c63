/** What fees, quotes and share conversions have to be, stated as inequalities over plain
    numbers without the functions that compute them, and that these compute exactly that:
    each result is the one the rule allows, and there is none where the rule allows none. */
module QuoteRules {
  import opened Checked
  import opened Arith
  import opened RayPower
  import opened RedemptionRate
  import opened PriceCurve
  import opened FeeSchedule
  import opened SwapCurve
  import CP = ConstantProduct

  // ---------------------------------------------------------------------------
  // Rounding
  // ---------------------------------------------------------------------------

  /** q is n / d rounded down ... */
  predicate FloorOf(q: nat, n: nat, d: nat) {
    q * d <= n < q * d + d
  }

  /** ... and rounded up. */
  predicate CeilOf(q: nat, n: nat, d: nat) {
    n <= q * d < n + d
  }

  lemma FloorRule(q: nat, n: nat, d: nat)
    ensures FloorOf(q, n, d) <==> d > 0 && q == n / d
  {
    if d > 0 {
      Floor(n, d);
      FloorIsMost(n, d, q);
      assert (q + 1) * d == q * d + d;
      FloorIsMost(n, d, q + 1);
    }
  }

  lemma CeilRule(q: nat, n: nat, d: nat)
    ensures CeilOf(q, n, d) <==> d > 0 && q == CeilQuotient(n, d)
  {
    if d > 0 {
      Ceil(n, d);
      CeilIsLeast(n, d, q);
      if q > 0 {
        CeilIsLeast(n, d, q - 1);
        assert (q - 1) * d == q * d - d;
      }
    }
  }

  // ---------------------------------------------------------------------------
  // Fees
  // ---------------------------------------------------------------------------

  /** f is the fee at num / den: the share rounded down, one token where that is nothing
      but something is due. */
  ghost predicate FeeOf(amount: nat, num: nat, den: nat, f: nat) {
    if num == 0 || amount == 0 then f == 0
    else
      && amount * num < U128_LIMIT
      && ((f > 0 && FloorOf(f, amount * num, den)) || (f == 1 && amount * num < den))
  }

  lemma FeeRule(amount: U128, num: U128, den: U128, f: nat)
    ensures CalculateFee(amount, num, den) == Some(f) <==> FeeOf(amount, num, den, f)
  {
    if num != 0 && amount != 0 && amount * num < U128_LIMIT {
      FloorRule(f, amount * num, den);
      FloorRule(0, amount * num, den);
      if den > 0 {
        Floor(amount * num, den);
        MulMono(amount * num / den, amount * num / den, 1, den);
      }
    }
  }

  /** p is the least amount that leaves post of it at a rate of num / den. */
  ghost predicate GrossUpOf(post: nat, num: nat, den: nat, p: nat) {
    if num == 0 || den == 0 then p == post
    else
      && num < den
      && if post == 0 then p == 0
         else post * den + (den - num) < U128_LIMIT && CeilOf(p, post * den, den - num)
  }

  lemma GrossUpRule(post: U128, num: U128, den: U128, p: nat)
    ensures PreFeeAmount(post, num, den) == Some(p) <==> GrossUpOf(post, num, den, p)
  {
    if 0 < num < den && post != 0 && post * den + (den - num) < U128_LIMIT {
      var n, d := post * den, den - num;
      CeilByAdding(n, d);
      CeilRule(p, n, d);
      Floor(n + d - 1, d);
      MulMono((n + d - 1) / d, (n + d - 1) / d, 1, d);
    }
  }

  /** p is what grosses up to post under both trading rates of a schedule; a rate with a
      zero on either side is not in force. */
  ghost predicate PreFeeOf(fees: Fees, post: nat, p: nat) {
    if fees.tradeNum == 0 || fees.tradeDen == 0 then GrossUpOf(post, fees.ownerTradeNum, fees.ownerTradeDen, p)
    else if fees.ownerTradeNum == 0 || fees.ownerTradeDen == 0 then GrossUpOf(post, fees.tradeNum, fees.tradeDen, p)
    else
      var num := fees.tradeNum * fees.ownerTradeDen + fees.ownerTradeNum * fees.tradeDen;
      num < U128_LIMIT && GrossUpOf(post, num, fees.tradeDen * fees.ownerTradeDen, p)
  }

  lemma PreFeeRule(fees: Fees, post: U128, p: nat)
    ensures fees.PreTradingFeeAmount(post) == Some(p) <==> PreFeeOf(fees, post, p)
  {
    MulMono(fees.tradeDen, U64_LIMIT - 1, fees.ownerTradeDen, U64_LIMIT - 1);
    if fees.tradeNum == 0 || fees.tradeDen == 0 {
      GrossUpRule(post, fees.ownerTradeNum, fees.ownerTradeDen, p);
    } else if fees.ownerTradeNum == 0 || fees.ownerTradeDen == 0 {
      GrossUpRule(post, fees.tradeNum, fees.tradeDen, p);
    } else {
      var num := fees.tradeNum * fees.ownerTradeDen + fees.ownerTradeNum * fees.tradeDen;
      if num < U128_LIMIT {
        GrossUpRule(post, num, fees.tradeDen * fees.ownerTradeDen, p);
      }
    }
  }

  /** With exactly one rate in force, the inverse of the whole schedule leaves the amount
      asked for or one more once the fees are off; with none it changes nothing. */
  lemma OneActiveRate(fees: Fees, q: U128)
    requires fees.tradeNum == 0 || fees.ownerTradeNum == 0
    requires fees.PreTradingFeeAmount(q).Some?
    requires var p := fees.PreTradingFeeAmount(q).value;
             fees.TradingFee(p).Some? && fees.OwnerTradingFee(p).Some?
    ensures var p := fees.PreTradingFeeAmount(q).value;
            && q <= p - fees.TradingFee(p).value - fees.OwnerTradingFee(p).value <= q + 1
            && (fees.tradeNum == 0 && fees.ownerTradeNum == 0 ==> p == q)
  {
    if fees.tradeNum != 0 && fees.tradeDen != 0 {
      OneRateInverse(q, fees.tradeNum, fees.tradeDen);
    } else if fees.ownerTradeNum != 0 && fees.ownerTradeDen != 0 {
      OneRateInverse(q, fees.ownerTradeNum, fees.ownerTradeDen);
    }
  }

  // ---------------------------------------------------------------------------
  // Prices and swap quotes
  // ---------------------------------------------------------------------------

  /** p is the price of B in A at a time: the stored one, the posted chi at its time, and
      after it chi grown by the power of the rate, rounded down. */
  ghost predicate PriceIs(c: Curve, now: U128, p: nat) {
    match c
    case ConstantPriceCurve(price) => p == price
    case RedemptionRateCurve(r) =>
      if now == r.rho then p == r.chi
      else
        && r.rho < now
        && var growth := Rpow(r.ssr, now - r.rho);
           growth.Some? && growth.value * r.chi < U256_LIMIT && FloorOf(p, growth.value * r.chi, RAY)
    case _ => false
  }

  lemma PriceRule(c: Curve, now: U128, p: nat)
    ensures PriceOf(c, now) == Some(p) <==> PriceIs(c, now, p)
  {
    if c.RedemptionRateCurve? && c.rate.rho < now && Rpow(c.rate.ssr, now - c.rate.rho).Some? {
      FloorRule(p, Rpow(c.rate.ssr, now - c.rate.rho).value * c.rate.chi, RAY);
    }
  }

  /** A swap at a price: buying B takes the most B the offer can pay for and the least A
      that pays for it, at least one; selling B takes all and pays its value rounded
      down.  No swap gives nothing. */
  ghost predicate PricedQuote(p: nat, offered: nat, dir: TradeDirection, used: nat, out: nat) {
    && 0 < used && 0 < out < U128_LIMIT
    && match dir
       case AtoB => FloorOf(out, offered * RAY, p) && RAY <= out * p && CeilOf(used, out * p, RAY)
       case BtoA => used == offered && offered * p < U256_LIMIT && FloorOf(out, offered * p, RAY)
  }

  lemma PricedQuoteRule(p: U256, offered: U128, dir: TradeDirection, used: U128, out: U128)
    ensures SwapAt(p, offered, dir) == Some(Quote(used, out)) <==> PricedQuote(p, offered, dir, used, out)
  {
    match dir
    case BtoA => FloorRule(out, offered * p, RAY);
    case AtoB =>
      FloorRule(out, offered * RAY, p);
      CeilRule(used, out * p, RAY);
      if p > 0 && out == offered * RAY / p {
        Floor(offered * RAY, p);
        FloorIsMost(out * p, RAY, 1);
        CeilIsLeast(out * p, RAY, offered);
      }
  }

  /** A swap on a product of reserves s and d: what is left of d is the least that keeps
      the product with the whole offer in, and the offer is charged the least that keeps
      it with that; the grown source must not outweigh the product. */
  ghost predicate ProductQuote(offered: nat, s: nat, d: nat, used: nat, out: nat) {
    && s * d < U128_LIMIT && s + offered < U128_LIMIT && s + offered <= s * d
    && 0 < out < d
    && CeilOf(d - out, s * d, s + offered)
    && CeilOf(s + used, s * d, d - out)
  }

  lemma ProductQuoteRule(offered: U128, s: U128, d: U128, used: U128, out: U128)
    ensures CP.Swap(offered, s, d) == Some(Quote(used, out)) <==> ProductQuote(offered, s, d, used, out)
  {
    if s * d < U128_LIMIT && 0 < s + offered < U128_LIMIT {
      FloorIsMost(s * d, s + offered, 1);
      if s * d / (s + offered) != 0 {
        CeilDivIsTight(s * d, s + offered);
        var (m, n) := CeilDiv(s * d, s + offered).value;
        if out < d {
          CeilRule(d - out, s * d, s + offered);
          CeilRule(s + used, s * d, d - out);
        }
      }
    }
  }

  /** A quote of any curve; an offset counts as reserve B. */
  ghost predicate QuoteIs(c: Curve, offered: nat, x: nat, y: nat, dir: TradeDirection, now: U128, used: nat, out: nat) {
    match c
    case ConstantProductCurve => ProductQuote(offered, x, y, used, out)
    case OffsetCurve(offset) =>
      (match dir
       case AtoB => y + offset < U128_LIMIT && ProductQuote(offered, x, y + offset, used, out)
       case BtoA => x + offset < U128_LIMIT && ProductQuote(offered, x + offset, y, used, out))
    case _ => exists p: U256 :: PriceIs(c, now, p) && PricedQuote(p, offered, dir, used, out)
  }

  lemma QuoteRule(c: Curve, offered: U128, x: U128, y: U128, dir: TradeDirection, now: U128, used: U128, out: U128)
    ensures SwapWithoutFees(c, offered, x, y, dir, now) == Some(Quote(used, out))
       <==> QuoteIs(c, offered, x, y, dir, now, used, out)
  {
    match c
    case ConstantProductCurve => ProductQuoteRule(offered, x, y, used, out);
    case OffsetCurve(offset) =>
      match dir {
        case AtoB => if y + offset < U128_LIMIT { ProductQuoteRule(offered, x, y + offset, used, out); }
        case BtoA => if x + offset < U128_LIMIT { ProductQuoteRule(offered, x + offset, y, used, out); }
      }
    case _ =>
      forall p: U256 ensures PriceOf(c, now) == Some(p) <==> PriceIs(c, now, p) {
        PriceRule(c, now, p);
      }
      if PriceOf(c, now).Some? {
        PricedQuoteRule(PriceOf(c, now).value, offered, dir, used, out);
      }
  }

  // ---------------------------------------------------------------------------
  // A swap with its fees
  // ---------------------------------------------------------------------------

  /** What a swap works out on the way: the fees on the whole offer, what the curve uses
      of the rest, and the amount the final fees are on. */
  datatype Working = Working(trade: U128, owner: U128, used: U128, basis: U128)

  ghost predicate SwapIs(c: Curve, source: nat, x: nat, y: nat, dir: TradeDirection, fees: Fees, now: U128,
                         r: SwapResult, w: Working)
  {
    && FeeOf(source, fees.tradeNum, fees.tradeDen, w.trade)
    && FeeOf(source, fees.ownerTradeNum, fees.ownerTradeDen, w.owner)
    && w.trade + w.owner <= source
    && QuoteIs(c, source - w.trade - w.owner, x, y, dir, now, w.used, r.destinationSwapped)
    && (if w.used == source - w.trade - w.owner then w.basis == source else PreFeeOf(fees, w.used, w.basis))
    && FeeOf(w.basis, fees.tradeNum, fees.tradeDen, r.tradeFee)
    && FeeOf(w.basis, fees.ownerTradeNum, fees.ownerTradeDen, r.ownerFee)
    && r.sourceSwapped == w.used + r.tradeFee + r.ownerFee
    && r.newSource == x + r.sourceSwapped
    && r.newDestination + r.destinationSwapped == y
  }

  /** The working behind a swap that answers. */
  lemma SwapShowsWorking(c: Curve, source: U128, x: U128, y: U128, dir: TradeDirection, fees: Fees, now: U128,
                         r: SwapResult) returns (w: Working)
    requires SwapWithFees(c, source, x, y, dir, fees, now) == Some(r)
    ensures SwapIs(c, source, x, y, dir, fees, now, r, w)
  {
    var less, q, basis := StepsOf(c, source, x, y, dir, fees, now, r);
    w := Working(fees.TradingFee(source).value, fees.OwnerTradingFee(source).value, q.used, basis);
    UsedWithinOffer(c, less, x, y, dir, now);
    FeesFollowRules(fees, source, w.trade, w.owner);
    FeesFollowRules(fees, basis, r.tradeFee, r.ownerFee);
    QuoteRule(c, less, x, y, dir, now, q.used, q.out);
    PreFeeRule(fees, q.used, basis);
  }

  lemma StepsOf(c: Curve, source: U128, x: U128, y: U128, dir: TradeDirection, fees: Fees, now: U128, r: SwapResult)
    returns (less: U128, q: Quote, basis: U128)
    requires SwapWithFees(c, source, x, y, dir, fees, now) == Some(r)
    ensures fees.TradingFee(source).Some? && fees.OwnerTradingFee(source).Some?
    ensures less == source - fees.TradingFee(source).value - fees.OwnerTradingFee(source).value
    ensures SwapWithoutFees(c, less, x, y, dir, now) == Some(q) && q.out == r.destinationSwapped
    ensures FeeBasis(source, less, q.used, fees) == Some(basis)
    ensures fees.TradingFee(basis) == Some(r.tradeFee) && fees.OwnerTradingFee(basis) == Some(r.ownerFee)
    ensures r.sourceSwapped == q.used + r.tradeFee + r.ownerFee && r.newSource == x + r.sourceSwapped
    ensures r.newDestination + q.out == y
  {
    less := LessFees(source, fees).value;
    q := SwapWithoutFees(c, less, x, y, dir, now).value;
    basis := FeeBasis(source, less, q.used, fees).value;
  }

  lemma FeesFollowRules(fees: Fees, amount: U128, trade: nat, owner: nat)
    ensures fees.TradingFee(amount) == Some(trade) <==> FeeOf(amount, fees.tradeNum, fees.tradeDen, trade)
    ensures fees.OwnerTradingFee(amount) == Some(owner)
       <==> FeeOf(amount, fees.ownerTradeNum, fees.ownerTradeDen, owner)
  {
    FeeRule(amount, fees.tradeNum, fees.tradeDen, trade);
    FeeRule(amount, fees.ownerTradeNum, fees.ownerTradeDen, owner);
  }

  lemma WorkingGivesSwap(c: Curve, source: U128, x: U128, y: U128, dir: TradeDirection, fees: Fees, now: U128,
                         r: SwapResult, w: Working)
    requires SwapIs(c, source, x, y, dir, fees, now, r, w)
    ensures SwapWithFees(c, source, x, y, dir, fees, now) == Some(r)
  {
    FeesFollowRules(fees, source, w.trade, w.owner);
    var less := source - w.trade - w.owner;
    assert LessFees(source, fees) == Some(less);
    QuoteRule(c, less, x, y, dir, now, w.used, r.destinationSwapped);
    UsedWithinOffer(c, less, x, y, dir, now);
    PreFeeRule(fees, w.used, w.basis);
    FeesFollowRules(fees, w.basis, r.tradeFee, r.ownerFee);
    ChargedOnBasis(c, source, x, y, dir, fees, now, r, less, w);
  }

  /** The swap once its quote and the amount its fees are on are known. */
  lemma ChargedOnBasis(c: Curve, source: U128, x: U128, y: U128, dir: TradeDirection, fees: Fees, now: U128,
                       r: SwapResult, less: U128, w: Working)
    requires LessFees(source, fees) == Some(less)
    requires SwapWithoutFees(c, less, x, y, dir, now) == Some(Quote(w.used, r.destinationSwapped))
    requires FeeBasis(source, less, w.used, fees) == Some(w.basis)
    requires fees.TradingFee(w.basis) == Some(r.tradeFee) && fees.OwnerTradingFee(w.basis) == Some(r.ownerFee)
    requires r.sourceSwapped == w.used + r.tradeFee + r.ownerFee && r.newSource == x + r.sourceSwapped
    requires r.newDestination + r.destinationSwapped == y
    ensures SwapWithFees(c, source, x, y, dir, fees, now) == Some(r)
  {
  }

  /** A swap answers exactly what the rules say. */
  lemma SwapRule(c: Curve, source: U128, x: U128, y: U128, dir: TradeDirection, fees: Fees, now: U128, r: SwapResult)
    ensures SwapWithFees(c, source, x, y, dir, fees, now) == Some(r)
       <==> exists w :: SwapIs(c, source, x, y, dir, fees, now, r, w)
  {
    if SwapWithFees(c, source, x, y, dir, fees, now) == Some(r) {
      var w := SwapShowsWorking(c, source, x, y, dir, fees, now, r);
    }
    if w :| SwapIs(c, source, x, y, dir, fees, now, r, w) {
      WorkingGivesSwap(c, source, x, y, dir, fees, now, r, w);
    }
  }

  /** With at most one rate in force, what a swap charges less the fees on what a partial
      fill grosses up to is what the curve used, or one token more of it. */
  lemma PartialFillIsGrossedUp(c: Curve, source: U128, x: U128, y: U128, dir: TradeDirection, fees: Fees, now: U128,
                               r: SwapResult, w: Working)
    requires SwapIs(c, source, x, y, dir, fees, now, r, w)
    requires w.used < source - w.trade - w.owner && (fees.tradeNum == 0 || fees.ownerTradeNum == 0)
    ensures w.used <= w.basis - r.tradeFee - r.ownerFee <= w.used + 1
    ensures w.basis - 1 <= r.sourceSwapped <= w.basis
  {
    PreFeeRule(fees, w.used, w.basis);
    FeesFollowRules(fees, w.basis, r.tradeFee, r.ownerFee);
    OneActiveRate(fees, w.used);
  }

  // ---------------------------------------------------------------------------
  // LP tokens for one token
  // ---------------------------------------------------------------------------

  /** m LP tokens stand for an amount of one token: the supply's part that its value is of
      the whole pool's, values of B rounded down, the part rounded as asked; rounded up
      it is never a part below one LP token. */
  ghost predicate LpOf(p: nat, amount: nat, a: nat, b: nat, supply: nat, side: TradeDirection, round: Rounding,
                       m: nat)
  {
    var given := if side.AtoB? then amount else amount * p / RAY;
    var total := a + b * p / RAY;
    && (side.BtoA? ==> amount * p < U256_LIMIT)
    && b * p < U256_LIMIT && total < U256_LIMIT && supply * given < U256_LIMIT
    && m < U128_LIMIT
    && match round
       case Down => FloorOf(m, supply * given, total)
       case Up => total <= supply * given && CeilOf(m, supply * given, total)
  }

  lemma LpRule(p: U256, amount: U128, a: U128, b: U128, supply: U128, side: TradeDirection, round: Rounding, m: nat)
    ensures ToPoolTokens(p, amount, a, b, supply, side, round) == Some(m)
       <==> LpOf(p, amount, a, b, supply, side, round, m)
  {
    var given: nat := if side.AtoB? then amount else amount * p / RAY;
    var total: nat := a + b * p / RAY;
    FloorRule(m, supply * given, total);
    CeilRule(m, supply * given, total);
    if total > 0 {
      FloorIsMost(supply * given, total, 1);
    }
  }

  /** The same on a curve; without a price it is what the square root gave. */
  ghost predicate SingleIs(c: Curve, amount: nat, a: nat, b: nat, supply: nat, side: TradeDirection, round: Rounding,
                           now: U128, root: Option<U128>, m: nat)
  {
    match c
    case ConstantProductCurve => root == Some(m)
    case OffsetCurve(_) => root == Some(m)
    case _ => exists p: U256 :: PriceIs(c, now, p) && LpOf(p, amount, a, b, supply, side, round, m)
  }

  lemma SingleRule(c: Curve, amount: U128, a: U128, b: U128, supply: U128, side: TradeDirection, round: Rounding,
                   now: U128, root: Option<U128>, m: nat)
    ensures SingleSided(c, amount, a, b, supply, side, round, now, root) == Some(m)
       <==> SingleIs(c, amount, a, b, supply, side, round, now, root, m)
  {
    forall p: U256 ensures PriceOf(c, now) == Some(p) <==> PriceIs(c, now, p) {
      PriceRule(c, now, p);
    }
    if PriceOf(c, now).Some? {
      LpRule(PriceOf(c, now).value, amount, a, b, supply, side, round, m);
    }
  }

  /** A single-sided deposit: both fees on half of what is brought, at least on one
      token, are off before the rest is converted, rounded down. */
  ghost predicate DepositIs(c: Curve, source: nat, a: nat, b: nat, supply: nat, side: TradeDirection, fees: Fees,
                            now: U128, root: Option<U128>, m: nat, owner: nat, trade: nat)
  {
    if source == 0 then m == 0 && owner == 0
    else
      var half := if source == 1 then 1 else source / 2;
      && FeeOf(half, fees.tradeNum, fees.tradeDen, trade)
      && FeeOf(half, fees.ownerTradeNum, fees.ownerTradeDen, owner)
      && trade + owner <= source
      && SingleIs(c, source - trade - owner, a, b, supply, side, Down, now, root, m)
  }

  lemma DepositShowsWorking(c: Curve, source: U128, a: U128, b: U128, supply: U128, side: TradeDirection, fees: Fees,
                            now: U128, root: Option<U128>, r: SingleResult) returns (trade: U128)
    requires DepositWithFees(c, source, a, b, supply, side, fees, now, root) == Some(r)
    ensures DepositIs(c, source, a, b, supply, side, fees, now, root, r.amount, r.ownerFee, trade)
  {
    if source == 0 {
      trade := 0;
    } else {
      var half: U128 := if source == 1 then 1 else source / 2;
      trade := fees.TradingFee(half).value;
      FeesFollowRules(fees, half, trade, r.ownerFee);
      SingleRule(c, source - trade - r.ownerFee, a, b, supply, side, Down, now, root, r.amount);
    }
  }

  lemma WorkingGivesDeposit(c: Curve, source: U128, a: U128, b: U128, supply: U128, side: TradeDirection, fees: Fees,
                            now: U128, root: Option<U128>, r: SingleResult, trade: U128)
    requires DepositIs(c, source, a, b, supply, side, fees, now, root, r.amount, r.ownerFee, trade)
    ensures DepositWithFees(c, source, a, b, supply, side, fees, now, root) == Some(r)
  {
    if source != 0 {
      var half: U128 := if source == 1 then 1 else source / 2;
      FeesFollowRules(fees, half, trade, r.ownerFee);
      SingleRule(c, source - trade - r.ownerFee, a, b, supply, side, Down, now, root, r.amount);
    }
  }

  /** A deposit answers exactly what the rules say. */
  lemma DepositRule(c: Curve, source: U128, a: U128, b: U128, supply: U128, side: TradeDirection, fees: Fees,
                    now: U128, root: Option<U128>, r: SingleResult)
    ensures DepositWithFees(c, source, a, b, supply, side, fees, now, root) == Some(r)
       <==> exists trade: U128 ::
              DepositIs(c, source, a, b, supply, side, fees, now, root, r.amount, r.ownerFee, trade)
  {
    if DepositWithFees(c, source, a, b, supply, side, fees, now, root) == Some(r) {
      var trade := DepositShowsWorking(c, source, a, b, supply, side, fees, now, root, r);
    }
    if trade: U128 :| DepositIs(c, source, a, b, supply, side, fees, now, root, r.amount, r.ownerFee, trade) {
      WorkingGivesDeposit(c, source, a, b, supply, side, fees, now, root, r, trade);
    }
  }

  /** A single-sided withdrawal: the larger half of the amount is grossed up for both
      fees, and the sum with the other half converted, rounded up. */
  ghost predicate WithdrawalIs(c: Curve, amount: nat, a: nat, b: nat, supply: nat, side: TradeDirection, fees: Fees,
                               now: U128, root: Option<U128>, m: nat, owner: nat, grossed: nat)
  {
    if amount == 0 then m == 0 && owner == 0
    else
      var half := (amount + 1) / 2;
      && amount + 1 < U128_LIMIT
      && PreFeeOf(fees, half, grossed)
      && FeeOf(grossed, fees.ownerTradeNum, fees.ownerTradeDen, owner)
      && amount - half + grossed < U128_LIMIT
      && SingleIs(c, amount - half + grossed, a, b, supply, side, Up, now, root, m)
  }

  lemma WithdrawBasisRule(amount: U128, fees: Fees, grossed: U128, owner: U128)
    requires amount > 0
    ensures var half := (amount + 1) / 2;
            amount + 1 < U128_LIMIT && PreFeeOf(fees, half, grossed)
            && FeeOf(grossed, fees.ownerTradeNum, fees.ownerTradeDen, owner) && amount - half + grossed < U128_LIMIT
            <==> fees.PreTradingFeeAmount(half) == Some(grossed)
                 && WithdrawBasis(amount, fees) == Some((amount - half + grossed, owner))
  {
    if amount + 1 < U128_LIMIT {
      PreFeeRule(fees, (amount + 1) / 2, grossed);
      FeeRule(grossed, fees.ownerTradeNum, fees.ownerTradeDen, owner);
    }
  }

  lemma WithdrawBasisParts(amount: U128, fees: Fees)
    requires amount > 0 && WithdrawBasis(amount, fees).Some?
    ensures var half := (amount + 1) / 2;
            && amount + 1 < U128_LIMIT && fees.PreTradingFeeAmount(half).Some?
            && WithdrawBasis(amount, fees).value.0 == amount - half + fees.PreTradingFeeAmount(half).value
  {
  }

  lemma WithdrawalShowsWorking(c: Curve, amount: U128, a: U128, b: U128, supply: U128, side: TradeDirection,
                               fees: Fees, now: U128, root: Option<U128>, r: SingleResult) returns (grossed: U128)
    requires WithdrawWithFees(c, amount, a, b, supply, side, fees, now, root) == Some(r)
    ensures WithdrawalIs(c, amount, a, b, supply, side, fees, now, root, r.amount, r.ownerFee, grossed)
  {
    if amount == 0 {
      grossed := 0;
    } else {
      WithdrawBasisParts(amount, fees);
      grossed := fees.PreTradingFeeAmount((amount + 1) / 2).value;
      WithdrawBasisRule(amount, fees, grossed, r.ownerFee);
      SingleRule(c, WithdrawBasis(amount, fees).value.0, a, b, supply, side, Up, now, root, r.amount);
    }
  }

  lemma WorkingGivesWithdrawal(c: Curve, amount: U128, a: U128, b: U128, supply: U128, side: TradeDirection,
                               fees: Fees, now: U128, root: Option<U128>, r: SingleResult, grossed: U128)
    requires WithdrawalIs(c, amount, a, b, supply, side, fees, now, root, r.amount, r.ownerFee, grossed)
    ensures WithdrawWithFees(c, amount, a, b, supply, side, fees, now, root) == Some(r)
  {
    if amount != 0 {
      var half := (amount + 1) / 2;
      WithdrawBasisRule(amount, fees, grossed, r.ownerFee);
      SingleRule(c, amount - half + grossed, a, b, supply, side, Up, now, root, r.amount);
    }
  }

  /** A withdrawal answers exactly what the rules say. */
  lemma WithdrawalRule(c: Curve, amount: U128, a: U128, b: U128, supply: U128, side: TradeDirection, fees: Fees,
                       now: U128, root: Option<U128>, r: SingleResult)
    ensures WithdrawWithFees(c, amount, a, b, supply, side, fees, now, root) == Some(r)
       <==> exists grossed: U128 ::
              WithdrawalIs(c, amount, a, b, supply, side, fees, now, root, r.amount, r.ownerFee, grossed)
  {
    if WithdrawWithFees(c, amount, a, b, supply, side, fees, now, root) == Some(r) {
      var grossed := WithdrawalShowsWorking(c, amount, a, b, supply, side, fees, now, root, r);
    }
    if grossed: U128 :|
         WithdrawalIs(c, amount, a, b, supply, side, fees, now, root, r.amount, r.ownerFee, grossed) {
      WorkingGivesWithdrawal(c, amount, a, b, supply, side, fees, now, root, r, grossed);
    }
  }

  // ---------------------------------------------------------------------------
  // Both tokens for LP tokens
  // ---------------------------------------------------------------------------

  /** t is a part of n in supply.  Rounded up, a priced curve has no answer for a part
      below one token, and a product curve answers zero. */
  predicate PartIs(priced: bool, n: nat, supply: nat, round: Rounding, t: nat) {
    && supply > 0 && t < U128_LIMIT
    && match round
       case Down => FloorOf(t, n, supply)
       case Up => if n < supply then !priced && t == 0 else CeilOf(t, n, supply)
  }

  /** t is the part of a reserve that LP tokens stand for. */
  ghost predicate PartOf(priced: bool, lp: nat, supply: nat, reserve: nat, round: Rounding, t: nat) {
    lp * reserve < (if priced then U256_LIMIT else U128_LIMIT) && PartIs(priced, lp * reserve, supply, round, t)
  }

  ghost predicate TokensAre(c: Curve, lp: nat, supply: nat, a: nat, b: nat, round: Rounding, ta: nat, tb: nat) {
    var priced := c.ConstantPriceCurve? || c.RedemptionRateCurve?;
    var counted := if c.OffsetCurve? then b + c.tokenBOffset else b;
    && counted < U128_LIMIT
    && PartOf(priced, lp, supply, a, round, ta)
    && PartOf(priced, lp, supply, counted, round, tb)
  }

  lemma PartRule(priced: bool, n: nat, supply: nat, round: Rounding, t: nat)
    ensures PartIs(priced, n, supply, round, t)
       <==> supply > 0 && t < U128_LIMIT
            && t == (if round.Up? && n / supply > 0 then CeilQuotient(n, supply) else n / supply)
            && (priced && round.Up? ==> n / supply > 0)
  {
    if supply > 0 {
      FloorRule(t, n, supply);
      CeilRule(t, n, supply);
      FloorIsMost(n, supply, 1);
    }
  }

  lemma ShareRule(lp: U128, supply: U128, reserve: U128, round: Rounding, t: nat)
    ensures CP.Share(lp, supply, reserve, round) == Some(t) <==> PartOf(false, lp, supply, reserve, round, t)
  {
    var n := lp * reserve;
    PartRule(false, n, supply, round, t);
    ShareOfProduct(lp, supply, reserve, round, n);
  }

  lemma ShareOfProduct(lp: U128, supply: U128, reserve: U128, round: Rounding, n: nat)
    requires n == lp * reserve
    ensures CP.Share(lp, supply, reserve, round) ==
            if n >= U128_LIMIT || supply == 0 then None
            else As128(if round.Up? && n / supply > 0 then CeilQuotient(n, supply) else n / supply)
  {
  }

  lemma PricedPartRule(lp: U128, supply: U128, reserve: U128, round: Rounding, t: nat)
    ensures PartOf(true, lp, supply, reserve, round, t)
       <==> supply > 0 && t < U128_LIMIT && lp * reserve < U256_LIMIT
            && t == (if round.Down? then lp * reserve / supply else CeilQuotient(lp * reserve, supply))
            && (round.Up? ==> lp * reserve / supply != 0)
  {
    PartRule(true, lp * reserve, supply, round, t);
  }

  lemma TokensRule(c: Curve, lp: U128, supply: U128, a: U128, b: U128, round: Rounding, ta: U128, tb: U128)
    ensures PoolTokensToTradingTokens(c, lp, supply, a, b, round) == Some(Tokens(ta, tb))
       <==> TokensAre(c, lp, supply, a, b, round, ta, tb)
  {
    match c
    case ConstantProductCurve =>
      ShareRule(lp, supply, a, round, ta);
      ShareRule(lp, supply, b, round, tb);
    case OffsetCurve(offset) =>
      ShareRule(lp, supply, a, round, ta);
      if b + offset < U128_LIMIT {
        ShareRule(lp, supply, b + offset, round, tb);
      }
    case _ =>
      PricedPartRule(lp, supply, a, round, ta);
      PricedPartRule(lp, supply, b, round, tb);
  }
}
