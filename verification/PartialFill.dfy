/** Fees charged again after a partial fill (program/src/curve/base.rs, `swap`): when a
    swap can charge more than it was offered, exactly, and by how much. */
module PartialFill {
  import opened Checked
  import opened Arith
  import opened RayPower
  import opened PriceCurve
  import opened FeeSchedule
  import opened SwapCurve
  import CP = ConstantProduct

  /** A partial fill whose grossed-up amount fits in the offer is charged within it. */
  lemma ChargedWithinOffer(c: Curve, source: U128, swapSource: U128, swapDestination: U128,
                           dir: TradeDirection, fees: Fees, now: U128)
    requires SwapWithFees(c, source, swapSource, swapDestination, dir, fees, now).Some?
    requires var less := LessFees(source, fees).value;
             var used := SwapWithoutFees(c, less, swapSource, swapDestination, dir, now).value.used;
             FeeBasis(source, less, used, fees).value <= source
    ensures SwapWithFees(c, source, swapSource, swapDestination, dir, fees, now).value.sourceSwapped <= source
  {
    var less := LessFees(source, fees).value;
    var used := SwapWithoutFees(c, less, swapSource, swapDestination, dir, now).value.used;
    UsedWithinOffer(c, less, swapSource, swapDestination, dir, now);
    var basis := FeeBasis(source, less, used, fees).value;
    FeeMonotone(basis, source, fees.tradeNum, fees.tradeDen);
    FeeMonotone(basis, source, fees.ownerTradeNum, fees.ownerTradeDen);
  }

  /** With at most one trading rate in force a swap never charges more than was
      offered, whether or not the curve could use all of it. */
  lemma OneRateNeverOvercharges(c: Curve, source: U128, swapSource: U128, swapDestination: U128,
                                dir: TradeDirection, fees: Fees, now: U128)
    requires fees.tradeNum == 0 || fees.ownerTradeNum == 0
    requires SwapWithFees(c, source, swapSource, swapDestination, dir, fees, now).Some?
    ensures SwapWithFees(c, source, swapSource, swapDestination, dir, fees, now).value.sourceSwapped <= source
  {
    var less := LessFees(source, fees).value;
    var used := SwapWithoutFees(c, less, swapSource, swapDestination, dir, now).value.used;
    UsedWithinOffer(c, less, swapSource, swapDestination, dir, now);
    if used < less {
      if fees.TradeActive() {
        OneRateBasisFits(source, used, fees.tradeNum, fees.tradeDen);
      } else if fees.OwnerActive() {
        OneRateBasisFits(source, used, fees.ownerTradeNum, fees.ownerTradeDen);
      }
    }
    ChargedWithinOffer(c, source, swapSource, swapDestination, dir, fees, now);
  }

  lemma OneRateBasisFits(source: U128, used: U128, num: U128, den: U128)
    requires num > 0 && den > 0
    requires CalculateFee(source, num, den).Some? && used + CalculateFee(source, num, den).value < source
    requires PreFeeAmount(used, num, den).Some?
    ensures PreFeeAmount(used, num, den).value <= source
  {
    if used > 0 {
      FeeFloor(source, num, den);
      CeilDiv128IsCeil(used * den, den - num);
      NetFits(source, used, num, den, source * num / den);
      CeilIsLeast(used * den, den - num, source);
    }
  }

  lemma NetFits(s: nat, u: nat, n: nat, d: nat, f: nat)
    requires 0 < n < d && s * n < f * d + d && u + f + 1 <= s
    ensures u * d <= s * (d - n)
  {
    MulMono(u + f + 1, s, d, d);
    assert (u + f + 1) * d == u * d + f * d + d;
    assert s * (d - n) == s * d - s * n;
  }

  /** With both rates in force a partial fill can charge more than was offered, since
      the two fees on the offer are rounded down separately: 19 offered at rates of
      one half and two fifths leaves 3, of which a price of two uses 2, and grossing 2
      up to 20 charges 20. */
  lemma TwoRatesCanOvercharge()
    ensures var fees := Fees(1, 2, 2, 5, 0, 0, 0, 0);
            && fees.Validate().Ok?
            && SwapWithFees(ConstantPriceCurve(2 * RAY), 19, 1000, 1000, AtoB, fees, 0)
               == Some(SwapResult(1020, 999, 20, 1, 10, 8))
  {
    var fees := Fees(1, 2, 2, 5, 0, 0, 0, 0);
    assert LessFees(19, fees) == Some(3);
    assert SwapAt(2 * RAY, 3, AtoB) == Some(Quote(2, 1));
    assert fees.CombinedRate() == Some((9, 10));
    assert fees.PreTradingFeeAmount(2) == Some(20);
  }

  /** How far two rates can overcharge a partial fill: by fewer than
      (2D - N) / (D - N) tokens, where N / D is the sum of the two rates. */
  lemma TwoRateOverchargeBound(c: Curve, source: U128, swapSource: U128, swapDestination: U128,
                               dir: TradeDirection, fees: Fees, now: U128)
    requires fees.TradeActive() && fees.OwnerActive()
    requires SwapWithFees(c, source, swapSource, swapDestination, dir, fees, now).Some?
    ensures var r := SwapWithFees(c, source, swapSource, swapDestination, dir, fees, now).value;
            var excess := r.sourceSwapped - source;
            var num := fees.tradeNum * fees.ownerTradeDen + fees.ownerTradeNum * fees.tradeDen;
            var den := fees.tradeDen * fees.ownerTradeDen;
            excess > 0 ==> num < den && excess * (den - num) < 2 * den - num
  {
    if SwapWithFees(c, source, swapSource, swapDestination, dir, fees, now).value.sourceSwapped > source {
      var less := LessFees(source, fees).value;
      var used := SwapWithoutFees(c, less, swapSource, swapDestination, dir, now).value.used;
      UsedWithinOffer(c, less, swapSource, swapDestination, dir, now);
      if used == less || FeeBasis(source, less, used, fees).value <= source {
        ChargedWithinOffer(c, source, swapSource, swapDestination, dir, fees, now);
      } else {
        TwoRateExcess(source, used, fees);
        var r := SwapWithFees(c, source, swapSource, swapDestination, dir, fees, now).value;
        var num := fees.tradeNum * fees.ownerTradeDen + fees.ownerTradeNum * fees.tradeDen;
        var gap := fees.tradeDen * fees.ownerTradeDen - num;
        MulMono(r.sourceSwapped - source, fees.PreTradingFeeAmount(used).value - source, gap, gap);
      }
    }
  }

  lemma TwoRateExcess(source: U128, used: U128, fees: Fees)
    requires fees.TradeActive() && fees.OwnerActive() && used > 0
    requires fees.TradingFee(source).Some? && fees.OwnerTradingFee(source).Some?
    requires used + fees.TradingFee(source).value + fees.OwnerTradingFee(source).value < source
    requires fees.PreTradingFeeAmount(used).Some? && fees.PreTradingFeeAmount(used).value > source
    requires fees.TradingFee(fees.PreTradingFeeAmount(used).value).Some?
    requires fees.OwnerTradingFee(fees.PreTradingFeeAmount(used).value).Some?
    ensures var p := fees.PreTradingFeeAmount(used).value;
            var excess := used + fees.TradingFee(p).value + fees.OwnerTradingFee(p).value - source;
            var num := fees.tradeNum * fees.ownerTradeDen + fees.ownerTradeNum * fees.tradeDen;
            var den := fees.tradeDen * fees.ownerTradeDen;
            num < den && excess <= p - source && (p - source) * (den - num) < 2 * den - num
  {
    var n1, d1, n2, d2 := fees.tradeNum, fees.tradeDen, fees.ownerTradeNum, fees.ownerTradeDen;
    var p := fees.PreTradingFeeAmount(used).value;
    TwoRateGrossUp(fees, used);
    TwoRateInverse(fees, used);
    FeeFloor(source, n1, d1);
    FeeFloor(source, n2, d2);
    FeeFloor(p, n1, d1);
    FeeFloor(p, n2, d2);
    ExcessCore(p, source, used, n1, d1, n2, d2, fees.TradingFee(source).value, fees.OwnerTradingFee(source).value);
  }

  lemma ExcessCore(p: nat, s: nat, u: nat, n1: nat, d1: nat, n2: nat, d2: nat, f: nat, g: nat)
    requires d1 > 0 && d2 > 0 && GrossedUp(p, u, n1 * d2 + n2 * d1, d1 * d2)
    requires s < p && u + f + g < s && s * n1 < f * d1 + d1 && s * n2 < g * d2 + d2
    ensures (p - s) * (d1 * d2 - (n1 * d2 + n2 * d1)) < 2 * (d1 * d2) - (n1 * d2 + n2 * d1)
    ensures p * n1 < d1 && p * n2 < d2 ==> p <= u + 2
  {
    var num, den := n1 * d2 + n2 * d1, d1 * d2;
    ScaleShare(f, s * n1, d1, d2);
    ScaleShare(g, s * n2, d2, d1);
    SumRates(s, n1, d1, n2, d2);
    GrossUpPastOffer(p, s, u, f, g, num, den, s * n1 * d2, s * n2 * d1);
    if p * n1 < d1 && p * n2 < d2 {
      MinimalFeesFit(p, u, n1, d1, n2, d2);
    }
  }

  lemma SumRates(s: nat, n1: nat, d1: nat, n2: nat, d2: nat)
    ensures s * (n1 * d2 + n2 * d1) == s * n1 * d2 + s * n2 * d1
    ensures d2 * d1 == d1 * d2
  {
    assert s * (n1 * d2 + n2 * d1) == s * (n1 * d2) + s * (n2 * d1);
  }

  lemma ScaleShare(f: nat, x: nat, d: nat, e: nat)
    requires e > 0 && x < f * d + d
    ensures x * e < f * (d * e) + d * e
  {
    MulMono(x + 1, f * d + d, e, e);
    assert (x + 1) * e == x * e + e;
    assert (f * d + d) * e == f * (d * e) + d * e;
  }

  lemma GrossUpPastOffer(p: nat, s: nat, u: nat, f: nat, g: nat, n: nat, d: nat, x: nat, y: nat)
    requires GrossedUp(p, u, n, d) && s < p && u + f + g < s
    requires s * n == x + y && x < f * d + d && y < g * d + d
    ensures (p - s) * (d - n) < 2 * d - n
  {
    MulMono(u + f + g + 1, s, d, d);
    assert (u + f + g + 1) * d == u * d + f * d + g * d + d;
    assert s * (d - n) == s * d - s * n;
    assert (p - s) * (d - n) == p * (d - n) - s * (d - n);
  }

  /** Two fees of one token each never push a partial fill past the offer. */
  lemma MinimalFeesFit(p: nat, u: nat, n1: nat, d1: nat, n2: nat, d2: nat)
    requires d1 > 0 && d2 > 0 && GrossedUp(p, u, n1 * d2 + n2 * d1, d1 * d2)
    requires p * n1 < d1 && p * n2 < d2
    ensures p <= u + 2
  {
    ScaleShare(0, p * n1, d1, d2);
    ScaleShare(0, p * n2, d2, d1);
    SumRates(p, n1, d1, n2, d2);
    GrossUpWithinTwo(p, u, n1 * d2 + n2 * d1, d1 * d2);
  }

  lemma GrossUpWithinTwo(p: nat, u: nat, n: nat, d: nat)
    requires GrossedUp(p, u, n, d) && p * n < 2 * d
    ensures p <= u + 2
  {
    assert p * (d - n) == p * d - p * n;
    assert (u + 3) * d == u * d + 3 * d;
    CancelLt(p, u + 3, d);
  }

  // ---------------------------------------------------------------------------
  // The fills that decide
  // ---------------------------------------------------------------------------

  /** What a partial fill of u is charged: itself and both fees on its gross-up. */
  function Charge(fees: Fees, u: U128): Option<U128> {
    var p :- fees.PreTradingFeeAmount(u);
    var trade :- fees.TradingFee(p);
    var owner :- fees.OwnerTradingFee(p);
    var total :- Add128(trade, owner);
    Add128(u, total)
  }

  /** No curve leaves three quarters of an offer unused. */
  lemma FillAboveAQuarter(c: Curve, less: U128, swapSource: U128, swapDestination: U128, dir: TradeDirection, now: U128)
    requires SwapWithoutFees(c, less, swapSource, swapDestination, dir, now).Some?
    ensures var used := SwapWithoutFees(c, less, swapSource, swapDestination, dir, now).value.used;
            used <= less < 4 * used
  {
    UsedWithinOffer(c, less, swapSource, swapDestination, dir, now);
    match c
    case ConstantProductCurve => ProductFillAboveAQuarter(less, swapSource, swapDestination);
    case OffsetCurve(offset) =>
      match dir {
        case AtoB => ProductFillAboveAQuarter(less, swapSource, swapDestination + offset);
        case BtoA => ProductFillAboveAQuarter(less, swapSource + offset, swapDestination);
      }
    case _ =>
      var p, q := PriceOf(c, now).value, SwapWithoutFees(c, less, swapSource, swapDestination, dir, now).value;
      if dir.AtoB? {
        OptimalFill(p, less);
        PricedFillAboveHalf(p, less, q.used, q.out);
      }
  }

  lemma PricedFillAboveHalf(p: nat, less: nat, used: nat, out: nat)
    requires out > 0 && less * RAY < (out + 1) * p && out * p <= used * RAY
    ensures less < 2 * used
  {
    MulMono(1, out, p, p);
    assert (out + 1) * p == out * p + p;
    assert less * RAY < 2 * used * RAY;
  }

  lemma ProductFillAboveAQuarter(less: U128, s: U128, d: U128)
    requires CP.Swap(less, s, d).Some?
    ensures less < 4 * CP.Swap(less, s, d).value.used
  {
    var q := CP.Swap(less, s, d).value;
    CP.SwapIsTight(less, s, d);
    CP.SwapUsesSource(less, s, d);
    FloorIsMost(s * d, s + less, 1);
    UsedAboveAQuarter(s, d, less, q.used, d - q.out);
  }

  /** m is the destination reserve a swap leaves. */
  lemma UsedAboveAQuarter(s: nat, d: nat, less: nat, u: nat, m: nat)
    requires m < d && u > 0 && s + less <= s * d
    requires s * d <= (s + u) * m && (s + less) * (m - 1) < s * d
    ensures less < 4 * u
  {
    assert (s + u) * m == s * m + u * m;
    MulMono(s, s, m + 1, d);
    assert s * (m + 1) == s * m + s;
    assert (s + less) * (m - 1) == s * m - s + less * (m - 1);
    // s <= u m, so less (m - 1) < 2 u m
    if m >= 2 {
      MulMono(u, u, m, 2 * (m - 1));
      assert u * (2 * (m - 1)) == 2 * u * (m - 1);
      assert 2 * (2 * u * (m - 1)) == (4 * u) * (m - 1);
      CancelLt(less, 4 * u, m - 1);
    }
  }

  /** Reserves of a constant-product pool that use exactly u of an offer. */
  function Reserves(less: U64, u: U64): (U64, U64)
    requires u < less
  {
    if less < 3 * u then (u, 4) else (2 * u, 3)
  }

  lemma ReservesUse(less: U64, u: U64)
    requires u < less < 4 * u
    ensures var (x, y) := Reserves(less, u);
            CP.Swap(less, x, y) == Some(Quote(u, if less < 3 * u then 2 else 1))
  {
    if less < 3 * u {
      QuoteFrom(less, u, 4, 4 * u, 2, 2 * u);
    } else {
      QuoteFrom(less, 2 * u, 3, 6 * u, 2, 3 * u);
    }
  }

  /** The quote of a constant-product swap, from the reserves m and n it leaves. */
  lemma QuoteFrom(less: U128, s: U128, d: U128, product: U128, m: nat, n: nat)
    requires product == s * d && 0 < s + less < U128_LIMIT && 0 < m < d && s <= n < U128_LIMIT
    requires s + less <= product && (m - 1) * (s + less) < product <= m * (s + less)
    requires (n - 1) * m < product <= n * m
    ensures CP.Swap(less, s, d) == Some(Quote(n - s, d - m))
  {
    CeilIs(product, s + less, m);
    CeilIs(product, m, n);
    FloorIsMost(product, s + less, 1);
  }

  lemma CeilIs(n: nat, d: nat, q: nat)
    requires d > 0 && q > 0 && (q - 1) * d < n <= q * d
    ensures CeilQuotient(n, d) == q
  {
    CeilIsLeast(n, d, q);
    CeilIsLeast(n, d, q - 1);
  }

  // ---------------------------------------------------------------------------
  // Charges never overflow
  // ---------------------------------------------------------------------------

  lemma OneRateCharge(source: U128, fees: Fees, less: U128, u: U128)
    requires fees.tradeNum == 0 || fees.ownerTradeNum == 0
    requires LessFees(source, fees) == Some(less) && u < less && Charge(fees, u).Some?
    ensures Charge(fees, u).value <= source
  {
    if fees.TradeActive() {
      OneRateBasisFits(source, u, fees.tradeNum, fees.tradeDen);
    } else if fees.OwnerActive() {
      OneRateBasisFits(source, u, fees.ownerTradeNum, fees.ownerTradeDen);
    }
    FeeMonotone(fees.PreTradingFeeAmount(u).value, source, fees.tradeNum, fees.tradeDen);
    FeeMonotone(fees.PreTradingFeeAmount(u).value, source, fees.ownerTradeNum, fees.ownerTradeDen);
  }

  /** Two rates gross up within 128 bits, with room for a reserve on top. */
  lemma GrossUpFits(p: nat, n: nat, u: nat, source: U64, den: nat, gap: nat)
    requires 0 < gap && 0 < u && n == u * den < U128_LIMIT && p * gap < n + gap
    requires den <= (U64_LIMIT - 1) * (U64_LIMIT - 1)
    requires p <= source || (p - source) * gap < den + gap
    ensures p + 1 + U64_LIMIT <= U128_LIMIT
  {
    if p > source {
      if gap >= 2 {
        WideGap(p, n, gap);
      } else {
        assert p * 1 < n + 1 && (p - source) * 1 < den + 1;
        NarrowGap(p, u, den, source);
      }
    }
  }

  lemma WideGap(p: nat, n: nat, gap: nat)
    requires p > 0 && gap >= 2 && p * gap < n + gap && n < U128_LIMIT
    ensures 2 * (p - 1) < U128_LIMIT
  {
    MulMono(p - 1, p - 1, 2, gap);
    assert (p - 1) * gap == p * gap - gap;
  }

  lemma NarrowGap(p: nat, u: nat, den: nat, source: U64)
    requires p <= u * den && p - source <= den && 0 < u && u * den < U128_LIMIT
    requires den <= (U64_LIMIT - 1) * (U64_LIMIT - 1)
    ensures p + 1 + U64_LIMIT <= U128_LIMIT
  {
    if u >= 2 {
      MulMono(2, u, den, den);
    }
  }

  lemma TwoRateChargeFits(source: U64, fees: Fees, less: U128, u: U128)
    requires fees.TradeActive() && fees.OwnerActive() && u > 0
    requires LessFees(source, fees) == Some(less) && u < less && Charge(fees, u).Some?
    ensures Charge(fees, u).value + U64_LIMIT <= U128_LIMIT
  {
    var p := fees.PreTradingFeeAmount(u).value;
    var num := fees.tradeNum * fees.ownerTradeDen + fees.ownerTradeNum * fees.tradeDen;
    TwoRateGrossUp(fees, u);
    TwoRateInverse(fees, u);
    if p > source {
      TwoRateExcess(source, u, fees);
    }
    MulMono(fees.tradeDen, U64_LIMIT - 1, fees.ownerTradeDen, U64_LIMIT - 1);
    var den := fees.tradeDen * fees.ownerTradeDen;
    GrossUpFits(p, u * den, u, source, den, den - num);
  }

  lemma ChargeFits(source: U64, fees: Fees, less: U128, u: U128)
    requires LessFees(source, fees) == Some(less) && 0 < u < less && Charge(fees, u).Some?
    ensures Charge(fees, u).value + U64_LIMIT <= U128_LIMIT
  {
    if fees.tradeNum == 0 || fees.ownerTradeNum == 0 {
      OneRateCharge(source, fees, less, u);
    } else {
      TwoRateChargeFits(source, fees, less, u);
    }
  }

  // ---------------------------------------------------------------------------
  // Exactly when a swap stays within its offer
  // ---------------------------------------------------------------------------

  /** No pool, curve, price or direction makes a swap of this offer charge more. */
  ghost predicate NeverOvercharges(source: U64, fees: Fees) {
    forall c: Curve, x: U64, y: U64, dir: TradeDirection, now: U128 ::
      SwapWithFees(c, source, x, y, dir, fees, now).Some? ==>
        SwapWithFees(c, source, x, y, dir, fees, now).value.sourceSwapped <= source
  }

  /** Known from the offer and the fees alone: every partial fill above a quarter of
      what the fees leave is charged within the offer, or cannot be charged. */
  ghost predicate FillsFit(source: U64, fees: Fees) {
    match LessFees(source, fees)
    case None => true
    case Some(less) =>
      forall u: U64 :: u < less < 4 * u && Charge(fees, u).Some? ==> Charge(fees, u).value <= source
  }

  /** A swap is charged its fill's charge, or the whole offer. */
  lemma SwapIsCharged(c: Curve, source: U128, x: U128, y: U128, dir: TradeDirection, fees: Fees, now: U128)
    requires SwapWithFees(c, source, x, y, dir, fees, now).Some?
    ensures LessFees(source, fees).Some?
    ensures var less := LessFees(source, fees).value;
            var used := SwapWithoutFees(c, less, x, y, dir, now).value.used;
            && used <= less <= source
            && var swapped := SwapWithFees(c, source, x, y, dir, fees, now).value.sourceSwapped;
               if used < less then Charge(fees, used) == Some(swapped) else swapped == source
  {
    UsedWithinOffer(c, LessFees(source, fees).value, x, y, dir, now);
  }

  lemma FittingFillsAreEnough(c: Curve, source: U64, x: U128, y: U128, dir: TradeDirection, fees: Fees, now: U128)
    requires FillsFit(source, fees) && SwapWithFees(c, source, x, y, dir, fees, now).Some?
    ensures SwapWithFees(c, source, x, y, dir, fees, now).value.sourceSwapped <= source
  {
    SwapIsCharged(c, source, x, y, dir, fees, now);
    var less := LessFees(source, fees).value;
    FillAboveAQuarter(c, less, x, y, dir, now);
    var used: U64 := SwapWithoutFees(c, less, x, y, dir, now).value.used;
  }

  /** Any such fill occurs, in a constant-product pool with reserves of 64 bits. */
  lemma FillIsAttained(source: U64, fees: Fees, less: U64, u: U64)
    requires LessFees(source, fees) == Some(less) && u < less < 4 * u && Charge(fees, u).Some?
    ensures var (x, y) := Reserves(less, u);
            var r := SwapWithFees(ConstantProductCurve, source, x, y, AtoB, fees, 0);
            r.Some? && r.value.sourceSwapped == Charge(fees, u).value
  {
    ReservesUse(less, u);
    ChargeFits(source, fees, less, u);
  }

  /** A swap of this offer never charges more than the offer if and only if every fill
      above a quarter of what the fees leave is charged within it. */
  lemma NeverOverchargesIff(source: U64, fees: Fees)
    ensures NeverOvercharges(source, fees) <==> FillsFit(source, fees)
  {
    if FillsFit(source, fees) {
      forall c: Curve, x: U64, y: U64, dir: TradeDirection, now: U128
        | SwapWithFees(c, source, x, y, dir, fees, now).Some?
        ensures SwapWithFees(c, source, x, y, dir, fees, now).value.sourceSwapped <= source
      {
        FittingFillsAreEnough(c, source, x, y, dir, fees, now);
      }
    } else {
      var less := LessFees(source, fees).value;
      var u: U64 :| u < less < 4 * u && Charge(fees, u).Some? && Charge(fees, u).value > source;
      FillIsAttained(source, fees, less, u);
    }
  }

  // ---------------------------------------------------------------------------
  // One fill decides
  // ---------------------------------------------------------------------------

  lemma PreFeeMonotone(u: U128, v: U128, num: U128, den: U128)
    requires u <= v && PreFeeAmount(v, num, den).Some?
    ensures PreFeeAmount(u, num, den).Some?
    ensures PreFeeAmount(u, num, den).value <= PreFeeAmount(v, num, den).value
  {
    if 0 < num < den && u > 0 {
      MulMono(u, v, den, den);
      FloorMono(u * den + (den - num) - 1, v * den + (den - num) - 1, den - num);
    }
  }

  lemma ChargeMonotone(fees: Fees, u: U128, v: U128)
    requires u <= v && Charge(fees, v).Some?
    ensures Charge(fees, u).Some? && Charge(fees, u).value <= Charge(fees, v).value
  {
    var (num, den) :=
      if !fees.TradeActive() then (fees.ownerTradeNum, fees.ownerTradeDen)
      else if !fees.OwnerActive() then (fees.tradeNum, fees.tradeDen)
      else fees.CombinedRate().value;
    PreFeeMonotone(u, v, num, den);
    var p, q := fees.PreTradingFeeAmount(u).value, fees.PreTradingFeeAmount(v).value;
    FeeMonotone(p, q, fees.tradeNum, fees.tradeDen);
    FeeMonotone(p, q, fees.ownerTradeNum, fees.ownerTradeDen);
  }

  lemma LargestFill(source: U64, fees: Fees, less: U128)
    requires LessFees(source, fees) == Some(less) && less >= 2 && Charge(fees, less - 1).Some?
    ensures FillsFit(source, fees) <==> Charge(fees, less - 1).value <= source
  {
    forall u: U64 | u < less < 4 * u
      ensures Charge(fees, u).Some? && Charge(fees, u).value <= Charge(fees, less - 1).value
    {
      ChargeMonotone(fees, u, less - 1);
    }
    var largest: U64 := less - 1;
    assert largest < less < 4 * largest;
  }

  /** Where the largest partial fill can be charged at all, it alone decides; an offer
      of which the fees leave at most one token has no partial fill. */
  lemma LargestFillDecides(source: U64, fees: Fees, less: U128)
    requires LessFees(source, fees) == Some(less)
    ensures less <= 1 ==> NeverOvercharges(source, fees)
    ensures less >= 2 && Charge(fees, less - 1).Some? ==>
              (NeverOvercharges(source, fees) <==> Charge(fees, less - 1).value <= source)
  {
    NeverOverchargesIff(source, fees);
    if less >= 2 && Charge(fees, less - 1).Some? {
      LargestFill(source, fees, less);
    }
  }
}
