/** Fee fractions and their inverse (program/src/curve/fees.rs). */
module FeeSchedule {
  import opened Checked
  import opened Arith
  import opened Errors

  datatype Fees = Fees(
    tradeNum: U64, tradeDen: U64,
    ownerTradeNum: U64, ownerTradeDen: U64,
    ownerWithdrawNum: U64, ownerWithdrawDen: U64,
    hostNum: U64, hostDen: U64)
  {
    function TradingFee(amount: U128): Option<U128> {
      CalculateFee(amount, tradeNum, tradeDen)
    }

    function OwnerTradingFee(amount: U128): Option<U128> {
      CalculateFee(amount, ownerTradeNum, ownerTradeDen)
    }

    function OwnerWithdrawFee(lp: U128): Option<U128> {
      CalculateFee(lp, ownerWithdrawNum, ownerWithdrawDen)
    }

    function HostFee(ownerFee: U128): Option<U128> {
      CalculateFee(ownerFee, hostNum, hostDen)
    }

    predicate TradeActive() { tradeNum != 0 && tradeDen != 0 }

    predicate OwnerActive() { ownerTradeNum != 0 && ownerTradeDen != 0 }

    /** Amount that leaves at least `post` once both trading fees are taken, up to
        rounding. */
    function PreTradingFeeAmount(post: U128): Option<U128> {
      if !TradeActive() then PreFeeAmount(post, ownerTradeNum, ownerTradeDen)
      else if !OwnerActive() then PreFeeAmount(post, tradeNum, tradeDen)
      else
        var (num, den) :- CombinedRate();
        PreFeeAmount(post, num, den)
    }

    /** The two trading rates added up over their common denominator. */
    function CombinedRate(): (rate: Option<(U128, U128)>)
      ensures rate.Some? ==>
                rate.value == (tradeNum * ownerTradeDen + ownerTradeNum * tradeDen, tradeDen * ownerTradeDen)
    {
      var x :- Below(U128_LIMIT, tradeNum * ownerTradeDen);
      var y :- Below(U128_LIMIT, ownerTradeNum * tradeDen);
      var num :- Add128(x, y);
      var den :- Below(U128_LIMIT, tradeDen * ownerTradeDen);
      Some((num, den))
    }

    function Validate(): Result<(), SwapError> {
      if ValidFraction(tradeNum, tradeDen)
         && ValidFraction(ownerTradeNum, ownerTradeDen)
         && ValidFraction(ownerWithdrawNum, ownerWithdrawDen)
         && ValidFraction(hostNum, hostDen)
      then Ok(())
      else Err(InvalidFee)
    }
  }

  predicate ValidFraction(num: U64, den: U64) {
    (den == 0 && num == 0) || num < den
  }

  /** A proportional fee rounded down, but at least one token when anything is due. */
  function CalculateFee(amount: U128, num: U128, den: U128): Option<U128> {
    if num == 0 || amount == 0 then Some(0)
    else
      var y :- Below(U128_LIMIT, amount * num);
      var fee :- Div(y, den);
      if fee == 0 then Some(1) else if fee < U128_LIMIT then Some(fee) else None
  }

  function CeilDiv128(n: U128, d: U128): Option<U128> {
    var x :- Add128(n, d);
    var y :- Sub(x, 1);
    var q :- Div(y, d);
    Below(U128_LIMIT, q)
  }

  function PreFeeAmount(post: U128, num: U128, den: U128): Option<U128> {
    if num == 0 || den == 0 then Some(post)
    else if num >= den then None
    else if post == 0 then Some(0)
    else
      var n :- Below(U128_LIMIT, post * den);
      CeilDiv128(n, den - num)
  }

  lemma CeilDiv128IsCeil(n: U128, d: U128)
    requires CeilDiv128(n, d).Some? && d > 0
    ensures CeilDiv128(n, d).value == CeilQuotient(n, d)
  {
    CeilByAdding(n, d);
  }

  /** The fee never exceeds the amount for a valid fraction, and grows with it. */
  lemma FeeMonotone(x: U128, y: U128, num: U128, den: U128)
    requires x <= y && CalculateFee(y, num, den).Some?
    ensures CalculateFee(x, num, den).Some?
    ensures CalculateFee(x, num, den).value <= CalculateFee(y, num, den).value
    ensures num < den || num == 0 ==> CalculateFee(y, num, den).value <= y
  {
    if num != 0 && y != 0 {
      MulMono(x, y, num, num);
      FloorMono(x * num, y * num, den);
      if num < den {
        ShareBelowWhole(y, num, den);
      }
    }
  }

  lemma ShareBelowWhole(x: nat, n: nat, d: nat)
    requires n < d
    ensures x * n / d <= x
  {
    Floor(x * n, d);
    MulMono(x, x, n, d);
    CancelLe(x * n / d, x, d);
  }

  /** An amount p grossed up from q at rate num/den: the exact rational statement the
      rounding results below come from. */
  ghost predicate GrossedUp(p: nat, q: nat, num: nat, den: nat) {
    && 0 < num < den
    && q < p
    && q * den <= p * (den - num) < q * den + (den - num)
  }

  lemma GrossUp(q: U128, num: U128, den: U128)
    requires 0 < num && 0 < den && q > 0 && PreFeeAmount(q, num, den).Some?
    ensures GrossedUp(PreFeeAmount(q, num, den).value, q, num, den)
  {
    var p := PreFeeAmount(q, num, den).value;
    CeilDiv128IsCeil(q * den, den - num);
    Ceil(q * den, den - num);
    assert q * (den - num) == q * den - q * num;
    assert q * num > 0;
    FloorIsMost(q * (den - num), den - num, p);
    FloorOfMultiple(q, den - num);
  }

  /** One active rate: the grossed-up amount less its fee is the wanted amount or one
      more, minimum fee included. */
  lemma OneRateInverse(q: U128, num: U128, den: U128)
    requires 0 < num < den
    requires PreFeeAmount(q, num, den).Some?
    requires CalculateFee(PreFeeAmount(q, num, den).value, num, den).Some?
    ensures var p := PreFeeAmount(q, num, den).value;
            q <= p - CalculateFee(p, num, den).value <= q + 1
  {
    if q > 0 {
      GrossUp(q, num, den);
      var p := PreFeeAmount(q, num, den).value;
      Floor(p * num, den);
      NetOfOneFee(p, q, num, den, p * num / den);
    }
  }

  lemma NetOfOneFee(p: nat, q: nat, n: nat, d: nat, f: nat)
    requires GrossedUp(p, q, n, d)
    requires f * d <= p * n < f * d + d
    ensures q <= p - f <= q + 1
    ensures f == 0 ==> p <= q + 1
  {
    assert p * (d - n) == p * d - p * n;
    assert (p - f) * d == p * d - f * d;
    assert (q + 2) * d == q * d + 2 * d;
    CancelLe(q, p - f, d);
    if p - f >= q + 2 {
      MulMono(q + 2, p - f, d, d);
    }
  }

  /** Two active rates: the net amount is the wanted one or up to two more, or exactly
      one less.  It is one less if and only if the added rates take at most one token
      of q + 1: both proportional fees then round to nothing and the minimum fee of one
      is charged twice for a single token of gross-up. */
  lemma TwoRateInverse(fees: Fees, q: U128)
    requires fees.TradeActive() && fees.OwnerActive() && q > 0
    requires fees.PreTradingFeeAmount(q).Some?
    requires var p := fees.PreTradingFeeAmount(q).value;
             fees.TradingFee(p).Some? && fees.OwnerTradingFee(p).Some?
    ensures var p := fees.PreTradingFeeAmount(q).value;
            var net := p - fees.TradingFee(p).value - fees.OwnerTradingFee(p).value;
            var num := fees.tradeNum * fees.ownerTradeDen + fees.ownerTradeNum * fees.tradeDen;
            var den := fees.tradeDen * fees.ownerTradeDen;
            && q < p
            && fees.OwnerTradingFee(p).value <= p - q
            && q - 1 <= net <= q + 2
            && (net < q <==> (q + 1) * num <= den)
            && (net < q <==> p == q + 1)
  {
    var n1, d1, n2, d2 := fees.tradeNum, fees.tradeDen, fees.ownerTradeNum, fees.ownerTradeDen;
    var p := fees.PreTradingFeeAmount(q).value;
    TwoRateGrossUp(fees, q);
    FeeFloor(p, n1, d1);
    FeeFloor(p, n2, d2);
    NetOfTwoFees(p, q, n1, d1, n2, d2, p * n1 / d1, p * n2 / d2);
    ShortByOne(p, q, n1, d1, n2, d2);
  }

  /** When grossing up adds a single token, and what the two fees on it then are. */
  lemma ShortByOne(p: nat, q: nat, n1: nat, d1: nat, n2: nat, d2: nat)
    requires n1 > 0 && d1 > 0 && n2 > 0 && d2 > 0
    requires GrossedUp(p, q, n1 * d2 + n2 * d1, d1 * d2)
    ensures p == q + 1 <==> (q + 1) * (n1 * d2 + n2 * d1) <= d1 * d2
    ensures p == q + 1 ==> p * n1 < d1 && p * n2 < d2
  {
    var num, den := n1 * d2 + n2 * d1, d1 * d2;
    LeastGrossUp(p, q, num, den);
    if p == q + 1 {
      assert p * num == p * n1 * d2 + p * n2 * d1;
      MulPositive(p, n1);
      MulPositive(p, n2);
      MulPositive(p * n1, d2);
      MulPositive(p * n2, d1);
      CancelLt(p * n1, d1, d2);
      assert d2 * d1 == den;
      CancelLt(p * n2, d2, d1);
    }
  }

  lemma LeastGrossUp(p: nat, q: nat, num: nat, den: nat)
    requires GrossedUp(p, q, num, den)
    ensures p == q + 1 <==> (q + 1) * num <= den
  {
    var gap := den - num;
    assert (q + 1) * gap == q * den + den - (q + 1) * num;
    assert (p - 1) * gap == p * gap - gap;
    if (q + 1) * num <= den {
      CancelLt(p - 1, q + 1, gap);
    }
  }

  /** At two rates of a thousandth, grossing up one token and taking both fees leaves
      nothing of it. */
  lemma MinimumFeesTakeTheToken()
    ensures var fees := Fees(1, 1000, 1, 1000, 0, 0, 0, 0);
            && fees.Validate().Ok?
            && fees.PreTradingFeeAmount(1) == Some(2)
            && fees.TradingFee(2) == Some(1) && fees.OwnerTradingFee(2) == Some(1)
  {
    var fees := Fees(1, 1000, 1, 1000, 0, 0, 0, 0);
    assert fees.CombinedRate() == Some((2000, 1_000_000));
  }

  lemma FeeFloor(p: U128, n: U128, d: U128)
    requires n > 0 && d > 0 && p > 0
    ensures var f := p * n / d;
            && f * d <= p * n < f * d + d
            && (CalculateFee(p, n, d).Some? ==> CalculateFee(p, n, d).value == if f == 0 then 1 else f)
            && (f == 0 <==> p * n < d)
  {
    Floor(p * n, d);
    FloorIsMost(p * n, d, 1);
  }

  lemma TwoRateGrossUp(fees: Fees, q: U128)
    requires fees.TradeActive() && fees.OwnerActive() && q > 0
    requires fees.PreTradingFeeAmount(q).Some?
    ensures var p := fees.PreTradingFeeAmount(q).value;
            var num := fees.tradeNum * fees.ownerTradeDen + fees.ownerTradeNum * fees.tradeDen;
            GrossedUp(p, q, num, fees.tradeDen * fees.ownerTradeDen)
  {
    MulPositive(fees.tradeNum, fees.ownerTradeDen);
    MulPositive(fees.tradeDen, fees.ownerTradeDen);
    var (num, den) := fees.CombinedRate().value;
    GrossUp(q, num, den);
  }

  lemma NetOfTwoFees(p: nat, q: nat, n1: nat, d1: nat, n2: nat, d2: nat, f1: nat, f2: nat)
    requires n1 > 0 && d1 > 0 && n2 > 0 && d2 > 0 && q > 0
    requires GrossedUp(p, q, n1 * d2 + n2 * d1, d1 * d2)
    requires f1 * d1 <= p * n1 < f1 * d1 + d1
    requires f2 * d2 <= p * n2 < f2 * d2 + d2
    ensures q <= p - f1 - f2 <= q + 2
    ensures f1 == 0 ==> q <= p - 1 - f2
    ensures f2 == 0 ==> q <= p - f1 - 1
    ensures q < p && (if f2 == 0 then 1 else f2) <= p - q
  {
    var num, den := n1 * d2 + n2 * d1, d1 * d2;
    ScaleFee(f1, p * n1, d1, d2);
    ScaleFee(f2, p * n2, d2, d1);
    assert d2 * d1 == den;
    var x, y := p * n1 * d2, p * n2 * d1;
    assert p * (den - num) == p * den - x - y by {
      assert p * num == x + y;
    }
    NetCore(p, q, f1, f2, den, x, y);
  }

  lemma ScaleFee(f: nat, x: nat, d: nat, e: nat)
    requires e > 0 && x > 0 && f * d <= x < f * d + d
    ensures 0 < x * e && f * (d * e) <= x * e < f * (d * e) + d * e
  {
    MulMono(f * d, x, e, e);
    MulMono(x + 1, f * d + d, e, e);
    assert f * (d * e) == f * d * e;
    assert (f * d + d) * e == f * d * e + d * e;
    assert (x + 1) * e == x * e + e;
  }

  lemma NetCore(p: nat, q: nat, f: nat, g: nat, den: nat, x: nat, y: nat)
    requires den > 0 && x > 0 && y > 0
    requires f * den <= x < f * den + den && g * den <= y < g * den + den
    requires q * den <= p * den - x - y < q * den + den
    ensures q <= p - f - g <= q + 2
    ensures f == 0 ==> q <= p - 1 - g
    ensures g == 0 ==> q <= p - f - 1
  {
    Expand(p, f, g, den);
    Expand(p, 0, g, den);
    Expand(p, f, 0, den);
    Expand(q, 1, 0, den);
    Expand(q, -3, 0, den);
    CancelLt(q - 1, p - f - g, den);
    CancelLt(p - f - g, q + 3, den);
    if f == 0 { CancelLt(q, p - g, den); }
    if g == 0 { CancelLt(q, p - f, den); }
  }

  lemma Expand(p: int, f: int, g: int, den: int)
    ensures (p - f - g) * den == p * den - f * den - g * den
  {
  }

  lemma CancelLt(x: int, y: int, d: nat)
    requires d > 0 && x * d < y * d
    ensures x < y
  {
  }

  /** The owner's fee on a grossed-up amount always fits in what grossing up added;
      a single-sided withdrawal relies on this for any stored fees. */
  lemma OwnerFeeFitsGrossUp(fees: Fees, q: U128)
    requires fees.PreTradingFeeAmount(q).Some?
    requires fees.OwnerTradingFee(fees.PreTradingFeeAmount(q).value).Some?
    ensures var p := fees.PreTradingFeeAmount(q).value;
            q <= p && fees.OwnerTradingFee(p).value <= p - q
  {
    var p := fees.PreTradingFeeAmount(q).value;
    if !fees.TradeActive() {
      if fees.OwnerActive() {
        OneRateInverse(q, fees.ownerTradeNum, fees.ownerTradeDen);
      }
    } else if !fees.OwnerActive() {
      if q > 0 {
        GrossUp(q, fees.tradeNum, fees.tradeDen);
      }
    } else if q > 0 {
      OwnerFeeFitsTwoRates(fees, q);
    }
  }

  lemma OwnerFeeFitsTwoRates(fees: Fees, q: U128)
    requires fees.TradeActive() && fees.OwnerActive() && q > 0
    requires fees.PreTradingFeeAmount(q).Some?
    requires fees.OwnerTradingFee(fees.PreTradingFeeAmount(q).value).Some?
    ensures var p := fees.PreTradingFeeAmount(q).value;
            q < p && fees.OwnerTradingFee(p).value <= p - q
  {
    var n1, d1, n2, d2 := fees.tradeNum, fees.tradeDen, fees.ownerTradeNum, fees.ownerTradeDen;
    var p := fees.PreTradingFeeAmount(q).value;
    TwoRateGrossUp(fees, q);
    FeeFloor(p, n1, d1);
    FeeFloor(p, n2, d2);
    NetOfTwoFees(p, q, n1, d1, n2, d2, p * n1 / d1, p * n2 / d2);
  }
}
