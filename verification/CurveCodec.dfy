/** Byte layout of fees and curves (program/src/curve/fees.rs, base.rs and the packers
    of the four curves). */
module CurveCodec {
  import opened Checked
  import opened Errors
  import opened Bytes
  import opened RedemptionRate
  import opened FeeSchedule
  import opened SwapCurve

  const FEES_LEN: nat := 64
  const CURVE_LEN: nat := 65

  function PackFees(f: Fees): (bytes: seq<Byte>)
    ensures |bytes| == FEES_LEN
  {
    Four(ToLe(f.tradeNum, 8), ToLe(f.tradeDen, 8), ToLe(f.ownerTradeNum, 8), ToLe(f.ownerTradeDen, 8))
    + Four(ToLe(f.ownerWithdrawNum, 8), ToLe(f.ownerWithdrawDen, 8), ToLe(f.hostNum, 8), ToLe(f.hostDen, 8))
  }

  function UnpackFees(bytes: seq<Byte>): Fees
    requires |bytes| == FEES_LEN
  {
    var (x, y) := (bytes[..32], bytes[32..]);
    Fees(U64At(x[0..8]), U64At(x[8..16]), U64At(x[16..24]), U64At(x[24..32]),
         U64At(y[0..8]), U64At(y[8..16]), U64At(y[16..24]), U64At(y[24..32]))
  }

  lemma FeesRoundTrip(f: Fees)
    ensures UnpackFees(PackFees(f)) == f
  {
    FourFields(ToLe(f.tradeNum, 8), ToLe(f.tradeDen, 8), ToLe(f.ownerTradeNum, 8), ToLe(f.ownerTradeDen, 8), 8);
    FourFields(ToLe(f.ownerWithdrawNum, 8), ToLe(f.ownerWithdrawDen, 8), ToLe(f.hostNum, 8), ToLe(f.hostDen, 8), 8);
    Joined(Four(ToLe(f.tradeNum, 8), ToLe(f.tradeDen, 8), ToLe(f.ownerTradeNum, 8), ToLe(f.ownerTradeDen, 8)),
           Four(ToLe(f.ownerWithdrawNum, 8), ToLe(f.ownerWithdrawDen, 8), ToLe(f.hostNum, 8), ToLe(f.hostDen, 8)));
    U64RoundTrip(f.tradeNum); U64RoundTrip(f.tradeDen);
    U64RoundTrip(f.ownerTradeNum); U64RoundTrip(f.ownerTradeDen);
    U64RoundTrip(f.ownerWithdrawNum); U64RoundTrip(f.ownerWithdrawDen);
    U64RoundTrip(f.hostNum); U64RoundTrip(f.hostDen);
  }

  lemma FeesBytesRoundTrip(bytes: seq<Byte>)
    requires |bytes| == FEES_LEN
    ensures PackFees(UnpackFees(bytes)) == bytes
  {
    var (x, y) := (bytes[..32], bytes[32..]);
    U64BytesRoundTrip(x[0..8]); U64BytesRoundTrip(x[8..16]);
    U64BytesRoundTrip(x[16..24]); U64BytesRoundTrip(x[24..32]);
    U64BytesRoundTrip(y[0..8]); U64BytesRoundTrip(y[8..16]);
    U64BytesRoundTrip(y[16..24]); U64BytesRoundTrip(y[24..32]);
    FourJoin(x, 8);
    FourJoin(y, 8);
    assert bytes == x + y;
  }

  function PackRate(r: RateCurve): (bytes: seq<Byte>)
    ensures |bytes| == 64
  {
    Four(ToLe(r.maxSsr, 16), ToLe(r.ssr, 16), ToLe(r.rho, 16), ToLe(r.chi, 16))
  }

  function UnpackRate(bytes: seq<Byte>): RateCurve
    requires |bytes| == 64
  {
    RateCurve(U128At(bytes[0..16]), U128At(bytes[16..32]), U128At(bytes[32..48]), U128At(bytes[48..64]))
  }

  lemma RateRoundTrip(r: RateCurve)
    ensures UnpackRate(PackRate(r)) == r
  {
    FourFields(ToLe(r.maxSsr, 16), ToLe(r.ssr, 16), ToLe(r.rho, 16), ToLe(r.chi, 16), 16);
    U128RoundTrip(r.maxSsr); U128RoundTrip(r.ssr); U128RoundTrip(r.rho); U128RoundTrip(r.chi);
  }

  lemma RateBytesRoundTrip(bytes: seq<Byte>)
    requires |bytes| == 64
    ensures PackRate(UnpackRate(bytes)) == bytes
  {
    U128BytesRoundTrip(bytes[0..16]); U128BytesRoundTrip(bytes[16..32]);
    U128BytesRoundTrip(bytes[32..48]); U128BytesRoundTrip(bytes[48..64]);
    FourJoin(bytes, 16);
  }

  function Tag(c: Curve): Byte {
    match c
    case ConstantProductCurve => 0
    case ConstantPriceCurve(_) => 1
    case OffsetCurve(_) => 2
    case RedemptionRateCurve(_) => 3
  }

  function PackCalculator(c: Curve): (bytes: seq<Byte>)
    ensures |bytes| <= 64
  {
    match c
    case ConstantProductCurve => []
    case ConstantPriceCurve(price) => ToLe(price, 16)
    case OffsetCurve(offset) => ToLe(offset, 8)
    case RedemptionRateCurve(rate) => PackRate(rate)
  }

  /** Writing a curve into a slot: its tag and parameters; whatever lies beyond a
      shorter calculator's parameters stays as it was. */
  function PackCurve(c: Curve, slot: seq<Byte>): (bytes: seq<Byte>)
    requires |slot| == CURVE_LEN
    ensures |bytes| == CURVE_LEN
  {
    [Tag(c)] + PackCalculator(c) + slot[1 + |PackCalculator(c)|..]
  }

  function UnpackCurve(bytes: seq<Byte>): Result<Curve, SwapError>
    requires |bytes| == CURVE_LEN
  {
    match bytes[0]
    case 0 => Ok(ConstantProductCurve)
    case 1 => Ok(ConstantPriceCurve(U128At(bytes[1..17])))
    case 2 => Ok(OffsetCurve(U64At(bytes[1..9])))
    case 3 => Ok(RedemptionRateCurve(UnpackRate(bytes[1..65])))
    case _ => Err(InvalidAccountData)
  }

  lemma CurveRoundTrip(c: Curve, slot: seq<Byte>)
    requires |slot| == CURVE_LEN
    ensures UnpackCurve(PackCurve(c, slot)) == Ok(c)
  {
    var b := PackCurve(c, slot);
    match c
    case ConstantProductCurve =>
    case ConstantPriceCurve(price) => assert b[1..17] == ToLe(price, 16); U128RoundTrip(price);
    case OffsetCurve(offset) => assert b[1..9] == ToLe(offset, 8); U64RoundTrip(offset);
    case RedemptionRateCurve(rate) => assert b[1..65] == PackRate(rate); RateRoundTrip(rate);
  }

  /** Writing back the curve a slot holds changes nothing. */
  lemma CurveBytesRoundTrip(slot: seq<Byte>)
    requires |slot| == CURVE_LEN && UnpackCurve(slot).Ok?
    ensures PackCurve(UnpackCurve(slot).value, slot) == slot
  {
    CalculatorKept(slot);
    SlotKept(slot, PackCalculator(UnpackCurve(slot).value));
  }

  lemma CalculatorKept(slot: seq<Byte>)
    requires |slot| == CURVE_LEN && UnpackCurve(slot).Ok?
    ensures var c := UnpackCurve(slot).value;
            Tag(c) == slot[0] && PackCalculator(c) == slot[1..1 + |PackCalculator(c)|]
  {
    match UnpackCurve(slot).value
    case ConstantProductCurve =>
    case ConstantPriceCurve(price) => U128BytesRoundTrip(slot[1..17]);
    case OffsetCurve(offset) => U64BytesRoundTrip(slot[1..9]);
    case RedemptionRateCurve(rate) => RateBytesRoundTrip(slot[1..65]);
  }

  lemma SlotKept(slot: seq<Byte>, calculator: seq<Byte>)
    requires 1 + |calculator| <= |slot| && calculator == slot[1..1 + |calculator|]
    ensures [slot[0]] + calculator + slot[1 + |calculator|..] == slot
  {
  }
}
