/** Where every byte of instructions and accounts is, number by number, and that encoding
    and decoding follow exactly that. */
module Layouts {
  import opened Checked
  import opened Arith
  import opened Errors
  import opened Bytes
  import opened RedemptionRate
  import opened FeeSchedule
  import opened SwapCurve
  import opened CurveCodec
  import opened InstructionCodec
  import opened StateCodec

  /** A number in so many bytes from an offset on, the lowest first. */
  predicate Field(bytes: seq<Byte>, offset: nat, width: nat, n: nat) {
    && offset + width <= |bytes|
    && forall i: nat :: i < width ==> bytes[offset + i] == n / PowerOf256(i) % 256
  }

  function PowerOf256(e: nat): (p: nat)
    ensures p > 0
  {
    if e == 0 then 1 else 256 * PowerOf256(e - 1)
  }

  lemma AtMostTwice(n: nat, a: nat, b: nat, q: nat)
    requires a > 0 && b > 0
    ensures a * b > 0 && (q <= n / a / b <==> q <= n / (a * b))
  {
    MulPositive(a, b);
    FloorIsMost(n / a, b, q);
    FloorIsMost(n, a, q * b);
    FloorIsMost(n, a * b, q);
    assert q * b * a == q * (a * b);
  }

  lemma DivideTwice(n: nat, a: nat, b: nat)
    requires a > 0 && b > 0
    ensures a * b > 0 && n / a / b == n / (a * b)
  {
    AtMostTwice(n, a, b, n / a / b);
    AtMostTwice(n, a, b, n / (a * b));
  }

  lemma {:induction false} ToLeByte(n: nat, width: nat, i: nat)
    requires i < width
    ensures ToLe(n, width)[i] == n / PowerOf256(i) % 256
    decreases width
  {
    if i > 0 {
      ToLeByte(n / 256, width - 1, i - 1);
      DivideTwice(n, 256, PowerOf256(i - 1));
      assert n / PowerOf256(i) == n / 256 / PowerOf256(i - 1);
    }
  }

  /** So many bytes from an offset on. */
  predicate At(bytes: seq<Byte>, offset: nat, part: seq<Byte>) {
    offset <= |bytes| && part <= bytes[offset..]
  }

  lemma FieldRule(bytes: seq<Byte>, offset: nat, width: nat, n: nat)
    ensures Field(bytes, offset, width, n) <==> At(bytes, offset, ToLe(n, width))
  {
    forall i: nat | i < width ensures ToLe(n, width)[i] == n / PowerOf256(i) % 256 {
      ToLeByte(n, width, i);
    }
    if offset + width <= |bytes| {
      assert forall i: nat :: i < width ==> bytes[offset..][i] == bytes[offset + i];
      assert ToLe(n, width) <= bytes[offset..]
        <==> forall i: nat :: i < width ==> ToLe(n, width)[i] == bytes[offset..][i];
    }
  }

  lemma JoinedRule(bytes: seq<Byte>, offset: nat, x: seq<Byte>, y: seq<Byte>)
    ensures At(bytes, offset, x + y) <==> At(bytes, offset, x) && At(bytes, offset + |x|, y)
  {
    if offset + |x| <= |bytes| {
      var tail := bytes[offset..];
      assert tail == tail[..|x|] + bytes[offset + |x|..];
      Joined(x, y);
    }
  }

  // ---------------------------------------------------------------------------
  // Fees and curves
  // ---------------------------------------------------------------------------

  /** Numerator and denominator of the trading, owner trading, owner withdrawal and host
      fees, eight bytes each, in that order. */
  predicate FeesLaid(bytes: seq<Byte>, o: nat, f: Fees) {
    && Field(bytes, o, 8, f.tradeNum) && Field(bytes, o + 8, 8, f.tradeDen)
    && Field(bytes, o + 16, 8, f.ownerTradeNum) && Field(bytes, o + 24, 8, f.ownerTradeDen)
    && Field(bytes, o + 32, 8, f.ownerWithdrawNum) && Field(bytes, o + 40, 8, f.ownerWithdrawDen)
    && Field(bytes, o + 48, 8, f.hostNum) && Field(bytes, o + 56, 8, f.hostDen)
  }

  lemma FieldAt(bytes: seq<Byte>, o: nat, inner: seq<Byte>, i: nat, width: nat, n: nat)
    requires o + |inner| <= |bytes| && inner == bytes[o..o + |inner|] && i + width <= |inner|
    ensures Field(bytes, o + i, width, n) <==> inner[i..i + width] == ToLe(n, width)
  {
    FieldRule(bytes, o + i, width, n);
    SliceOfSlice(bytes, o, o + |inner|, i, i + width);
    assert bytes[o + i..][..width] == bytes[o + i..o + i + width];
  }

  lemma HalfFees(bytes: seq<Byte>, o: nat, half: seq<Byte>, x: U64, y: U64, z: U64, w: U64)
    requires o + 32 <= |bytes| && half == bytes[o..o + 32]
    ensures Field(bytes, o, 8, x) && Field(bytes, o + 8, 8, y)
            && Field(bytes, o + 16, 8, z) && Field(bytes, o + 24, 8, w)
       <==> U64At(half[0..8]) == x && U64At(half[8..16]) == y && U64At(half[16..24]) == z && U64At(half[24..32]) == w
  {
    U64FieldIs(bytes, o, half, 0, x);
    U64FieldIs(bytes, o, half, 8, y);
    U64FieldIs(bytes, o, half, 16, z);
    U64FieldIs(bytes, o, half, 24, w);
  }

  lemma U64FieldIs(bytes: seq<Byte>, o: nat, inner: seq<Byte>, i: nat, n: U64)
    requires o + |inner| <= |bytes| && inner == bytes[o..o + |inner|] && i + 8 <= |inner|
    ensures Field(bytes, o + i, 8, n) <==> U64At(inner[i..i + 8]) == n
  {
    FieldAt(bytes, o, inner, i, 8, n);
    U64RoundTrip(n);
    U64BytesRoundTrip(inner[i..i + 8]);
  }

  lemma U128FieldIs(bytes: seq<Byte>, o: nat, inner: seq<Byte>, i: nat, n: U128)
    requires o + |inner| <= |bytes| && inner == bytes[o..o + |inner|] && i + 16 <= |inner|
    ensures Field(bytes, o + i, 16, n) <==> U128At(inner[i..i + 16]) == n
  {
    FieldAt(bytes, o, inner, i, 16, n);
    U128RoundTrip(n);
    U128BytesRoundTrip(inner[i..i + 16]);
  }

  lemma FeesRule(bytes: seq<Byte>, o: nat, f: Fees)
    requires o + 64 <= |bytes|
    ensures FeesLaid(bytes, o, f) <==> UnpackFees(bytes[o..o + 64]) == f
  {
    var all := bytes[o..o + 64];
    var x, y := all[..32], all[32..];
    assert x == bytes[o..o + 32] && y == bytes[o + 32..o + 32 + 32];
    HalfFees(bytes, o, x, f.tradeNum, f.tradeDen, f.ownerTradeNum, f.ownerTradeDen);
    HalfFees(bytes, o + 32, y, f.ownerWithdrawNum, f.ownerWithdrawDen, f.hostNum, f.hostDen);
  }

  /** A tag and the curve's own numbers: none, the price, the offset, or the cap, the rate,
      its time and chi. */
  predicate CurveLaid(bytes: seq<Byte>, o: nat, c: Curve) {
    && o + 65 <= |bytes|
    && match c
       case ConstantProductCurve => bytes[o] == 0
       case ConstantPriceCurve(price) => bytes[o] == 1 && Field(bytes, o + 1, 16, price)
       case OffsetCurve(offset) => bytes[o] == 2 && Field(bytes, o + 1, 8, offset)
       case RedemptionRateCurve(r) =>
         && bytes[o] == 3
         && Field(bytes, o + 1, 16, r.maxSsr) && Field(bytes, o + 17, 16, r.ssr)
         && Field(bytes, o + 33, 16, r.rho) && Field(bytes, o + 49, 16, r.chi)
  }

  lemma RateRule(bytes: seq<Byte>, o: nat, inner: seq<Byte>, r: RateCurve)
    requires o + 64 <= |bytes| && inner == bytes[o..o + 64]
    ensures Field(bytes, o, 16, r.maxSsr) && Field(bytes, o + 16, 16, r.ssr)
            && Field(bytes, o + 32, 16, r.rho) && Field(bytes, o + 48, 16, r.chi)
       <==> UnpackRate(inner) == r
  {
    U128FieldIs(bytes, o, inner, 0, r.maxSsr);
    U128FieldIs(bytes, o, inner, 16, r.ssr);
    U128FieldIs(bytes, o, inner, 32, r.rho);
    U128FieldIs(bytes, o, inner, 48, r.chi);
  }

  lemma CurveRule(bytes: seq<Byte>, o: nat, c: Curve)
    requires o + 65 <= |bytes|
    ensures CurveLaid(bytes, o, c) <==> UnpackCurve(bytes[o..o + 65]) == Ok(c)
  {
    var slot := bytes[o..o + 65];
    match c
    case ConstantProductCurve =>
    case ConstantPriceCurve(price) => U128FieldIs(bytes, o, slot, 1, price);
    case OffsetCurve(offset) => U64FieldIs(bytes, o, slot, 1, offset);
    case RedemptionRateCurve(r) =>
      assert slot[1..65] == bytes[o + 1..o + 1 + 64];
      RateRule(bytes, o + 1, slot[1..65], r);
  }

  // ---------------------------------------------------------------------------
  // Instructions
  // ---------------------------------------------------------------------------

  predicate Flag(byte: Byte, b: bool) {
    byte == if b then 1 else 0
  }

  /** The tag, then the fields in order.  Data may go on after them, but for Initialize. */
  predicate InstructionLaid(data: seq<Byte>, i: SwapInstruction) {
    && |data| > 0
    && match i
       case Initialize(fees, curve) =>
         |data| == 130 && data[0] == 0 && FeesLaid(data, 1, fees) && CurveLaid(data, 65, curve)
       case Swap(x, y) => data[0] == 1 && Field(data, 1, 8, x) && Field(data, 9, 8, y)
       case DepositAllTokenTypes(x, y, z) =>
         data[0] == 2 && Field(data, 1, 8, x) && Field(data, 9, 8, y) && Field(data, 17, 8, z)
       case WithdrawAllTokenTypes(x, y, z) =>
         data[0] == 3 && Field(data, 1, 8, x) && Field(data, 9, 8, y) && Field(data, 17, 8, z)
       case DepositSingleTokenTypeExactAmountIn(x, y) => data[0] == 4 && Field(data, 1, 8, x) && Field(data, 9, 8, y)
       case WithdrawSingleTokenTypeExactAmountOut(x, y) => data[0] == 5 && Field(data, 1, 8, x) && Field(data, 9, 8, y)
       case SetRates(x, y, z) =>
         data[0] == 6 && Field(data, 1, 16, x) && Field(data, 17, 16, y) && Field(data, 33, 16, z)
       case InitializePermission(key, x, y) =>
         data[0] == 7 && |data| >= 35 && data[1..33] == key && Flag(data[33], x) && Flag(data[34], y)
       case UpdatePermission(x, y) => data[0] == 8 && |data| >= 3 && Flag(data[1], x) && Flag(data[2], y)
  }

  lemma Tagged(data: seq<Byte>, tag: Byte, body: seq<Byte>)
    ensures [tag] + body <= data <==> |data| > 0 && data[0] == tag && At(data, 1, body)
  {
    assert data[0..] == data;
    JoinedRule(data, 0, [tag], body);
  }

  /** The number, spelled out in so many bytes, stands for the field. */
  predicate Spelled(data: seq<Byte>, offset: nat, n: nat, bytes: seq<Byte>) {
    Field(data, offset, |bytes|, n) == At(data, offset, bytes)
  }

  lemma SpelledByLe(data: seq<Byte>, offset: nat, n: nat, width: nat)
    ensures Spelled(data, offset, n, ToLe(n, width))
  {
    FieldRule(data, offset, width, n);
  }

  lemma TwoSpelled(data: seq<Byte>, tag: Byte, x: nat, y: nat, p: seq<Byte>, q: seq<Byte>, i: nat)
    requires i == 1 + |p| && Spelled(data, 1, x, p) && Spelled(data, i, y, q)
    ensures [tag] + (p + q) <= data
       <==> |data| > 0 && data[0] == tag && Field(data, 1, |p|, x) && Field(data, i, |q|, y)
  {
    Tagged(data, tag, p + q);
    JoinedRule(data, 1, p, q);
  }

  lemma ThreeSpelled(data: seq<Byte>, tag: Byte, x: nat, y: nat, z: nat, p: seq<Byte>, q: seq<Byte>, r: seq<Byte>,
                     i: nat, j: nat)
    requires i == 1 + |p| && j == i + |q|
    requires Spelled(data, 1, x, p) && Spelled(data, i, y, q) && Spelled(data, j, z, r)
    ensures [tag] + (p + (q + r)) <= data
       <==> |data| > 0 && data[0] == tag
            && Field(data, 1, |p|, x) && Field(data, i, |q|, y) && Field(data, j, |r|, z)
  {
    Tagged(data, tag, p + (q + r));
    JoinedRule(data, 1, p, q + r);
    JoinedRule(data, i, q, r);
  }

  lemma TwoFields(data: seq<Byte>, tag: Byte, x: nat, y: nat, w: nat, i: nat)
    requires i == 1 + w
    ensures [tag] + (ToLe(x, w) + ToLe(y, w)) <= data
       <==> |data| > 0 && data[0] == tag && Field(data, 1, w, x) && Field(data, i, w, y)
  {
    SpelledByLe(data, 1, x, w);
    SpelledByLe(data, i, y, w);
    TwoSpelled(data, tag, x, y, ToLe(x, w), ToLe(y, w), i);
  }

  lemma ThreeFields(data: seq<Byte>, tag: Byte, x: nat, y: nat, z: nat, w: nat, i: nat, j: nat)
    requires i == 1 + w && j == i + w
    ensures [tag] + (ToLe(x, w) + (ToLe(y, w) + ToLe(z, w))) <= data
       <==> |data| > 0 && data[0] == tag && Field(data, 1, w, x) && Field(data, i, w, y) && Field(data, j, w, z)
  {
    SpelledByLe(data, 1, x, w);
    SpelledByLe(data, i, y, w);
    SpelledByLe(data, j, z, w);
    ThreeSpelled(data, tag, x, y, z, ToLe(x, w), ToLe(y, w), ToLe(z, w), i, j);
  }

  lemma FlagRule(data: seq<Byte>, o: nat, x: bool, y: bool)
    ensures At(data, o, [BoolByte(x)] + [BoolByte(y)])
       <==> o + 2 <= |data| && Flag(data[o], x) && Flag(data[o + 1], y)
  {
  }

  lemma PermissionFields(data: seq<Byte>, i: SwapInstruction)
    requires i.InitializePermission? || i.UpdatePermission?
    ensures Encode(i) <= data <==> InstructionLaid(data, i)
  {
    Tagged(data, TagOf(i), Body(i));
    if i.InitializePermission? {
      var flags := [BoolByte(i.isSuperAdmin)] + [BoolByte(i.canUpdateParameters)];
      JoinedRule(data, 1, i.permissionAuthority, flags);
      FlagRule(data, 33, i.isSuperAdmin, i.canUpdateParameters);
      if |data| >= 33 {
        assert data[1..][..32] == data[1..33];
      }
    } else {
      FlagRule(data, 1, i.isSuperAdmin, i.canUpdateParameters);
    }
  }

  lemma PairsAreLaid(data: seq<Byte>, i: SwapInstruction)
    requires i.Swap? || i.DepositSingleTokenTypeExactAmountIn? || i.WithdrawSingleTokenTypeExactAmountOut?
    ensures Encode(i) <= data <==> InstructionLaid(data, i)
  {
    match i
    case Swap(x, y) => TwoFields(data, 1, x, y, 8, 9);
    case DepositSingleTokenTypeExactAmountIn(x, y) => TwoFields(data, 4, x, y, 8, 9);
    case WithdrawSingleTokenTypeExactAmountOut(x, y) => TwoFields(data, 5, x, y, 8, 9);
  }

  lemma TriplesAreLaid(data: seq<Byte>, i: SwapInstruction)
    requires i.DepositAllTokenTypes? || i.WithdrawAllTokenTypes?
    ensures Encode(i) <= data <==> InstructionLaid(data, i)
  {
    match i
    case DepositAllTokenTypes(x, y, z) => ThreeFields(data, 2, x, y, z, 8, 9, 17);
    case WithdrawAllTokenTypes(x, y, z) => ThreeFields(data, 3, x, y, z, 8, 9, 17);
  }

  lemma RatesAreLaid(data: seq<Byte>, i: SwapInstruction)
    requires i.SetRates?
    ensures Encode(i) <= data <==> InstructionLaid(data, i)
  {
    ThreeFields(data, 6, i.ssr, i.rho, i.chi, 16, 17, 33);
  }

  lemma EncodingIsLaid(data: seq<Byte>, i: SwapInstruction)
    requires !i.Initialize?
    ensures Encode(i) <= data <==> InstructionLaid(data, i)
  {
    match i
    case DepositAllTokenTypes(_, _, _) => TriplesAreLaid(data, i);
    case WithdrawAllTokenTypes(_, _, _) => TriplesAreLaid(data, i);
    case SetRates(_, _, _) => RatesAreLaid(data, i);
    case InitializePermission(_, _, _) => PermissionFields(data, i);
    case UpdatePermission(_, _) => PermissionFields(data, i);
    case _ => PairsAreLaid(data, i);
  }

  lemma InitializeBody(data: seq<Byte>, fees: Fees, curve: Curve)
    requires |data| == 130
    ensures UnpackBody(0, data[1..]) == Ok(Initialize(fees, curve))
       <==> FeesLaid(data, 1, fees) && CurveLaid(data, 65, curve)
  {
    var rest := data[1..];
    FeesRule(data, 1, fees);
    CurveRule(data, 65, curve);
    assert rest[..64] == data[1..1 + 64] && rest[64..] == data[65..65 + 65];
  }

  lemma InitializeIsLaid(data: seq<Byte>, fees: Fees, curve: Curve)
    ensures Unpack(data) == Ok(Initialize(fees, curve)) <==> InstructionLaid(data, Initialize(fees, curve))
  {
    if |data| == 130 {
      InitializeBody(data, fees, curve);
    }
    if Unpack(data).Ok? {
      DecodedIsPrefix(data);
    }
  }

  /** Data decodes to an instruction if and only if it is laid out as that instruction. */
  lemma DecodedIffLaid(data: seq<Byte>, i: SwapInstruction)
    ensures Unpack(data) == Ok(i) <==> InstructionLaid(data, i)
  {
    if i.Initialize? {
      InitializeIsLaid(data, i.fees, i.curve);
    } else {
      EncodingIsLaid(data, i);
      if Unpack(data) == Ok(i) {
        DecodedIsPrefix(data);
      }
      if Encode(i) <= data {
        InstructionRoundTrip(i, data[|Encode(i)|..]);
        assert data == Encode(i) + data[|Encode(i)|..];
      }
    }
  }

  // ---------------------------------------------------------------------------
  // The account
  // ---------------------------------------------------------------------------

  /** Version, flag, seed, the seven keys, fees at 227 and the curve at 291. */
  predicate AccountLaid(account: seq<Byte>, s: SwapV1) {
    && |account| == 356 && account[0] == 1 && account[1] == 1 && s.isInitialized && account[2] == s.bumpSeed
    && account[3..35] == s.tokenProgramId && account[35..67] == s.tokenA && account[67..99] == s.tokenB
    && account[99..131] == s.poolMint && account[131..163] == s.tokenAMint && account[163..195] == s.tokenBMint
    && account[195..227] == s.poolFeeAccount
    && FeesLaid(account, 227, s.fees)
    && CurveLaid(account, 291, s.curve)
  }

  /** An account unpacks to a swap if and only if it is laid out as that swap. */
  lemma UnpackedIffLaid(account: seq<Byte>, s: SwapV1)
    ensures UnpackState(account) == Ok(s) <==> AccountLaid(account, s)
  {
    if |account| == 356 {
      FeesRule(account, 227, s.fees);
      CurveRule(account, 291, s.curve);
      assert account[291..291 + 65] == account[CURVE_OFFSET..];
      assert account[227..227 + 64] == account[227..291];
    }
  }

  /** Packing writes that layout, and beyond the curve's own numbers leaves its slot. */
  lemma PackedIsLaid(s: SwapV1, account: seq<Byte>)
    requires |account| == 356 && s.isInitialized
    ensures AccountLaid(PackState(s, account), s)
    ensures var used := match s.curve
                        case ConstantProductCurve => 0
                        case ConstantPriceCurve(_) => 16
                        case OffsetCurve(_) => 8
                        case RedemptionRateCurve(_) => 64;
            PackState(s, account)[292 + used..] == account[292 + used..]
  {
    StateRoundTrip(s, account);
    UnpackedIffLaid(PackState(s, account), s);
  }
}
