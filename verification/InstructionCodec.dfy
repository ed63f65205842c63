/** Instruction data (program/src/instruction.rs, `pack` and `unpack`). */
module InstructionCodec {
  import opened Checked
  import opened Errors
  import opened Bytes
  import opened FeeSchedule
  import opened SwapCurve
  import opened CurveCodec

  type Pubkey = k: seq<Byte> | |k| == 32 witness seq(32, _ => 0)

  datatype SwapInstruction =
    | Initialize(fees: Fees, curve: Curve)
    | Swap(amountIn: U64, minimumAmountOut: U64)
    | DepositAllTokenTypes(poolTokenAmount: U64, maximumTokenA: U64, maximumTokenB: U64)
    | WithdrawAllTokenTypes(poolTokenAmount: U64, minimumTokenA: U64, minimumTokenB: U64)
    | DepositSingleTokenTypeExactAmountIn(sourceTokenAmount: U64, minimumPoolTokenAmount: U64)
    | WithdrawSingleTokenTypeExactAmountOut(destinationTokenAmount: U64, maximumPoolTokenAmount: U64)
    | SetRates(ssr: U128, rho: U128, chi: U128)
    | InitializePermission(permissionAuthority: Pubkey, isSuperAdmin: bool, canUpdateParameters: bool)
    | UpdatePermission(isSuperAdmin: bool, canUpdateParameters: bool)

  function BoolByte(b: bool): Byte {
    if b then 1 else 0
  }

  function TagOf(i: SwapInstruction): Byte {
    match i
    case Initialize(_, _) => 0
    case Swap(_, _) => 1
    case DepositAllTokenTypes(_, _, _) => 2
    case WithdrawAllTokenTypes(_, _, _) => 3
    case DepositSingleTokenTypeExactAmountIn(_, _) => 4
    case WithdrawSingleTokenTypeExactAmountOut(_, _) => 5
    case SetRates(_, _, _) => 6
    case InitializePermission(_, _, _) => 7
    case UpdatePermission(_, _) => 8
  }

  function Body(i: SwapInstruction): seq<Byte> {
    match i
    case Initialize(fees, curve) => PackFees(fees) + PackCurve(curve, seq(CURVE_LEN, _ => 0))
    case Swap(x, y) => ToLe(x, 8) + ToLe(y, 8)
    case DepositAllTokenTypes(x, y, z) => ToLe(x, 8) + (ToLe(y, 8) + ToLe(z, 8))
    case WithdrawAllTokenTypes(x, y, z) => ToLe(x, 8) + (ToLe(y, 8) + ToLe(z, 8))
    case DepositSingleTokenTypeExactAmountIn(x, y) => ToLe(x, 8) + ToLe(y, 8)
    case WithdrawSingleTokenTypeExactAmountOut(x, y) => ToLe(x, 8) + ToLe(y, 8)
    case SetRates(x, y, z) => ToLe(x, 16) + (ToLe(y, 16) + ToLe(z, 16))
    case InitializePermission(key, x, y) => key + ([BoolByte(x)] + [BoolByte(y)])
    case UpdatePermission(x, y) => [BoolByte(x)] + [BoolByte(y)]
  }

  function Encode(i: SwapInstruction): seq<Byte> {
    [TagOf(i)] + Body(i)
  }

  lemma Pushed(tag: Byte, x: seq<Byte>, y: seq<Byte>, z: seq<Byte>)
    ensures [] + [tag] + x + y == [tag] + (x + y)
    ensures [] + [tag] + x + y + z == [tag] + (x + (y + z))
  {
  }

  /** The bytes pushed one field after another, as the program does. */
  method Pack(i: SwapInstruction) returns (buf: seq<Byte>)
    ensures buf == Encode(i)
  {
    buf := [];
    buf := buf + [TagOf(i)];
    match i {
      case Initialize(fees, curve) =>
        Pushed(0, PackFees(fees), PackCurve(curve, seq(CURVE_LEN, _ => 0)), []);
        buf := buf + PackFees(fees);
        buf := buf + PackCurve(curve, seq(CURVE_LEN, _ => 0));
      case Swap(x, y) =>
        Pushed(TagOf(i), ToLe(x, 8), ToLe(y, 8), []);
        buf := buf + ToLe(x, 8);
        buf := buf + ToLe(y, 8);
      case DepositAllTokenTypes(x, y, z) =>
        Pushed(TagOf(i), ToLe(x, 8), ToLe(y, 8), ToLe(z, 8));
        buf := buf + ToLe(x, 8);
        buf := buf + ToLe(y, 8);
        buf := buf + ToLe(z, 8);
      case WithdrawAllTokenTypes(x, y, z) =>
        Pushed(TagOf(i), ToLe(x, 8), ToLe(y, 8), ToLe(z, 8));
        buf := buf + ToLe(x, 8);
        buf := buf + ToLe(y, 8);
        buf := buf + ToLe(z, 8);
      case DepositSingleTokenTypeExactAmountIn(x, y) =>
        Pushed(TagOf(i), ToLe(x, 8), ToLe(y, 8), []);
        buf := buf + ToLe(x, 8);
        buf := buf + ToLe(y, 8);
      case WithdrawSingleTokenTypeExactAmountOut(x, y) =>
        Pushed(TagOf(i), ToLe(x, 8), ToLe(y, 8), []);
        buf := buf + ToLe(x, 8);
        buf := buf + ToLe(y, 8);
      case SetRates(x, y, z) =>
        Pushed(TagOf(i), ToLe(x, 16), ToLe(y, 16), ToLe(z, 16));
        buf := buf + ToLe(x, 16);
        buf := buf + ToLe(y, 16);
        buf := buf + ToLe(z, 16);
      case InitializePermission(key, x, y) =>
        Pushed(7, key, [BoolByte(x)], [BoolByte(y)]);
        buf := buf + key;
        buf := buf + [BoolByte(x)];
        buf := buf + [BoolByte(y)];
      case UpdatePermission(x, y) =>
        Pushed(8, [BoolByte(x)], [BoolByte(y)], []);
        buf := buf + [BoolByte(x)];
        buf := buf + [BoolByte(y)];
    }
  }

  function UnpackBool(input: seq<Byte>): Result<(bool, seq<Byte>), SwapError> {
    if input == [] || input[0] > 1 then Err(InvalidInstruction) else Ok((input[0] == 1, input[1..]))
  }

  function UnpackU64(input: seq<Byte>): Result<(U64, seq<Byte>), SwapError> {
    if |input| < 8 then Err(InvalidInstruction) else Ok((U64At(input[..8]), input[8..]))
  }

  function UnpackU128(input: seq<Byte>): Result<(U128, seq<Byte>), SwapError> {
    if |input| < 16 then Err(InvalidInstruction) else Ok((U128At(input[..16]), input[16..]))
  }

  function TwoU64(input: seq<Byte>): Result<(U64, U64), SwapError> {
    var (x, rest) :- UnpackU64(input);
    var (y, _) :- UnpackU64(rest);
    Ok((x, y))
  }

  function ThreeU64(input: seq<Byte>): Result<(U64, U64, U64), SwapError> {
    var (x, rest) :- UnpackU64(input);
    var (y, z) :- TwoU64(rest);
    Ok((x, y, z))
  }

  function ThreeU128(input: seq<Byte>): Result<(U128, U128, U128), SwapError> {
    var (x, rest) :- UnpackU128(input);
    var (y, rest') :- UnpackU128(rest);
    var (z, _) :- UnpackU128(rest');
    Ok((x, y, z))
  }

  function TwoBools(input: seq<Byte>): Result<(bool, bool), SwapError> {
    var (x, rest) :- UnpackBool(input);
    var (y, _) :- UnpackBool(rest);
    Ok((x, y))
  }

  function UnpackBody(tag: Byte, rest: seq<Byte>): Result<SwapInstruction, SwapError> {
    match tag
    case 0 =>
      if |rest| < FEES_LEN then Err(InvalidInstruction)
      else if |rest| - FEES_LEN != CURVE_LEN then Err(InvalidAccountData)
      else
        var curve :- UnpackCurve(rest[FEES_LEN..]);
        Ok(Initialize(UnpackFees(rest[..FEES_LEN]), curve))
    case 1 => (var (x, y) :- TwoU64(rest); Ok(Swap(x, y)))
    case 2 => (var (x, y, z) :- ThreeU64(rest); Ok(DepositAllTokenTypes(x, y, z)))
    case 3 => (var (x, y, z) :- ThreeU64(rest); Ok(WithdrawAllTokenTypes(x, y, z)))
    case 4 => (var (x, y) :- TwoU64(rest); Ok(DepositSingleTokenTypeExactAmountIn(x, y)))
    case 5 => (var (x, y) :- TwoU64(rest); Ok(WithdrawSingleTokenTypeExactAmountOut(x, y)))
    case 6 => (var (x, y, z) :- ThreeU128(rest); Ok(SetRates(x, y, z)))
    case 7 =>
      if |rest| < 32 then Err(Abort)
      else
        var (x, y) :- TwoBools(rest[32..]);
        Ok(InitializePermission(rest[..32], x, y))
    case 8 => (var (x, y) :- TwoBools(rest); Ok(UpdatePermission(x, y)))
    case _ => Err(InvalidInstruction)
  }

  function Unpack(input: seq<Byte>): Result<SwapInstruction, SwapError> {
    if input == [] then Err(InvalidInstruction) else UnpackBody(input[0], input[1..])
  }

  lemma Associate(x: seq<Byte>, y: seq<Byte>, z: seq<Byte>)
    ensures (x + y) + z == x + (y + z)
  {
  }

  lemma TakeU64(x: U64, rest: seq<Byte>)
    ensures UnpackU64(ToLe(x, 8) + rest) == Ok((x, rest))
  {
    Joined(ToLe(x, 8), rest);
    U64RoundTrip(x);
  }

  lemma TakeU128(x: U128, rest: seq<Byte>)
    ensures UnpackU128(ToLe(x, 16) + rest) == Ok((x, rest))
  {
    Joined(ToLe(x, 16), rest);
    U128RoundTrip(x);
  }

  lemma TakeTwoU64(x: U64, y: U64, extra: seq<Byte>)
    ensures TwoU64(ToLe(x, 8) + ToLe(y, 8) + extra) == Ok((x, y))
  {
    Associate(ToLe(x, 8), ToLe(y, 8), extra);
    TakeU64(x, ToLe(y, 8) + extra);
    TakeU64(y, extra);
  }

  lemma TakeThreeU64(x: U64, y: U64, z: U64, extra: seq<Byte>)
    ensures ThreeU64(ToLe(x, 8) + (ToLe(y, 8) + ToLe(z, 8)) + extra) == Ok((x, y, z))
  {
    Associate(ToLe(x, 8), ToLe(y, 8) + ToLe(z, 8), extra);
    TakeU64(x, ToLe(y, 8) + ToLe(z, 8) + extra);
    TakeTwoU64(y, z, extra);
  }

  lemma TakeThreeU128(x: U128, y: U128, z: U128, extra: seq<Byte>)
    ensures ThreeU128(ToLe(x, 16) + (ToLe(y, 16) + ToLe(z, 16)) + extra) == Ok((x, y, z))
  {
    Associate(ToLe(x, 16), ToLe(y, 16) + ToLe(z, 16), extra);
    Associate(ToLe(y, 16), ToLe(z, 16), extra);
    TakeU128(x, ToLe(y, 16) + ToLe(z, 16) + extra);
    TakeU128(y, ToLe(z, 16) + extra);
    TakeU128(z, extra);
  }

  lemma TakeTwoBools(x: bool, y: bool, extra: seq<Byte>)
    ensures TwoBools([BoolByte(x)] + [BoolByte(y)] + extra) == Ok((x, y))
  {
    Associate([BoolByte(x)], [BoolByte(y)], extra);
    Joined([BoolByte(x)], [BoolByte(y)] + extra);
    Joined([BoolByte(y)], extra);
  }

  lemma InitializeRoundTrip(fees: Fees, curve: Curve)
    ensures var i := Initialize(fees, curve);
            UnpackBody(0, Body(i)) == Ok(i)
  {
    var slot := seq(CURVE_LEN, _ => 0);
    Joined(PackFees(fees), PackCurve(curve, slot));
    FeesRoundTrip(fees);
    CurveRoundTrip(curve, slot);
  }

  lemma BodyRoundTrip(i: SwapInstruction, extra: seq<Byte>)
    requires i.Initialize? ==> extra == []
    ensures UnpackBody(TagOf(i), Body(i) + extra) == Ok(i)
  {
    match i
    case Initialize(fees, curve) =>
      assert Body(i) + extra == Body(i);
      InitializeRoundTrip(fees, curve);
    case Swap(x, y) => TakeTwoU64(x, y, extra);
    case DepositAllTokenTypes(x, y, z) => TakeThreeU64(x, y, z, extra);
    case WithdrawAllTokenTypes(x, y, z) => TakeThreeU64(x, y, z, extra);
    case DepositSingleTokenTypeExactAmountIn(x, y) => TakeTwoU64(x, y, extra);
    case WithdrawSingleTokenTypeExactAmountOut(x, y) => TakeTwoU64(x, y, extra);
    case SetRates(x, y, z) => TakeThreeU128(x, y, z, extra);
    case InitializePermission(key, x, y) =>
      Associate(key, [BoolByte(x)] + [BoolByte(y)], extra);
      Joined(key, [BoolByte(x)] + [BoolByte(y)] + extra);
      TakeTwoBools(x, y, extra);
    case UpdatePermission(x, y) => TakeTwoBools(x, y, extra);
  }

  /** Every instruction is recovered from its bytes; bytes after it are ignored, except
      after Initialize, whose length must be exact. */
  lemma InstructionRoundTrip(i: SwapInstruction, extra: seq<Byte>)
    requires i.Initialize? ==> extra == []
    ensures Unpack(Encode(i) + extra) == Ok(i)
  {
    BodyRoundTrip(i, extra);
    Associate([TagOf(i)], Body(i), extra);
    Joined([TagOf(i)], Body(i) + extra);
  }

  lemma PrefixAfter(x: seq<Byte>, y: seq<Byte>, input: seq<Byte>)
    requires x <= input && y <= input[|x|..]
    ensures x + y <= input
  {
    assert input == x + input[|x|..];
  }

  lemma TakenU64(input: seq<Byte>)
    requires UnpackU64(input).Ok?
    ensures ToLe(UnpackU64(input).value.0, 8) <= input
  {
    BytesRoundTrip(input[..8]);
  }

  lemma TakenU128(input: seq<Byte>)
    requires UnpackU128(input).Ok?
    ensures ToLe(UnpackU128(input).value.0, 16) <= input
  {
    BytesRoundTrip(input[..16]);
  }

  lemma TwoU64IsPrefix(input: seq<Byte>)
    requires TwoU64(input).Ok?
    ensures var (x, y) := TwoU64(input).value; ToLe(x, 8) + ToLe(y, 8) <= input
  {
    var (x, y) := TwoU64(input).value;
    TakenU64(input);
    TakenU64(input[8..]);
    PrefixAfter(ToLe(x, 8), ToLe(y, 8), input);
  }

  lemma ThreeU64IsPrefix(input: seq<Byte>)
    requires ThreeU64(input).Ok?
    ensures var (x, y, z) := ThreeU64(input).value; ToLe(x, 8) + (ToLe(y, 8) + ToLe(z, 8)) <= input
  {
    var (x, y, z) := ThreeU64(input).value;
    TakenU64(input);
    TwoU64IsPrefix(input[8..]);
    PrefixAfter(ToLe(x, 8), ToLe(y, 8) + ToLe(z, 8), input);
  }

  lemma ThreeU128IsPrefix(input: seq<Byte>)
    requires ThreeU128(input).Ok?
    ensures var (x, y, z) := ThreeU128(input).value; ToLe(x, 16) + (ToLe(y, 16) + ToLe(z, 16)) <= input
  {
    var (x, y, z) := ThreeU128(input).value;
    TakenU128(input);
    TakenU128(input[16..]);
    TakenU128(input[16..][16..]);
    PrefixAfter(ToLe(y, 16), ToLe(z, 16), input[16..]);
    PrefixAfter(ToLe(x, 16), ToLe(y, 16) + ToLe(z, 16), input);
  }

  lemma TwoBoolsIsPrefix(input: seq<Byte>)
    requires TwoBools(input).Ok?
    ensures var (x, y) := TwoBools(input).value; [BoolByte(x)] + [BoolByte(y)] <= input
  {
    var (x, y) := TwoBools(input).value;
    PrefixAfter([BoolByte(x)], [BoolByte(y)], input);
  }

  /** The fixed-width instructions: amounts and rates. */
  lemma DecodedNumbersArePrefix(tag: Byte, rest: seq<Byte>)
    requires 1 <= tag <= 6 && UnpackBody(tag, rest).Ok?
    ensures var i := UnpackBody(tag, rest).value;
            tag == TagOf(i) && Body(i) <= rest
  {
    if tag == 1 || tag == 4 || tag == 5 {
      TwoU64IsPrefix(rest);
    } else if tag <= 3 {
      ThreeU64IsPrefix(rest);
    } else {
      ThreeU128IsPrefix(rest);
    }
  }

  lemma DecodedInitializeIsExact(rest: seq<Byte>)
    requires UnpackBody(0, rest).Ok?
    ensures var i := UnpackBody(0, rest).value;
            && i.Initialize? && |rest| == 129
            && rest == PackFees(i.fees) + PackCurve(i.curve, rest[FEES_LEN..])
  {
    FeesBytesRoundTrip(rest[..FEES_LEN]);
    CurveBytesRoundTrip(rest[FEES_LEN..]);
    assert rest == rest[..FEES_LEN] + rest[FEES_LEN..];
  }

  lemma DecodedPermissionIsPrefix(tag: Byte, rest: seq<Byte>)
    requires 7 <= tag <= 8 && UnpackBody(tag, rest).Ok?
    ensures var i := UnpackBody(tag, rest).value;
            tag == TagOf(i) && Body(i) <= rest
  {
    if tag == 7 {
      TwoBoolsIsPrefix(rest[32..]);
      var i := UnpackBody(tag, rest).value;
      PrefixAfter(rest[..32], [BoolByte(i.isSuperAdmin)] + [BoolByte(i.canUpdateParameters)], rest);
    } else {
      TwoBoolsIsPrefix(rest);
    }
  }

  /** Conversely, accepted data begins with the encoding of what it decodes to, so no
      instruction has two encodings; an Initialize may differ from its own encoding
      only in bytes its calculator does not use. */
  lemma DecodedIsPrefix(input: seq<Byte>)
    requires Unpack(input).Ok?
    ensures var i := Unpack(input).value;
            match i
            case Initialize(fees, curve) =>
              |input| == 130 && input == [0] + (PackFees(fees) + PackCurve(curve, input[65..]))
            case _ => Encode(i) <= input
  {
    var (tag, rest) := (input[0], input[1..]);
    assert input == [tag] + rest;
    if tag == 0 {
      DecodedInitializeIsExact(rest);
      assert rest[FEES_LEN..] == input[65..];
    } else {
      if tag <= 6 { DecodedNumbersArePrefix(tag, rest); } else { DecodedPermissionIsPrefix(tag, rest); }
      PrefixAfter([tag], Body(Unpack(input).value), input);
    }
  }
}
