/** The stored swap account (program/src/state.rs) and the rate update on its bytes
    (program/src/redemption_rate_processor.rs). */
module StateCodec {
  import opened Checked
  import opened Errors
  import opened Bytes
  import opened RedemptionRate
  import opened FeeSchedule
  import opened SwapCurve
  import opened CurveCodec
  import opened InstructionCodec

  const SWAP_V1_LEN: nat := 355
  const LATEST_LEN: nat := 356
  const CURVE_OFFSET: nat := 291

  datatype SwapV1 = SwapV1(
    isInitialized: bool, bumpSeed: Byte,
    tokenProgramId: Pubkey, tokenA: Pubkey, tokenB: Pubkey, poolMint: Pubkey,
    tokenAMint: Pubkey, tokenBMint: Pubkey, poolFeeAccount: Pubkey,
    fees: Fees, curve: Curve)

  /** Everything before the curve: version, flag, seed, seven keys and the fees. */
  function PackHead(s: SwapV1): (bytes: seq<Byte>)
    ensures |bytes| == CURVE_OFFSET
  {
    [1] + ([BoolByte(s.isInitialized)] + ([s.bumpSeed] + (PackKeys(s) + PackFees(s.fees))))
  }

  function PackKeys(s: SwapV1): (bytes: seq<Byte>)
    ensures |bytes| == 224
  {
    s.tokenProgramId + (s.tokenA + (s.tokenB + (s.poolMint + (s.tokenAMint + (s.tokenBMint + s.poolFeeAccount)))))
  }

  /** The account after packing a swap over what it held. */
  function PackState(s: SwapV1, account: seq<Byte>): (bytes: seq<Byte>)
    requires |account| == LATEST_LEN
    ensures |bytes| == LATEST_LEN
  {
    PackHead(s) + PackCurve(s.curve, account[CURVE_OFFSET..])
  }

  function UnpackState(bytes: seq<Byte>): Result<SwapV1, SwapError> {
    if bytes == [] then Err(InvalidAccountData)
    else if bytes[0] != 1 then Err(UninitializedAccount)
    else if |bytes| - 1 != SWAP_V1_LEN then Err(InvalidAccountData)
    else if bytes[1] > 1 then Err(InvalidAccountData)
    else
      var curve :- UnpackCurve(bytes[CURVE_OFFSET..]);
      var s := SwapV1(bytes[1] == 1, bytes[2],
                      bytes[3..35], bytes[35..67], bytes[67..99], bytes[99..131],
                      bytes[131..163], bytes[163..195], bytes[195..227],
                      UnpackFees(bytes[227..291]), curve);
      if s.isInitialized then Ok(s) else Err(UninitializedAccount)
  }

  /** Quick test made before initialization: the flag byte is set. */
  predicate LooksInitialized(bytes: seq<Byte>) {
    |bytes| > 1 && bytes[1] != 0
  }

  method Pack(s: SwapV1, dst: array<Byte>) returns (r: Result<(), SwapError>)
    modifies dst
    ensures r.Ok? <==> dst.Length == LATEST_LEN
    ensures r.Ok? ==> dst[..] == PackState(s, old(dst[..]))
  {
    if dst.Length == 0 {
      return Err(Abort);
    }
    dst[0] := 1;
    if dst.Length - 1 != SWAP_V1_LEN {
      return Err(InvalidAccountData);
    }
    ghost var before := old(dst[..]);
    ghost var slot := before[CURVE_OFFSET..];
    CopyInto(dst, 0, PackHead(s));
    assert dst[..] == PackHead(s) + slot;
    CopyInto(dst, CURVE_OFFSET, [Tag(s.curve)] + PackCalculator(s.curve));
    assert dst[..] == PackState(s, before);
    return Ok(());
  }

  // ---------------------------------------------------------------------------
  // Round trips
  // ---------------------------------------------------------------------------

  lemma KeyFields(s: SwapV1)
    ensures var k := PackKeys(s);
            && k[0..32] == s.tokenProgramId && k[32..64] == s.tokenA && k[64..96] == s.tokenB
            && k[96..128] == s.poolMint && k[128..160] == s.tokenAMint && k[160..192] == s.tokenBMint
            && k[192..224] == s.poolFeeAccount
  {
  }

  lemma HeadFields(s: SwapV1, tail: seq<Byte>)
    ensures var b := PackHead(s) + tail;
            && b[0] == 1 && b[1] == BoolByte(s.isInitialized) && b[2] == s.bumpSeed
            && b[3..227] == PackKeys(s) && b[227..291] == PackFees(s.fees)
            && b[291..] == tail
  {
  }

  lemma SliceOfSlice(b: seq<Byte>, i: nat, j: nat, m: nat, n: nat)
    requires i <= j <= |b| && m <= n <= j - i
    ensures b[i..j][m..n] == b[i + m..i + n]
  {
    forall k | 0 <= k < n - m
      ensures b[i..j][m..n][k] == b[i + m..i + n][k]
    {
    }
  }

  lemma KeySlices(b: seq<Byte>)
    requires |b| >= 227
    ensures var k := b[3..227];
            && b[3..35] == k[0..32] && b[35..67] == k[32..64] && b[67..99] == k[64..96]
            && b[99..131] == k[96..128] && b[131..163] == k[128..160] && b[163..195] == k[160..192]
            && b[195..227] == k[192..224]
  {
    SliceOfSlice(b, 3, 227, 0, 32);
    SliceOfSlice(b, 3, 227, 32, 64);
    SliceOfSlice(b, 3, 227, 64, 96);
    SliceOfSlice(b, 3, 227, 96, 128);
    SliceOfSlice(b, 3, 227, 128, 160);
    SliceOfSlice(b, 3, 227, 160, 192);
    SliceOfSlice(b, 3, 227, 192, 224);
  }

  /** Unpacking a packed, initialized swap gives it back, whatever the account held. */
  lemma StateRoundTrip(s: SwapV1, account: seq<Byte>)
    requires |account| == LATEST_LEN
    ensures UnpackState(PackState(s, account)) == (if s.isInitialized then Ok(s) else Err(UninitializedAccount))
    ensures LooksInitialized(PackState(s, account)) == s.isInitialized
  {
    HeadFields(s, PackCurve(s.curve, account[CURVE_OFFSET..]));
    KeySlices(PackState(s, account));
    KeyFields(s);
    FeesRoundTrip(s.fees);
    CurveRoundTrip(s.curve, account[CURVE_OFFSET..]);
  }

  /** Packing back what an account holds changes none of its bytes. */
  lemma RepackIsIdentity(account: seq<Byte>)
    requires UnpackState(account).Ok?
    ensures |account| == LATEST_LEN
    ensures PackState(UnpackState(account).value, account) == account
  {
    var s := UnpackState(account).value;
    FeesBytesRoundTrip(account[227..291]);
    CurveBytesRoundTrip(account[CURVE_OFFSET..]);
    HeadIsAccount(account, s);
    assert account == account[..CURVE_OFFSET] + account[CURVE_OFFSET..];
  }

  lemma HeadIsAccount(account: seq<Byte>, s: SwapV1)
    requires |account| == LATEST_LEN
    requires account[0] == 1 && account[1] == BoolByte(s.isInitialized) && account[2] == s.bumpSeed
    requires account[3..35] == s.tokenProgramId && account[35..67] == s.tokenA && account[67..99] == s.tokenB
    requires account[99..131] == s.poolMint && account[131..163] == s.tokenAMint && account[163..195] == s.tokenBMint
    requires account[195..227] == s.poolFeeAccount && account[227..291] == PackFees(s.fees)
    ensures PackHead(s) == account[..CURVE_OFFSET]
  {
    var head := account[..CURVE_OFFSET];
    KeySlices(account);
    KeysJoin(account[3..227], s);
    PeelFrom(head, 3, 227);
    PeelFrom(head, 2, 3);
    PeelFrom(head, 1, 2);
    PeelFrom(head, 0, 1);
    assert head[227..] == PackFees(s.fees) && head[3..227] == PackKeys(s);
    assert head[0..1] == [1] && head[1..2] == [BoolByte(s.isInitialized)] && head[2..3] == [s.bumpSeed];
    assert head == head[0..];
  }

  lemma KeysJoin(k: seq<Byte>, s: SwapV1)
    requires |k| == 224
    requires k[0..32] == s.tokenProgramId && k[32..64] == s.tokenA && k[64..96] == s.tokenB
    requires k[96..128] == s.poolMint && k[128..160] == s.tokenAMint && k[160..192] == s.tokenBMint
    requires k[192..224] == s.poolFeeAccount
    ensures k == PackKeys(s)
  {
    PeelFrom(k, 160, 192);
    PeelFrom(k, 128, 160);
    PeelFrom(k, 96, 128);
    PeelFrom(k, 64, 96);
    PeelFrom(k, 32, 64);
    PeelFrom(k, 0, 32);
    assert k[192..] == k[192..224];
    assert k == k[0..];
  }

  lemma PeelFrom(bytes: seq<Byte>, i: nat, j: nat)
    requires i <= j <= |bytes|
    ensures bytes[i..] == bytes[i..j] + bytes[j..]
  {
  }

  // ---------------------------------------------------------------------------
  // The rate update on stored bytes
  // ---------------------------------------------------------------------------

  /** The curve read at its fixed offset, without unpacking the account. */
  function ExtractCurve(bytes: seq<Byte>): Result<RateCurve, SwapError> {
    if |bytes| < LATEST_LEN then Err(Abort)
    else
      var slot := bytes[CURVE_OFFSET..LATEST_LEN];
      if slot[0] == 3 then Ok(UnpackRate(slot[1..])) else Err(InvalidAccountData)
  }

  /** Reading the curve at its offset agrees with unpacking the whole account. */
  lemma ExtractAgreesWithUnpack(bytes: seq<Byte>)
    requires UnpackState(bytes).Ok?
    ensures ExtractCurve(bytes) == match UnpackState(bytes).value.curve
                                   case RedemptionRateCurve(rate) => Ok(rate)
                                   case _ => Err(InvalidAccountData)
  {
    var slot := bytes[CURVE_OFFSET..];
    assert bytes[CURVE_OFFSET..LATEST_LEN] == slot;
    assert slot[1..] == slot[1..65];
  }

  /** What a rate update does to an account's bytes: everything up to the cap stays, the
      new rate, posting time and chi follow. */
  function RatesWritten(bytes: seq<Byte>, ssr: U128, rho: U128, chi: U128): (bytes': seq<Byte>)
    requires |bytes| == LATEST_LEN
    ensures |bytes'| == LATEST_LEN
  {
    bytes[..308] + (ToLe(ssr, 16) + (ToLe(rho, 16) + ToLe(chi, 16)))
  }

  /** Rewriting the account with a new rate touches only the 48 rate bytes, and the
      account then unpacks to the same swap with that rate. */
  lemma UpdateFramesAccount(bytes: seq<Byte>, rate: RateCurve)
    requires UnpackState(bytes).Ok? && UnpackState(bytes).value.curve.RedemptionRateCurve?
    requires rate.maxSsr == UnpackState(bytes).value.curve.rate.maxSsr
    ensures var s := UnpackState(bytes).value.(curve := RedemptionRateCurve(rate));
            && |bytes| == LATEST_LEN
            && PackState(s, bytes) == RatesWritten(bytes, rate.ssr, rate.rho, rate.chi)
            && UnpackState(PackState(s, bytes)) == Ok(s)
  {
    var s0 := UnpackState(bytes).value;
    var s := s0.(curve := RedemptionRateCurve(rate));
    RepackIsIdentity(bytes);
    StateRoundTrip(s, bytes);
    var slot := bytes[CURVE_OFFSET..];
    Joined(PackHead(s0), PackCurve(s0.curve, slot));
    RateSlot(slot, rate);
    SlicesJoin(bytes, CURVE_OFFSET, 308);
    Associate(bytes[..CURVE_OFFSET], slot[..17], ToLe(rate.ssr, 16) + (ToLe(rate.rho, 16) + ToLe(rate.chi, 16)));
  }

  lemma SlicesJoin(bytes: seq<Byte>, i: nat, j: nat)
    requires i <= j <= |bytes|
    ensures bytes[..j] == bytes[..i] + bytes[i..][..j - i]
  {
  }

  /** Writing a rate with the same cap into a slot that holds one keeps its tag and cap. */
  lemma RateSlot(slot: seq<Byte>, rate: RateCurve)
    requires |slot| == CURVE_LEN && UnpackCurve(slot).Ok? && UnpackCurve(slot).value.RedemptionRateCurve?
    requires rate.maxSsr == UnpackCurve(slot).value.rate.maxSsr
    ensures PackCurve(RedemptionRateCurve(rate), slot)
         == slot[..17] + (ToLe(rate.ssr, 16) + (ToLe(rate.rho, 16) + ToLe(rate.chi, 16)))
  {
    var cap := ToLe(rate.maxSsr, 16);
    var rates := ToLe(rate.ssr, 16) + (ToLe(rate.rho, 16) + ToLe(rate.chi, 16));
    U128BytesRoundTrip(slot[1..65][0..16]);
    assert slot[1..65][0..16] == slot[1..17];
    assert slot[..17] == [3] + cap by { PeelFrom(slot[..17], 0, 1); assert slot[..17][1..] == slot[1..17]; }
    assert slot[65..] == [];
    Associate([3], cap, rates);
    Associate([3] + cap, rates, []);
    assert rates + [] == rates;
  }

  /** The update instruction on the account's bytes, once its signer is authorised. */
  method ProcessCurveUpdate(data: array<Byte>, ssr: U128, rho: U128, chi: U128, now: U128)
    returns (r: Result<(), SwapError>)
    modifies data
    ensures r.Ok? <==> UnpackState(old(data[..])).Ok?
                       && UnpackState(old(data[..])).value.curve.RedemptionRateCurve?
                       && RedemptionRate.SetRates(UnpackState(old(data[..])).value.curve.rate, ssr, rho, chi, now).Ok?
    ensures r.Ok? ==> data.Length == LATEST_LEN && data[..] == RatesWritten(old(data[..]), ssr, rho, chi)
    ensures r.Ok? ==>
              var s := UnpackState(old(data[..])).value;
              var rate := RedemptionRate.SetRates(s.curve.rate, ssr, rho, chi, now).value;
              UnpackState(data[..]) == Ok(s.(curve := RedemptionRateCurve(rate)))
    ensures r.Err? ==> data[..] == old(data[..])
  {
    ghost var before := data[..];
    var swap :- UnpackState(data[..]);
    ExtractAgreesWithUnpack(data[..]);
    var curve :- ExtractCurve(data[..]);
    var newCalculator :- RedemptionRate.SetRates(curve, ssr, rho, chi, now);
    var newSwap := swap.(curve := RedemptionRateCurve(newCalculator));
    UpdateFramesAccount(before, newCalculator);
    r := Pack(newSwap, data);
  }
}
