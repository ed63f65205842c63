/** The constant-product curve and its offset variant
    (program/src/curve/constant_product.rs, program/src/curve/offset.rs). */
module ConstantProduct {
  import opened Checked
  import opened Arith
  import opened PriceCurve

  function Swap(source: U128, swapSource: U128, swapDestination: U128): Option<Quote> {
    var invariantProduct :- Below(U128_LIMIT, swapSource * swapDestination);
    var offered :- Add128(swapSource, source);
    var (newDestination, newSource) :- CeilDiv(invariantProduct, offered);
    var used :- Sub(newSource, swapSource);
    var out :- Sub(swapDestination, newDestination);
    if out == 0 || used >= U128_LIMIT then None else Some(Quote(used, out))
  }

  /** One token's part of an LP amount.  Rounding up never turns a part below one
      whole token into one; it stays zero, for the processor to refuse. */
  function Share(lp: U128, supply: U128, reserve: U128, round: Rounding): Option<U128> {
    var x :- Below(U128_LIMIT, lp * reserve);
    var q :- Div(x, supply);
    As128(if round.Up? && q > 0 then CeilQuotient(x, supply) else q)
  }

  function Shares(lp: U128, supply: U128, a: U128, b: U128, round: Rounding): Option<Tokens> {
    var ta :- Share(lp, supply, a, round);
    var tb :- Share(lp, supply, b, round);
    Some(Tokens(ta, tb))
  }

  /** The conversion as the program runs it: floor both parts, then bump the ones
      that left a remainder. */
  method PoolTokensToTradingTokens(lp: U128, supply: U128, a: U128, b: U128, round: Rounding)
    returns (result: Option<Tokens>)
    ensures result == Shares(lp, supply, a, b, round)
  {
    var x, y := lp * a, lp * b;
    if x >= U128_LIMIT || y >= U128_LIMIT || supply == 0 {
      return None;
    }
    ShareIsBumpedFloor(lp, supply, a, round);
    ShareIsBumpedFloor(lp, supply, b, round);
    var tokenA: nat, tokenB: nat := x / supply, y / supply;
    if round == Up {
      if x % supply > 0 && tokenA > 0 {
        tokenA := tokenA + 1;
      }
      if y % supply > 0 && tokenB > 0 {
        tokenB := tokenB + 1;
      }
    }
    return Some(Tokens(tokenA, tokenB));
  }

  lemma ShareIsBumpedFloor(lp: U128, supply: U128, reserve: U128, round: Rounding)
    requires supply > 0 && lp * reserve < U128_LIMIT
    ensures Share(lp, supply, reserve, round)
         == Some(lp * reserve / supply
                 + if round.Up? && lp * reserve % supply > 0 && lp * reserve / supply > 0 then 1 else 0)
  {
    QuotientFits(lp * reserve, supply);
  }

  lemma QuotientFits(x: nat, d: nat)
    requires d > 0
    ensures x / d <= CeilQuotient(x, d) <= x
  {
    Ceil(x, d);
    MulMono(x, x, 1, d);
    CeilIsLeast(x, d, x);
  }

  /** Rounding up gives the true ceiling except for a non-zero part below one token,
      which it turns into zero. */
  lemma ShareUpIsCeilingUnlessTiny(lp: U128, supply: U128, reserve: U128)
    requires Share(lp, supply, reserve, Up).Some?
    ensures Share(lp, supply, reserve, Up).value == CeilQuotient(lp * reserve, supply)
       <==> !(0 < lp * reserve < supply)
    ensures 0 < lp * reserve < supply ==> Share(lp, supply, reserve, Up).value == 0
  {
    var x := lp * reserve;
    Ceil(x, supply);
    FloorIsMost(x, supply, 1);
  }

  /** Paying for an LP amount and getting the same amount back later returns no more than
      was paid and at most one unit less, a part below one token included: it costs
      nothing and returns nothing. */
  lemma ShareRoundTrip(x: U128, supply: U128, reserve: U128)
    requires supply > 0 && supply + x < U128_LIMIT && Share(x, supply, reserve, Up).Some?
    requires var paid := Share(x, supply, reserve, Up).value;
             reserve + paid < U128_LIMIT && Share(x, supply + x, reserve + paid, Down).Some?
    ensures var paid := Share(x, supply, reserve, Up).value;
            var back := Share(x, supply + x, reserve + paid, Down).value;
            back <= paid <= back + 1
  {
    ShareUpIsCeilingUnlessTiny(x, supply, reserve);
    if 0 < x * reserve < supply {
      FloorIsMost(x * reserve, supply + x, 1);
    } else {
      TokenRoundTrip(x, supply, reserve);
    }
  }

  lemma SharesRoundTrip(x: U128, supply: U128, a: U128, b: U128)
    requires supply > 0 && supply + x < U128_LIMIT && Shares(x, supply, a, b, Up).Some?
    requires var paid := Shares(x, supply, a, b, Up).value;
             && a + paid.a < U128_LIMIT && b + paid.b < U128_LIMIT
             && Shares(x, supply + x, a + paid.a, b + paid.b, Down).Some?
    ensures var paid := Shares(x, supply, a, b, Up).value;
            var back := Shares(x, supply + x, a + paid.a, b + paid.b, Down).value;
            back.a <= paid.a <= back.a + 1 && back.b <= paid.b <= back.b + 1
  {
    ShareRoundTrip(x, supply, a);
    ShareRoundTrip(x, supply, b);
  }

  /** The swap keeps the product, charges the least source that keeps it for the
      output given, and gives the most output the offered source can buy. */
  lemma SwapIsTight(source: U128, s: U128, d: U128)
    requires Swap(source, s, d).Some?
    ensures var q := Swap(source, s, d).value;
            && q.used <= source && 0 < q.out <= d
            && s * d <= (s + q.used) * (d - q.out)
            && (s + q.used - 1) * (d - q.out) < s * d
            && (s + source) * (d - q.out - 1) < s * d <= (s + source) * (d - q.out)
  {
    var q := Swap(source, s, d).value;
    CeilDivIsTight(s * d, s + source);
    assert (d - q.out) * (s + q.used) == (s + q.used) * (d - q.out);
    assert (d - q.out) * (s + q.used - 1) == (s + q.used - 1) * (d - q.out);
    assert (d - q.out - 1) * (s + source) == (s + source) * (d - q.out - 1);
  }

  /** Nothing is given for nothing. */
  lemma SwapUsesSource(source: U128, s: U128, d: U128)
    requires Swap(source, s, d).Some?
    ensures 0 < Swap(source, s, d).value.used <= source
  {
    SwapIsTight(source, s, d);
    assert s * d / (s + source) > 0;
    FloorIsMost(s * d, s + source, 1);
    SourcePaysForOutput(s, d, Swap(source, s, d).value.used, Swap(source, s, d).value.out);
  }

  lemma SourcePaysForOutput(s: nat, d: nat, used: nat, out: nat)
    requires 0 < s * d <= (s + used) * (d - out) && 0 < out <= d
    ensures used > 0
  {
    assert s * out > 0;
    assert (s + used) * (d - out) == s * d - s * out + used * (d - out);
  }

  /** The adjusted source never falls below the reserve, so the subtraction after the
      ceiling division cannot fail once something is bought. */
  lemma SwapFailsOnlyWhenNothingIsBought(source: U128, s: U128, d: U128)
    requires s * d < U128_LIMIT && s + source < U128_LIMIT
    ensures Swap(source, s, d).None? <==>
              s + source == 0 || s * d / (s + source) == 0
              || CeilQuotient(s * d, s + source) == d
  {
    if s + source > 0 && s * d / (s + source) != 0 {
      CeilDivIsTight(s * d, s + source);
      var (nd, ns) := CeilDiv(s * d, s + source).value;
      MulMono(d, d, s, s + source);
      CeilIsLeast(s * d, s + source, d);
      if nd < d {
        CoverNeedsSource(s, d, nd, ns);
      }
    }
  }

  /** An offer worth less than one token is refused although every product fits. */
  lemma DustIsRefused()
    ensures Swap(10, 70_000_000_000, 4_000_000) == None
  {
  }

  lemma CoverNeedsSource(s: nat, d: nat, nd: nat, ns: nat)
    requires s * d <= nd * ns && nd < d
    ensures s <= ns
  {
    MulMono(nd, d, ns, ns);
    CancelLe(s, ns, d);
  }

  /** The offset curve: token B's reserve counts with a fixed offset added. */
  function SwapOffset(offset: U64, source: U128, swapSource: U128, swapDestination: U128,
                      dir: TradeDirection): Option<Quote>
  {
    match dir
    case AtoB =>
      var d :- Add128(swapDestination, offset);
      Swap(source, swapSource, d)
    case BtoA =>
      var s :- Add128(swapSource, offset);
      Swap(source, s, swapDestination)
  }

  function SharesOffset(offset: U64, lp: U128, supply: U128, a: U128, b: U128, round: Rounding): Option<Tokens> {
    var b' :- Add128(b, offset);
    Shares(lp, supply, a, b', round)
  }

  /** The offset swap keeps a * (b + offset) from falling, charges the least source that
      does, and gives the most output the offered source can buy. */
  lemma OffsetSwapIsTight(offset: U64, source: U128, a: U128, b: U128, dir: TradeDirection)
    requires SwapOffset(offset, source, if dir.AtoB? then a else b, if dir.AtoB? then b else a, dir).Some?
    ensures var q := SwapOffset(offset, source, if dir.AtoB? then a else b, if dir.AtoB? then b else a, dir).value;
            && 0 < q.used <= source
            && match dir
               case AtoB =>
                 && 0 < q.out <= b + offset
                 && a * (b + offset) <= (a + q.used) * (b + offset - q.out)
                 && (a + q.used - 1) * (b + offset - q.out) < a * (b + offset)
                 && (a + source) * (b + offset - q.out - 1) < a * (b + offset)
               case BtoA =>
                 && 0 < q.out <= a
                 && a * (b + offset) <= (a - q.out) * (b + offset + q.used)
                 && (a - q.out) * (b + offset + q.used - 1) < a * (b + offset)
                 && (a - q.out - 1) * (b + offset + source) < a * (b + offset)
  {
    match dir
    case AtoB =>
      SwapIsTight(source, a, b + offset);
      SwapUsesSource(source, a, b + offset);
    case BtoA =>
      SwapIsTight(source, b + offset, a);
      SwapUsesSource(source, b + offset, a);
      var q := Swap(source, b + offset, a).value;
      Commute(b + offset, a);
      Commute(b + offset + q.used, a - q.out);
      Commute(b + offset + q.used - 1, a - q.out);
      Commute(b + offset + source, a - q.out - 1);
  }

  lemma Commute(x: int, y: int)
    ensures x * y == y * x
  {
  }
}
