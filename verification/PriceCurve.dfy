/** Swaps and pool-share conversions at a quoted price of B in A, scaled by RAY.
    The redemption-rate curve (program/src/curve/redemption_rate.rs) and the
    constant-price curve (program/src/curve/constant_price.rs) run the same
    arithmetic and differ only in where the price comes from. */
module PriceCurve {
  import opened Checked
  import opened Arith
  import opened RayPower

  datatype TradeDirection = AtoB | BtoA
  datatype Rounding = Down | Up

  /** Source tokens a swap uses and destination tokens it gives. */
  datatype Quote = Quote(used: U128, out: U128)

  /** Amounts of both trading tokens. */
  datatype Tokens = Tokens(a: U128, b: U128)

  function Mul256(x: nat, y: nat): Option<nat> {
    Below(U256_LIMIT, x * y)
  }

  function NonZero128(x: nat): Option<U128> {
    if x == 0 || x >= U128_LIMIT then None else Some(x)
  }

  function As128(x: nat): Option<U128> {
    if x >= U128_LIMIT then None else Some(x)
  }

  function SwapAt(p: U256, source: U128, dir: TradeDirection): Option<Quote> {
    var (used, out) :- match dir
      case BtoA =>
        var y :- Mul256(source, p);
        Some((source, y / RAY))
      case AtoB =>
        var x :- Mul256(source, RAY);
        var out :- Div(x, p);
        var y :- Mul256(out, p);
        var (used, _) :- CeilDiv(y, RAY);
        if used > source then None else Some((used, out));
    var used' :- NonZero128(used);
    var out' :- NonZero128(out);
    Some(Quote(used', out'))
  }

  /** Value in A of an amount of the given side, rounded down. */
  function ValueOf(p: nat, amount: nat, side: TradeDirection): nat {
    match side
    case AtoB => amount
    case BtoA => amount * p / RAY
  }

  /** Value in A of both reserves, as share conversions measure it. */
  function PoolValue(p: nat, a: nat, b: nat): nat {
    a + b * p / RAY
  }

  function ToPoolTokens(p: U256, amount: U128, a: U128, b: U128, supply: U128,
                        side: TradeDirection, round: Rounding): Option<U128>
  {
    var given :- match side
      case AtoB => Some(amount)
      case BtoA => (var y :- Mul256(amount, p); Some(y / RAY));
    var bScaled :- Mul256(b, p);
    var total :- Below(U256_LIMIT, bScaled / RAY + a);
    var share :- Mul256(supply, given);
    match round
    case Down => (var q :- Div(share, total); As128(q))
    case Up => (var (q, _) :- CeilDiv(share, total); As128(q))
  }

  function ToTradingTokens(lp: U128, supply: U128, a: U128, b: U128, round: Rounding): Option<Tokens> {
    var x :- Mul256(lp, a);
    var y :- Mul256(lp, b);
    var (ta, tb) :- match round
      case Down =>
        var qa :- Div(x, supply);
        var qb :- Div(y, supply);
        Some((qa, qb))
      case Up =>
        var (qa, _) :- CeilDiv(x, supply);
        var (qb, _) :- CeilDiv(y, supply);
        Some((qa, qb));
    var ta' :- As128(ta);
    var tb' :- As128(tb);
    Some(Tokens(ta', tb'))
  }

  // ---------------------------------------------------------------------------
  // One swap
  // ---------------------------------------------------------------------------

  /** Buying B with A: the code's guard against using more than was offered can never
      fire, so the quote fails only on a zero price or when the source buys nothing
      or too much to represent. */
  lemma FillGuardUnreachable(p: U256, source: U128)
    ensures SwapAt(p, source, AtoB).None? <==>
              p == 0 || source * RAY / p == 0 || source * RAY / p >= U128_LIMIT
              || source * RAY / p * p / RAY == 0
  {
    if p > 0 {
      Floor(source * RAY, p);
      var y := source * RAY / p * p;
      if y / RAY != 0 {
        CeilIsLeast(y, RAY, source);
        Ceil(y, RAY);
      }
    }
  }

  /** Buying B with A: never more than offered is used, the output is the most B the
      source can buy, the amount used is the least A that buys it, and quoting the
      amount used again returns the same pair. */
  lemma OptimalFill(p: U256, source: U128)
    requires SwapAt(p, source, AtoB).Some?
    ensures var q := SwapAt(p, source, AtoB).value;
            && q.used <= source
            && q.out * p <= source * RAY < (q.out + 1) * p
            && (q.used - 1) * RAY < q.out * p <= q.used * RAY
            && SwapAt(p, q.used, AtoB) == Some(q)
  {
    var q := SwapAt(p, source, AtoB).value;
    Floor(source * RAY, p);
    MostBought(source * RAY, p, q.out);
    CeilDivIsTight(q.out * p, RAY);
    SameFill(p, source, q.used, q.out);
  }

  lemma MostBought(n: nat, p: nat, out: nat)
    requires p > 0 && out == n / p
    ensures out * p <= n < (out + 1) * p
  {
    Floor(n, p);
    assert (out + 1) * p == out * p + p;
  }

  lemma SameFill(p: nat, source: nat, used: nat, out: nat)
    requires p > 0 && used <= source && out == source * RAY / p && out * p <= used * RAY
    ensures used * RAY / p == out
  {
    FloorIsMost(used * RAY, p, out);
    FloorMono(used * RAY, source * RAY, p);
  }

  /** Selling B for A takes the whole source and rounds the output down. */
  lemma SaleRoundsDown(p: U256, source: U128)
    requires SwapAt(p, source, BtoA).Some?
    ensures var q := SwapAt(p, source, BtoA).value;
            q.used == source && q.out * RAY <= source * p < (q.out + 1) * RAY
  {
    Floor(source * p, RAY);
  }

  /** Exact worth of the reserves in units of A times RAY. */
  function Worth(p: nat, a: nat, b: nat): nat {
    RAY * a + p * b
  }

  function Deposited(side: TradeDirection, a: nat, b: nat, amount: nat): (nat, nat) {
    match side
    case AtoB => (a + amount, b)
    case BtoA => (a, b + amount)
  }

  /** Reserves after one swap that takes `used` and gives `out`. */
  function Moved(dir: TradeDirection, a: nat, b: nat, used: nat, out: nat): (nat, nat)
    requires out <= if dir.AtoB? then b else a
  {
    match dir
    case AtoB => (a + used, b - out)
    case BtoA => (a - out, b + used)
  }

  /** A swap never lowers the worth of the reserves and raises it by less than one
      unit of A. */
  lemma SwapKeepsWorth(p: U256, source: U128, dir: TradeDirection, a: nat, b: nat)
    requires SwapAt(p, source, dir).Some?
    requires SwapAt(p, source, dir).value.out <= if dir.AtoB? then b else a
    ensures var q := SwapAt(p, source, dir).value;
            var (a', b') := Moved(dir, a, b, q.used, q.out);
            Worth(p, a, b) <= Worth(p, a', b') < Worth(p, a, b) + RAY
  {
    var q := SwapAt(p, source, dir).value;
    match dir
    case AtoB =>
      OptimalFill(p, source);
      BuyGain(RAY, p, a, b, q.used, q.out);
    case BtoA =>
      SaleRoundsDown(p, source);
      SaleGain(RAY, p, a, b, q.used, q.out);
  }

  lemma BuyGain(r: nat, p: nat, a: nat, b: nat, used: nat, out: nat)
    requires out <= b && (used - 1) * r < out * p <= used * r
    ensures r * a + p * b <= r * (a + used) + p * (b - out) < r * a + p * b + r
  {
    assert (used - 1) * r == used * r - r;
    assert r * (a + used) + p * (b - out) == r * a + p * b + used * r - out * p;
  }

  lemma SaleGain(r: nat, p: nat, a: nat, b: nat, used: nat, out: nat)
    requires out <= a && out * r <= used * p < (out + 1) * r
    ensures r * a + p * b <= r * (a - out) + p * (b + used) < r * a + p * b + r
  {
    assert (out + 1) * r == out * r + r;
    assert r * (a - out) + p * (b + used) == r * a + p * b - out * r + used * p;
  }

  datatype Trade = Trade(source: U128, dir: TradeDirection)

  /** Reserves after one attempted fee-free swap; one that fails, or that the
      destination reserve cannot pay, changes nothing. */
  function Traded(p: U256, a: nat, b: nat, t: Trade): (nat, nat) {
    match SwapAt(p, t.source, t.dir)
    case None => (a, b)
    case Some(q) =>
      if q.out <= (if t.dir.AtoB? then b else a) then Moved(t.dir, a, b, q.used, q.out) else (a, b)
  }

  function TradedAll(p: U256, a: nat, b: nat, trades: seq<Trade>): (nat, nat)
    decreases |trades|
  {
    if trades == [] then (a, b)
    else var (a', b') := Traded(p, a, b, trades[0]); TradedAll(p, a', b', trades[1..])
  }

  /** No sequence of swaps at one price extracts value, and the pool's gain is below
      one unit of A per swap. */
  lemma {:induction false} TradesExtractNothing(p: U256, a: nat, b: nat, trades: seq<Trade>)
    ensures var (a', b') := TradedAll(p, a, b, trades);
            Worth(p, a, b) <= Worth(p, a', b') <= Worth(p, a, b) + |trades| * (RAY - 1)
    decreases |trades|
  {
    if trades != [] {
      var t := trades[0];
      var (a', b') := Traded(p, a, b, t);
      if SwapAt(p, t.source, t.dir).Some?
         && SwapAt(p, t.source, t.dir).value.out <= (if t.dir.AtoB? then b else a) {
        SwapKeepsWorth(p, t.source, t.dir, a, b);
      }
      TradesExtractNothing(p, a', b', trades[1..]);
    }
  }

  /** While the price does not fall, selling B and later buying B back with the
      proceeds never returns more B. */
  lemma SellThenBuyBack(p: U256, p': U256, source: U128)
    requires p <= p'
    requires SwapAt(p, source, BtoA).Some?
    requires SwapAt(p', SwapAt(p, source, BtoA).value.out, AtoB).Some?
    ensures SwapAt(p', SwapAt(p, source, BtoA).value.out, AtoB).value.out <= source
  {
    var proceeds := SwapAt(p, source, BtoA).value.out;
    var back := SwapAt(p', proceeds, AtoB).value.out;
    SaleRoundsDown(p, source);
    OptimalFill(p', proceeds);
    MulMono(source, source, p, p');
    CancelLe(back, source, p');
  }

  /** ... and buying B, then selling it back while the price has not risen, never
      returns more A than was used. */
  lemma BuyThenSellBack(p: U256, p': U256, source: U128)
    requires p' <= p
    requires SwapAt(p, source, AtoB).Some?
    requires SwapAt(p', SwapAt(p, source, AtoB).value.out, BtoA).Some?
    ensures SwapAt(p', SwapAt(p, source, AtoB).value.out, BtoA).value.out
         <= SwapAt(p, source, AtoB).value.used
  {
    var q := SwapAt(p, source, AtoB).value;
    SaleRoundsDown(p', q.out);
    OptimalFill(p, source);
    MulMono(q.out, q.out, p', p);
  }

  // ---------------------------------------------------------------------------
  // Pool shares
  // ---------------------------------------------------------------------------

  /** What a share conversion means: rounded down it is the most LP tokens whose
      proportional part of the pool does not exceed the given value, rounded up the
      fewest whose part covers it. */
  lemma PoolTokensMeaning(p: U256, amount: U128, a: U128, b: U128, supply: U128,
                          side: TradeDirection, round: Rounding)
    requires ToPoolTokens(p, amount, a, b, supply, side, round).Some?
    ensures var m := ToPoolTokens(p, amount, a, b, supply, side, round).value;
            var g, v := ValueOf(p, amount, side), PoolValue(p, a, b);
            && v > 0
            && match round
               case Down => m * v <= supply * g < (m + 1) * v
               case Up => (m - 1) * v < supply * g <= m * v
  {
    var g, v := ValueOf(p, amount, side), PoolValue(p, a, b);
    if v > 0 {
      match round
      case Down =>
        Floor(supply * g, v);
        assert (supply * g / v + 1) * v == supply * g / v * v + v;
      case Up => CeilDivIsTight(supply * g, v);
    }
  }

  lemma ValueAdds(p: nat, x: nat, y: nat)
    ensures x * p / RAY + y * p / RAY <= (x + y) * p / RAY <= x * p / RAY + y * p / RAY + 1
  {
    assert (x + y) * p == x * p + y * p;
  }

  /** Depositing s on one side for m LP tokens and then withdrawing w on any side at
      the same price, at a ceiling-rounded cost of at most m, gives back no more
      value than was put in. */
  lemma SingleSidedRoundTrip(p: U256, s: U128, w: U128, a: U128, b: U128, supply: U128,
                             inSide: TradeDirection, outSide: TradeDirection)
    requires supply > 0
    requires ToPoolTokens(p, s, a, b, supply, inSide, Down).Some?
    requires var (a', b') := Deposited(inSide, a, b, s);
             var m := ToPoolTokens(p, s, a, b, supply, inSide, Down).value;
             && a' < U128_LIMIT && b' < U128_LIMIT && supply + m < U128_LIMIT
             && ToPoolTokens(p, w, a', b', supply + m, outSide, Up).Some?
             && ToPoolTokens(p, w, a', b', supply + m, outSide, Up).value <= m
    ensures ValueOf(p, w, outSide) <= ValueOf(p, s, inSide)
  {
    var (a', b') := Deposited(inSide, a, b, s);
    var m := ToPoolTokens(p, s, a, b, supply, inSide, Down).value;
    var cost := ToPoolTokens(p, w, a', b', supply + m, outSide, Up).value;
    PoolTokensMeaning(p, s, a, b, supply, inSide, Down);
    PoolTokensMeaning(p, w, a', b', supply + m, outSide, Up);
    if inSide == BtoA {
      ValueAdds(p, b, s);
    }
    var g, h := ValueOf(p, s, inSide), ValueOf(p, w, outSide);
    var v, v' := PoolValue(p, a, b), PoolValue(p, a', b');
    MulMono(cost, m, v', v');
    RoundTripShares(supply, m, v, v', g, h);
  }

  lemma RoundTripShares(supply: nat, m: nat, v: nat, v': nat, g: nat, h: nat)
    requires supply > 0 && m * v <= supply * g
    requires v' <= v + g + 1 && (supply + m) * h <= m * v'
    ensures h <= g
  {
    MulMono(m, m, v', v + g + 1);
    assert m * (v + g + 1) == m * v + m * g + m;
    assert (supply + m) * h < (supply + m) * (g + 1) by {
      assert (supply + m) * (g + 1) == supply * g + m * g + supply + m;
    }
    if h > g {
      MulMono(supply + m, supply + m, g + 1, h);
    }
  }

  /** Depositing x LP tokens' worth of one token and withdrawing the x LP tokens
      returns no more than was paid and at most one unit less. */
  lemma TokenRoundTrip(x: nat, supply: nat, reserve: nat)
    requires supply > 0
    ensures var paid := CeilQuotient(x * reserve, supply);
            var back := x * (reserve + paid) / (supply + x);
            back <= paid <= back + 1
  {
    Ceil(x * reserve, supply);
    PaidCoversBack(x, supply, reserve, CeilQuotient(x * reserve, supply));
  }

  /** A deposit rounded up keeps the reserve per LP token from falling ... */
  lemma DepositKeepsPerShare(x: nat, supply: nat, reserve: nat)
    requires supply > 0
    ensures reserve * (supply + x) <= (reserve + CeilQuotient(x * reserve, supply)) * supply
  {
    Ceil(x * reserve, supply);
    PaidKeepsShare(x, supply, reserve, CeilQuotient(x * reserve, supply));
  }

  lemma PaidKeepsShare(x: nat, supply: nat, reserve: nat, paid: nat)
    requires x * reserve <= paid * supply
    ensures reserve * (supply + x) <= (reserve + paid) * supply
  {
    Sum(supply, reserve, paid);
    Sum(reserve, supply, x);
    assert reserve * x == x * reserve;
  }

  /** ... and so does a withdrawal rounded down, or cut further. */
  lemma WithdrawKeepsPerShare(x: nat, supply: nat, reserve: nat, out: nat)
    requires 0 < supply && x <= supply && out <= x * reserve / supply
    ensures out <= reserve && reserve * (supply - x) <= (reserve - out) * supply
  {
    FloorIsMost(x * reserve, supply, out);
    MulMono(x, supply, reserve, reserve);
    CancelLe(out, reserve, supply);
    assert reserve * (supply - x) == reserve * supply - x * reserve;
    assert (reserve - out) * supply == reserve * supply - out * supply;
  }

  lemma PaidCoversBack(x: nat, supply: nat, reserve: nat, paid: nat)
    requires supply > 0 && x * reserve <= paid * supply < x * reserve + supply
    ensures var back := x * (reserve + paid) / (supply + x); back <= paid <= back + 1
  {
    Sum(x, reserve, paid);
    Sum(paid, supply, x);
    assert paid * x == x * paid;
    Back(x * (reserve + paid), paid * (supply + x), supply + x, x * (reserve + paid) / (supply + x), paid);
  }

  lemma Sum(k: nat, x: nat, y: nat)
    ensures k * (x + y) == k * x + k * y && (x + y) * k == k * x + k * y
  {
  }

  lemma Back(n: nat, c: nat, d: nat, back: nat, paid: nat)
    requires d > 0 && back == n / d && c == paid * d && n <= c < n + d
    ensures back <= paid <= back + 1
  {
    Floor(n, d);
    CancelLe(back, paid, d);
    Sum(d, back, 2);
    if paid >= back + 2 {
      MulMono(back + 2, paid, d, d);
    }
  }

  /** The all-token round trip on both tokens at once. */
  lemma AllTokenRoundTrip(x: U128, supply: U128, a: U128, b: U128)
    requires supply > 0
    requires ToTradingTokens(x, supply, a, b, Up).Some?
    requires var paid := ToTradingTokens(x, supply, a, b, Up).value;
             && supply + x < U128_LIMIT && a + paid.a < U128_LIMIT && b + paid.b < U128_LIMIT
             && ToTradingTokens(x, supply + x, a + paid.a, b + paid.b, Down).Some?
    ensures var paid := ToTradingTokens(x, supply, a, b, Up).value;
            var back := ToTradingTokens(x, supply + x, a + paid.a, b + paid.b, Down).value;
            back.a <= paid.a <= back.a + 1 && back.b <= paid.b <= back.b + 1
  {
    TokenRoundTrip(x, supply, a);
    TokenRoundTrip(x, supply, b);
  }
}
