/** Leaving a pool with both tokens: exactly when it works, for every curve, and what it
    pays. */
module PoolExit {
  import opened Checked
  import opened Arith
  import opened Errors
  import opened Ledger
  import opened PriceCurve
  import opened FeeSchedule
  import opened SwapCurve
  import opened Pool
  import opened PoolInvariants
  import opened PoolSettlement
  import CP = ConstantProduct

  lemma ShareOfVault(x: nat, supply: nat, vault: U64) returns (out: U64)
    requires 0 < supply && x <= supply
    ensures out == Portion(x, vault, supply) && out <= vault
  {
    var product: nat := x * vault;
    var quotient: nat := product / supply;
    Floor(product, supply);
    MulMono(x, supply, vault, vault);
    CancelLe(quotient, vault, supply);
    out := quotient;
  }

  lemma ProductFits(x: U64, y: U64)
    ensures x * y < U128_LIMIT
  {
    MulMono(x, U64_LIMIT - 1, y, U64_LIMIT - 1);
  }

  lemma ProportionalFeeFits(x: U64, num: U64, den: U64)
    requires ValidFraction(num, den)
    ensures CalculateFee(x, num, den).Some? && CalculateFee(x, num, den).value <= x
  {
    if num != 0 && x != 0 {
      ProductFits(x, num);
      ShareBelowWhole(x, num, den);
    }
  }

  /** Room for a payment into any account that is not the payer: the totals are u64. */
  lemma TransferSucceeds(m: Balances, from: Key, to: Key, amount: U64)
    requires Total(m) < U64_LIMIT && from in m && to in m && amount <= m[from]
    ensures Transfer(m, from, to, amount).Ok?
  {
    if from != to {
      TotalCoversTwo(m, from, to);
    }
  }

  lemma PayAndBurnSucceeds(keys: PoolKeys, l: Lp, source: Key, fee: U64, burnt: U64)
    requires LpSound(keys, l) && source in l.balances && source != keys.initialLp
    requires fee + burnt <= l.balances[source]
    requires fee > 0 ==> keys.feeAccount in l.balances && keys.feeAccount != source
    ensures PayAndBurn(keys, l, source, fee, burnt).Ok?
  {
    TotalCovers(l.balances, source);
    if fee > 0 {
      TransferSucceeds(l.balances, source, keys.feeAccount, fee);
      TransferMoves(l.balances, source, keys.feeAccount, fee);
    }
  }

  /** What LP tokens still have to meet once the withdrawal fee is off, known from the
      vaults and the supply: nothing where the curve has a price; with a constant
      product, a part of each stocked vault that is not rounded away; with an offset, a
      product and a part that fit their widths. */
  predicate CanExit(s: State, net: nat)
    requires s.keys.vaultA in s.a && s.keys.vaultB in s.b && s.supply > 0
  {
    var (a, b) := (s.a[s.keys.vaultA], s.b[s.keys.vaultB]);
    match s.curve
    case ConstantProductCurve => (a == 0 || Portion(net, a, s.supply) > 0) && (b == 0 || Portion(net, b, s.supply) > 0)
    case OffsetCurve(offset) => net * (b + offset) < U128_LIMIT && Portion(net, b + offset, s.supply) < U64_LIMIT
    case _ => true
  }

  /** The part of y that x out of d stands for, rounded down. */
  function Portion(x: nat, y: nat, d: nat): nat
    requires d > 0
  {
    var product: nat := x * y;
    product / d
  }

  lemma FloorQuote(c: Curve, x: U128, supply: U128, a: U128, b: U128, counted: nat, quoteA: U128, quoteB: nat)
    requires supply > 0 && counted == CountedB(c, b) < U128_LIMIT && x * a < U128_LIMIT
    requires quoteA == Portion(x, a, supply) && quoteB == Portion(x, counted, supply)
    requires quoteB <= x * counted
    requires !c.OffsetCurve? ==> x * counted < U128_LIMIT
    ensures PoolTokensToTradingTokens(c, x, supply, a, b, Down)
         == if x * counted < U128_LIMIT then Some(Tokens(quoteA, quoteB)) else None
  {
  }

  /** The fee on an exit and the quote for the rest. */
  lemma ExitQuote(s: State, x: U64, source: Key) returns (fee: U64, outA: U64, quoteB: nat)
    requires Sound(s) && s.fees.Validate().Ok? && source in s.lp && source != s.keys.initialLp && x <= s.lp[source]
    ensures s.supply > 0 && fee <= x && WithdrawFee(s.keys, s.lp, s.fees, x, source) == Ok(fee)
    ensures var (a, b) := (s.a[s.keys.vaultA], s.b[s.keys.vaultB]);
            var (net, counted) := (x - fee, CountedB(s.curve, b));
            && outA == Portion(net, a, s.supply) <= a
            && quoteB == Portion(net, counted, s.supply)
            && (!s.curve.OffsetCurve? ==> quoteB <= b)
            && PoolTokensToTradingTokens(s.curve, net, s.supply, a, b, Down)
               == if s.curve.OffsetCurve? && net * counted >= U128_LIMIT then None else Some(Tokens(outA, quoteB))
  {
    SupplyFloor(s.keys, Lp(s.lp, s.supply), source);
    ProportionalFeeFits(x, s.fees.ownerWithdrawNum, s.fees.ownerWithdrawDen);
    fee := WithdrawFee(s.keys, s.lp, s.fees, x, source).value;
    var a, b := s.a[s.keys.vaultA], s.b[s.keys.vaultB];
    var net: U64, counted := x - fee, CountedB(s.curve, b);
    outA := ShareOfVault(net, s.supply, a);
    ProductFits(net, a);
    quoteB := Part(net, counted, s.supply);
    if !s.curve.OffsetCurve? {
      var outB := ShareOfVault(net, s.supply, b);
      ProductFits(net, b);
    }
    FloorQuote(s.curve, net, s.supply, a, b, counted, outA, quoteB);
  }

  lemma Part(x: nat, y: nat, d: nat) returns (q: nat)
    requires d > 0
    ensures q == Portion(x, y, d) && q <= x * y
  {
    var product: nat := x * y;
    q := product / d;
    Floor(product, d);
    MulMono(q, q, 1, d);
  }

  /** An exit fails only at its quote: fees, burn and payments always go through. */
  lemma ExitSettles(s: State, x: U64, source: Key, destinationA: Key, destinationB: Key, fee: U64, outA: U64,
                    quoteB: nat)
    requires Sound(s) && Total(s.a) < U64_LIMIT && Total(s.b) < U64_LIMIT
    requires source in s.lp && source != s.keys.initialLp && x <= s.lp[source]
    requires destinationA in s.a && destinationA != s.keys.vaultA
    requires destinationB in s.b && destinationB != s.keys.vaultB
    requires fee <= x && WithdrawFee(s.keys, s.lp, s.fees, x, source) == Ok(fee)
    requires fee > 0 ==> s.keys.feeAccount in s.lp && s.keys.feeAccount != source
    requires var quote := PoolTokensToTradingTokens(s.curve, x - fee, s.supply, s.a[s.keys.vaultA],
                                                    s.b[s.keys.vaultB], Down);
             quote.Some? && quote.value.a == outA && quote.value.b == quoteB
    ensures var (a, b) := (s.a[s.keys.vaultA], s.b[s.keys.vaultB]);
            WithdrawAllStep(s, x, 0, 0, source, destinationA, destinationB).Ok? <==>
              && quoteB < U64_LIMIT
              && (s.curve.ConstantProductCurve? ==>
                    (a == 0 || Least(a, outA) > 0) && (b == 0 || Least(b, quoteB) > 0))
  {
    var a, b := s.a[s.keys.vaultA], s.b[s.keys.vaultB];
    PayAndBurnSucceeds(s.keys, Lp(s.lp, s.supply), source, fee, x - fee);
    TransferSucceeds(s.a, s.keys.vaultA, destinationA, Least(a, outA));
    TransferSucceeds(s.b, s.keys.vaultB, destinationB, Least(b, quoteB));
  }

  lemma ExitIff(s: State, x: U64, source: Key, destinationA: Key, destinationB: Key)
    requires Sound(s) && s.fees.Validate().Ok?
    requires Total(s.a) < U64_LIMIT && Total(s.b) < U64_LIMIT
    requires source in s.lp && source != s.keys.initialLp && x <= s.lp[source]
    requires destinationA in s.a && destinationA != s.keys.vaultA
    requires destinationB in s.b && destinationB != s.keys.vaultB
    ensures var fee := WithdrawFee(s.keys, s.lp, s.fees, x, source);
            && s.supply > 0 && fee.Ok? && fee.value <= x
            && (WithdrawAllStep(s, x, 0, 0, source, destinationA, destinationB).Ok? <==> CanExit(s, x - fee.value))
  {
    var fee, outA, quoteB := ExitQuote(s, x, source);
    if !(s.curve.OffsetCurve? && (x - fee) * CountedB(s.curve, s.b[s.keys.vaultB]) >= U128_LIMIT) {
      ExitSettles(s, x, source, destinationA, destinationB, fee, outA, quoteB);
    }
  }

  /** The holder's part of each vault arrives, an offset curve's part of B counted with
      the offset but never more than the vault holds. */
  predicate PaysPart(s: State, s': State, net: nat, destinationA: Key, destinationB: Key)
    requires s.keys.vaultA in s.a && s.keys.vaultB in s.b && s.supply > 0
  {
    var (a, b) := (s.a[s.keys.vaultA], s.b[s.keys.vaultB]);
    && Held(s'.a, destinationA) == Held(s.a, destinationA) + Portion(net, a, s.supply)
    && Held(s'.b, destinationB) == Held(s.b, destinationB) + Least(b, Portion(net, CountedB(s.curve, b), s.supply))
  }

  lemma QuoteIsPaid(s: State, s': State, x: U64, source: Key, destinationA: Key, destinationB: Key,
                    fee: U64, outA: U64, quoteB: nat)
    requires Sound(s) && outA <= s.a[s.keys.vaultA]
    requires WithdrawAllStep(s, x, 0, 0, source, destinationA, destinationB) == Ok(s')
    requires fee <= x && WithdrawFee(s.keys, s.lp, s.fees, x, source) == Ok(fee)
    requires var quote := PoolTokensToTradingTokens(s.curve, x - fee, s.supply, s.a[s.keys.vaultA],
                                                    s.b[s.keys.vaultB], Down);
             quote.Some? && quote.value.a == outA && quote.value.b == quoteB
    ensures Held(s'.a, destinationA) == Held(s.a, destinationA) + outA
    ensures Held(s'.b, destinationB) == Held(s.b, destinationB) + Least(s.b[s.keys.vaultB], quoteB)
  {
    if outA > 0 {
      TransferMoves(s.a, s.keys.vaultA, destinationA, outA);
    }
    var outB := Least(s.b[s.keys.vaultB], quoteB);
    if outB > 0 {
      TransferMoves(s.b, s.keys.vaultB, destinationB, outB);
    }
  }

  lemma ExitPays(s: State, s': State, x: U64, source: Key, destinationA: Key, destinationB: Key)
    requires Sound(s) && s.fees.Validate().Ok?
    requires source in s.lp && source != s.keys.initialLp && x <= s.lp[source]
    requires WithdrawAllStep(s, x, 0, 0, source, destinationA, destinationB) == Ok(s')
    ensures var fee := WithdrawFee(s.keys, s.lp, s.fees, x, source);
            && s.supply > 0 && fee.Ok? && fee.value <= x
            && PaysPart(s, s', x - fee.value, destinationA, destinationB)
  {
    var fee, outA, quoteB := ExitQuote(s, x, source);
    QuoteIsPaid(s, s', x, source, destinationA, destinationB, fee, outA, quoteB);
  }

  /** Withdrawing x works exactly when the curve's condition is met by what is left after
      the fee, and then pays the holder's part of both vaults. */
  predicate ExitsExactly(s: State, x: U64, source: Key, destinationA: Key, destinationB: Key)
    requires s.keys.vaultA in s.a && s.keys.vaultB in s.b
  {
    var result := WithdrawAllStep(s, x, 0, 0, source, destinationA, destinationB);
    var fee := WithdrawFee(s.keys, s.lp, s.fees, x, source);
    && s.supply > 0 && fee.Ok? && fee.value <= x
    && (result.Ok? <==> CanExit(s, x - fee.value))
    && (result.Ok? ==> PaysPart(s, result.value, x - fee.value, destinationA, destinationB))
  }

  /** In a sound pool any holder of LP tokens can withdraw any amount it holds, whatever
      the price, rate and fees, exactly as the curve's own condition says. */
  lemma ExitAlwaysPossible(s: State, x: U64, source: Key, destinationA: Key, destinationB: Key)
    requires Sound(s) && s.fees.Validate().Ok?
    requires Total(s.a) < U64_LIMIT && Total(s.b) < U64_LIMIT
    requires source in s.lp && source != s.keys.initialLp && x <= s.lp[source]
    requires destinationA in s.a && destinationA != s.keys.vaultA
    requires destinationB in s.b && destinationB != s.keys.vaultB
    ensures ExitsExactly(s, x, source, destinationA, destinationB)
    ensures HasPrice(s.curve) ==> WithdrawAllStep(s, x, 0, 0, source, destinationA, destinationB).Ok?
  {
    ExitIff(s, x, source, destinationA, destinationB);
    var result := WithdrawAllStep(s, x, 0, 0, source, destinationA, destinationB);
    if result.Ok? {
      ExitPays(s, result.value, x, source, destinationA, destinationB);
    }
  }

  /** The same in every state reachable from initialization, under any instructions at
      any times and any direct uses of the token program, whether or not the fee account
      still exists. */
  lemma ReachableExit(a: Balances, b: Balances, lp: Balances, keys: PoolKeys, curve: Curve, fees: Fees, env: Env,
                      s0: State, attempts: seq<Attempt>, x: U64, source: Key, destinationA: Key, destinationB: Key)
    requires Initialize(a, b, lp, keys, curve, fees, env) == Ok(s0)
    requires Total(a) < U64_LIMIT && Total(b) < U64_LIMIT
    requires source != keys.initialLp && destinationA != keys.vaultA && destinationB != keys.vaultB
    requires var s := Run(s0, attempts);
             source in s.lp && x <= s.lp[source] && destinationA in s.a && destinationB in s.b
    ensures var s := Run(s0, attempts);
            && Sound(s)
            && ExitsExactly(s, x, source, destinationA, destinationB)
            && (HasPrice(curve) ==> WithdrawAllStep(s, x, 0, 0, source, destinationA, destinationB).Ok?)
  {
    ReachedAccounts(a, b, lp, keys, curve, fees, env, s0, attempts);
    ExitAlwaysPossible(Run(s0, attempts), x, source, destinationA, destinationB);
    if HasPrice(curve) {
      RunKeepsCurveKind(s0, attempts);
    }
  }

  /** What a run keeps of a pool's beginnings. */
  lemma ReachedAccounts(a: Balances, b: Balances, lp: Balances, keys: PoolKeys, curve: Curve, fees: Fees, env: Env,
                        s0: State, attempts: seq<Attempt>)
    requires Initialize(a, b, lp, keys, curve, fees, env) == Ok(s0)
    ensures Sound(s0) && s0.curve == curve
    ensures var s := Run(s0, attempts);
            && Sound(s) && s.keys == keys && s.fees.Validate().Ok?
            && Total(s.a) <= Total(a) && Total(s.b) <= Total(b)
  {
    InitializeIsSound(a, b, lp, keys, curve, fees, env);
    RunKeeps(s0, attempts);
  }

  lemma {:induction false} RunKeepsCurveKind(s: State, attempts: seq<Attempt>)
    requires Sound(s) && HasPrice(s.curve)
    ensures HasPrice(Run(s, attempts).curve)
    decreases |attempts|
  {
    if attempts != [] {
      NextKeeps(s, attempts[0].call, attempts[0].env);
      RunKeepsCurveKind(Next(s, attempts[0].call, attempts[0].env), attempts[1..]);
    }
  }
}
