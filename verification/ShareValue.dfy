/** LP share value across each instruction of a pool with a priced curve. */
module ShareValue {
  import opened Checked
  import opened Arith
  import opened Errors
  import opened Ledger
  import opened RayPower
  import opened RedemptionRate
  import opened PriceCurve
  import opened FeeSchedule
  import opened SwapCurve
  import opened Pool
  import opened PoolInvariants

  // ---------------------------------------------------------------------------
  // Share value as cross-multiplied ratios
  // ---------------------------------------------------------------------------

  /** Value per LP token does not fall: v'/s' >= v/s. */
  predicate NoLoss(v: nat, s: nat, v': nat, s': nat) {
    v * s' <= v' * s
  }

  /** Value per LP token falls by at most one unit spread over n LP tokens:
      v'/s' >= v/s - 1/n. */
  predicate UnitLossOver(n: nat, v: nat, s: nat, v': nat, s': nat) {
    n * v * s' <= n * v' * s + s * s'
  }

  lemma RatioTransitive(x: int, y: nat, w: nat, s0: nat, s1: nat, s2: nat)
    requires s1 > 0 && x * s1 <= y * s0 && y * s2 <= w * s1
    ensures x * s2 <= w * s0
  {
    assert x * s1 * s2 <= y * s0 * s2;
    assert y * s2 * s0 <= w * s1 * s0;
    assert x * s1 * s2 == x * s2 * s1;
    assert y * s0 * s2 == y * s2 * s0;
    assert w * s1 * s0 == w * s0 * s1;
    CancelLe(x * s2, w * s0, s1);
  }

  lemma Distribute(x: int, y: int, z: int)
    ensures (x + y) * z == x * z + y * z
    ensures (-y) * z == -(y * z)
  {
  }

  lemma Difference(x: int, y: int, z: int)
    ensures (x - y) * z == x * z - y * z
  {
  }

  lemma Rotate(x: nat, y: nat, z: nat)
    ensures x * y * z == x * z * y
  {
  }

  // ---------------------------------------------------------------------------
  // The arithmetic of each kind of step
  // ---------------------------------------------------------------------------

  /** Minting LP tokens for value g set aside at the share price v0/s0 dilutes nobody. */
  lemma FeeMintKeepsShare(v: nat, s: nat, v0: nat, s0: nat, v': nat, k: nat, g: nat)
    requires NoLoss(v, s, v0, s0)
    requires k == 0 || (v0 > 0 && k * v0 <= s0 * g)
    requires v0 + g <= v'
    ensures NoLoss(v, s, v', s0 + k)
  {
    if k == 0 {
      MulMono(v0, v', s, s);
    } else {
      // v / s <= v0 / s0 <= v' / (s0 + k)
      MulPositive(k, v0);
      Distribute(s0, k, v0);
      Distribute(v0, g, s0);
      MulMono(v0 + g, v', s0, s0);
      RatioTransitive(v, v0, v', s, s0, s0 + k);
    }
  }

  /** The same starting from a share price that has lost less than one unit of total
      value: the loss is that unit spread over the supply the fee is minted on. */
  lemma FeeMintKeepsUnitLoss(v: nat, s: nat, v0: nat, s0: nat, v': nat, k: nat, g: nat)
    requires v * s0 <= (v0 + 1) * s
    requires k == 0 || (v0 > 0 && k * v0 <= s0 * g)
    requires v0 + g <= v'
    ensures UnitLossOver(s0, v, s, v', s0 + k)
  {
    assert k * v0 <= s0 * g by { if k == 0 { assert 0 <= s0 * g; } }
    Distribute(s0, k, v0);
    Distribute(v0, g, s0);
    MulMono(v0 + g, v', s0, s0);
    UnitLossAfterMint(v, s, v0, s0, v', s0 + k);
  }

  lemma UnitLossAfterMint(v: nat, s: nat, v0: nat, s0: nat, v': nat, s': nat)
    requires v * s0 <= (v0 + 1) * s && v0 * s' <= v' * s0
    ensures UnitLossOver(s0, v, s, v', s')
  {
    Scale(v * s0, (v0 + 1) * s, s');
    Scale(v0 * s', v' * s0, s);
    Distribute(v0, 1, s);
    Distribute(v0 * s, s, s');
    Rotate(v0, s, s');
    SwapFactors(v, s0, s');
    SwapFactors(v', s0, s);
  }

  lemma SwapFactors(x: nat, y: nat, z: nat)
    ensures x * y * z == y * x * z
  {
  }

  lemma Scale(x: nat, y: nat, z: nat)
    requires x <= y
    ensures x * z <= y * z
  {
    MulMono(x, y, z, z);
  }

  /** Reserves that each keep their amount per LP token lose less than one unit of
      total value to the rounding of the B side. */
  lemma ProportionalStep(p: nat, a: nat, b: nat, s: nat, a': nat, b': nat, s': nat)
    requires s > 0 && a * s' <= a' * s && b * s' <= b' * s
    ensures PoolValue(p, a, b) * s' <= (PoolValue(p, a', b') + 1) * s
  {
    Floor(b * p, RAY);
    Floor(b' * p, RAY);
    ProportionalAt(RAY, p, a, b, s, a', b', s', PoolValue(p, a, b), PoolValue(p, a', b'));
  }

  lemma ProportionalAt(r: nat, p: nat, a: nat, b: nat, s: nat, a': nat, b': nat, s': nat, v: nat, v': nat)
    requires r > 0 && a * s' <= a' * s && b * s' <= b' * s
    requires (v - a) * r <= b * p && b' * p <= (v' - a') * r + r
    ensures v * s' <= (v' + 1) * s
  {
    Difference(v, a, r);
    Difference(v', a', r);
    WeightedRatio(r, p, a, b, s, a', b', s');
    assert v * r <= a * r + b * p;
    assert a' * r + b' * p <= (v' + 1) * r by { Distribute(v', 1, r); }
    Between(r, v, s', a * r + b * p, a' * r + b' * p, s, v' + 1);
  }

  lemma Between(r: nat, v: nat, s': nat, w: nat, w': nat, s: nat, u: nat)
    requires r > 0 && v * r <= w && w * s' <= w' * s && w' <= u * r
    ensures v * s' <= u * s
  {
    MulMono(v * r, w, s', s');
    MulMono(w', u * r, s, s);
    Rotate(v, r, s');
    Rotate(u, r, s);
    CancelLe(v * s', u * s, r);
  }

  lemma WeightedRatio(r: nat, p: nat, a: nat, b: nat, s: nat, a': nat, b': nat, s': nat)
    requires a * s' <= a' * s && b * s' <= b' * s
    ensures (a * r + b * p) * s' <= (a' * r + b' * p) * s
  {
    MulMono(a * s', a' * s, r, r);
    MulMono(b * s', b' * s, p, p);
    Rotate(a, s', r);
    Rotate(a', s, r);
    Rotate(b, s', p);
    Rotate(b', s, p);
    Distribute(a * r, b * p, s');
    Distribute(a' * r, b' * p, s);
  }

  /** A burn whose cost was rounded up leaves the other holders' part whole. */
  lemma BurnKeepsPart(v: nat, s: nat, h: nat, m: nat, v0: nat, slack: nat)
    requires s * h <= m * v && m <= s && v <= v0 + h + slack
    ensures v * (s - m) <= (v0 + slack) * s
  {
    MulMono(v, v0 + h + slack, s, s);
    assert (v0 + h + slack) * s == (v0 + slack) * s + s * h;
    assert v * (s - m) == v * s - m * v;
  }

  lemma BuyAddsValue(p: nat, a: nat, b: nat, used: nat, out: nat, fee: nat)
    requires out <= b && out * p <= used * RAY
    ensures PoolValue(p, a, b) <= PoolValue(p, a + (used + fee), b - out)
  {
    assert b * p == (b - out) * p + out * p;
  }

  lemma SaleAddsValue(p: nat, a: nat, b: nat, used: nat, out: nat, fee: nat)
    requires out <= a && out * RAY <= used * p
    ensures PoolValue(p, a, b) <= PoolValue(p, a - out, b + (used + fee))
  {
    FloorIsMost(used * p, RAY, out);
    ValueAdds(p, b, used + fee);
    ValueAdds(p, used, fee);
  }

  lemma SwapAddsValue(p: U256, source: U128, dir: TradeDirection, a: nat, b: nat, tradeFee: nat)
    requires SwapAt(p, source, dir).Some?
    requires SwapAt(p, source, dir).value.out <= if dir.AtoB? then b else a
    ensures var q := SwapAt(p, source, dir).value;
            var (a', b') := Moved(dir, a, b, q.used + tradeFee, q.out);
            PoolValue(p, a, b) <= PoolValue(p, a', b')
  {
    var q := SwapAt(p, source, dir).value;
    match dir
    case AtoB =>
      OptimalFill(p, source);
      BuyAddsValue(p, a, b, q.used, q.out, tradeFee);
    case BtoA =>
      SaleRoundsDown(p, source);
      SaleAddsValue(p, a, b, q.used, q.out, tradeFee);
  }

  // ---------------------------------------------------------------------------
  // Steps of the pool
  // ---------------------------------------------------------------------------

  function ValueAt(s: State, p: nat): nat
    requires s.keys.vaultA in s.a && s.keys.vaultB in s.b
  {
    PoolValue(p, s.a[s.keys.vaultA], s.b[s.keys.vaultB])
  }

  /** The LP tokens minted for an owner's fee never exceed its part of the pool. */
  lemma OwnerFeeMint(s: State, l: Lp, ownerFee: U128, a: U128, b: U128, supply: U128, side: TradeDirection,
                     host: Option<Key>, feeAccount: Option<Key>, env: Env)
    requires LpSound(s.keys, l) && HasPrice(s.curve)
    requires OwnerFeeStep(s, l, ownerFee, a, b, supply, side, host, feeAccount, env).Ok?
    ensures PriceOf(s.curve, env.now).Some?
    ensures var p := PriceOf(s.curve, env.now).value;
            var l' := OwnerFeeStep(s, l, ownerFee, a, b, supply, side, host, feeAccount, env).value;
            && l.supply <= l'.supply
            && PoolValue(p, a, b) > 0
            && (l'.supply - l.supply) * PoolValue(p, a, b) <= supply * ValueOf(p, ownerFee, side)
  {
    var p := PriceOf(s.curve, env.now).value;
    var feeLp := ToPoolTokens(p, ownerFee, a, b, supply, side, Down).value;
    PoolTokensMeaning(p, ownerFee, a, b, supply, side, Down);
    MintOwnerFeeAdvances(s.keys, l, s.fees, feeLp, host, feeAccount);
    var l' := MintOwnerFee(l, s.fees, feeLp, host, feeAccount).value;
    MulMono(l'.supply - l.supply, feeLp, PoolValue(p, a, b), PoolValue(p, a, b));
  }

  /** Value of one side's amount adds up to the pool's when put into its reserve. */
  lemma ReserveTakesValue(p: nat, a: nat, b: nat, side: TradeDirection, amount: nat)
    ensures var (a', b') := Deposited(side, a, b, amount);
            && PoolValue(p, a, b) + ValueOf(p, amount, side) <= PoolValue(p, a', b')
            && PoolValue(p, a', b') <= PoolValue(p, a, b) + ValueOf(p, amount, side) + (if side.AtoB? then 0 else 1)
  {
    ValueAdds(p, b, amount);
  }

  /** LP minted for a swap's owner fee, against the reserves without the fee. */
  lemma SwapFeeMint(s: State, r: SwapResult, dir: TradeDirection, host: Option<Key>, env: Env, feeA: U128, feeB: U128)
    requires LpSound(s.keys, Lp(s.lp, s.supply)) && HasPrice(s.curve) && PriceOf(s.curve, env.now).Some?
    requires SwapOwnerFee(s, r, dir, host, env).Ok?
    requires Deposited(dir, feeA, feeB, r.ownerFee)
          == if dir.AtoB? then (r.newSource, r.newDestination) else (r.newDestination, r.newSource)
    ensures var p := PriceOf(s.curve, env.now).value;
            var k := SwapOwnerFee(s, r, dir, host, env).value.supply - s.supply;
            && k >= 0
            && (k == 0 || (PoolValue(p, feeA, feeB) > 0
                && k * PoolValue(p, feeA, feeB) <= s.supply * ValueOf(p, r.ownerFee, dir)))
  {
    if r.ownerFee > 0 {
      OwnerFeeMint(s, Lp(s.lp, s.supply), r.ownerFee, feeA, feeB, s.supply, dir, host, Some(s.keys.feeAccount), env);
    }
  }

  /** Two transfers through the vaults move exactly what is paid in and given out. */
  lemma VaultsAfterTrade(t: Trading, keys: PoolKeys, dir: TradeDirection, source: Key, destination: Key, paid: U64,
                         out: U64)
    requires keys.vaultA in t.a && keys.vaultB in t.b
    requires source != VaultOf(keys, dir) && destination != VaultOf(keys, Opposite(dir))
    requires TransferTrading(t, dir, source, VaultOf(keys, dir), paid).Ok?
    requires var t1 := TransferTrading(t, dir, source, VaultOf(keys, dir), paid).value;
             TransferTrading(t1, Opposite(dir), VaultOf(keys, Opposite(dir)), destination, out).Ok?
    ensures var t1 := TransferTrading(t, dir, source, VaultOf(keys, dir), paid).value;
            var t2 := TransferTrading(t1, Opposite(dir), VaultOf(keys, Opposite(dir)), destination, out).value;
            var (a, b) := (t.a[keys.vaultA], t.b[keys.vaultB]);
            && keys.vaultA in t2.a && keys.vaultB in t2.b
            && out <= (if dir.AtoB? then b else a)
            && (t2.a[keys.vaultA], t2.b[keys.vaultB]) == Moved(dir, a, b, paid, out)
  {
  }

  /** What a successful swap did to supply and vaults. */
  lemma SwapEffects(s: State, s': State, amountIn: U64, minimumOut: U64, dir: TradeDirection,
                    source: Key, destination: Key, host: Option<Key>, env: Env) returns (r: SwapResult)
    requires Sound(s)
    requires SwapStep(s, amountIn, minimumOut, dir, source, destination, host, env) == Ok(s')
    ensures var (a, b) := (s.a[s.keys.vaultA], s.b[s.keys.vaultB]);
            var (reserveIn, reserveOut) := if dir.AtoB? then (a, b) else (b, a);
            && Some(r) == SwapWithFees(s.curve, amountIn, reserveIn, reserveOut, dir, s.fees, env.now)
            && s'.keys == s.keys && s.keys.vaultA in s'.a && s.keys.vaultB in s'.b
            && r.destinationSwapped <= (if dir.AtoB? then b else a)
            && (s'.a[s.keys.vaultA], s'.b[s.keys.vaultB]) == Moved(dir, a, b, r.sourceSwapped, r.destinationSwapped)
            && SwapOwnerFee(s, r, dir, host, env).Ok?
            && s'.supply == SwapOwnerFee(s, r, dir, host, env).value.supply
  {
    var a, b := s.a[s.keys.vaultA], s.b[s.keys.vaultB];
    var (reserveIn, reserveOut) := if dir.AtoB? then (a, b) else (b, a);
    r := SwapWithFees(s.curve, amountIn, reserveIn, reserveOut, dir, s.fees, env.now).value;
    VaultsAfterTrade(Trading(s.a, s.b), s.keys, dir, source, destination, r.sourceSwapped, r.destinationSwapped);
  }

  /** The quote at the curve's price behind a fee-charging swap. */
  lemma SwapQuoteFacts(c: Curve, amountIn: U128, a: U128, b: U128, dir: TradeDirection, fees: Fees, now: U128)
    returns (p: U256, less: U128)
    requires HasPrice(c)
    requires SwapWithFees(c, amountIn, if dir.AtoB? then a else b, if dir.AtoB? then b else a, dir, fees, now).Some?
    ensures PriceOf(c, now) == Some(p)
    ensures var (x, y) := if dir.AtoB? then (a, b) else (b, a);
            var r := SwapWithFees(c, amountIn, x, y, dir, fees, now).value;
            && r.tradeFee + r.ownerFee < r.sourceSwapped
            && r.destinationSwapped <= (if dir.AtoB? then b else a)
            && SwapAt(p, less, dir)
               == Some(Quote(r.sourceSwapped - r.tradeFee - r.ownerFee, r.destinationSwapped))
            && Moved(dir, a, b, r.sourceSwapped, r.destinationSwapped)
               == if dir.AtoB? then (r.newSource, r.newDestination) else (r.newDestination, r.newSource)
  {
    SwapAccounts(c, amountIn, if dir.AtoB? then a else b, if dir.AtoB? then b else a, dir, fees, now);
    less := LessFees(amountIn, fees).value;
    p := PriceOf(c, now).value;
  }

  lemma SwapLosesNothing(s: State, s': State, amountIn: U64, minimumOut: U64, dir: TradeDirection,
                         source: Key, destination: Key, host: Option<Key>, env: Env)
    requires Sound(s) && HasPrice(s.curve)
    requires SwapStep(s, amountIn, minimumOut, dir, source, destination, host, env) == Ok(s')
    ensures PriceOf(s.curve, env.now).Some?
    ensures var p := PriceOf(s.curve, env.now).value;
            Sound(s') && NoLoss(ValueAt(s, p), s.supply, ValueAt(s', p), s'.supply)
  {
    SwapConserves(s, s', amountIn, minimumOut, dir, source, destination, host, env);
    var r := SwapEffects(s, s', amountIn, minimumOut, dir, source, destination, host, env);
    QuotedSwapShare(s, s', amountIn, r, dir, host, env);
  }

  lemma QuotedSwapShare(s: State, s': State, amountIn: U64, r: SwapResult, dir: TradeDirection, host: Option<Key>,
                        env: Env)
    requires Sound(s) && Sound(s') && s'.keys == s.keys && HasPrice(s.curve)
    requires var (a, b) := (s.a[s.keys.vaultA], s.b[s.keys.vaultB]);
             && Some(r) == SwapWithFees(s.curve, amountIn, if dir.AtoB? then a else b, if dir.AtoB? then b else a,
                                        dir, s.fees, env.now)
             && r.destinationSwapped <= (if dir.AtoB? then b else a)
             && (s'.a[s.keys.vaultA], s'.b[s.keys.vaultB]) == Moved(dir, a, b, r.sourceSwapped, r.destinationSwapped)
    requires SwapOwnerFee(s, r, dir, host, env).Ok? && s'.supply == SwapOwnerFee(s, r, dir, host, env).value.supply
    ensures PriceOf(s.curve, env.now).Some?
    ensures var p := PriceOf(s.curve, env.now).value;
            NoLoss(ValueAt(s, p), s.supply, ValueAt(s', p), s'.supply)
  {
    var p, less := SwapQuoteFacts(s.curve, amountIn, s.a[s.keys.vaultA], s.b[s.keys.vaultB], dir, s.fees, env.now);
    SwapShare(s, p, less, r, dir, host, env);
  }

  lemma SwapShare(s: State, p: U256, less: U128, r: SwapResult, dir: TradeDirection, host: Option<Key>, env: Env)
    requires Sound(s) && HasPrice(s.curve) && PriceOf(s.curve, env.now) == Some(p)
    requires r.tradeFee + r.ownerFee < r.sourceSwapped
    requires r.destinationSwapped <= if dir.AtoB? then s.b[s.keys.vaultB] else s.a[s.keys.vaultA]
    requires SwapAt(p, less, dir) == Some(Quote(r.sourceSwapped - r.tradeFee - r.ownerFee, r.destinationSwapped))
    requires Moved(dir, s.a[s.keys.vaultA], s.b[s.keys.vaultB], r.sourceSwapped, r.destinationSwapped)
          == if dir.AtoB? then (r.newSource, r.newDestination) else (r.newDestination, r.newSource)
    requires SwapOwnerFee(s, r, dir, host, env).Ok?
    ensures var (a', b') := Moved(dir, s.a[s.keys.vaultA], s.b[s.keys.vaultB], r.sourceSwapped, r.destinationSwapped);
            NoLoss(ValueAt(s, p), s.supply, PoolValue(p, a', b'), SwapOwnerFee(s, r, dir, host, env).value.supply)
  {
    var a, b := s.a[s.keys.vaultA], s.b[s.keys.vaultB];
    var (a', b') := Moved(dir, a, b, r.sourceSwapped, r.destinationSwapped);
    var (feeA, feeB) := Moved(dir, a, b, r.sourceSwapped - r.ownerFee, r.destinationSwapped);
    var minted := SwapOwnerFee(s, r, dir, host, env).value.supply - s.supply;
    SwapAddsValue(p, less, dir, a, b, r.tradeFee);
    SwapFeeMint(s, r, dir, host, env, feeA, feeB);
    ReserveTakesValue(p, feeA, feeB, dir, r.ownerFee);
    MulMono(ValueAt(s, p), PoolValue(p, feeA, feeB), s.supply, s.supply);
    FeeMintKeepsShare(ValueAt(s, p), s.supply, PoolValue(p, feeA, feeB), s.supply, PoolValue(p, a', b'),
                      minted, ValueOf(p, r.ownerFee, dir));
  }

  lemma DepositFeeMint(s: State, a: U128, b: U128, amount: U64, minted: U64, ownerFee: U128, side: TradeDirection,
                       feeAccounts: FeeAccounts, env: Env)
    requires LpSound(s.keys, Lp(s.lp, s.supply)) && HasPrice(s.curve) && PriceOf(s.curve, env.now).Some?
    requires DepositOwnerFee(s, a, b, amount, minted, ownerFee, side, feeAccounts, env).Ok? && ownerFee <= amount
    ensures var p := PriceOf(s.curve, env.now).value;
            var k := DepositOwnerFee(s, a, b, amount, minted, ownerFee, side, feeAccounts, env).value.supply - s.supply;
            var (keptA, keptB) := Deposited(side, a, b, amount - ownerFee);
            && k >= 0
            && (k == 0 || (PoolValue(p, keptA, keptB) > 0
                && k * PoolValue(p, keptA, keptB) <= (s.supply + minted) * ValueOf(p, ownerFee, side)))
  {
    if ownerFee > 0 {
      var (keptA, keptB) := Deposited(side, a, b, amount - ownerFee);
      OwnerFeeMint(s, Lp(s.lp, s.supply), ownerFee, keptA, keptB, s.supply + minted, side,
                   if feeAccounts.FeeAndHost? then Some(feeAccounts.host) else None,
                   if feeAccounts.NoFeeAccount? then None else Some(s.keys.feeAccount), env);
    }
  }

  /** LP tokens issued for the net part of a deposit leave the share price of the
      reserves without the owner's fee no lower. */
  lemma DepositKeepsShare(p: nat, a: nat, b: nat, supply: nat, side: TradeDirection, net: nat, kept: nat, m: nat)
    requires net <= kept && m * PoolValue(p, a, b) <= supply * ValueOf(p, net, side)
    ensures var (keptA, keptB) := Deposited(side, a, b, kept);
            NoLoss(PoolValue(p, a, b), supply, PoolValue(p, keptA, keptB), supply + m)
  {
    var v, g := PoolValue(p, a, b), ValueOf(p, net, side);
    var (netA, netB) := Deposited(side, a, b, net);
    ReserveTakesValue(p, a, b, side, net);
    ReserveTakesValue(p, netA, netB, side, kept - net);
    var (keptA, keptB) := Deposited(side, a, b, kept);
    MulMono(v + g, PoolValue(p, keptA, keptB), supply, supply);
    assert v * (supply + m) == v * supply + m * v;
    assert (v + g) * supply == v * supply + supply * g;
  }

  /** What a successful single-sided deposit did to supply and vaults. */
  lemma DepositSingleEffects(s: State, s': State, amount: U64, minLp: U64, side: TradeDirection,
                             source: Key, destination: Key, feeAccounts: FeeAccounts, env: Env)
    returns (r: SingleResult)
    requires Sound(s)
    requires DepositSingleStep(s, amount, minLp, side, source, destination, feeAccounts, env) == Ok(s')
    ensures var (a, b) := (s.a[s.keys.vaultA], s.b[s.keys.vaultB]);
            && Some(r) == DepositWithFees(s.curve, amount, a, b, s.supply, side, s.fees, env.now, env.root)
            && 0 < r.amount < U64_LIMIT
            && s'.keys == s.keys && s.keys.vaultA in s'.a && s.keys.vaultB in s'.b
            && (s'.a[s.keys.vaultA], s'.b[s.keys.vaultB]) == Deposited(side, a, b, amount)
            && var minted := DepositOwnerFee(s, a, b, amount, r.amount, r.ownerFee, side, feeAccounts, env);
            && minted.Ok? && s'.supply == minted.value.supply + r.amount
  {
    var a, b := s.a[s.keys.vaultA], s.b[s.keys.vaultB];
    r := DepositWithFees(s.curve, amount, a, b, s.supply, side, s.fees, env.now, env.root).value;
    VaultAfterDeposit(Trading(s.a, s.b), s.keys, side, source, amount);
  }

  lemma VaultAfterDeposit(t: Trading, keys: PoolKeys, side: TradeDirection, source: Key, amount: U64)
    requires keys.vaultA in t.a && keys.vaultB in t.b && source != VaultOf(keys, side)
    requires TransferTrading(t, side, source, VaultOf(keys, side), amount).Ok?
    ensures var t' := TransferTrading(t, side, source, VaultOf(keys, side), amount).value;
            && keys.vaultA in t'.a && keys.vaultB in t'.b
            && (t'.a[keys.vaultA], t'.b[keys.vaultB]) == Deposited(side, t.a[keys.vaultA], t.b[keys.vaultB], amount)
  {
  }

  lemma DepositSingleLosesNothing(s: State, s': State, amount: U64, minLp: U64, side: TradeDirection,
                                  source: Key, destination: Key, feeAccounts: FeeAccounts, env: Env)
    requires Sound(s) && HasPrice(s.curve)
    requires DepositSingleStep(s, amount, minLp, side, source, destination, feeAccounts, env) == Ok(s')
    ensures PriceOf(s.curve, env.now).Some?
    ensures var p := PriceOf(s.curve, env.now).value;
            Sound(s') && NoLoss(ValueAt(s, p), s.supply, ValueAt(s', p), s'.supply)
  {
    DepositSingleConserves(s, s', amount, minLp, side, source, destination, feeAccounts, env);
    var r := DepositSingleEffects(s, s', amount, minLp, side, source, destination, feeAccounts, env);
    var a, b := s.a[s.keys.vaultA], s.b[s.keys.vaultB];
    var p, net := DepositQuote(s.curve, amount, a, b, s.supply, side, s.fees, env.now, env.root);
    DepositShare(s, a, b, amount, r, p, net, side, feeAccounts, env);
  }

  lemma DepositShare(s: State, a: U128, b: U128, amount: U64, r: SingleResult, p: U256, net: U128,
                     side: TradeDirection, feeAccounts: FeeAccounts, env: Env)
    requires LpSound(s.keys, Lp(s.lp, s.supply)) && HasPrice(s.curve) && PriceOf(s.curve, env.now) == Some(p)
    requires r.amount < U64_LIMIT && DepositOwnerFee(s, a, b, amount, r.amount, r.ownerFee, side, feeAccounts, env).Ok?
    requires net + r.ownerFee <= amount
    requires r.amount * PoolValue(p, a, b) <= s.supply * ValueOf(p, net, side)
    ensures var l := DepositOwnerFee(s, a, b, amount, r.amount, r.ownerFee, side, feeAccounts, env).value;
            var (a', b') := Deposited(side, a, b, amount);
            NoLoss(PoolValue(p, a, b), s.supply, PoolValue(p, a', b'), l.supply + r.amount)
  {
    DepositKeepsShare(p, a, b, s.supply, side, net, amount - r.ownerFee, r.amount);
    DepositFeeMint(s, a, b, amount, r.amount, r.ownerFee, side, feeAccounts, env);
    var l := DepositOwnerFee(s, a, b, amount, r.amount, r.ownerFee, side, feeAccounts, env).value;
    var (a', b') := Deposited(side, a, b, amount);
    var (keptA, keptB) := Deposited(side, a, b, amount - r.ownerFee);
    ReserveTakesValue(p, keptA, keptB, side, r.ownerFee);
    FeeMintKeepsShare(PoolValue(p, a, b), s.supply, PoolValue(p, keptA, keptB), s.supply + r.amount,
                      PoolValue(p, a', b'), l.supply - s.supply, ValueOf(p, r.ownerFee, side));
  }

  /** The price and net amount behind a deposit's quote. */
  lemma DepositQuote(c: Curve, amount: U128, a: U128, b: U128, supply: U128, side: TradeDirection,
                     fees: Fees, now: U128, root: Option<U128>) returns (p: U256, net: U128)
    requires HasPrice(c) && DepositWithFees(c, amount, a, b, supply, side, fees, now, root).Some?
    requires DepositWithFees(c, amount, a, b, supply, side, fees, now, root).value.amount > 0
    ensures PriceOf(c, now) == Some(p)
    ensures var r := DepositWithFees(c, amount, a, b, supply, side, fees, now, root).value;
            && net + r.ownerFee <= amount
            && r.amount * PoolValue(p, a, b) <= supply * ValueOf(p, net, side)
  {
    var r := DepositWithFees(c, amount, a, b, supply, side, fees, now, root).value;
    var half := if amount / 2 < 1 then 1 else amount / 2;
    net := amount - fees.TradingFee(half).value - r.ownerFee;
    p := PriceOf(c, now).value;
    PoolTokensMeaning(p, net, a, b, supply, side, Down);
  }

  /** What a successful all-token deposit did to supply and vaults. */
  lemma DepositAllEffects(s: State, s': State, lpAmount: U64, maxA: U64, maxB: U64,
                          sourceA: Key, sourceB: Key, destination: Key)
    requires Sound(s) && HasPrice(s.curve)
    requires DepositAllStep(s, lpAmount, maxA, maxB, sourceA, sourceB, destination) == Ok(s')
    ensures var (a, b) := (s.a[s.keys.vaultA], s.b[s.keys.vaultB]);
            && 0 < s.supply && s'.supply == s.supply + lpAmount
            && s'.keys == s.keys && s.keys.vaultA in s'.a && s.keys.vaultB in s'.b
            && s'.a[s.keys.vaultA] == a + CeilQuotient(lpAmount * a, s.supply)
            && s'.b[s.keys.vaultB] == b + CeilQuotient(lpAmount * b, s.supply)
  {
    SupplyFloor(s.keys, Lp(s.lp, s.supply), 0);
  }

  lemma DepositAllLosesAUnit(s: State, s': State, lpAmount: U64, maxA: U64, maxB: U64,
                             sourceA: Key, sourceB: Key, destination: Key, p: U256)
    requires Sound(s) && HasPrice(s.curve)
    requires DepositAllStep(s, lpAmount, maxA, maxB, sourceA, sourceB, destination) == Ok(s')
    ensures Sound(s') && ValueAt(s, p) * s'.supply <= (ValueAt(s', p) + 1) * s.supply
  {
    DepositAllConserves(s, s', lpAmount, maxA, maxB, sourceA, sourceB, destination);
    DepositAllEffects(s, s', lpAmount, maxA, maxB, sourceA, sourceB, destination);
    DepositAllShare(p, s.a[s.keys.vaultA], s.b[s.keys.vaultB], s.supply, lpAmount);
  }

  lemma DepositAllShare(p: nat, a: nat, b: nat, supply: nat, x: nat)
    requires 0 < supply
    ensures var (payA, payB) := (CeilQuotient(x * a, supply), CeilQuotient(x * b, supply));
            PoolValue(p, a, b) * (supply + x) <= (PoolValue(p, a + payA, b + payB) + 1) * supply
  {
    var payA, payB := CeilQuotient(x * a, supply), CeilQuotient(x * b, supply);
    DepositKeepsPerShare(x, supply, a);
    DepositKeepsPerShare(x, supply, b);
    ProportionalStep(p, a, b, supply, a + payA, b + payB, supply + x);
  }

  lemma VaultAfterPayout(m: Balances, vault: Key, destination: Key, out: U64)
    requires vault in m && destination != vault && out <= m[vault]
    requires out > 0 ==> Transfer(m, vault, destination, out).Ok?
    ensures var m' := if out > 0 then Transfer(m, vault, destination, out).value else m;
            vault in m' && m'[vault] == m[vault] - out
  {
  }

  lemma PayoutQuote(net: U128, supply: U128, a: U128, b: U128)
    requires ToTradingTokens(net, supply, a, b, Down).Some?
    ensures var t := ToTradingTokens(net, supply, a, b, Down).value;
            supply > 0 && t.a == net * a / supply && t.b == net * b / supply
  {
  }

  /** What a successful all-token withdrawal did to supply and vaults. */
  lemma WithdrawAllEffects(s: State, s': State, lpAmount: U64, minA: U64, minB: U64,
                           source: Key, destinationA: Key, destinationB: Key) returns (net: nat, outA: nat, outB: nat)
    requires Sound(s) && HasPrice(s.curve)
    requires WithdrawAllStep(s, lpAmount, minA, minB, source, destinationA, destinationB) == Ok(s')
    ensures var (a, b) := (s.a[s.keys.vaultA], s.b[s.keys.vaultB]);
            && 0 < s.supply && net <= s.supply && s'.supply == s.supply - net
            && outA <= net * a / s.supply && outB <= net * b / s.supply
            && s'.keys == s.keys && s.keys.vaultA in s'.a && s.keys.vaultB in s'.b
            && s'.a[s.keys.vaultA] == a - outA && s'.b[s.keys.vaultB] == b - outB
  {
    SupplyFloor(s.keys, Lp(s.lp, s.supply), 0);
    var a, b := s.a[s.keys.vaultA], s.b[s.keys.vaultB];
    var fee := WithdrawFee(s.keys, s.lp, s.fees, lpAmount, source).value;
    net := lpAmount - fee;
    var tokens := ToTradingTokens(net, s.supply, a, b, Down).value;
    outA, outB := Least(a, tokens.a), Least(b, tokens.b);
    PayoutQuote(net, s.supply, a, b);
    PayAndBurnAdvances(s.keys, Lp(s.lp, s.supply), source, fee, net);
    VaultAfterPayout(s.a, s.keys.vaultA, destinationA, outA);
    VaultAfterPayout(s.b, s.keys.vaultB, destinationB, outB);
  }

  lemma WithdrawAllLosesAUnit(s: State, s': State, lpAmount: U64, minA: U64, minB: U64,
                              source: Key, destinationA: Key, destinationB: Key, p: U256)
    requires Sound(s) && HasPrice(s.curve)
    requires WithdrawAllStep(s, lpAmount, minA, minB, source, destinationA, destinationB) == Ok(s')
    ensures Sound(s') && ValueAt(s, p) * s'.supply <= (ValueAt(s', p) + 1) * s.supply
  {
    WithdrawAllConserves(s, s', lpAmount, minA, minB, source, destinationA, destinationB);
    var net, outA, outB := WithdrawAllEffects(s, s', lpAmount, minA, minB, source, destinationA, destinationB);
    WithdrawAllShare(p, s.a[s.keys.vaultA], s.b[s.keys.vaultB], s.supply, net, outA, outB);
  }

  lemma WithdrawAllShare(p: nat, a: nat, b: nat, supply: nat, net: nat, outA: nat, outB: nat)
    requires 0 < supply && net <= supply && outA <= net * a / supply && outB <= net * b / supply
    ensures outA <= a && outB <= b
    ensures PoolValue(p, a, b) * (supply - net) <= (PoolValue(p, a - outA, b - outB) + 1) * supply
  {
    WithdrawKeepsPerShare(net, supply, a, outA);
    WithdrawKeepsPerShare(net, supply, b, outB);
    ProportionalStep(p, a, b, supply, a - outA, b - outB, supply - net);
  }

  /** The price and the charged amount behind a withdrawal's quote. */
  lemma WithdrawQuote(c: Curve, amount: U128, a: U128, b: U128, supply: U128, side: TradeDirection,
                      fees: Fees, now: U128, root: Option<U128>) returns (p: U256, basis: U128)
    requires HasPrice(c) && WithdrawWithFees(c, amount, a, b, supply, side, fees, now, root).Some?
    requires WithdrawWithFees(c, amount, a, b, supply, side, fees, now, root).value.amount > 0
    ensures PriceOf(c, now) == Some(p)
    ensures var r := WithdrawWithFees(c, amount, a, b, supply, side, fees, now, root).value;
            && amount + r.ownerFee <= basis
            && supply * ValueOf(p, basis, side) <= r.amount * PoolValue(p, a, b)
  {
    WithdrawBasisCovers(amount, fees);
    basis := WithdrawBasis(amount, fees).value.0;
    p := PriceOf(c, now).value;
    PoolTokensMeaning(p, basis, a, b, supply, side, Up);
  }

  function Without(side: TradeDirection, a: nat, b: nat, amount: nat): (nat, nat)
    requires amount <= if side.AtoB? then a else b
  {
    if side.AtoB? then (a - amount, b) else (a, b - amount)
  }

  lemma WithdrawFeeMint(s: State, a: U128, b: U128, amount: U64, r: SingleResult, side: TradeDirection,
                        host: Option<Key>, env: Env)
    requires LpSound(s.keys, Lp(s.lp, s.supply)) && HasPrice(s.curve) && PriceOf(s.curve, env.now).Some?
    requires WithdrawalOwnerFee(s, a, b, amount, r, side, host, env).Ok?
    requires r.ownerFee == 0 ==> amount <= (if side.AtoB? then a else b) && r.amount <= s.supply
    ensures amount + r.ownerFee <= (if side.AtoB? then a else b) && r.amount <= s.supply
    ensures var p := PriceOf(s.curve, env.now).value;
            var k := WithdrawalOwnerFee(s, a, b, amount, r, side, host, env).value.supply - s.supply;
            var (keptA, keptB) := Without(side, a, b, amount + r.ownerFee);
            && k >= 0
            && (k == 0 || (PoolValue(p, keptA, keptB) > 0
                && k * PoolValue(p, keptA, keptB) <= (s.supply - r.amount) * ValueOf(p, r.ownerFee, side)))
  {
    if r.ownerFee > 0 {
      var (keptA, keptB) := Without(side, a, b, amount + r.ownerFee);
      OwnerFeeMint(s, Lp(s.lp, s.supply), r.ownerFee, keptA, keptB, s.supply - r.amount, side,
                   host, Some(s.keys.feeAccount), env);
    }
  }

  /** What a withdrawal leaves before its owner fee is minted: everything for side A,
      all but one unit of value for side B. */
  lemma WithdrawKeepsPart(p: nat, a: nat, b: nat, supply: nat, side: TradeDirection, taken: nat, basis: nat, m: nat)
    requires taken <= basis && taken <= (if side.AtoB? then a else b) && m <= supply
    requires supply * ValueOf(p, basis, side) <= m * PoolValue(p, a, b)
    ensures var (keptA, keptB) := Without(side, a, b, taken);
            PoolValue(p, a, b) * (supply - m) <= (PoolValue(p, keptA, keptB) + (if side.AtoB? then 0 else 1)) * supply
  {
    var (keptA, keptB) := Without(side, a, b, taken);
    ReserveTakesValue(p, keptA, keptB, side, taken);
    assert ValueOf(p, taken, side) <= ValueOf(p, basis, side) by {
      if side.BtoA? {
        MulMono(taken, basis, p, p);
        FloorMono(taken * p, basis * p, RAY);
      }
    }
    BurnKeepsPart(PoolValue(p, a, b), supply, ValueOf(p, basis, side), m, PoolValue(p, keptA, keptB),
                  if side.AtoB? then 0 else 1);
  }

  /** The reserves' value around a withdrawal in plain numbers: v0 is what is left when
      the amount and the owner's fee are both gone, g what the fee is worth, k the LP
      tokens minted for it. */
  lemma WithdrawParts(s: State, a: U128, b: U128, amount: U64, r: SingleResult, p: U256, basis: U128,
                      side: TradeDirection, host: Option<Key>, env: Env) returns (v0: nat, k: nat, g: nat)
    requires LpSound(s.keys, Lp(s.lp, s.supply)) && HasPrice(s.curve) && PriceOf(s.curve, env.now) == Some(p)
    requires WithdrawalOwnerFee(s, a, b, amount, r, side, host, env).Ok?
    requires amount <= (if side.AtoB? then a else b)
    requires r.ownerFee == 0 ==> r.amount <= s.supply
    requires amount + r.ownerFee <= basis
    requires s.supply * ValueOf(p, basis, side) <= r.amount * PoolValue(p, a, b)
    ensures r.amount <= s.supply
    ensures WithdrawalOwnerFee(s, a, b, amount, r, side, host, env).value.supply == s.supply + k
    ensures k == 0 || (v0 > 0 && k * v0 <= (s.supply - r.amount) * g)
    ensures PoolValue(p, a, b) * (s.supply - r.amount) <= (v0 + (if side.AtoB? then 0 else 1)) * s.supply
    ensures var (a', b') := Without(side, a, b, amount); v0 + g <= PoolValue(p, a', b')
  {
    WithdrawFeeMint(s, a, b, amount, r, side, host, env);
    WithdrawKeepsPart(p, a, b, s.supply, side, amount + r.ownerFee, basis, r.amount);
    var (keptA, keptB) := Without(side, a, b, amount + r.ownerFee);
    ReserveTakesValue(p, keptA, keptB, side, r.ownerFee);
    v0, g := PoolValue(p, keptA, keptB), ValueOf(p, r.ownerFee, side);
    k := WithdrawalOwnerFee(s, a, b, amount, r, side, host, env).value.supply - s.supply;
  }

  /** LP supply after the burn of a single-sided withdrawal, before its owner's fee is
      minted: what a caller can work out from the quote. */
  function SupplyLeft(s: State, amount: U64, side: TradeDirection, env: Env): nat
    requires s.keys.vaultA in s.a && s.keys.vaultB in s.b
  {
    match WithdrawWithFees(s.curve, amount, s.a[s.keys.vaultA], s.b[s.keys.vaultB], s.supply, side,
                           s.fees, env.now, env.root)
    case Some(r) => if r.amount <= s.supply then s.supply - r.amount else 0
    case None => 0
  }

  lemma VaultAfterWithdrawal(t: Trading, keys: PoolKeys, side: TradeDirection, destination: Key, amount: U64)
    requires keys.vaultA in t.a && keys.vaultB in t.b && destination != VaultOf(keys, side)
    requires TransferTrading(t, side, VaultOf(keys, side), destination, amount).Ok?
    ensures amount <= if side.AtoB? then t.a[keys.vaultA] else t.b[keys.vaultB]
    ensures var t' := TransferTrading(t, side, VaultOf(keys, side), destination, amount).value;
            && keys.vaultA in t'.a && keys.vaultB in t'.b
            && (t'.a[keys.vaultA], t'.b[keys.vaultB]) == Without(side, t.a[keys.vaultA], t.b[keys.vaultB], amount)
  {
  }

  /** What a successful single-sided withdrawal did to supply and vaults. */
  lemma WithdrawSingleEffects(s: State, s': State, amount: U64, maxLp: U64, side: TradeDirection,
                              source: Key, destination: Key, host: Option<Key>, env: Env)
    requires Sound(s)
    requires WithdrawSingleStep(s, amount, maxLp, side, source, destination, host, env) == Ok(s')
    ensures var (a, b) := (s.a[s.keys.vaultA], s.b[s.keys.vaultB]);
            var quote := WithdrawWithFees(s.curve, amount, a, b, s.supply, side, s.fees, env.now, env.root);
            && s'.keys == s.keys && s.keys.vaultA in s'.a && s.keys.vaultB in s'.b
            && quote.Some? && quote.value.amount > 0
            && amount <= (if side.AtoB? then a else b)
            && (s'.a[s.keys.vaultA], s'.b[s.keys.vaultB]) == Without(side, a, b, amount)
            && var minted := WithdrawalOwnerFee(s, a, b, amount, quote.value, side, host, env);
            && minted.Ok?
            && s'.supply + quote.value.amount == minted.value.supply
            && source in s.lp && source != s.keys.initialLp
            && (quote.value.ownerFee == 0 ==> quote.value.amount <= s.lp[source])
  {
    var a, b := s.a[s.keys.vaultA], s.b[s.keys.vaultB];
    var r := WithdrawWithFees(s.curve, amount, a, b, s.supply, side, s.fees, env.now, env.root).value;
    var fee := WithdrawFee(s.keys, s.lp, s.fees, r.amount, source).value;
    WithdrawalOwnerFeeAdvances(s, a, b, amount, r, side, host, env);
    var l := WithdrawalOwnerFee(s, a, b, amount, r, side, host, env).value;
    PayAndBurnAdvances(s.keys, l, source, fee, r.amount);
    VaultAfterWithdrawal(Trading(s.a, s.b), s.keys, side, destination, amount);
  }

  lemma WithdrawSingleParts(s: State, s': State, amount: U64, maxLp: U64, side: TradeDirection, source: Key,
                            destination: Key, host: Option<Key>, env: Env) returns (p: U256, v0: nat, k: nat, g: nat)
    requires Sound(s) && HasPrice(s.curve)
    requires WithdrawSingleStep(s, amount, maxLp, side, source, destination, host, env) == Ok(s')
    ensures PriceOf(s.curve, env.now) == Some(p)
    ensures s.keys.vaultA in s'.a && s.keys.vaultB in s'.b && s'.keys == s.keys
    ensures var left := SupplyLeft(s, amount, side, env);
            && s'.supply == left + k
            && (k == 0 || (v0 > 0 && k * v0 <= left * g))
            && ValueAt(s, p) * left <= (v0 + (if side.AtoB? then 0 else 1)) * s.supply
            && v0 + g <= ValueAt(s', p)
  {
    WithdrawSingleEffects(s, s', amount, maxLp, side, source, destination, host, env);
    SupplyFloor(s.keys, Lp(s.lp, s.supply), source);
    var a, b := s.a[s.keys.vaultA], s.b[s.keys.vaultB];
    var r := WithdrawWithFees(s.curve, amount, a, b, s.supply, side, s.fees, env.now, env.root).value;
    var basis;
    p, basis := WithdrawQuote(s.curve, amount, a, b, s.supply, side, s.fees, env.now, env.root);
    v0, k, g := WithdrawParts(s, a, b, amount, r, p, basis, side, host, env);
  }

  /** A successful single-sided withdrawal of A never lowers value per LP token.  One of
      B lowers it by at most one unit spread over the supply that is left when the LP
      tokens are burnt and the owner's fee is not yet minted; that supply is never
      zero. */
  lemma WithdrawSingleLosesAtMost(s: State, s': State, amount: U64, maxLp: U64, side: TradeDirection,
                                  source: Key, destination: Key, host: Option<Key>, env: Env)
    requires Sound(s) && HasPrice(s.curve)
    requires WithdrawSingleStep(s, amount, maxLp, side, source, destination, host, env) == Ok(s')
    ensures PriceOf(s.curve, env.now).Some?
    ensures var p := PriceOf(s.curve, env.now).value;
            var left := SupplyLeft(s, amount, side, env);
            && Sound(s')
            && 0 < left
            && match side
               case AtoB => NoLoss(ValueAt(s, p), s.supply, ValueAt(s', p), s'.supply)
               case BtoA => UnitLossOver(left, ValueAt(s, p), s.supply, ValueAt(s', p), s'.supply)
  {
    WithdrawSingleConserves(s, s', amount, maxLp, side, source, destination, host, env);
    SupplyFloor(s'.keys, Lp(s'.lp, s'.supply), source);
    var p, v0, k, g := WithdrawSingleParts(s, s', amount, maxLp, side, source, destination, host, env);
    var left := SupplyLeft(s, amount, side, env);
    SomethingIsLeft(left, v0, k, g, s'.supply);
    WithdrawalLoss(side, ValueAt(s, p), s.supply, v0, left, ValueAt(s', p), k, g);
  }

  lemma WithdrawalLoss(side: TradeDirection, v: nat, s: nat, v0: nat, s0: nat, v': nat, k: nat, g: nat)
    requires v * s0 <= (v0 + (if side.AtoB? then 0 else 1)) * s
    requires k == 0 || (v0 > 0 && k * v0 <= s0 * g)
    requires v0 + g <= v' && s0 > 0
    ensures match side
            case AtoB => NoLoss(v, s, v', s0 + k)
            case BtoA => UnitLossOver(s0, v, s, v', s0 + k)
  {
    match side
    case AtoB => FeeMintKeepsShare(v, s, v0, s0, v', k, g);
    case BtoA => FeeMintKeepsUnitLoss(v, s, v0, s0, v', k, g);
  }

  /** On no supply no fee can be minted. */
  lemma SomethingIsLeft(s0: nat, v0: nat, k: nat, g: nat, s': nat)
    requires s' == s0 + k && s' > 0 && (k == 0 || (v0 > 0 && k * v0 <= s0 * g))
    ensures s0 > 0
  {
    if s0 == 0 && k > 0 {
      MulPositive(k, v0);
    }
  }
}
