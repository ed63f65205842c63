/** LP share value over whole runs of a pool with a priced curve, as exact ratios. */
module ShareRuns {
  import opened Checked
  import opened Arith
  import opened Errors
  import opened RayPower
  import opened RedemptionRate
  import opened PriceCurve
  import opened SwapCurve
  import opened Pool
  import opened PoolInvariants
  import opened ShareValue

  // ---------------------------------------------------------------------------
  // Value per LP token
  // ---------------------------------------------------------------------------

  function SharePrice(v: nat, s: nat): real
    requires s > 0
  {
    v as real / s as real
  }

  lemma NoLossInPrice(v: nat, s: nat, v': nat, s': nat)
    requires s > 0 && s' > 0 && NoLoss(v, s, v', s')
    ensures SharePrice(v, s) <= SharePrice(v', s')
  {
    CrossReals(v as real, s as real, v' as real, s' as real);
  }

  lemma UnitLossInPrice(n: nat, v: nat, s: nat, v': nat, s': nat)
    requires n > 0 && s > 0 && s' > 0 && UnitLossOver(n, v, s, v', s')
    ensures SharePrice(v, s) <= SharePrice(v', s') + 1.0 / n as real
  {
    var f, x, c, x', c' := n as real, v as real, s as real, v' as real, s' as real;
    InReals(n, v, s');
    InReals(n, v', s);
    InReals(1, s, s');
    assert f * x * c' <= f * x' * c + c * c';
    assert (f * x' + c') * c == f * x' * c + c * c';
    CrossReals(f * x, c, f * x' + c', c');
    Split(f, x, c, x', c');
  }

  lemma CrossReals(v: real, s: real, v': real, s': real)
    requires s > 0.0 && s' > 0.0 && v * s' <= v' * s
    ensures v / s <= v' / s'
  {
    var q, q' := v / s, v' / s';
    assert q * s == v && q' * s' == v';
    assert q > q' ==> q * (s * s') > q' * (s * s');
    assert q * (s * s') == q * s * s' && q' * (s * s') == q' * s' * s;
  }

  lemma Split(n: real, v: real, s: real, v': real, s': real)
    requires n > 0.0 && s > 0.0 && s' > 0.0 && n * v / s <= (n * v' + s') / s'
    ensures v / s <= v' / s' + 1.0 / n
  {
    var q, q', d := v / s, v' / s', 1.0 / n;
    assert q * s == v && q' * s' == v' && d * n == 1.0;
    assert n * v == n * q * s && n * v' + s' == (n * q' + 1.0) * s';
    Undivide(n * q, s);
    Undivide(n * q' + 1.0, s');
    assert n * (q' + d) == n * q' + d * n;
    assert q > q' + d ==> n * q > n * (q' + d);
  }

  lemma Undivide(x: real, s: real)
    requires s > 0.0
    ensures x * s / s == x
  {
  }

  /** An absolute loss of n parts in 10^9, back in whole numbers. */
  predicate LossWithin(n: nat, v: nat, s: nat, v': nat, s': nat) {
    INITIAL_SWAP_POOL_AMOUNT * v * s' <= INITIAL_SWAP_POOL_AMOUNT * v' * s + n * s * s'
  }

  lemma PriceLossInParts(n: nat, v: nat, s: nat, v': nat, s': nat)
    requires s > 0 && s' > 0
    requires SharePrice(v, s) <= SharePrice(v', s') + n as real / INITIAL_SWAP_POOL_AMOUNT as real
    ensures LossWithin(n, v, s, v', s')
  {
    var f: nat := INITIAL_SWAP_POOL_AMOUNT;
    Join(f as real, n as real, v as real, s as real, v' as real, s' as real);
    InReals(f, v, s');
    InReals(f, v', s);
    InReals(n, s, s');
  }

  lemma InReals(x: nat, y: nat, z: nat)
    ensures (x * y * z) as real == x as real * y as real * z as real
  {
    assert (x * y) as real == x as real * y as real;
  }

  lemma Join(f: real, n: real, v: real, s: real, v': real, s': real)
    requires f > 0.0 && s > 0.0 && s' > 0.0 && v / s <= v' / s' + n / f
    ensures f * v * s' <= f * v' * s + n * s * s'
  {
    var q, q', d := v / s, v' / s', n / f;
    assert v == q * s && v' == q' * s' && n == d * f;
    var w := f * s * s';
    assert w > 0.0;
    assert q * w <= (q' + d) * w;
    assert q * w == f * v * s' && q' * w == f * v' * s && d * w == n * s * s';
  }

  // ---------------------------------------------------------------------------
  // One instruction
  // ---------------------------------------------------------------------------

  /** The LP tokens over which the one unit is spread that an instruction may lose to
      rounding: the supply after an all-token one, the supply a single-sided withdrawal
      of B leaves before its owner's fee is minted.  None for all others, and for any
      that fails. */
  function SpreadOver(s: State, call: Call, env: Env): Option<nat>
    requires s.keys.vaultA in s.a && s.keys.vaultB in s.b
  {
    match Apply(s, call, env)
    case Err(_) => None
    case Ok(s') =>
      match call
      case DepositAll(_, _, _, _, _, _) => Some(s'.supply)
      case WithdrawAll(_, _, _, _, _, _) => Some(s'.supply)
      case WithdrawSingle(amount, _, BtoA, _, _, _) => Some(SupplyLeft(s, amount, BtoA, env))
      case _ => None
  }

  /** What value per LP token may lose to one instruction. */
  function Allowance(s: State, call: Call, env: Env): real
    requires s.keys.vaultA in s.a && s.keys.vaultB in s.b
  {
    match SpreadOver(s, call, env)
    case None => 0.0
    case Some(n) => if n == 0 then 0.0 else 1.0 / n as real
  }

  lemma AllTokenStep(s: State, s': State, call: Call, env: Env, p: U256)
    requires Sound(s) && HasPrice(s.curve) && Apply(s, call, env) == Ok(s')
    requires call.DepositAll? || call.WithdrawAll?
    ensures Sound(s') && s'.supply > 0 && s.supply > 0
    ensures UnitLossOver(s'.supply, ValueAt(s, p), s.supply, ValueAt(s', p), s'.supply)
  {
    match call {
      case DepositAll(lpAmount, maxA, maxB, sourceA, sourceB, destination) =>
        DepositAllLosesAUnit(s, s', lpAmount, maxA, maxB, sourceA, sourceB, destination, p);
      case WithdrawAll(lpAmount, minA, minB, source, destinationA, destinationB) =>
        WithdrawAllLosesAUnit(s, s', lpAmount, minA, minB, source, destinationA, destinationB, p);
    }
    SupplyFloor(s.keys, Lp(s.lp, s.supply), 0);
    SupplyFloor(s'.keys, Lp(s'.lp, s'.supply), 0);
    FeeMintKeepsUnitLoss(ValueAt(s, p), s.supply, ValueAt(s', p), s'.supply, ValueAt(s', p), 0, 0);
  }

  lemma LosslessStep(s: State, s': State, call: Call, env: Env)
    requires Sound(s) && HasPrice(s.curve) && Apply(s, call, env) == Ok(s')
    requires call.Swap? || call.DepositSingle? || (call.WithdrawSingle? && call.side.AtoB?)
    ensures PriceOf(s.curve, env.now).Some? && Sound(s')
    ensures var p := PriceOf(s.curve, env.now).value;
            NoLoss(ValueAt(s, p), s.supply, ValueAt(s', p), s'.supply)
  {
    match call {
      case Swap(amountIn, minimumOut, dir, source, destination, host) =>
        SwapLosesNothing(s, s', amountIn, minimumOut, dir, source, destination, host, env);
      case DepositSingle(amount, minLp, side, source, destination, feeAccounts) =>
        DepositSingleLosesNothing(s, s', amount, minLp, side, source, destination, feeAccounts, env);
      case WithdrawSingle(amount, maxLp, side, source, destination, host) =>
        WithdrawSingleLosesAtMost(s, s', amount, maxLp, side, source, destination, host, env);
    }
  }

  /** Using the token program directly takes nothing out of a vault and mints nothing. */
  lemma DirectStep(s: State, s': State, step: TokenCall, p: nat)
    requires Sound(s) && TokenStep(s, step) == Ok(s')
    ensures Sound(s') && s'.keys == s.keys
    ensures NoLoss(ValueAt(s, p), s.supply, ValueAt(s', p), s'.supply)
  {
    TokenStepKeeps(s, s', step);
    FullerVaultsLoseNothing(p, s.a[s.keys.vaultA], s.b[s.keys.vaultB], s.supply,
                            s'.a[s.keys.vaultA], s'.b[s.keys.vaultB], s'.supply);
  }

  lemma FullerVaultsLoseNothing(p: nat, a: nat, b: nat, s: nat, a': nat, b': nat, s': nat)
    requires a <= a' && b <= b' && s' <= s
    ensures NoLoss(PoolValue(p, a, b), s, PoolValue(p, a', b'), s')
  {
    MulMono(b, b', p, p);
    FloorMono(b * p, b' * p, RAY);
    MulMono(PoolValue(p, a, b), PoolValue(p, a', b'), s', s);
  }

  /** Any attempted trading instruction or direct use of the token program, accepted or
      not, from any source, keeps value per LP token up to its allowance. */
  lemma StepLosesAtMost(s: State, call: Call, env: Env, p: U256)
    requires Sound(s) && HasPrice(s.curve) && PriceOf(s.curve, env.now) == Some(p) && !call.SetRate?
    ensures var s' := Next(s, call, env);
            && s.supply > 0 && Sound(s') && s'.supply > 0
            && SharePrice(ValueAt(s, p), s.supply) <= SharePrice(ValueAt(s', p), s'.supply) + Allowance(s, call, env)
  {
    var s' := Next(s, call, env);
    NextKeeps(s, call, env);
    SupplyFloor(s.keys, Lp(s.lp, s.supply), 0);
    SupplyFloor(s'.keys, Lp(s'.lp, s'.supply), 0);
    if Apply(s, call, env).Ok? {
      if call.DepositAll? || call.WithdrawAll? {
        AllTokenStep(s, s', call, env, p);
        UnitLossInPrice(s'.supply, ValueAt(s, p), s.supply, ValueAt(s', p), s'.supply);
      } else if call.WithdrawSingle? && call.side.BtoA? {
        WithdrawSingleLosesAtMost(s, s', call.amount, call.maxLp, BtoA, call.source, call.destination, call.host, env);
        UnitLossInPrice(SupplyLeft(s, call.amount, BtoA, env), ValueAt(s, p), s.supply, ValueAt(s', p), s'.supply);
      } else {
        if call.Direct? {
          DirectStep(s, s', call.step, p);
        } else {
          LosslessStep(s, s', call, env);
        }
        NoLossInPrice(ValueAt(s, p), s.supply, ValueAt(s', p), s'.supply);
      }
    }
  }

  // ---------------------------------------------------------------------------
  // Whole runs
  // ---------------------------------------------------------------------------

  /** The price cannot fall from time t on: a stored price, or a posted rate of at
      least 1.0 whose posting time has come. */
  predicate Accruing(c: Curve, t: U128) {
    c.ConstantPriceCurve? || (c.RedemptionRateCurve? && RAY <= c.rate.ssr && c.rate.rho <= t)
  }

  lemma PriceHolds(c: Curve, t: U128, t': U128)
    requires Accruing(c, t) && t <= t'
    ensures AtMost(PriceOf(c, t), PriceOf(c, t'))
  {
    if c.RedemptionRateCurve? {
      PriceNeverFalls(c.rate, t, t');
    }
  }

  lemma ValueRises(s: State, p: nat, p': nat)
    requires s.keys.vaultA in s.a && s.keys.vaultB in s.b && p <= p' && s.supply > 0
    ensures SharePrice(ValueAt(s, p), s.supply) <= SharePrice(ValueAt(s, p'), s.supply)
  {
    var b := s.b[s.keys.vaultB];
    MulMono(b, b, p, p');
    FloorMono(b * p, b * p', RAY);
    MulMono(ValueAt(s, p), ValueAt(s, p'), s.supply, s.supply);
    NoLossInPrice(ValueAt(s, p), s.supply, ValueAt(s, p'), s.supply);
  }

  predicate NoRateUpdates(attempts: seq<Attempt>) {
    forall i :: 0 <= i < |attempts| ==> !attempts[i].call.SetRate?
  }

  ghost function TotalAllowance(s: State, attempts: seq<Attempt>): real
    requires Sound(s)
    decreases |attempts|
  {
    if attempts == [] then 0.0
    else
      var (call, env) := (attempts[0].call, attempts[0].env);
      NextKeeps(s, call, env);
      Allowance(s, call, env) + TotalAllowance(Next(s, call, env), attempts[1..])
  }

  /** LP share value over any run of swaps, deposits, withdrawals and direct uses of the
      token program between two rate updates, all fees included, from any accounts,
      successful or not, valued at the price of the first and of the last moment: it
      falls by at most the sum of the instructions' allowances. */
  lemma {:induction false} RunLosesAtMost(s: State, t: U128, attempts: seq<Attempt>)
    requires Sound(s) && Accruing(s.curve, t)
    requires InOrderFrom(t, attempts) && NoRateUpdates(attempts)
    requires PriceOf(s.curve, EndTime(t, attempts)).Some?
    ensures PriceOf(s.curve, t).Some?
    ensures var s' := Run(s, attempts);
            && s.supply > 0 && Sound(s') && s'.supply > 0
            && SharePrice(ValueAt(s, PriceOf(s.curve, t).value), s.supply)
               <= SharePrice(ValueAt(s', PriceOf(s.curve, EndTime(t, attempts)).value), s'.supply)
                  + TotalAllowance(s, attempts)
    decreases |attempts|
  {
    SupplyFloor(s.keys, Lp(s.lp, s.supply), 0);
    if attempts != [] {
      var (call, env) := (attempts[0].call, attempts[0].env);
      NextKeeps(s, call, env);
      RunLosesAtMost(Next(s, call, env), env.now, attempts[1..]);
      PriceHolds(s.curve, t, env.now);
      ValueRises(s, PriceOf(s.curve, t).value, PriceOf(s.curve, env.now).value);
      StepLosesAtMost(s, call, env, PriceOf(s.curve, env.now).value);
    }
  }

  // ---------------------------------------------------------------------------
  // Runs that leave the initial supply alone
  // ---------------------------------------------------------------------------

  /** The check a caller can make beforehand: a single-sided withdrawal of B burns no
      more LP tokens than leave the initial amount outstanding. */
  predicate LeavesSupply(s: State, call: Call, env: Env)
    requires s.keys.vaultA in s.a && s.keys.vaultB in s.b
  {
    call.WithdrawSingle? && call.side.BtoA? ==> INITIAL_SWAP_POOL_AMOUNT <= SupplyLeft(s, call.amount, BtoA, env)
  }

  /** Every withdrawal of the run that succeeds meets the check. */
  predicate RunLeavesSupply(s: State, attempts: seq<Attempt>)
    decreases |attempts|
  {
    attempts != [] ==>
      var (call, env) := (attempts[0].call, attempts[0].env);
      && s.keys.vaultA in s.a && s.keys.vaultB in s.b
      && (Apply(s, call, env).Ok? ==> LeavesSupply(s, call, env))
      && RunLeavesSupply(Next(s, call, env), attempts[1..])
  }

  /** Successful instructions of a run that have an allowance at all. */
  ghost function LossCount(s: State, attempts: seq<Attempt>): nat
    requires Sound(s)
    decreases |attempts|
  {
    if attempts == [] then 0
    else
      var (call, env) := (attempts[0].call, attempts[0].env);
      NextKeeps(s, call, env);
      (if SpreadOver(s, call, env).Some? then 1 else 0) + LossCount(Next(s, call, env), attempts[1..])
  }

  lemma PartAtMost(n: nat)
    requires INITIAL_SWAP_POOL_AMOUNT <= n
    ensures 1.0 / n as real <= 1.0 / INITIAL_SWAP_POOL_AMOUNT as real
  {
    CrossReals(1.0, n as real, 1.0, INITIAL_SWAP_POOL_AMOUNT as real);
  }

  lemma AllowanceIsOnePart(s: State, call: Call, env: Env)
    requires Sound(s) && (Apply(s, call, env).Ok? ==> LeavesSupply(s, call, env))
    ensures Allowance(s, call, env)
         <= if SpreadOver(s, call, env).Some? then 1.0 / INITIAL_SWAP_POOL_AMOUNT as real else 0.0
  {
    var s' := Next(s, call, env);
    NextKeeps(s, call, env);
    SupplyFloor(s'.keys, Lp(s'.lp, s'.supply), 0);
    match SpreadOver(s, call, env)
    case None =>
    case Some(n) => PartAtMost(n);
  }

  lemma {:induction false} AllowancesAddUp(s: State, attempts: seq<Attempt>)
    requires Sound(s) && RunLeavesSupply(s, attempts)
    ensures TotalAllowance(s, attempts) <= LossCount(s, attempts) as real / INITIAL_SWAP_POOL_AMOUNT as real
    decreases |attempts|
  {
    if attempts != [] {
      var (call, env) := (attempts[0].call, attempts[0].env);
      NextKeeps(s, call, env);
      AllowanceIsOnePart(s, call, env);
      AllowancesAddUp(Next(s, call, env), attempts[1..]);
    }
  }

  /** Over such a run value per LP token falls by at most one part in 10^9 of an A unit
      for each successful all-token instruction or single-sided withdrawal of B, and by
      nothing for any other. */
  lemma RunKeepsShareValue(s: State, t: U128, attempts: seq<Attempt>)
    requires Sound(s) && Accruing(s.curve, t)
    requires InOrderFrom(t, attempts) && NoRateUpdates(attempts) && RunLeavesSupply(s, attempts)
    requires PriceOf(s.curve, EndTime(t, attempts)).Some?
    ensures PriceOf(s.curve, t).Some?
    ensures var s' := Run(s, attempts);
            && Sound(s')
            && LossWithin(LossCount(s, attempts),
                          ValueAt(s, PriceOf(s.curve, t).value), s.supply,
                          ValueAt(s', PriceOf(s.curve, EndTime(t, attempts)).value), s'.supply)
  {
    RunLosesAtMost(s, t, attempts);
    AllowancesAddUp(s, attempts);
    var s' := Run(s, attempts);
    PriceLossInParts(LossCount(s, attempts), ValueAt(s, PriceOf(s.curve, t).value), s.supply,
                     ValueAt(s', PriceOf(s.curve, EndTime(t, attempts)).value), s'.supply);
  }
}
