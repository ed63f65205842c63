/** What every reachable pool state satisfies: LP supply accounted for and never below
    the initial amount, trading tokens conserved, curve moved only by rate updates. */
module PoolInvariants {
  import opened Checked
  import opened Errors
  import opened Ledger
  import opened RedemptionRate
  import opened PriceCurve
  import opened FeeSchedule
  import opened SwapCurve
  import opened Pool

  /** The LP ledger adds up, and the initial tokens are still in their account. */
  ghost predicate LpSound(keys: PoolKeys, l: Lp) {
    && Total(l.balances) == l.supply
    && keys.initialLp in l.balances
    && l.balances[keys.initialLp] >= INITIAL_SWAP_POOL_AMOUNT
  }

  ghost predicate Sound(s: State) {
    && s.keys.vaultA in s.a
    && s.keys.vaultB in s.b
    && LpSound(s.keys, Lp(s.lp, s.supply))
  }

  /** Any other account holds at most what is left of the supply. */
  lemma SupplyFloor(keys: PoolKeys, l: Lp, k: Key)
    requires LpSound(keys, l)
    ensures INITIAL_SWAP_POOL_AMOUNT <= l.supply
    ensures k in l.balances && k != keys.initialLp ==> l.balances[k] + INITIAL_SWAP_POOL_AMOUNT <= l.supply
  {
    TotalCovers(l.balances, keys.initialLp);
    if k in l.balances && k != keys.initialLp {
      TotalCoversTwo(l.balances, k, keys.initialLp);
    }
  }

  // ---------------------------------------------------------------------------
  // Ledger steps
  // ---------------------------------------------------------------------------

  /** l' is sound, has the same accounts, and holds no less of the initial tokens. */
  ghost predicate LpAdvances(keys: PoolKeys, l: Lp, l': Lp) {
    && LpSound(keys, l')
    && l'.balances.Keys == l.balances.Keys
    && (keys.initialLp in l.balances ==> l.balances[keys.initialLp] <= l'.balances[keys.initialLp])
  }

  lemma MintAdvances(keys: PoolKeys, l: Lp, to: Key, amount: U64)
    requires LpSound(keys, l) && MintTo(l, to, amount).Ok?
    ensures var l' := MintTo(l, to, amount).value;
            LpAdvances(keys, l, l') && l'.supply == l.supply + amount
            && l'.balances == l.balances[to := l.balances[to] + amount]
  {
    TotalUpdate(l.balances, to, l.balances[to] + amount);
  }

  lemma PayAndBurnAdvances(keys: PoolKeys, l: Lp, source: Key, fee: U64, burnt: U64)
    requires LpSound(keys, l) && PayAndBurn(keys, l, source, fee, burnt).Ok?
    ensures var l' := PayAndBurn(keys, l, source, fee, burnt).value;
            LpAdvances(keys, l, l') && l'.supply + burnt == l.supply
    ensures source in l.balances && source != keys.initialLp && burnt <= l.balances[source]
  {
    var l1 := if fee > 0 then TransferLp(keys, l, source, keys.feeAccount, fee).value else l;
    if fee > 0 {
      TransferConserves(l.balances, source, keys.feeAccount, fee);
    }
    TotalUpdate(l1.balances, source, l1.balances[source] - burnt);
  }

  /** The owner's fee mints at most the LP tokens it was converted to. */
  lemma MintOwnerFeeAdvances(keys: PoolKeys, l: Lp, fees: Fees, amount: U128, host: Option<Key>,
                             feeAccount: Option<Key>)
    requires LpSound(keys, l) && MintOwnerFee(l, fees, amount, host, feeAccount).Ok?
    ensures var l' := MintOwnerFee(l, fees, amount, host, feeAccount).value;
            LpAdvances(keys, l, l') && l.supply <= l'.supply <= l.supply + amount
  {
    if amount > 0 {
      var (l1, rest) := MintHostFee(l, fees, amount, host).value;
      if host.Some? && fees.HostFee(amount).value != 0 {
        MintAdvances(keys, l, host.value, fees.HostFee(amount).value);
      }
      if feeAccount.Some? && feeAccount.value in l1.balances && rest > 0 {
        MintAdvances(keys, l1, feeAccount.value, rest);
      }
    }
  }

  lemma OwnerFeeStepAdvances(s: State, l: Lp, ownerFee: U128, a: U128, b: U128, supply: U128, side: TradeDirection,
                             host: Option<Key>, feeAccount: Option<Key>, env: Env)
    requires LpSound(s.keys, l)
    requires OwnerFeeStep(s, l, ownerFee, a, b, supply, side, host, feeAccount, env).Ok?
    ensures LpAdvances(s.keys, l, OwnerFeeStep(s, l, ownerFee, a, b, supply, side, host, feeAccount, env).value)
  {
    var feeLp := SingleSided(s.curve, ownerFee, a, b, supply, side, Down, env.now, env.feeRoot).value;
    MintOwnerFeeAdvances(s.keys, l, s.fees, feeLp, host, feeAccount);
  }

  lemma TransferTradingConserves(t: Trading, side: TradeDirection, from: Key, to: Key, amount: U64)
    requires TransferTrading(t, side, from, to, amount).Ok?
    ensures var t' := TransferTrading(t, side, from, to, amount).value;
            && Total(t'.a) == Total(t.a) && Total(t'.b) == Total(t.b)
            && t'.a.Keys == t.a.Keys && t'.b.Keys == t.b.Keys
  {
    match side
    case AtoB => TransferConserves(t.a, from, to, amount);
    case BtoA => TransferConserves(t.b, from, to, amount);
  }

  // ---------------------------------------------------------------------------
  // Instructions
  // ---------------------------------------------------------------------------

  /** Everything a step may not disturb. */
  ghost predicate Conserves(s: State, s': State) {
    && Sound(s')
    && Total(s'.a) == Total(s.a) && Total(s'.b) == Total(s.b)
    && s'.a.Keys == s.a.Keys && s'.b.Keys == s.b.Keys && s'.lp.Keys == s.lp.Keys
    && s'.fees == s.fees && s'.keys == s.keys
    && (s.keys.initialLp in s.lp ==> s.lp[s.keys.initialLp] <= s'.lp[s.keys.initialLp])
  }

  lemma SwapConserves(s: State, s': State, amountIn: U64, minimumOut: U64, dir: TradeDirection,
                      source: Key, destination: Key, host: Option<Key>, env: Env)
    requires Sound(s) && SwapStep(s, amountIn, minimumOut, dir, source, destination, host, env) == Ok(s')
    ensures Conserves(s, s') && s'.curve == s.curve
  {
    var a, b := s.a[s.keys.vaultA], s.b[s.keys.vaultB];
    var (reserveIn, reserveOut) := if dir.AtoB? then (a, b) else (b, a);
    var r := SwapWithFees(s.curve, amountIn, reserveIn, reserveOut, dir, s.fees, env.now).value;
    TransferTradingConserves(Trading(s.a, s.b), dir, source, VaultOf(s.keys, dir), r.sourceSwapped);
    var t1 := TransferTrading(Trading(s.a, s.b), dir, source, VaultOf(s.keys, dir), r.sourceSwapped).value;
    TransferTradingConserves(t1, Opposite(dir), VaultOf(s.keys, Opposite(dir)), destination, r.destinationSwapped);
    SwapOwnerFeeAdvances(s, r, dir, host, env);
  }

  lemma SwapOwnerFeeAdvances(s: State, r: SwapResult, dir: TradeDirection, host: Option<Key>, env: Env)
    requires LpSound(s.keys, Lp(s.lp, s.supply)) && SwapOwnerFee(s, r, dir, host, env).Ok?
    ensures LpAdvances(s.keys, Lp(s.lp, s.supply), SwapOwnerFee(s, r, dir, host, env).value)
  {
    if r.ownerFee > 0 {
      var (newA, newB) := if dir.AtoB? then (r.newSource, r.newDestination) else (r.newDestination, r.newSource);
      var (feeA, feeB) := FeeReserves(newA, newB, dir, 0, 0, r.ownerFee, CalculationFailure).value;
      OwnerFeeStepAdvances(s, Lp(s.lp, s.supply), r.ownerFee, feeA, feeB, s.supply, dir, host,
                           Some(s.keys.feeAccount), env);
    }
  }

  lemma DepositAllConserves(s: State, s': State, lpAmount: U64, maxA: U64, maxB: U64, sourceA: Key, sourceB: Key,
                            destination: Key)
    requires Sound(s) && DepositAllStep(s, lpAmount, maxA, maxB, sourceA, sourceB, destination) == Ok(s')
    ensures Conserves(s, s') && s'.curve == s.curve
  {
    var tokens := PoolTokensToTradingTokens(s.curve, lpAmount, s.supply, s.a[s.keys.vaultA], s.b[s.keys.vaultB],
                                            Up).value;
    TransferConserves(s.a, sourceA, s.keys.vaultA, tokens.a);
    TransferConserves(s.b, sourceB, s.keys.vaultB, tokens.b);
    MintAdvances(s.keys, Lp(s.lp, s.supply), destination, lpAmount);
  }

  lemma WithdrawAllConserves(s: State, s': State, lpAmount: U64, minA: U64, minB: U64, source: Key, destinationA: Key,
                             destinationB: Key)
    requires Sound(s) && WithdrawAllStep(s, lpAmount, minA, minB, source, destinationA, destinationB) == Ok(s')
    ensures Conserves(s, s') && s'.curve == s.curve
  {
    var a, b := s.a[s.keys.vaultA], s.b[s.keys.vaultB];
    var fee := WithdrawFee(s.keys, s.lp, s.fees, lpAmount, source).value;
    var tokens := PoolTokensToTradingTokens(s.curve, lpAmount - fee, s.supply, a, b, Down).value;
    var outA, outB := Least(a, tokens.a), Least(b, tokens.b);
    PayAndBurnAdvances(s.keys, Lp(s.lp, s.supply), source, fee, lpAmount - fee);
    if outA > 0 { TransferConserves(s.a, s.keys.vaultA, destinationA, outA); }
    if outB > 0 { TransferConserves(s.b, s.keys.vaultB, destinationB, outB); }
  }

  lemma DepositSingleConserves(s: State, s': State, amount: U64, minLp: U64, side: TradeDirection,
                               source: Key, destination: Key, feeAccounts: FeeAccounts, env: Env)
    requires Sound(s) && DepositSingleStep(s, amount, minLp, side, source, destination, feeAccounts, env) == Ok(s')
    ensures Conserves(s, s') && s'.curve == s.curve
  {
    var a, b := s.a[s.keys.vaultA], s.b[s.keys.vaultB];
    var r := DepositWithFees(s.curve, amount, a, b, s.supply, side, s.fees, env.now, env.root).value;
    DepositOwnerFeeAdvances(s, a, b, amount, r.amount, r.ownerFee, side, feeAccounts, env);
    var l := DepositOwnerFee(s, a, b, amount, r.amount, r.ownerFee, side, feeAccounts, env).value;
    TransferTradingConserves(Trading(s.a, s.b), side, source, VaultOf(s.keys, side), amount);
    MintAdvances(s.keys, l, destination, r.amount);
  }

  lemma DepositOwnerFeeAdvances(s: State, a: U128, b: U128, amount: U64, minted: U64, ownerFee: U128,
                                side: TradeDirection, feeAccounts: FeeAccounts, env: Env)
    requires LpSound(s.keys, Lp(s.lp, s.supply))
    requires DepositOwnerFee(s, a, b, amount, minted, ownerFee, side, feeAccounts, env).Ok?
    ensures LpAdvances(s.keys, Lp(s.lp, s.supply),
                       DepositOwnerFee(s, a, b, amount, minted, ownerFee, side, feeAccounts, env).value)
  {
    if ownerFee > 0 {
      var (feeA, feeB) := FeeReserves(a, b, side, amount, 0, ownerFee, FeeCalculationFailure).value;
      OwnerFeeStepAdvances(s, Lp(s.lp, s.supply), ownerFee, feeA, feeB, s.supply + minted, side,
                           if feeAccounts.FeeAndHost? then Some(feeAccounts.host) else None,
                           if feeAccounts.NoFeeAccount? then None else Some(s.keys.feeAccount), env);
    }
  }

  lemma WithdrawalOwnerFeeAdvances(s: State, a: U128, b: U128, amount: U64, r: SingleResult, side: TradeDirection,
                                   host: Option<Key>, env: Env)
    requires LpSound(s.keys, Lp(s.lp, s.supply)) && WithdrawalOwnerFee(s, a, b, amount, r, side, host, env).Ok?
    ensures LpAdvances(s.keys, Lp(s.lp, s.supply), WithdrawalOwnerFee(s, a, b, amount, r, side, host, env).value)
  {
    if r.ownerFee > 0 {
      var (feeA, feeB) := FeeReserves(a, b, side, 0, amount, r.ownerFee, FeeCalculationFailure).value;
      OwnerFeeStepAdvances(s, Lp(s.lp, s.supply), r.ownerFee, feeA, feeB, s.supply - r.amount, side,
                           host, Some(s.keys.feeAccount), env);
    }
  }

  lemma WithdrawSingleConserves(s: State, s': State, amount: U64, maxLp: U64, side: TradeDirection,
                                source: Key, destination: Key, host: Option<Key>, env: Env)
    requires Sound(s) && WithdrawSingleStep(s, amount, maxLp, side, source, destination, host, env) == Ok(s')
    ensures Conserves(s, s') && s'.curve == s.curve
  {
    var a, b := s.a[s.keys.vaultA], s.b[s.keys.vaultB];
    var r := WithdrawWithFees(s.curve, amount, a, b, s.supply, side, s.fees, env.now, env.root).value;
    var fee := WithdrawFee(s.keys, s.lp, s.fees, r.amount, source).value;
    WithdrawalOwnerFeeAdvances(s, a, b, amount, r, side, host, env);
    var l := WithdrawalOwnerFee(s, a, b, amount, r, side, host, env).value;
    PayAndBurnAdvances(s.keys, l, source, fee, r.amount);
    TransferTradingConserves(Trading(s.a, s.b), side, VaultOf(s.keys, side), destination, amount);
  }

  /** Every attempted instruction of the program, accepted or not, keeps the pool sound,
      conserves both trading tokens over users and vaults, and leaves fees and accounts
      alone; only a rate update touches the curve. */
  lemma NextConserves(s: State, call: Call, env: Env)
    requires Sound(s) && !call.Direct?
    ensures var s' := Next(s, call, env);
            Conserves(s, s') && (!call.SetRate? ==> s'.curve == s.curve)
  {
    if Apply(s, call, env).Ok? {
      var s' := Next(s, call, env);
      match call
      case Swap(amountIn, minimumOut, dir, source, destination, host) =>
        SwapConserves(s, s', amountIn, minimumOut, dir, source, destination, host, env);
      case DepositAll(lpAmount, maxA, maxB, sourceA, sourceB, destination) =>
        DepositAllConserves(s, s', lpAmount, maxA, maxB, sourceA, sourceB, destination);
      case WithdrawAll(lpAmount, minA, minB, source, destinationA, destinationB) =>
        WithdrawAllConserves(s, s', lpAmount, minA, minB, source, destinationA, destinationB);
      case DepositSingle(amount, minLp, side, source, destination, feeAccounts) =>
        DepositSingleConserves(s, s', amount, minLp, side, source, destination, feeAccounts, env);
      case WithdrawSingle(amount, maxLp, side, source, destination, host) =>
        WithdrawSingleConserves(s, s', amount, maxLp, side, source, destination, host, env);
      case SetRate(ssr, rho, chi) =>
    }
  }

  // ---------------------------------------------------------------------------
  // The token program in between
  // ---------------------------------------------------------------------------

  /** What nothing anyone does to the pool or its accounts undoes. */
  ghost predicate Keeps(s: State, s': State) {
    && Sound(s')
    && Total(s'.a) <= Total(s.a) && Total(s'.b) <= Total(s.b)
    && s'.fees == s.fees && s'.keys == s.keys
    && (s.keys.initialLp in s.lp ==> s.keys.initialLp in s'.lp && s.lp[s.keys.initialLp] <= s'.lp[s.keys.initialLp])
  }

  /** On one mint: the total falls by what is burnt, and no account but the spender's
      goes or loses anything. */
  lemma OnAccountsKeeps(m: Balances, m': Balances, step: TokenCall)
    requires OnAccounts(m, step) == Ok(m')
    ensures Total(m') + (if step.BurnTokens? then step.amount else 0) == Total(m)
    ensures forall k: Key :: k in m && Spender(step) != Some(k) ==> k in m' && m[k] <= m'[k]
  {
    match step
    case TransferTokens(_, from, to, amount) => TransferConserves(m, from, to, amount);
    case BurnTokens(_, from, amount) => TotalUpdate(m, from, m[from] - amount);
    case OpenAccount(_, key) => TotalWithEmpty(m, key);
    case CloseAccount(_, key) => TotalRemove(m, key);
  }

  lemma TotalWithEmpty(m: Balances, k: Key)
    requires k !in m
    ensures Total(m[k := 0]) == Total(m)
  {
    TotalRemove(m[k := 0], k);
    assert m[k := 0] - {k} == m;
  }

  lemma TokenStepKeeps(s: State, s': State, step: TokenCall)
    requires Sound(s) && TokenStep(s, step) == Ok(s')
    ensures Keeps(s, s') && s'.curve == s.curve && s'.supply <= s.supply
    ensures s.a[s.keys.vaultA] <= s'.a[s.keys.vaultA] && s.b[s.keys.vaultB] <= s'.b[s.keys.vaultB]
  {
    OnAccountsKeeps(AccountsOf(s, step.mint), AccountsOf(s', step.mint), step);
    match step.mint
    case MintA => assert Spender(step) != Some(s.keys.vaultA);
    case MintB => assert Spender(step) != Some(s.keys.vaultB);
    case MintLp => assert Spender(step) != Some(s.keys.initialLp);
  }

  lemma NextKeeps(s: State, call: Call, env: Env)
    requires Sound(s)
    ensures var s' := Next(s, call, env);
            Keeps(s, s') && (!call.SetRate? ==> s'.curve == s.curve)
  {
    if !call.Direct? {
      NextConserves(s, call, env);
    } else if Apply(s, call, env).Ok? {
      TokenStepKeeps(s, Next(s, call, env), call.step);
    }
  }

  /** What one attempt disturbs, whoever makes it. */
  ghost predicate Undisturbed(s: State, s': State, call: Call) {
    && Keeps(s, s')
    && (!call.Direct? ==> Conserves(s, s'))
    && (!call.SetRate? ==> s'.curve == s.curve)
  }

  lemma NextUndisturbed(s: State, call: Call, env: Env)
    requires Sound(s)
    ensures Undisturbed(s, Next(s, call, env), call)
  {
    NextKeeps(s, call, env);
    if !call.Direct? {
      NextConserves(s, call, env);
    }
  }

  // ---------------------------------------------------------------------------
  // Reachable states
  // ---------------------------------------------------------------------------

  lemma {:induction false} EmptyTotal(m: Balances)
    requires forall k :: k in m ==> m[k] == 0
    ensures Total(m) == 0
    decreases |m|
  {
    if m != map[] {
      var k :| k in m && Total(m) == m[k] + Total(m - {k});
      EmptyTotal(m - {k});
    }
  }

  lemma InitializeIsSound(a: Balances, b: Balances, lp: Balances, keys: PoolKeys, curve: Curve, fees: Fees, env: Env)
    requires Initialize(a, b, lp, keys, curve, fees, env).Ok?
    ensures var s := Initialize(a, b, lp, keys, curve, fees, env).value;
            && Sound(s) && s.supply == INITIAL_SWAP_POOL_AMOUNT && s.a == a && s.b == b
            && s.fees.Validate().Ok?
            && (curve.RedemptionRateCurve? ==> curve.rate.rho <= env.now)
  {
    EmptyTotal(lp);
    TotalUpdate(lp, keys.initialLp, INITIAL_SWAP_POOL_AMOUNT);
  }

  /** A run of the program's own instructions. */
  predicate OwnInstructions(attempts: seq<Attempt>) {
    forall i :: 0 <= i < |attempts| ==> !attempts[i].call.Direct?
  }

  lemma {:induction false} RunConserves(s: State, attempts: seq<Attempt>)
    requires Sound(s) && OwnInstructions(attempts)
    ensures Conserves(s, Run(s, attempts))
    decreases |attempts|
  {
    if attempts != [] {
      var (call, env) := (attempts[0].call, attempts[0].env);
      NextConserves(s, call, env);
      RunConserves(Next(s, call, env), attempts[1..]);
    }
  }

  lemma {:induction false} RunKeeps(s: State, attempts: seq<Attempt>)
    requires Sound(s)
    ensures Keeps(s, Run(s, attempts))
    decreases |attempts|
  {
    if attempts != [] {
      var (call, env) := (attempts[0].call, attempts[0].env);
      NextKeeps(s, call, env);
      RunKeeps(Next(s, call, env), attempts[1..]);
    }
  }

  /** In every state reachable from initialization, by the program's instructions and
      whatever anyone does through the token program in between, the LP supply is the sum
      of the LP balances and at least the initial amount, so no pool share divides by
      zero; the totals of both trading tokens never grow, and under the program's own
      instructions they are those the pool started with. */
  lemma ReachableIsSound(a: Balances, b: Balances, lp: Balances, keys: PoolKeys, curve: Curve, fees: Fees,
                         env: Env, s0: State, attempts: seq<Attempt>)
    requires Initialize(a, b, lp, keys, curve, fees, env) == Ok(s0)
    ensures var s := Run(s0, attempts);
            && s.supply == Total(s.lp)
            && INITIAL_SWAP_POOL_AMOUNT <= s.supply
            && Total(s.a) <= Total(a) && Total(s.b) <= Total(b)
            && (OwnInstructions(attempts) ==> Total(s.a) == Total(a) && Total(s.b) == Total(b))
            && s.fees == fees && s.keys == keys
  {
    InitializeIsSound(a, b, lp, keys, curve, fees, env);
    RunKeeps(s0, attempts);
    var s := Run(s0, attempts);
    SupplyFloor(s.keys, Lp(s.lp, s.supply), keys.initialLp);
    if OwnInstructions(attempts) {
      RunConserves(s0, attempts);
    }
  }
}
