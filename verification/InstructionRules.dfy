/** What every instruction means, in full and without the code: when it goes through and
    the whole state it leaves.  The pool allows exactly what these rules allow. */
module InstructionRules {
  import opened Checked
  import opened Errors
  import opened Ledger
  import opened RedemptionRate
  import opened PriceCurve
  import opened FeeSchedule
  import opened SwapCurve
  import opened Pool
  import opened QuoteRules
  import opened LedgerRules

  /** Everything an instruction on balances leaves alone. */
  predicate SameTerms(s: State, s': State) {
    s'.curve == s.curve && s'.fees == s.fees && s'.keys == s.keys
  }

  predicate HasVaults(s: State) {
    s.keys.vaultA in s.a && s.keys.vaultB in s.b
  }

  // ---------------------------------------------------------------------------
  // Swap
  // ---------------------------------------------------------------------------

  datatype SwapRun = SwapRun(r: SwapResult, w: Working, fee: FeeWorking)

  /** The owner's fee of a swap by the rules. */
  ghost predicate SwapFeeIs(s: State, r: SwapResult, dir: TradeDirection, host: Option<Key>, env: Env, l': Lp,
                            w: FeeWorking)
  {
    && r.ownerFee <= r.newSource
    && match dir
       case AtoB => FeeMinted(s, r.ownerFee, r.newSource - r.ownerFee, r.newDestination, s.supply, dir,
                              host, Some(s.keys.feeAccount), env, l', w)
       case BtoA => FeeMinted(s, r.ownerFee, r.newDestination, r.newSource - r.ownerFee, s.supply, dir,
                              host, Some(s.keys.feeAccount), env, l', w)
  }

  /** Both payments of a swap. */
  ghost predicate SwapPaid(s: State, paid: U64, out: U64, dir: TradeDirection, source: Key, destination: Key, s': State)
  {
    match dir
    case AtoB => Paid(s.a, source, s.keys.vaultA, paid, s'.a) && Paid(s.b, s.keys.vaultB, destination, out, s'.b)
    case BtoA => Paid(s.b, source, s.keys.vaultB, paid, s'.b) && Paid(s.a, s.keys.vaultA, destination, out, s'.a)
  }

  /** A swap between accounts that are not the vaults: the quote meets the rules and the
      minimum, the source pays what it charges, the destination gets what it gives, and
      the owner's fee is minted on the reserves the swap leaves without that fee. */
  ghost predicate SwapAllowed(s: State, amountIn: U64, minimumOut: U64, dir: TradeDirection, source: Key,
                              destination: Key, host: Option<Key>, env: Env, s': State, run: SwapRun)
  {
    && HasVaults(s) && SameTerms(s, s')
    && source != (if dir.AtoB? then s.keys.vaultA else s.keys.vaultB)
    && destination != (if dir.AtoB? then s.keys.vaultB else s.keys.vaultA)
    && SwapIs(s.curve, amountIn, if dir.AtoB? then s.a[s.keys.vaultA] else s.b[s.keys.vaultB],
              if dir.AtoB? then s.b[s.keys.vaultB] else s.a[s.keys.vaultA], dir, s.fees, env.now, run.r, run.w)
    && run.r.sourceSwapped < U64_LIMIT && minimumOut <= run.r.destinationSwapped < U64_LIMIT
    && SwapPaid(s, run.r.sourceSwapped, run.r.destinationSwapped, dir, source, destination, s')
    && SwapFeeIs(s, run.r, dir, host, env, Lp(s'.lp, s'.supply), run.fee)
  }

  lemma SwapFeeShows(s: State, r: SwapResult, dir: TradeDirection, host: Option<Key>, env: Env, l': Lp)
    returns (w: FeeWorking)
    requires SwapOwnerFee(s, r, dir, host, env) == Ok(l') && r.ownerFee <= r.newSource
    ensures SwapFeeIs(s, r, dir, host, env, l', w)
  {
    if r.ownerFee == 0 {
      w := FeeWorking(0, 0);
    } else {
      var kept := r.newSource - r.ownerFee;
      var (a, b) := if dir.AtoB? then (kept, r.newDestination) else (r.newDestination, kept);
      w := FeeShowsWorking(s, r.ownerFee, a, b, s.supply, dir, host, Some(s.keys.feeAccount), env, l');
    }
  }

  lemma SwapFeeGiven(s: State, r: SwapResult, dir: TradeDirection, host: Option<Key>, env: Env, l': Lp, w: FeeWorking)
    requires SwapFeeIs(s, r, dir, host, env, l', w)
    ensures SwapOwnerFee(s, r, dir, host, env) == Ok(l')
  {
    if r.ownerFee > 0 {
      var kept := r.newSource - r.ownerFee;
      var (a, b) := if dir.AtoB? then (kept, r.newDestination) else (r.newDestination, kept);
      WorkingGivesFee(s, r.ownerFee, a, b, s.supply, dir, host, Some(s.keys.feeAccount), env, l', w);
    }
  }

  lemma SettleRule(s: State, r: SwapResult, paid: U64, out: U64, dir: TradeDirection, source: Key, destination: Key,
                   host: Option<Key>, env: Env, s': State)
    ensures SettleSwap(s, r, paid, out, dir, source, destination, host, env) == Ok(s') <==>
              && SwapPaid(s, paid, out, dir, source, destination, s') && SameTerms(s, s')
              && SwapOwnerFee(s, r, dir, host, env) == Ok(Lp(s'.lp, s'.supply))
  {
    match dir
    case AtoB =>
      PaidRule(s.a, source, s.keys.vaultA, paid, s'.a);
      PaidRule(s.b, s.keys.vaultB, destination, out, s'.b);
    case BtoA =>
      PaidRule(s.b, source, s.keys.vaultB, paid, s'.b);
      PaidRule(s.a, s.keys.vaultA, destination, out, s'.a);
  }

  /** The checks and the quote that come before anything moves. */
  lemma SwapQuoted(s: State, amountIn: U64, minimumOut: U64, dir: TradeDirection, source: Key, destination: Key,
                   host: Option<Key>, env: Env, s': State, r: SwapResult)
    requires HasVaults(s)
    requires var (a, b) := (s.a[s.keys.vaultA], s.b[s.keys.vaultB]);
             SwapWithFees(s.curve, amountIn, if dir.AtoB? then a else b, if dir.AtoB? then b else a,
                          dir, s.fees, env.now) == Some(r)
    ensures SwapStep(s, amountIn, minimumOut, dir, source, destination, host, env) == Ok(s') <==>
              && source != (if dir.AtoB? then s.keys.vaultA else s.keys.vaultB)
              && destination != (if dir.AtoB? then s.keys.vaultB else s.keys.vaultA)
              && r.sourceSwapped < U64_LIMIT && minimumOut <= r.destinationSwapped < U64_LIMIT
              && SettleSwap(s, r, r.sourceSwapped, r.destinationSwapped, dir, source, destination, host, env) == Ok(s')
  {
  }

  lemma SwapShows(s: State, amountIn: U64, minimumOut: U64, dir: TradeDirection, source: Key, destination: Key,
                  host: Option<Key>, env: Env, s': State) returns (run: SwapRun)
    requires SwapStep(s, amountIn, minimumOut, dir, source, destination, host, env) == Ok(s')
    ensures SwapAllowed(s, amountIn, minimumOut, dir, source, destination, host, env, s', run)
  {
    var a, b := s.a[s.keys.vaultA], s.b[s.keys.vaultB];
    var (x, y) := if dir.AtoB? then (a, b) else (b, a);
    var r := SwapWithFees(s.curve, amountIn, x, y, dir, s.fees, env.now).value;
    SwapQuoted(s, amountIn, minimumOut, dir, source, destination, host, env, s', r);
    SettleRule(s, r, r.sourceSwapped, r.destinationSwapped, dir, source, destination, host, env, s');
    var w := SwapShowsWorking(s.curve, amountIn, x, y, dir, s.fees, env.now, r);
    FeeWithinSource(s.curve, amountIn, x, y, dir, s.fees, env.now, r, w);
    var fee := SwapFeeShows(s, r, dir, host, env, Lp(s'.lp, s'.supply));
    run := SwapRun(r, w, fee);
  }

  lemma FeeWithinSource(c: Curve, source: U128, x: U128, y: U128, dir: TradeDirection, fees: Fees, now: U128,
                        r: SwapResult, w: Working)
    requires SwapIs(c, source, x, y, dir, fees, now, r, w)
    ensures r.ownerFee <= r.newSource
  {
  }

  lemma SwapGiven(s: State, amountIn: U64, minimumOut: U64, dir: TradeDirection, source: Key, destination: Key,
                  host: Option<Key>, env: Env, s': State, run: SwapRun)
    requires SwapAllowed(s, amountIn, minimumOut, dir, source, destination, host, env, s', run)
    ensures SwapStep(s, amountIn, minimumOut, dir, source, destination, host, env) == Ok(s')
  {
    var a, b := s.a[s.keys.vaultA], s.b[s.keys.vaultB];
    var (x, y) := if dir.AtoB? then (a, b) else (b, a);
    var r := run.r;
    WorkingGivesSwap(s.curve, amountIn, x, y, dir, s.fees, env.now, r, run.w);
    SwapFeeGiven(s, r, dir, host, env, Lp(s'.lp, s'.supply), run.fee);
    SettleRule(s, r, r.sourceSwapped, r.destinationSwapped, dir, source, destination, host, env, s');
    SwapQuoted(s, amountIn, minimumOut, dir, source, destination, host, env, s', r);
  }

  // ---------------------------------------------------------------------------
  // Both tokens
  // ---------------------------------------------------------------------------

  /** An all-token deposit pays the rounded-up parts, within the maxima and none of them
      nothing on the constant-product curve, and mints exactly the LP tokens asked for. */
  ghost predicate DepositAllAllowed(s: State, x: U64, maxA: U64, maxB: U64, sourceA: Key, sourceB: Key,
                                    destination: Key, s': State, payA: U64, payB: U64)
  {
    && HasVaults(s) && SameTerms(s, s') && !s.curve.OffsetCurve?
    && sourceA != s.keys.vaultA && sourceB != s.keys.vaultB
    && TokensAre(s.curve, x, s.supply, s.a[s.keys.vaultA], s.b[s.keys.vaultB], Up, payA, payB)
    && payA <= maxA && payB <= maxB
    && (s.curve.ConstantProductCurve? ==> payA > 0 && payB > 0)
    && Paid(s.a, sourceA, s.keys.vaultA, payA, s'.a)
    && Paid(s.b, sourceB, s.keys.vaultB, payB, s'.b)
    && Credited(Lp(s.lp, s.supply), destination, x, Lp(s'.lp, s'.supply))
  }

  lemma DepositAllShows(s: State, x: U64, maxA: U64, maxB: U64, sourceA: Key, sourceB: Key, destination: Key, s': State)
    returns (payA: U64, payB: U64)
    requires DepositAllStep(s, x, maxA, maxB, sourceA, sourceB, destination) == Ok(s')
    ensures DepositAllAllowed(s, x, maxA, maxB, sourceA, sourceB, destination, s', payA, payB)
  {
    var a, b := s.a[s.keys.vaultA], s.b[s.keys.vaultB];
    var t := PoolTokensToTradingTokens(s.curve, x, s.supply, a, b, Up).value;
    payA, payB := t.a, t.b;
    TokensRule(s.curve, x, s.supply, a, b, Up, payA, payB);
    PaidRule(s.a, sourceA, s.keys.vaultA, payA, s'.a);
    PaidRule(s.b, sourceB, s.keys.vaultB, payB, s'.b);
    CreditedRule(Lp(s.lp, s.supply), destination, x, Lp(s'.lp, s'.supply));
  }

  lemma DepositAllGiven(s: State, x: U64, maxA: U64, maxB: U64, sourceA: Key, sourceB: Key, destination: Key,
                        s': State, payA: U64, payB: U64)
    requires DepositAllAllowed(s, x, maxA, maxB, sourceA, sourceB, destination, s', payA, payB)
    ensures DepositAllStep(s, x, maxA, maxB, sourceA, sourceB, destination) == Ok(s')
  {
    TokensRule(s.curve, x, s.supply, s.a[s.keys.vaultA], s.b[s.keys.vaultB], Up, payA, payB);
    PaidRule(s.a, sourceA, s.keys.vaultA, payA, s'.a);
    PaidRule(s.b, sourceB, s.keys.vaultB, payB, s'.b);
    CreditedRule(Lp(s.lp, s.supply), destination, x, Lp(s'.lp, s'.supply));
  }

  /** What an all-token withdrawal works out: the fee and both quotes. */
  datatype ExitRun = ExitRun(fee: U64, quoteA: U64, quoteB: U64)

  /** A payment out of a vault that need not happen when there is nothing to pay. */
  ghost predicate PaidOut(m: Balances, vault: Key, destination: Key, out: nat, m': Balances) {
    if out == 0 then m' == m else Paid(m, vault, destination, out, m')
  }

  predicate IsLeast(z: nat, x: nat, y: nat) {
    z <= x && z <= y && (z == x || z == y)
  }

  /** An all-token withdrawal: the fee off the LP tokens offered, the rest is burnt and
      pays its rounded-down parts, never more than a vault holds, at least the minima, and
      on the constant-product curve nothing only from an empty vault. */
  ghost predicate WithdrawAllAllowed(s: State, x: U64, minA: U64, minB: U64, source: Key, destinationA: Key,
                                     destinationB: Key, s': State, run: ExitRun, outA: U64, outB: U64)
  {
    && HasVaults(s) && SameTerms(s, s')
    && destinationA != s.keys.vaultA && destinationB != s.keys.vaultB
    && WithdrawFeeOf(s.keys, s.lp, s.fees, x, source, run.fee) && run.fee <= x
    && var (a, b) := (s.a[s.keys.vaultA], s.b[s.keys.vaultB]);
       && TokensAre(s.curve, x - run.fee, s.supply, a, b, Down, run.quoteA, run.quoteB)
       && IsLeast(outA, a, run.quoteA) && IsLeast(outB, b, run.quoteB)
       && minA <= outA && minB <= outB
       && (s.curve.ConstantProductCurve? ==> (outA == 0 ==> a == 0) && (outB == 0 ==> b == 0))
       && PaidAndBurnt(s.keys, Lp(s.lp, s.supply), source, run.fee, x - run.fee, Lp(s'.lp, s'.supply))
       && PaidOut(s.a, s.keys.vaultA, destinationA, outA, s'.a)
       && PaidOut(s.b, s.keys.vaultB, destinationB, outB, s'.b)
  }

  lemma WithdrawAllShows(s: State, x: U64, minA: U64, minB: U64, source: Key, destinationA: Key, destinationB: Key,
                         s': State) returns (run: ExitRun, outA: U64, outB: U64)
    requires WithdrawAllStep(s, x, minA, minB, source, destinationA, destinationB) == Ok(s')
    ensures WithdrawAllAllowed(s, x, minA, minB, source, destinationA, destinationB, s', run, outA, outB)
  {
    var a, b := s.a[s.keys.vaultA], s.b[s.keys.vaultB];
    var fee := WithdrawFee(s.keys, s.lp, s.fees, x, source).value;
    var t := PoolTokensToTradingTokens(s.curve, x - fee, s.supply, a, b, Down).value;
    run := ExitRun(fee, t.a, t.b);
    outA, outB := Least(a, t.a), Least(b, t.b);
    WithdrawFeeRule(s.keys, s.lp, s.fees, x, source, fee);
    TokensRule(s.curve, x - fee, s.supply, a, b, Down, t.a, t.b);
    PaidAndBurntRule(s.keys, Lp(s.lp, s.supply), source, fee, x - fee, Lp(s'.lp, s'.supply));
    PaidRule(s.a, s.keys.vaultA, destinationA, outA, s'.a);
    PaidRule(s.b, s.keys.vaultB, destinationB, outB, s'.b);
  }

  lemma WithdrawAllGiven(s: State, x: U64, minA: U64, minB: U64, source: Key, destinationA: Key, destinationB: Key,
                         s': State, run: ExitRun, outA: U64, outB: U64)
    requires WithdrawAllAllowed(s, x, minA, minB, source, destinationA, destinationB, s', run, outA, outB)
    ensures WithdrawAllStep(s, x, minA, minB, source, destinationA, destinationB) == Ok(s')
  {
    var a, b := s.a[s.keys.vaultA], s.b[s.keys.vaultB];
    WithdrawFeeRule(s.keys, s.lp, s.fees, x, source, run.fee);
    TokensRule(s.curve, x - run.fee, s.supply, a, b, Down, run.quoteA, run.quoteB);
    PaidAndBurntRule(s.keys, Lp(s.lp, s.supply), source, run.fee, x - run.fee, Lp(s'.lp, s'.supply));
    PaidRule(s.a, s.keys.vaultA, destinationA, outA, s'.a);
    PaidRule(s.b, s.keys.vaultB, destinationB, outB, s'.b);
  }

  // ---------------------------------------------------------------------------
  // One token
  // ---------------------------------------------------------------------------

  /** A payment of one token, the other left alone. */
  ghost predicate PaidOn(s: State, side: TradeDirection, from: Key, to: Key, amount: nat, s': State) {
    match side
    case AtoB => Paid(s.a, from, to, amount, s'.a) && s'.b == s.b
    case BtoA => Paid(s.b, from, to, amount, s'.b) && s'.a == s.a
  }

  lemma PaidOnRule(s: State, side: TradeDirection, from: Key, to: Key, amount: U64, s': State)
    ensures TransferTrading(Trading(s.a, s.b), side, from, to, amount) == Ok(Trading(s'.a, s'.b))
       <==> PaidOn(s, side, from, to, amount, s')
  {
    PaidRule(s.a, from, to, amount, s'.a);
    PaidRule(s.b, from, to, amount, s'.b);
  }

  /** What a single-sided deposit works out: LP tokens minted, both fees, the owner's fee
      as LP tokens, and the LP ledger once that is minted. */
  datatype DepositRun = DepositRun(minted: U64, owner: U128, trade: U128, fee: FeeWorking, l: Lp)

  /** Whom a single-sided deposit's owner fee may go to. */
  predicate FeeReceivers(keys: PoolKeys, given: FeeAccounts, host: Option<Key>, feeAccount: Option<Key>) {
    match given
    case NoFeeAccount => host == None && feeAccount == None
    case FeeAccount => host == None && feeAccount == Some(keys.feeAccount)
    case FeeAndHost(h) => host == Some(h) && feeAccount == Some(keys.feeAccount)
  }

  /** The owner's fee of a deposit, on the reserves and supply the deposit leaves, the fee
      held out. */
  ghost predicate DepositFeeIs(s: State, amount: U64, side: TradeDirection, given: FeeAccounts, env: Env,
                               run: DepositRun)
    requires HasVaults(s)
  {
    var (a, b) := (s.a[s.keys.vaultA], s.b[s.keys.vaultB]);
    exists host: Option<Key>, feeAccount: Option<Key> ::
      && FeeReceivers(s.keys, given, host, feeAccount)
      && match side
         case AtoB =>
           && run.owner <= a + amount
           && FeeMinted(s, run.owner, a + amount - run.owner, b, s.supply + run.minted, side, host, feeAccount,
                        env, run.l, run.fee)
         case BtoA =>
           && run.owner <= b + amount
           && FeeMinted(s, run.owner, a, b + amount - run.owner, s.supply + run.minted, side, host, feeAccount,
                        env, run.l, run.fee)
  }

  /** A single-sided deposit: the LP tokens meet the rules and the minimum and are some,
      the owner's fee is minted, the source pays exactly the amount, and the depositor is
      credited. */
  ghost predicate DepositSingleAllowed(s: State, amount: U64, minLp: U64, side: TradeDirection, source: Key,
                                       destination: Key, given: FeeAccounts, env: Env, s': State, run: DepositRun)
  {
    && HasVaults(s) && SameTerms(s, s') && !s.curve.OffsetCurve?
    && source != (if side.AtoB? then s.keys.vaultA else s.keys.vaultB)
    && DepositIs(s.curve, amount, s.a[s.keys.vaultA], s.b[s.keys.vaultB], s.supply, side, s.fees, env.now, env.root,
                 run.minted, run.owner, run.trade)
    && minLp <= run.minted && 0 < run.minted
    && DepositFeeIs(s, amount, side, given, env, run)
    && PaidOn(s, side, source, if side.AtoB? then s.keys.vaultA else s.keys.vaultB, amount, s')
    && Credited(run.l, destination, run.minted, Lp(s'.lp, s'.supply))
  }

  lemma DepositFeeShows(s: State, amount: U64, side: TradeDirection, given: FeeAccounts, env: Env,
                        minted: U64, owner: U128, trade: U128, l: Lp) returns (run: DepositRun)
    requires HasVaults(s) && owner <= amount
    requires DepositOwnerFee(s, s.a[s.keys.vaultA], s.b[s.keys.vaultB], amount, minted, owner, side, given, env)
          == Ok(l)
    ensures run.minted == minted && run.owner == owner && run.trade == trade && run.l == l
    ensures DepositFeeIs(s, amount, side, given, env, run)
  {
    var a, b := s.a[s.keys.vaultA], s.b[s.keys.vaultB];
    var host := if given.FeeAndHost? then Some(given.host) else None;
    var feeAccount := if given.NoFeeAccount? then None else Some(s.keys.feeAccount);
    var fee := FeeWorking(0, 0);
    if owner > 0 {
      var (a', b') := if side.AtoB? then (a + amount - owner, b) else (a, b + amount - owner);
      fee := FeeShowsWorking(s, owner, a', b', s.supply + minted, side, host, feeAccount, env, l);
    }
    run := DepositRun(minted, owner, trade, fee, l);
    assert FeeReceivers(s.keys, given, host, feeAccount);
  }

  lemma DepositFeeGiven(s: State, amount: U64, side: TradeDirection, given: FeeAccounts, env: Env, run: DepositRun)
    requires HasVaults(s) && DepositFeeIs(s, amount, side, given, env, run)
    ensures DepositOwnerFee(s, s.a[s.keys.vaultA], s.b[s.keys.vaultB], amount, run.minted, run.owner, side, given, env)
         == Ok(run.l)
  {
    var a, b := s.a[s.keys.vaultA], s.b[s.keys.vaultB];
    if run.owner > 0 {
      var host := if given.FeeAndHost? then Some(given.host) else None;
      var feeAccount := if given.NoFeeAccount? then None else Some(s.keys.feeAccount);
      var (a', b') :=
        if side.AtoB? then (a + amount - run.owner, b) else (a, b + amount - run.owner);
      WorkingGivesFee(s, run.owner, a', b', s.supply + run.minted, side, host, feeAccount, env, run.l, run.fee);
    }
  }

  lemma DepositSingleShows(s: State, amount: U64, minLp: U64, side: TradeDirection, source: Key, destination: Key,
                           given: FeeAccounts, env: Env, s': State) returns (run: DepositRun)
    requires DepositSingleStep(s, amount, minLp, side, source, destination, given, env) == Ok(s')
    ensures DepositSingleAllowed(s, amount, minLp, side, source, destination, given, env, s', run)
  {
    var a, b := s.a[s.keys.vaultA], s.b[s.keys.vaultB];
    var r := DepositWithFees(s.curve, amount, a, b, s.supply, side, s.fees, env.now, env.root).value;
    var trade := DepositShowsWorking(s.curve, amount, a, b, s.supply, side, s.fees, env.now, env.root, r);
    var l := DepositOwnerFee(s, a, b, amount, r.amount, r.ownerFee, side, given, env).value;
    run := DepositFeeShows(s, amount, side, given, env, r.amount, r.ownerFee, trade, l);
    PaidOnRule(s, side, source, VaultOf(s.keys, side), amount, s');
    CreditedRule(l, destination, r.amount, Lp(s'.lp, s'.supply));
  }

  lemma DepositSingleGiven(s: State, amount: U64, minLp: U64, side: TradeDirection, source: Key, destination: Key,
                           given: FeeAccounts, env: Env, s': State, run: DepositRun)
    requires DepositSingleAllowed(s, amount, minLp, side, source, destination, given, env, s', run)
    ensures DepositSingleStep(s, amount, minLp, side, source, destination, given, env) == Ok(s')
  {
    var a, b := s.a[s.keys.vaultA], s.b[s.keys.vaultB];
    WorkingGivesDeposit(s.curve, amount, a, b, s.supply, side, s.fees, env.now, env.root,
                        SingleResult(run.minted, run.owner), run.trade);
    DepositFeeGiven(s, amount, side, given, env, run);
    PaidOnRule(s, side, source, VaultOf(s.keys, side), amount, s');
    CreditedRule(run.l, destination, run.minted, Lp(s'.lp, s'.supply));
  }

  /** What a single-sided withdrawal works out: LP tokens to burn, the owner's fee in
      tokens and as LP tokens, the gross-up, the withdrawal fee, and the LP ledger once the
      owner's fee is minted. */
  datatype WithdrawRun = WithdrawRun(burnt: U128, owner: U128, grossed: U128, withdrawFee: U128, fee: FeeWorking, l: Lp)

  /** The owner's fee of a withdrawal, on the reserves and supply it leaves, the fee held
      out. */
  ghost predicate WithdrawalFeeIs(s: State, amount: U64, side: TradeDirection, host: Option<Key>, env: Env,
                                  run: WithdrawRun)
    requires HasVaults(s)
  {
    var (a, b) := (s.a[s.keys.vaultA], s.b[s.keys.vaultB]);
    if run.owner == 0 then run.l == Lp(s.lp, s.supply)
    else
      && run.burnt <= s.supply
      && match side
         case AtoB =>
           && amount + run.owner <= a
           && FeeMinted(s, run.owner, a - amount - run.owner, b, s.supply - run.burnt, side, host,
                        Some(s.keys.feeAccount), env, run.l, run.fee)
         case BtoA =>
           && amount + run.owner <= b
           && FeeMinted(s, run.owner, a, b - amount - run.owner, s.supply - run.burnt, side, host,
                        Some(s.keys.feeAccount), env, run.l, run.fee)
  }

  /** A single-sided withdrawal: what it costs meets the rules, with the withdrawal fee on
      top it is some and within the maximum; the owner's fee is minted, the source pays
      the withdrawal fee and has the cost burnt, and exactly the amount is paid out. */
  ghost predicate WithdrawSingleAllowed(s: State, amount: U64, maxLp: U64, side: TradeDirection, source: Key,
                                        destination: Key, host: Option<Key>, env: Env, s': State, run: WithdrawRun)
  {
    && HasVaults(s) && SameTerms(s, s')
    && destination != (if side.AtoB? then s.keys.vaultA else s.keys.vaultB)
    && WithdrawalIs(s.curve, amount, s.a[s.keys.vaultA], s.b[s.keys.vaultB], s.supply, side, s.fees, env.now, env.root,
                    run.burnt, run.owner, run.grossed)
    && WithdrawFeeOf(s.keys, s.lp, s.fees, run.burnt, source, run.withdrawFee)
    && WithdrawalFeeIs(s, amount, side, host, env, run)
    && 0 < run.burnt + run.withdrawFee <= maxLp
    && PaidAndBurnt(s.keys, run.l, source, run.withdrawFee, run.burnt, Lp(s'.lp, s'.supply))
    && PaidOn(s, side, if side.AtoB? then s.keys.vaultA else s.keys.vaultB, destination, amount, s')
  }

  lemma WithdrawalFeeShows(s: State, amount: U64, side: TradeDirection, host: Option<Key>, env: Env,
                           r: SingleResult, l: Lp) returns (fee: FeeWorking)
    requires HasVaults(s)
    requires WithdrawalOwnerFee(s, s.a[s.keys.vaultA], s.b[s.keys.vaultB], amount, r, side, host, env) == Ok(l)
    ensures forall grossed: U128, withdrawFee: U128 ::
              WithdrawalFeeIs(s, amount, side, host, env,
                              WithdrawRun(r.amount, r.ownerFee, grossed, withdrawFee, fee, l))
  {
    fee := FeeWorking(0, 0);
    if r.ownerFee > 0 {
      var a, b := s.a[s.keys.vaultA], s.b[s.keys.vaultB];
      var (a', b') := if side.AtoB? then (a - amount - r.ownerFee, b) else (a, b - amount - r.ownerFee);
      fee := FeeShowsWorking(s, r.ownerFee, a', b', s.supply - r.amount, side, host, Some(s.keys.feeAccount), env, l);
    }
  }

  lemma WithdrawalFeeGiven(s: State, amount: U64, side: TradeDirection, host: Option<Key>, env: Env, run: WithdrawRun)
    requires HasVaults(s) && WithdrawalFeeIs(s, amount, side, host, env, run)
    ensures WithdrawalOwnerFee(s, s.a[s.keys.vaultA], s.b[s.keys.vaultB], amount, SingleResult(run.burnt, run.owner),
                               side, host, env) == Ok(run.l)
  {
    if run.owner > 0 {
      var a, b := s.a[s.keys.vaultA], s.b[s.keys.vaultB];
      var (a', b') := if side.AtoB? then (a - amount - run.owner, b) else (a, b - amount - run.owner);
      WorkingGivesFee(s, run.owner, a', b', s.supply - run.burnt, side, host, Some(s.keys.feeAccount), env,
                      run.l, run.fee);
    }
  }

  lemma WithdrawSingleShows(s: State, amount: U64, maxLp: U64, side: TradeDirection, source: Key, destination: Key,
                            host: Option<Key>, env: Env, s': State) returns (run: WithdrawRun)
    requires WithdrawSingleStep(s, amount, maxLp, side, source, destination, host, env) == Ok(s')
    ensures WithdrawSingleAllowed(s, amount, maxLp, side, source, destination, host, env, s', run)
  {
    var a, b := s.a[s.keys.vaultA], s.b[s.keys.vaultB];
    var r := WithdrawWithFees(s.curve, amount, a, b, s.supply, side, s.fees, env.now, env.root).value;
    var grossed := WithdrawalShowsWorking(s.curve, amount, a, b, s.supply, side, s.fees, env.now, env.root, r);
    var withdrawFee := WithdrawFee(s.keys, s.lp, s.fees, r.amount, source).value;
    var l := WithdrawalOwnerFee(s, a, b, amount, r, side, host, env).value;
    var fee := WithdrawalFeeShows(s, amount, side, host, env, r, l);
    run := WithdrawRun(r.amount, r.ownerFee, grossed, withdrawFee, fee, l);
    WithdrawFeeRule(s.keys, s.lp, s.fees, r.amount, source, withdrawFee);
    PaidAndBurntRule(s.keys, l, source, withdrawFee, r.amount, Lp(s'.lp, s'.supply));
    PaidOnRule(s, side, VaultOf(s.keys, side), destination, amount, s');
  }

  /** The instruction once its quote, its fees and its ledgers are known. */
  lemma WithdrawSingleQuoted(s: State, amount: U64, maxLp: U64, side: TradeDirection, source: Key, destination: Key,
                             host: Option<Key>, env: Env, s': State, r: SingleResult, fee: U128, l: Lp)
    requires HasVaults(s)
    requires var (a, b) := (s.a[s.keys.vaultA], s.b[s.keys.vaultB]);
             && WithdrawWithFees(s.curve, amount, a, b, s.supply, side, s.fees, env.now, env.root) == Some(r)
             && WithdrawalOwnerFee(s, a, b, amount, r, side, host, env) == Ok(l)
    requires WithdrawFee(s.keys, s.lp, s.fees, r.amount, source) == Ok(fee)
    requires destination != VaultOf(s.keys, side) && 0 < r.amount + fee <= maxLp && SameTerms(s, s')
    requires PayAndBurn(s.keys, l, source, fee, r.amount) == Ok(Lp(s'.lp, s'.supply))
    requires TransferTrading(Trading(s.a, s.b), side, VaultOf(s.keys, side), destination, amount)
          == Ok(Trading(s'.a, s'.b))
    ensures WithdrawSingleStep(s, amount, maxLp, side, source, destination, host, env) == Ok(s')
  {
  }

  lemma WithdrawSingleGiven(s: State, amount: U64, maxLp: U64, side: TradeDirection, source: Key, destination: Key,
                            host: Option<Key>, env: Env, s': State, run: WithdrawRun)
    requires WithdrawSingleAllowed(s, amount, maxLp, side, source, destination, host, env, s', run)
    ensures WithdrawSingleStep(s, amount, maxLp, side, source, destination, host, env) == Ok(s')
  {
    var a, b := s.a[s.keys.vaultA], s.b[s.keys.vaultB];
    var r := SingleResult(run.burnt, run.owner);
    WorkingGivesWithdrawal(s.curve, amount, a, b, s.supply, side, s.fees, env.now, env.root, r, run.grossed);
    WithdrawFeeRule(s.keys, s.lp, s.fees, run.burnt, source, run.withdrawFee);
    WithdrawalFeeGiven(s, amount, side, host, env, run);
    PaidAndBurntRule(s.keys, run.l, source, run.withdrawFee, run.burnt, Lp(s'.lp, s'.supply));
    PaidOnRule(s, side, VaultOf(s.keys, side), destination, amount, s');
    WithdrawSingleQuoted(s, amount, maxLp, side, source, destination, host, env, s', r, run.withdrawFee, run.l);
  }

  // ---------------------------------------------------------------------------
  // The token program used directly
  // ---------------------------------------------------------------------------

  /** Nobody moves what only the program may: the vaults and the initial LP tokens. */
  predicate MayTake(keys: PoolKeys, mint: Mint, key: Key) {
    match mint
    case MintA => key != keys.vaultA
    case MintB => key != keys.vaultB
    case MintLp => key != keys.initialLp
  }

  /** One ledger of an instruction's three, the others left alone. */
  ghost predicate OnlyAccounts(s: State, mint: Mint, m': Balances, s': State) {
    match mint
    case MintA => s'.a == m' && s'.b == s.b && s'.lp == s.lp
    case MintB => s'.b == m' && s'.a == s.a && s'.lp == s.lp
    case MintLp => s'.lp == m' && s'.a == s.a && s'.b == s.b
  }

  ghost predicate DirectOn(keys: PoolKeys, m: Balances, step: TokenCall, m': Balances) {
    match step
    case TransferTokens(mint, from, to, amount) => MayTake(keys, mint, from) && Paid(m, from, to, amount, m')
    case BurnTokens(mint, from, amount) =>
      && MayTake(keys, mint, from) && from in m && amount <= m[from] && m'.Keys == m.Keys
      && forall k :: k in m ==> m'[k] == m[k] - if k == from then amount else 0
    case OpenAccount(mint, key) =>
      && key !in m && m'.Keys == m.Keys + {key} && m'[key] == 0 && forall k :: k in m ==> m'[k] == m[k]
    case CloseAccount(mint, key) =>
      && MayTake(keys, mint, key) && key in m && m[key] == 0
      && m'.Keys == m.Keys - {key} && forall k :: k in m && k != key ==> m'[k] == m[k]
  }

  /** A step on accounts of one's own; burning LP tokens takes them off the supply. */
  ghost predicate DirectAllowed(s: State, step: TokenCall, s': State) {
    && SameTerms(s, s')
    && s'.supply + (if step.BurnTokens? && step.mint.MintLp? then step.amount else 0) == s.supply
    && match step.mint
       case MintA => DirectOn(s.keys, s.a, step, s'.a) && OnlyAccounts(s, MintA, s'.a, s')
       case MintB => DirectOn(s.keys, s.b, step, s'.b) && OnlyAccounts(s, MintB, s'.b, s')
       case MintLp => DirectOn(s.keys, s.lp, step, s'.lp) && OnlyAccounts(s, MintLp, s'.lp, s')
  }

  lemma OnAccountsRule(keys: PoolKeys, m: Balances, step: TokenCall, m': Balances)
    ensures DirectOn(keys, m, step, m')
       <==> OnAccounts(m, step) == Ok(m')
            && (Spender(step).Some? ==> MayTake(keys, step.mint, Spender(step).value))
  {
    match step
    case TransferTokens(mint, from, to, amount) => PaidRule(m, from, to, amount, m');
    case BurnTokens(mint, from, amount) =>
      if DirectOn(keys, m, step, m') {
        assert m' == m[from := m[from] - amount];
      }
    case OpenAccount(mint, key) =>
      if DirectOn(keys, m, step, m') {
        assert m' == m[key := 0];
      }
    case CloseAccount(mint, key) =>
      if DirectOn(keys, m, step, m') {
        assert m' == m - {key};
      }
  }

  lemma ReplacedRule(s: State, mint: Mint, m: Balances, supply: U64, s': State)
    ensures WithAccounts(s, mint, m).(supply := supply) == s' <==>
              && AccountsOf(s', mint) == m && OnlyAccounts(s, mint, m, s') && SameTerms(s, s') && s'.supply == supply
  {
  }

  /** A direct step given what it does to its own ledger. */
  lemma StepOnMint(s: State, step: TokenCall, s': State)
    ensures TokenStep(s, step) == Ok(s') <==>
              && (Spender(step).Some? ==> MayTake(s.keys, step.mint, Spender(step).value))
              && OnAccounts(AccountsOf(s, step.mint), step) == Ok(AccountsOf(s', step.mint))
              && OnlyAccounts(s, step.mint, AccountsOf(s', step.mint), s') && SameTerms(s, s')
              && s'.supply + (if step.BurnTokens? && step.mint.MintLp? then step.amount else 0) == s.supply
  {
    var taken := if step.BurnTokens? && step.mint.MintLp? then step.amount else 0;
    if taken <= s.supply && OnAccounts(AccountsOf(s, step.mint), step).Ok? {
      ReplacedRule(s, step.mint, OnAccounts(AccountsOf(s, step.mint), step).value, s.supply - taken, s');
    }
  }

  lemma DirectRule(s: State, step: TokenCall, s': State)
    ensures TokenStep(s, step) == Ok(s') <==> DirectAllowed(s, step, s')
  {
    StepOnMint(s, step, s');
    OnAccountsRule(s.keys, AccountsOf(s, step.mint), step, AccountsOf(s', step.mint));
  }

  // ---------------------------------------------------------------------------
  // Every instruction
  // ---------------------------------------------------------------------------

  /** An update of a redemption-rate pool that meets the update rule. */
  predicate SetRateAllowed(s: State, ssr: U128, rho: U128, chi: U128, now: U128, s': State) {
    && s.curve.RedemptionRateCurve?
    && Admissible(s.curve.rate, ssr, rho, chi, now)
    && s' == s.(curve := RedemptionRateCurve(RateCurve(s.curve.rate.maxSsr, ssr, rho, chi)))
  }

  /** The state s' is what the rules make of a call. */
  ghost predicate Allowed(s: State, call: Call, env: Env, s': State) {
    match call
    case Swap(amountIn, minimumOut, dir, source, destination, host) =>
      exists run :: SwapAllowed(s, amountIn, minimumOut, dir, source, destination, host, env, s', run)
    case DepositAll(x, maxA, maxB, sourceA, sourceB, destination) =>
      exists payA: U64, payB: U64 ::
        DepositAllAllowed(s, x, maxA, maxB, sourceA, sourceB, destination, s', payA, payB)
    case WithdrawAll(x, minA, minB, source, destinationA, destinationB) =>
      exists run, outA: U64, outB: U64 ::
        WithdrawAllAllowed(s, x, minA, minB, source, destinationA, destinationB, s', run, outA, outB)
    case DepositSingle(amount, minLp, side, source, destination, given) =>
      exists run :: DepositSingleAllowed(s, amount, minLp, side, source, destination, given, env, s', run)
    case WithdrawSingle(amount, maxLp, side, source, destination, host) =>
      exists run :: WithdrawSingleAllowed(s, amount, maxLp, side, source, destination, host, env, s', run)
    case SetRate(ssr, rho, chi) => SetRateAllowed(s, ssr, rho, chi, env.now, s')
    case Direct(step) => DirectAllowed(s, step, s')
  }

  lemma AppliedIsAllowed(s: State, call: Call, env: Env, s': State)
    requires Apply(s, call, env) == Ok(s')
    ensures Allowed(s, call, env, s')
  {
    match call
    case Swap(amountIn, minimumOut, dir, source, destination, host) =>
      var run := SwapShows(s, amountIn, minimumOut, dir, source, destination, host, env, s');
    case DepositAll(x, maxA, maxB, sourceA, sourceB, destination) =>
      var payA, payB := DepositAllShows(s, x, maxA, maxB, sourceA, sourceB, destination, s');
    case WithdrawAll(x, minA, minB, source, destinationA, destinationB) =>
      var run, outA, outB := WithdrawAllShows(s, x, minA, minB, source, destinationA, destinationB, s');
    case DepositSingle(amount, minLp, side, source, destination, given) =>
      var run := DepositSingleShows(s, amount, minLp, side, source, destination, given, env, s');
    case WithdrawSingle(amount, maxLp, side, source, destination, host) =>
      var run := WithdrawSingleShows(s, amount, maxLp, side, source, destination, host, env, s');
    case SetRate(ssr, rho, chi) =>
      if s.curve.RedemptionRateCurve? {
        UpdateAcceptedIff(s.curve.rate, ssr, rho, chi, env.now);
      }
    case Direct(step) => DirectRule(s, step, s');
  }

  lemma AllowedIsApplied(s: State, call: Call, env: Env, s': State)
    requires Allowed(s, call, env, s')
    ensures Apply(s, call, env) == Ok(s')
  {
    match call
    case Swap(amountIn, minimumOut, dir, source, destination, host) =>
      var run :| SwapAllowed(s, amountIn, minimumOut, dir, source, destination, host, env, s', run);
      SwapGiven(s, amountIn, minimumOut, dir, source, destination, host, env, s', run);
    case DepositAll(x, maxA, maxB, sourceA, sourceB, destination) =>
      var payA: U64, payB: U64 :|
        DepositAllAllowed(s, x, maxA, maxB, sourceA, sourceB, destination, s', payA, payB);
      DepositAllGiven(s, x, maxA, maxB, sourceA, sourceB, destination, s', payA, payB);
    case WithdrawAll(x, minA, minB, source, destinationA, destinationB) =>
      var run, outA: U64, outB: U64 :|
        WithdrawAllAllowed(s, x, minA, minB, source, destinationA, destinationB, s', run, outA, outB);
      WithdrawAllGiven(s, x, minA, minB, source, destinationA, destinationB, s', run, outA, outB);
    case DepositSingle(amount, minLp, side, source, destination, given) =>
      var run :| DepositSingleAllowed(s, amount, minLp, side, source, destination, given, env, s', run);
      DepositSingleGiven(s, amount, minLp, side, source, destination, given, env, s', run);
    case WithdrawSingle(amount, maxLp, side, source, destination, host) =>
      var run :| WithdrawSingleAllowed(s, amount, maxLp, side, source, destination, host, env, s', run);
      WithdrawSingleGiven(s, amount, maxLp, side, source, destination, host, env, s', run);
    case SetRate(ssr, rho, chi) => UpdateAcceptedIff(s.curve.rate, ssr, rho, chi, env.now);
    case Direct(step) => DirectRule(s, step, s');
  }

  /** Every instruction of the pool does what the rules allow and refuses everything
      else. */
  lemma InstructionRule(s: State, call: Call, env: Env, s': State)
    ensures Apply(s, call, env) == Ok(s') <==> Allowed(s, call, env, s')
  {
    if Apply(s, call, env) == Ok(s') {
      AppliedIsAllowed(s, call, env, s');
    }
    if Allowed(s, call, env, s') {
      AllowedIsApplied(s, call, env, s');
    }
  }

  // ---------------------------------------------------------------------------
  // Initialization
  // ---------------------------------------------------------------------------

  predicate ProperFraction(num: nat, den: nat) {
    num < den || (num == 0 && den == 0)
  }

  /** A pool can be created on existing, so far empty LP accounts and a stocked vault A (and
      vault B under a constant product), with proper fees and a price or offset that is not
      zero; it starts with exactly the initial LP tokens, in their account. */
  ghost predicate CreationAllowed(a: Balances, b: Balances, lp: Balances, keys: PoolKeys, curve: Curve, fees: Fees,
                                  now: U128, s: State)
  {
    && keys.vaultA in a && keys.vaultB in b && keys.feeAccount in lp && keys.initialLp in lp
    && a[keys.vaultA] > 0 && (curve.ConstantProductCurve? ==> b[keys.vaultB] > 0)
    && (forall k :: k in lp ==> lp[k] == 0)
    && ProperFraction(fees.tradeNum, fees.tradeDen) && ProperFraction(fees.ownerTradeNum, fees.ownerTradeDen)
    && ProperFraction(fees.ownerWithdrawNum, fees.ownerWithdrawDen) && ProperFraction(fees.hostNum, fees.hostDen)
    && (match curve
        case ConstantProductCurve => true
        case ConstantPriceCurve(price) => price > 0
        case OffsetCurve(offset) => offset > 0
        case RedemptionRateCurve(_) => exists p: U256 :: p > 0 && PriceIs(curve, now, p))
    && s.a == a && s.b == b && s.curve == curve && s.fees == fees && s.keys == keys
    && s.supply == 1_000_000_000
    && s.lp.Keys == lp.Keys
    && forall k :: k in lp ==> s.lp[k] == if k == keys.initialLp then 1_000_000_000 else 0
  }

  lemma CurveCheckRule(curve: Curve, now: U128)
    ensures ValidateCurve(curve, now).Ok? <==>
              match curve
              case ConstantProductCurve => true
              case ConstantPriceCurve(price) => price > 0
              case OffsetCurve(offset) => offset > 0
              case RedemptionRateCurve(_) => exists p: U256 :: p > 0 && PriceIs(curve, now, p)
  {
    forall p: U256 ensures PriceOf(curve, now) == Some(p) <==> PriceIs(curve, now, p) {
      PriceRule(curve, now, p);
    }
  }

  lemma CreationRule(a: Balances, b: Balances, lp: Balances, keys: PoolKeys, curve: Curve, fees: Fees, env: Env,
                     s: State)
    ensures Initialize(a, b, lp, keys, curve, fees, env) == Ok(s)
       <==> CreationAllowed(a, b, lp, keys, curve, fees, env.now, s)
  {
    CurveCheckRule(curve, env.now);
    if CreationAllowed(a, b, lp, keys, curve, fees, env.now, s) {
      assert s.lp == lp[keys.initialLp := INITIAL_SWAP_POOL_AMOUNT];
    }
  }
}
