/** What a caller of the pool can rely on: its limits are honoured and the owner's
    fee goes where it should. */
module PoolSettlement {
  import opened Checked
  import opened Arith
  import opened Errors
  import opened Ledger
  import opened PriceCurve
  import opened FeeSchedule
  import opened SwapCurve
  import opened Pool
  import opened PoolInvariants
  import opened ShareValue
  import opened ShareRuns

  // ---------------------------------------------------------------------------
  // Limits
  // ---------------------------------------------------------------------------

  /** Balance of an account on one side; zero if it does not exist. */
  function Held(m: Balances, k: Key): nat {
    if k in m then m[k] else 0
  }

  function SideOf(s: State, side: TradeDirection): Balances {
    if side.AtoB? then s.a else s.b
  }

  lemma TransferMoves(m: Balances, from: Key, to: Key, amount: U64)
    requires Transfer(m, from, to, amount).Ok? && from != to
    ensures var m' := Transfer(m, from, to, amount).value;
            && amount <= Held(m, from) && Held(m', from) == Held(m, from) - amount
            && Held(m', to) == Held(m, to) + amount
            && forall k :: k != from && k != to ==> Held(m', k) == Held(m, k)
  {
  }

  /** A swap takes from the source account what the quote says and gives the
      destination account at least the minimum asked for. */
  lemma SwapHonoursMinimum(s: State, s': State, amountIn: U64, minimumOut: U64, dir: TradeDirection,
                           source: Key, destination: Key, host: Option<Key>, env: Env)
    requires Sound(s)
    requires SwapStep(s, amountIn, minimumOut, dir, source, destination, host, env) == Ok(s')
    ensures var (inSide, outSide) := (dir, Opposite(dir));
            var (a, b) := (s.a[s.keys.vaultA], s.b[s.keys.vaultB]);
            var (x, y) := if dir.AtoB? then (a, b) else (b, a);
            var r := SwapWithFees(s.curve, amountIn, x, y, dir, s.fees, env.now);
            && r.Some?
            && Held(SideOf(s', inSide), source) + r.value.sourceSwapped == Held(SideOf(s, inSide), source)
            && Held(SideOf(s', outSide), destination)
               == Held(SideOf(s, outSide), destination) + r.value.destinationSwapped
            && minimumOut <= r.value.destinationSwapped
  {
    var a, b := s.a[s.keys.vaultA], s.b[s.keys.vaultB];
    var (x, y) := if dir.AtoB? then (a, b) else (b, a);
    var r := SwapWithFees(s.curve, amountIn, x, y, dir, s.fees, env.now).value;
    TransferMoves(SideOf(s, dir), source, VaultOf(s.keys, dir), r.sourceSwapped);
    TransferMoves(SideOf(s, Opposite(dir)), VaultOf(s.keys, Opposite(dir)), destination, r.destinationSwapped);
  }

  /** An all-token deposit takes at most the stated maxima and mints exactly the LP
      tokens asked for. */
  lemma DepositAllHonoursMaxima(s: State, s': State, lpAmount: U64, maxA: U64, maxB: U64,
                                sourceA: Key, sourceB: Key, destination: Key)
    requires Sound(s)
    requires DepositAllStep(s, lpAmount, maxA, maxB, sourceA, sourceB, destination) == Ok(s')
    ensures Held(s.a, sourceA) <= Held(s'.a, sourceA) + maxA
    ensures Held(s.b, sourceB) <= Held(s'.b, sourceB) + maxB
    ensures Held(s'.lp, destination) == Held(s.lp, destination) + lpAmount
    ensures s'.supply == s.supply + lpAmount
  {
    var tokens := PoolTokensToTradingTokens(s.curve, lpAmount, s.supply, s.a[s.keys.vaultA], s.b[s.keys.vaultB],
                                            Up).value;
    TransferMoves(s.a, sourceA, s.keys.vaultA, tokens.a);
    TransferMoves(s.b, sourceB, s.keys.vaultB, tokens.b);
  }

  lemma PayAndBurnTakes(keys: PoolKeys, l: Lp, source: Key, fee: U64, burnt: U64)
    requires PayAndBurn(keys, l, source, fee, burnt).Ok?
    requires fee > 0 ==> source != keys.feeAccount
    ensures var l' := PayAndBurn(keys, l, source, fee, burnt).value;
            Held(l'.balances, source) + fee + burnt == Held(l.balances, source)
  {
    if fee > 0 {
      TransferMoves(l.balances, source, keys.feeAccount, fee);
    }
  }

  /** An all-token withdrawal costs exactly the LP tokens offered, fee included, and
      pays out at least the stated minima. */
  lemma WithdrawAllHonoursMinima(s: State, s': State, lpAmount: U64, minA: U64, minB: U64,
                                 source: Key, destinationA: Key, destinationB: Key)
    requires Sound(s)
    requires WithdrawAllStep(s, lpAmount, minA, minB, source, destinationA, destinationB) == Ok(s')
    ensures Held(s'.lp, source) + lpAmount == Held(s.lp, source)
    ensures Held(s.a, destinationA) + minA <= Held(s'.a, destinationA)
    ensures Held(s.b, destinationB) + minB <= Held(s'.b, destinationB)
  {
    var a, b := s.a[s.keys.vaultA], s.b[s.keys.vaultB];
    var fee := WithdrawFee(s.keys, s.lp, s.fees, lpAmount, source).value;
    var tokens := PoolTokensToTradingTokens(s.curve, lpAmount - fee, s.supply, a, b, Down).value;
    var outA, outB := Least(a, tokens.a), Least(b, tokens.b);
    PayAndBurnTakes(s.keys, Lp(s.lp, s.supply), source, fee, lpAmount - fee);
    if outA > 0 { TransferMoves(s.a, s.keys.vaultA, destinationA, outA); }
    if outB > 0 { TransferMoves(s.b, s.keys.vaultB, destinationB, outB); }
  }

  // ---------------------------------------------------------------------------
  // Where the owner's fee goes
  // ---------------------------------------------------------------------------

  /** The host's part of a minted owner fee; never the whole unless that is one token. */
  function HostPart(fees: Fees, amount: U128, host: Option<Key>): nat {
    if amount == 0 || host.None? || fees.HostFee(amount).None? then 0 else fees.HostFee(amount).value
  }

  /** Minting the owner's fee gives the host its part and the pool's fee account the
      rest, all of it when that account exists, and nothing to anyone else. */
  lemma OwnerFeeSplit(l: Lp, fees: Fees, amount: U128, host: Option<Key>, feeAccount: Option<Key>)
    requires MintOwnerFee(l, fees, amount, host, feeAccount).Ok?
    ensures var l' := MintOwnerFee(l, fees, amount, host, feeAccount).value;
            var toHost := HostPart(fees, amount, host);
            var toOwner := if feeAccount.Some? && feeAccount.value in l.balances then amount - toHost else 0;
            && toHost <= amount
            && l'.supply == l.supply + toHost + toOwner
            && forall k: Key :: Held(l'.balances, k) == Held(l.balances, k)
                             + (if host == Some(k) then toHost else 0)
                             + (if feeAccount == Some(k) then toOwner else 0)
  {
  }

  /** A successful single-sided withdrawal of B leaves the initial supply alone whenever
      its source is neither the pool's fee account nor the host named in the call:
      nothing is minted to anyone else, so it burns only what it held. */
  lemma OrdinarySourceLeavesSupply(s: State, call: Call, env: Env)
    requires Sound(s) && Apply(s, call, env).Ok? && OrdinarySource(s.keys, call)
    ensures LeavesSupply(s, call, env)
  {
    if call.WithdrawSingle? && call.side.BtoA? {
      var a, b := s.a[s.keys.vaultA], s.b[s.keys.vaultB];
      var r := WithdrawWithFees(s.curve, call.amount, a, b, s.supply, BtoA, s.fees, env.now, env.root).value;
      var l := WithdrawalOwnerFee(s, a, b, call.amount, r, BtoA, call.host, env).value;
      var fee := WithdrawFee(s.keys, s.lp, s.fees, r.amount, call.source).value;
      WithdrawalFeeSkips(s, a, b, call.amount, r, BtoA, call.host, env, call.source);
      PayAndBurnTakes(s.keys, l, call.source, fee, r.amount);
      SupplyFloor(s.keys, Lp(s.lp, s.supply), call.source);
    }
  }

  /** No single-sided withdrawal of B is made from an account that the owner's fee of
      the same instruction may be minted to. */
  predicate OrdinarySource(keys: PoolKeys, call: Call) {
    call.WithdrawSingle? && call.side.BtoA? ==> call.source != keys.feeAccount && call.host != Some(call.source)
  }

  lemma WithdrawalFeeSkips(s: State, a: U128, b: U128, amount: U64, r: SingleResult, side: TradeDirection,
                           host: Option<Key>, env: Env, other: Key)
    requires WithdrawalOwnerFee(s, a, b, amount, r, side, host, env).Ok?
    requires other != s.keys.feeAccount && host != Some(other)
    ensures Held(WithdrawalOwnerFee(s, a, b, amount, r, side, host, env).value.balances, other) == Held(s.lp, other)
  {
  }

  /** The share-value bound for any run of instructions that updates no rate and uses
      only ordinary sources, whether the instructions succeed or not. */
  lemma OrdinaryRunKeepsShareValue(s: State, t: U128, attempts: seq<Attempt>)
    requires Sound(s) && Accruing(s.curve, t) && InOrderFrom(t, attempts) && NoRateUpdates(attempts)
    requires forall i :: 0 <= i < |attempts| ==> OrdinarySource(s.keys, attempts[i].call)
    requires PriceOf(s.curve, EndTime(t, attempts)).Some?
    ensures PriceOf(s.curve, t).Some?
    ensures var s' := Run(s, attempts);
            && Sound(s')
            && LossWithin(LossCount(s, attempts),
                          ValueAt(s, PriceOf(s.curve, t).value), s.supply,
                          ValueAt(s', PriceOf(s.curve, EndTime(t, attempts)).value), s'.supply)
  {
    OrdinaryRunLeavesSupply(s, attempts);
    RunKeepsShareValue(s, t, attempts);
  }

  lemma {:induction false} OrdinaryRunLeavesSupply(s: State, attempts: seq<Attempt>)
    requires Sound(s)
    requires forall i :: 0 <= i < |attempts| ==> OrdinarySource(s.keys, attempts[i].call)
    ensures RunLeavesSupply(s, attempts)
    decreases |attempts|
  {
    if attempts != [] {
      var (call, env) := (attempts[0].call, attempts[0].env);
      if Apply(s, call, env).Ok? {
        OrdinarySourceLeavesSupply(s, call, env);
      }
      NextKeeps(s, call, env);
      OrdinaryRunLeavesSupply(Next(s, call, env), attempts[1..]);
    }
  }

  // ---------------------------------------------------------------------------
  // Single-sided limits
  // ---------------------------------------------------------------------------

  lemma DepositFeeGrows(s: State, a: U128, b: U128, amount: U64, minted: U64, ownerFee: U128,
                        side: TradeDirection, feeAccounts: FeeAccounts, env: Env, k: Key)
    requires DepositOwnerFee(s, a, b, amount, minted, ownerFee, side, feeAccounts, env).Ok?
    ensures var l := DepositOwnerFee(s, a, b, amount, minted, ownerFee, side, feeAccounts, env).value;
            Held(s.lp, k) <= Held(l.balances, k)
  {
  }

  /** A single-sided deposit takes exactly the amount offered and credits at least the
      minimum of LP tokens asked for, and never none. */
  lemma DepositSingleHonoursMinimum(s: State, s': State, amount: U64, minLp: U64, side: TradeDirection,
                                    source: Key, destination: Key, feeAccounts: FeeAccounts, env: Env)
    requires Sound(s)
    requires DepositSingleStep(s, amount, minLp, side, source, destination, feeAccounts, env) == Ok(s')
    ensures Held(SideOf(s', side), source) + amount == Held(SideOf(s, side), source)
    ensures SideOf(s', Opposite(side)) == SideOf(s, Opposite(side))
    ensures Held(s.lp, destination) + minLp <= Held(s'.lp, destination)
    ensures Held(s.lp, destination) < Held(s'.lp, destination)
  {
    var a, b := s.a[s.keys.vaultA], s.b[s.keys.vaultB];
    var r := DepositWithFees(s.curve, amount, a, b, s.supply, side, s.fees, env.now, env.root).value;
    DepositFeeGrows(s, a, b, amount, r.amount, r.ownerFee, side, feeAccounts, env, destination);
    TransferMoves(SideOf(s, side), source, VaultOf(s.keys, side), amount);
  }

  /** A single-sided withdrawal pays exactly the amount asked for, and takes from an
      ordinary source at most the maximum of LP tokens allowed, fee included. */
  lemma WithdrawSingleHonoursMaximum(s: State, s': State, amount: U64, maxLp: U64, side: TradeDirection,
                                     source: Key, destination: Key, host: Option<Key>, env: Env)
    requires Sound(s) && source != s.keys.feeAccount && host != Some(source)
    requires WithdrawSingleStep(s, amount, maxLp, side, source, destination, host, env) == Ok(s')
    ensures Held(SideOf(s', side), destination) == Held(SideOf(s, side), destination) + amount
    ensures SideOf(s', Opposite(side)) == SideOf(s, Opposite(side))
    ensures Held(s'.lp, source) < Held(s.lp, source) <= Held(s'.lp, source) + maxLp
  {
    var a, b := s.a[s.keys.vaultA], s.b[s.keys.vaultB];
    var r := WithdrawWithFees(s.curve, amount, a, b, s.supply, side, s.fees, env.now, env.root).value;
    var l := WithdrawalOwnerFee(s, a, b, amount, r, side, host, env).value;
    var fee := WithdrawFee(s.keys, s.lp, s.fees, r.amount, source).value;
    WithdrawalFeeSkips(s, a, b, amount, r, side, host, env, source);
    PayAndBurnTakes(s.keys, l, source, fee, r.amount);
    TransferMoves(SideOf(s, side), VaultOf(s.keys, side), destination, amount);
  }
}
