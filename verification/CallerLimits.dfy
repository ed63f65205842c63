/** What a caller's limits do and do not do, and what a withdrawal pays the pool's owner. */
module CallerLimits {
  import opened Checked
  import opened Arith
  import opened Errors
  import opened Ledger
  import opened PriceCurve
  import opened FeeSchedule
  import opened SwapCurve
  import opened Pool
  import opened QuoteRules
  import opened LedgerRules
  import opened InstructionRules

  // ---------------------------------------------------------------------------
  // Limits only refuse
  // ---------------------------------------------------------------------------

  /** The same call with limits that everything meets. */
  function Unlimited(call: Call): Call {
    match call
    case Swap(_, _, _, _, _, _) => call.(minimumOut := 0)
    case DepositAll(_, _, _, _, _, _) => call.(maxA := U64_LIMIT - 1, maxB := U64_LIMIT - 1)
    case WithdrawAll(_, _, _, _, _, _) => call.(minA := 0, minB := 0)
    case DepositSingle(_, _, _, _, _, _) => call.(minLp := 0)
    case WithdrawSingle(_, _, _, _, _, _) => call.(maxLp := U64_LIMIT - 1)
    case _ => call
  }

  /** What the vaults pay or are paid, and the LP tokens a depositor is quoted or a
      withdrawal costs, are within the limits of a call. */
  predicate Honoured(s: State, call: Call, env: Env, s': State)
    requires HasVaults(s) && HasVaults(s') && s'.keys == s.keys
  {
    var (a, b, a', b') := (s.a[s.keys.vaultA], s.b[s.keys.vaultB], s'.a[s.keys.vaultA], s'.b[s.keys.vaultB]);
    match call
    case Swap(_, minimumOut, dir, _, _, _) => minimumOut <= if dir.AtoB? then b - b' else a - a'
    case DepositAll(_, maxA, maxB, _, _, _) => a' - a <= maxA && b' - b <= maxB
    case WithdrawAll(_, minA, minB, _, _, _) => minA <= a - a' && minB <= b - b'
    case DepositSingle(amount, minLp, side, _, _, _) =>
      var r := DepositWithFees(s.curve, amount, a, b, s.supply, side, s.fees, env.now, env.root);
      r.Some? && minLp <= r.value.amount
    case WithdrawSingle(amount, maxLp, side, source, _, _) =>
      var r := WithdrawWithFees(s.curve, amount, a, b, s.supply, side, s.fees, env.now, env.root);
      && r.Some?
      && var fee := WithdrawFee(s.keys, s.lp, s.fees, r.value.amount, source);
         fee.Ok? && r.value.amount + fee.value <= maxLp
    case _ => true
  }

  lemma SwapLimit(s: State, call: Call, env: Env, s': State)
    requires call.Swap? && Apply(s, Unlimited(call), env) == Ok(s')
    ensures HasVaults(s) && HasVaults(s') && s'.keys == s.keys
    ensures Apply(s, call, env) == if Honoured(s, call, env, s') then Ok(s') else Err(ExceededSlippage)
  {
    var (a, b) := (s.a[s.keys.vaultA], s.b[s.keys.vaultB]);
    var (x, y) := if call.dir.AtoB? then (a, b) else (b, a);
    var r := SwapWithFees(s.curve, call.amountIn, x, y, call.dir, s.fees, env.now).value;
    var (paid, out) := (r.sourceSwapped, r.destinationSwapped);
    var settled := SettleSwap(s, r, paid, out, call.dir, call.source, call.destination, call.host, env);
    assert settled == Ok(s') && Apply(s, call, env) == if out < call.minimumOut then Err(ExceededSlippage) else settled;
    SettleRule(s, r, paid, out, call.dir, call.source, call.destination, call.host, env, s');
  }

  lemma DepositAllLimit(s: State, call: Call, env: Env, s': State)
    requires call.DepositAll? && Apply(s, Unlimited(call), env) == Ok(s')
    ensures HasVaults(s) && HasVaults(s') && s'.keys == s.keys
    ensures Apply(s, call, env) == if Honoured(s, call, env, s') then Ok(s') else Err(ExceededSlippage)
  {
  }

  lemma WithdrawAllLimit(s: State, call: Call, env: Env, s': State)
    requires call.WithdrawAll? && Apply(s, Unlimited(call), env) == Ok(s')
    ensures HasVaults(s) && HasVaults(s') && s'.keys == s.keys
    ensures Apply(s, call, env) == if Honoured(s, call, env, s') then Ok(s') else Err(ExceededSlippage)
  {
  }

  lemma DepositSingleLimit(s: State, call: Call, env: Env, s': State)
    requires call.DepositSingle? && Apply(s, Unlimited(call), env) == Ok(s')
    ensures HasVaults(s) && HasVaults(s') && s'.keys == s.keys
    ensures Apply(s, call, env) == if Honoured(s, call, env, s') then Ok(s') else Err(ExceededSlippage)
  {
  }

  lemma WithdrawSingleLimit(s: State, call: Call, env: Env, s': State)
    requires call.WithdrawSingle? && Apply(s, Unlimited(call), env) == Ok(s')
    ensures HasVaults(s) && HasVaults(s') && s'.keys == s.keys
    ensures Apply(s, call, env) == if Honoured(s, call, env, s') then Ok(s') else Err(ExceededSlippage)
  {
  }

  /** A call that goes through without its limits does exactly the same with them when
      they are honoured, and fails for the slippage when they are not; limits never let a
      call through that would fail without them. */
  lemma LimitsOnlyRefuse(s: State, call: Call, env: Env)
    requires call.Swap? || call.DepositAll? || call.WithdrawAll? || call.DepositSingle? || call.WithdrawSingle?
    ensures match Apply(s, Unlimited(call), env)
            case Ok(s') =>
              && HasVaults(s) && HasVaults(s') && s'.keys == s.keys
              && Apply(s, call, env) == if Honoured(s, call, env, s') then Ok(s') else Err(ExceededSlippage)
            case Err(_) => Apply(s, call, env).Err?
  {
    if Apply(s, Unlimited(call), env).Err? {
      if Apply(s, call, env).Ok? {
        LimitsChangeNothing(s, call, env);
      }
    } else {
      var s' := Apply(s, Unlimited(call), env).value;
      match call {
        case Swap(_, _, _, _, _, _) => SwapLimit(s, call, env, s');
        case DepositAll(_, _, _, _, _, _) => DepositAllLimit(s, call, env, s');
        case WithdrawAll(_, _, _, _, _, _) => WithdrawAllLimit(s, call, env, s');
        case DepositSingle(_, _, _, _, _, _) => DepositSingleLimit(s, call, env, s');
        case WithdrawSingle(_, _, _, _, _, _) => WithdrawSingleLimit(s, call, env, s');
      }
    }
  }

  lemma LimitsChangeNothing(s: State, call: Call, env: Env)
    requires Apply(s, call, env).Ok?
    ensures Apply(s, Unlimited(call), env) == Apply(s, call, env)
  {
  }

  // ---------------------------------------------------------------------------
  // What a withdrawal pays the owner
  // ---------------------------------------------------------------------------

  /** A fee is the floor of its part, or one token where that is nothing but something
      is due. */
  predicate FloorOrOne(amount: nat, num: nat, den: nat, f: nat) {
    if num == 0 || amount == 0 then f == 0
    else if amount * num < den then f == 1
    else f * den <= amount * num < (f + 1) * den
  }

  lemma FeeIsFloorOrOne(amount: nat, num: nat, den: nat, f: nat)
    requires FeeOf(amount, num, den, f)
    ensures FloorOrOne(amount, num, den, f)
  {
    assert (f + 1) * den == f * den + den;
    if f > 0 {
      MulMono(1, f, den, den);
    }
  }

  /** A withdrawal of both tokens hands the fee account the fee on the LP tokens offered
      and burns the rest; without a fee account, or from it, there is no fee. */
  lemma WithdrawAllPaysOwner(s: State, s': State, x: U64, minA: U64, minB: U64, source: Key,
                             destinationA: Key, destinationB: Key)
    requires WithdrawAllStep(s, x, minA, minB, source, destinationA, destinationB) == Ok(s')
    ensures var (f, k) := (s'.supply + x - s.supply, s.keys.feeAccount);
            && 0 <= f <= x
            && source in s.lp && s'.lp.Keys == s.lp.Keys && s'.lp[source] == s.lp[source] - x
            && if k in s.lp && k != source then
                 && FloorOrOne(x, s.fees.ownerWithdrawNum, s.fees.ownerWithdrawDen, f)
                 && s'.lp[k] == s.lp[k] + f
               else f == 0
  {
    var run, outA, outB := WithdrawAllShows(s, x, minA, minB, source, destinationA, destinationB, s');
    assert run.fee == s'.supply + x - s.supply;
    if s.keys.feeAccount in s.lp && s.keys.feeAccount != source {
      FeeIsFloorOrOne(x, s.fees.ownerWithdrawNum, s.fees.ownerWithdrawDen, run.fee);
    }
  }

  /** So does a withdrawal of one token on the LP tokens it burns, beside the fee account's
      share of the owner's fee. */
  lemma WithdrawSinglePaysOwner(s: State, s': State, amount: U64, maxLp: U64, side: TradeDirection, source: Key,
                                destination: Key, host: Option<Key>, env: Env)
    returns (burnt: nat, f: nat, ownerLp: nat, toHost: nat)
    requires WithdrawSingleStep(s, amount, maxLp, side, source, destination, host, env) == Ok(s')
    requires s.keys.feeAccount in s.lp && source != s.keys.feeAccount && host != Some(source)
    ensures var k := s.keys.feeAccount;
            && source in s.lp && s'.lp.Keys == s.lp.Keys
            && 0 < burnt + f <= maxLp
            && FloorOrOne(burnt, s.fees.ownerWithdrawNum, s.fees.ownerWithdrawDen, f)
            && toHost <= ownerLp && (host == None ==> toHost == 0) && (s.fees.ownerTradeNum == 0 ==> ownerLp == 0)
            && s'.supply == s.supply + ownerLp - burnt
            && s'.lp[source] == s.lp[source] - burnt - f
            && s'.lp[k] == s.lp[k] + f + ownerLp - (if host == Some(k) then 0 else toHost)
  {
    var run := WithdrawSingleShows(s, amount, maxLp, side, source, destination, host, env, s');
    burnt, f := run.burnt, run.withdrawFee;
    FeeIsFloorOrOne(burnt, s.fees.ownerWithdrawNum, s.fees.ownerWithdrawDen, f);
    ownerLp, toHost := OwnerShares(s, amount, side, host, env, run);
    PaidFrom(s.keys, run.l, source, f, burnt, Lp(s'.lp, s'.supply));
    NoOwnerRate(s, amount, side, env, run);
  }

  lemma NoOwnerRate(s: State, amount: U64, side: TradeDirection, env: Env, run: WithdrawRun)
    requires HasVaults(s)
    requires WithdrawalIs(s.curve, amount, s.a[s.keys.vaultA], s.b[s.keys.vaultB], s.supply, side, s.fees, env.now,
                          env.root, run.burnt, run.owner, run.grossed)
    ensures s.fees.ownerTradeNum == 0 ==> run.owner == 0
  {
  }

  lemma PaidFrom(keys: PoolKeys, l: Lp, source: Key, fee: nat, burnt: nat, l': Lp)
    requires PaidAndBurnt(keys, l, source, fee, burnt, l') && keys.feeAccount in l.balances
    requires source != keys.feeAccount
    ensures source in l.balances && l'.balances.Keys == l.balances.Keys && l'.supply + burnt == l.supply
    ensures l'.balances[source] == l.balances[source] - fee - burnt
    ensures l'.balances[keys.feeAccount] == l.balances[keys.feeAccount] + fee
  {
  }

  lemma OwnerShares(s: State, amount: U64, side: TradeDirection, host: Option<Key>, env: Env, run: WithdrawRun)
    returns (ownerLp: nat, toHost: nat)
    requires HasVaults(s) && WithdrawalFeeIs(s, amount, side, host, env, run)
    requires s.keys.feeAccount in s.lp
    ensures toHost <= ownerLp && (host == None ==> toHost == 0) && (run.owner == 0 ==> ownerLp == 0)
    ensures run.l.supply == s.supply + ownerLp && run.l.balances.Keys == s.lp.Keys
    ensures forall k :: k in s.lp && k != s.keys.feeAccount && host != Some(k) ==> run.l.balances[k] == s.lp[k]
    ensures run.l.balances[s.keys.feeAccount]
         == s.lp[s.keys.feeAccount] + ownerLp - (if host == Some(s.keys.feeAccount) then 0 else toHost)
  {
    ownerLp, toHost := 0, 0;
    if run.owner != 0 {
      ownerLp, toHost := run.fee.lp, run.fee.part;
      assert Shared(Lp(s.lp, s.supply), s.fees, ownerLp, host, Some(s.keys.feeAccount), run.l, toHost);
    }
  }
}
