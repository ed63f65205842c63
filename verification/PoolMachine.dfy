/** The pool as the program runs it: token accounts, LP supply and curve updated in
    place, instruction by instruction, each method proved against the step function
    of the same name in Pool. */
module PoolMachine {
  import opened Checked
  import opened Errors
  import opened Ledger
  import opened RedemptionRate
  import opened PriceCurve
  import opened FeeSchedule
  import opened SwapCurve
  import opened Pool
  import opened PoolInvariants

  class Program {
    var a: Balances
    var b: Balances
    var lp: Balances
    var supply: U64
    var curve: Curve
    const fees: Fees
    const keys: PoolKeys

    ghost function Contents(): State
      reads this
    {
      State(a, b, lp, supply, curve, fees, keys)
    }

    constructor (s: State)
      ensures Contents() == s
    {
      a, b, lp, supply, curve := s.a, s.b, s.lp, s.supply, s.curve;
      fees, keys := s.fees, s.keys;
    }

    /** Creates the pool and mints the initial LP tokens. */
    static method ProcessInitialize(a: Balances, b: Balances, lp: Balances, keys: PoolKeys, curve: Curve,
                                    fees: Fees, env: Env) returns (r: Result<Program, SwapError>)
      ensures match Initialize(a, b, lp, keys, curve, fees, env)
              case Ok(s) => r.Ok? && fresh(r.value) && r.value.Contents() == s && Sound(s)
              case Err(e) => r == Err(e)
    {
      ghost var created := Initialize(a, b, lp, keys, curve, fees, env);
      if created.Ok? {
        InitializeIsSound(a, b, lp, keys, curve, fees, env);
      }
      var vaultA :- Balance(a, keys.vaultA);
      var vaultB :- Balance(b, keys.vaultB);
      if keys.feeAccount !in lp || keys.initialLp !in lp {
        return Err(ExpectedAccount);
      }
      var _ :- ValidateSupply(curve, vaultA, vaultB);
      if exists k :: k in lp && lp[k] != 0 {
        return Err(InvalidSupply);
      }
      var _ :- fees.Validate();
      var _ :- ValidateCurve(curve, env.now);
      var pool := new Program(State(a, b, lp, 0, curve, fees, keys));
      var _ :- pool.TokenMintTo(keys.initialLp, INITIAL_SWAP_POOL_AMOUNT);
      return Ok(pool);
    }

    // -------------------------------------------------------------------------
    // Token program calls
    // -------------------------------------------------------------------------

    method TokenTransfer(side: TradeDirection, from: Key, to: Key, amount: U64) returns (r: Result<(), SwapError>)
      modifies `a, `b
      ensures match TransferTrading(Trading(old(a), old(b)), side, from, to, amount)
              case Ok(t) => r.Ok? && a == t.a && b == t.b
              case Err(e) => r == Err(e) && a == old(a) && b == old(b)
    {
      match side {
        case AtoB => a :- Transfer(a, from, to, amount);
        case BtoA => b :- Transfer(b, from, to, amount);
      }
      return Ok(());
    }

    method TokenMintTo(to: Key, amount: U64) returns (r: Result<(), SwapError>)
      modifies `lp, `supply
      ensures match MintTo(Lp(old(lp), old(supply)), to, amount)
              case Ok(l) => r.Ok? && lp == l.balances && supply == l.supply
              case Err(e) => r == Err(e) && lp == old(lp) && supply == old(supply)
    {
      if to !in lp {
        return Err(ExpectedAccount);
      }
      if supply + amount >= U64_LIMIT || lp[to] + amount >= U64_LIMIT {
        return Err(TokenOverflow);
      }
      lp := lp[to := lp[to] + amount];
      supply := supply + amount;
      return Ok(());
    }

    method TokenTransferLp(from: Key, to: Key, amount: U64) returns (r: Result<(), SwapError>)
      modifies `lp
      ensures match TransferLp(keys, Lp(old(lp), supply), from, to, amount)
              case Ok(l) => r.Ok? && lp == l.balances
              case Err(e) => r == Err(e) && lp == old(lp)
    {
      if from == keys.initialLp {
        return Err(OwnerMismatch);
      }
      lp :- Transfer(lp, from, to, amount);
      return Ok(());
    }

    method TokenBurn(from: Key, amount: U64) returns (r: Result<(), SwapError>)
      modifies `lp, `supply
      ensures match Burn(keys, Lp(old(lp), old(supply)), from, amount)
              case Ok(l) => r.Ok? && lp == l.balances && supply == l.supply
              case Err(e) => r == Err(e) && lp == old(lp) && supply == old(supply)
    {
      if from !in lp {
        return Err(ExpectedAccount);
      }
      if from == keys.initialLp {
        return Err(OwnerMismatch);
      }
      if lp[from] < amount || supply < amount {
        return Err(InsufficientFunds);
      }
      lp := lp[from := lp[from] - amount];
      supply := supply - amount;
      return Ok(());
    }

    /** Mints the owner's fee, host first. */
    method MintFees(poolTokenAmount: U128, host: Option<Key>, feeAccount: Option<Key>)
      returns (r: Result<(), SwapError>)
      modifies `lp, `supply
      ensures match MintOwnerFee(Lp(old(lp), old(supply)), fees, poolTokenAmount, host, feeAccount)
              case Ok(l) => r.Ok? && lp == l.balances && supply == l.supply
              case Err(e) => r == Err(e)
    {
      var ownerFeePool: U128 := poolTokenAmount;
      if ownerFeePool > 0 {
        if host.Some? {
          if host.value !in lp {
            return Err(ExpectedAccount);
          }
          var hostFee :- fees.HostFee(ownerFeePool).OrError(FeeCalculationFailure);
          if hostFee > 0 {
            ownerFeePool :- Sub(ownerFeePool, hostFee).OrError(FeeCalculationFailure);
            var hostLp :- ToU64(hostFee);
            var _ :- TokenMintTo(host.value, hostLp);
          }
        }
        if feeAccount.Some? && feeAccount.value in lp && ownerFeePool > 0 {
          var ownerLp :- ToU64(ownerFeePool);
          var _ :- TokenMintTo(feeAccount.value, ownerLp);
        }
      }
      return Ok(());
    }

    /** Moves the withdrawal fee to the fee account and burns the rest. */
    method PayWithdrawal(source: Key, fee: U64, burnt: U64) returns (r: Result<(), SwapError>)
      modifies `lp, `supply
      ensures match PayAndBurn(keys, Lp(old(lp), old(supply)), source, fee, burnt)
              case Ok(l) => r.Ok? && lp == l.balances && supply == l.supply
              case Err(e) => r == Err(e)
    {
      if fee > 0 {
        var _ :- TokenTransferLp(source, keys.feeAccount, fee);
      }
      var _ :- TokenBurn(source, burnt);
      return Ok(());
    }

    // -------------------------------------------------------------------------
    // Instructions
    // -------------------------------------------------------------------------

    /** Mints the owner's fee of a swap on the reserves it leaves, less the fee. */
    method MintSwapFee(result: SwapResult, dir: TradeDirection, host: Option<Key>, env: Env)
      returns (r: Result<(), SwapError>)
      modifies `lp, `supply
      ensures match SwapOwnerFee(old(Contents()), result, dir, host, env)
              case Ok(l) => r.Ok? && lp == l.balances && supply == l.supply
              case Err(e) => r == Err(e)
    {
      var swapTokenA: U128 := if dir.AtoB? then result.newSource else result.newDestination;
      var swapTokenB: U128 := if dir.AtoB? then result.newDestination else result.newSource;
      if result.ownerFee > 0 {
        match dir {
          case AtoB => swapTokenA :- Sub(swapTokenA, result.ownerFee).OrError(CalculationFailure);
          case BtoA => swapTokenB :- Sub(swapTokenB, result.ownerFee).OrError(CalculationFailure);
        }
        var poolTokens :- SingleSided(curve, result.ownerFee, swapTokenA, swapTokenB, supply, dir, Down,
                                      env.now, env.feeRoot).OrError(FeeCalculationFailure);
        var _ :- MintFees(poolTokens, host, Some(keys.feeAccount));
      }
      return Ok(());
    }

    /** Takes the source, mints the owner's fee and pays the destination. */
    method PerformSwap(result: SwapResult, paid: U64, out: U64, dir: TradeDirection, source: Key, destination: Key,
                       host: Option<Key>, env: Env) returns (r: Result<(), SwapError>)
      modifies this
      ensures match SettleSwap(old(Contents()), result, paid, out, dir, source, destination, host, env)
              case Ok(s) => r.Ok? && Contents() == s
              case Err(e) => r == Err(e)
    {
      var _ :- TokenTransfer(dir, source, VaultOf(keys, dir), paid);
      var _ :- MintSwapFee(result, dir, host, env);
      var _ :- TokenTransfer(Opposite(dir), VaultOf(keys, Opposite(dir)), destination, out);
      return Ok(());
    }

    method ProcessSwap(amountIn: U64, minimumOut: U64, dir: TradeDirection, source: Key, destination: Key,
                       host: Option<Key>, env: Env) returns (r: Result<(), SwapError>)
      modifies this
      ensures match SwapStep(old(Contents()), amountIn, minimumOut, dir, source, destination, host, env)
              case Ok(s) => r.Ok? && Contents() == s
              case Err(e) => r == Err(e)
    {
      var vaultA :- Balance(a, keys.vaultA);
      var vaultB :- Balance(b, keys.vaultB);
      var swapSource, swapDestination := VaultOf(keys, dir), VaultOf(keys, Opposite(dir));
      if source == swapSource || destination == swapDestination {
        return Err(InvalidInput);
      }
      var reserveIn, reserveOut := if dir.AtoB? then vaultA else vaultB, if dir.AtoB? then vaultB else vaultA;
      var quote := ComputeSwap(curve, amountIn, reserveIn, reserveOut, dir, fees, env.now);
      var result :- quote.OrError(ZeroTradingTokens);
      var paid :- ToU64(result.sourceSwapped);
      var out :- ToU64(result.destinationSwapped);
      if out < minimumOut {
        return Err(ExceededSlippage);
      }
      r := PerformSwap(result, paid, out, dir, source, destination, host, env);
    }

    method ProcessDepositAll(lpAmount: U64, maxA: U64, maxB: U64, sourceA: Key, sourceB: Key, destination: Key)
      returns (r: Result<(), SwapError>)
      modifies this
      ensures match DepositAllStep(old(Contents()), lpAmount, maxA, maxB, sourceA, sourceB, destination)
              case Ok(s) => r.Ok? && Contents() == s
              case Err(e) => r == Err(e)
    {
      if curve.OffsetCurve? {
        return Err(UnsupportedCurveOperation);
      }
      if sourceA == keys.vaultA || sourceB == keys.vaultB {
        return Err(InvalidInput);
      }
      var vaultA :- Balance(a, keys.vaultA);
      var vaultB :- Balance(b, keys.vaultB);
      var tokens :- PoolTokensToTradingTokens(curve, lpAmount, supply, vaultA, vaultB, Up).OrError(ZeroTradingTokens);
      var payA :- ToU64(tokens.a);
      if payA > maxA {
        return Err(ExceededSlippage);
      }
      var payB :- ToU64(tokens.b);
      if payB > maxB {
        return Err(ExceededSlippage);
      }
      if curve.ConstantProductCurve? && (payA == 0 || payB == 0) {
        return Err(ZeroTradingTokens);
      }
      var _ :- TokenTransfer(AtoB, sourceA, keys.vaultA, payA);
      var _ :- TokenTransfer(BtoA, sourceB, keys.vaultB, payB);
      var _ :- TokenMintTo(destination, lpAmount);
      return Ok(());
    }

    method ProcessWithdrawAll(lpAmount: U64, minA: U64, minB: U64, source: Key, destinationA: Key, destinationB: Key)
      returns (r: Result<(), SwapError>)
      modifies this
      ensures match WithdrawAllStep(old(Contents()), lpAmount, minA, minB, source, destinationA, destinationB)
              case Ok(s) => r.Ok? && Contents() == s
              case Err(e) => r == Err(e)
    {
      if destinationA == keys.vaultA || destinationB == keys.vaultB {
        return Err(InvalidInput);
      }
      var vaultA :- Balance(a, keys.vaultA);
      var vaultB :- Balance(b, keys.vaultB);
      var withdrawFee :- WithdrawFee(keys, lp, fees, lpAmount, source);
      var net :- Sub(lpAmount, withdrawFee).OrError(CalculationFailure);
      var tokens :- PoolTokensToTradingTokens(curve, net, supply, vaultA, vaultB, Down).OrError(ZeroTradingTokens);
      var tokenA :- ToU64(tokens.a);
      tokenA := Least(vaultA, tokenA);
      if tokenA < minA {
        return Err(ExceededSlippage);
      }
      var tokenB :- ToU64(tokens.b);
      tokenB := Least(vaultB, tokenB);
      if tokenB < minB {
        return Err(ExceededSlippage);
      }
      if curve.ConstantProductCurve? {
        if tokenA == 0 && vaultA != 0 {
          return Err(ZeroTradingTokens);
        }
        if tokenB == 0 && vaultB != 0 {
          return Err(ZeroTradingTokens);
        }
      }
      var _ :- PayWithdrawal(source, withdrawFee, net);
      if tokenA > 0 {
        var _ :- TokenTransfer(AtoB, keys.vaultA, destinationA, tokenA);
      }
      if tokenB > 0 {
        var _ :- TokenTransfer(BtoA, keys.vaultB, destinationB, tokenB);
      }
      return Ok(());
    }

    method MintDepositFee(vaultA: U128, vaultB: U128, amount: U64, minted: U64, ownerFee: U128, side: TradeDirection,
                          feeAccounts: FeeAccounts, env: Env) returns (r: Result<(), SwapError>)
      modifies `lp, `supply
      ensures match DepositOwnerFee(old(Contents()), vaultA, vaultB, amount, minted, ownerFee, side, feeAccounts, env)
              case Ok(l) => r.Ok? && lp == l.balances && supply == l.supply
              case Err(e) => r == Err(e)
    {
      var swapTokenA, swapTokenB := vaultA, vaultB;
      var poolMintSupply: U128 := supply;
      if ownerFee > 0 {
        if side == AtoB {
          swapTokenA :- Add128(swapTokenA, amount).OrError(FeeCalculationFailure);
          swapTokenA :- Sub(swapTokenA, ownerFee).OrError(FeeCalculationFailure);
        } else {
          swapTokenB :- Add128(swapTokenB, amount).OrError(FeeCalculationFailure);
          swapTokenB :- Sub(swapTokenB, ownerFee).OrError(FeeCalculationFailure);
        }
        poolMintSupply :- Add128(poolMintSupply, minted).OrError(FeeCalculationFailure);
        var ownerFeePool :- SingleSided(curve, ownerFee, swapTokenA, swapTokenB, poolMintSupply, side, Down,
                                        env.now, env.feeRoot).OrError(FeeCalculationFailure);
        var host := if feeAccounts.FeeAndHost? then Some(feeAccounts.host) else None;
        var feeAccount := if feeAccounts.NoFeeAccount? then None else Some(keys.feeAccount);
        var _ :- MintFees(ownerFeePool, host, feeAccount);
      }
      return Ok(());
    }

    method ProcessDepositSingle(amount: U64, minLp: U64, side: TradeDirection, source: Key, destination: Key,
                                feeAccounts: FeeAccounts, env: Env) returns (r: Result<(), SwapError>)
      modifies this
      ensures match DepositSingleStep(old(Contents()), amount, minLp, side, source, destination, feeAccounts, env)
              case Ok(s) => r.Ok? && Contents() == s
              case Err(e) => r == Err(e)
    {
      if curve.OffsetCurve? {
        return Err(UnsupportedCurveOperation);
      }
      if source == VaultOf(keys, side) {
        return Err(InvalidInput);
      }
      var swapTokenA :- Balance(a, keys.vaultA);
      var swapTokenB :- Balance(b, keys.vaultB);
      var result :- DepositWithFees(curve, amount, swapTokenA, swapTokenB, supply, side, fees,
                                    env.now, env.root).OrError(ZeroTradingTokens);
      var minted :- ToU64(result.amount);
      if minted < minLp {
        return Err(ExceededSlippage);
      }
      if minted == 0 {
        return Err(ZeroTradingTokens);
      }
      var _ :- MintDepositFee(swapTokenA, swapTokenB, amount, minted, result.ownerFee, side, feeAccounts, env);
      var _ :- TokenTransfer(side, source, VaultOf(keys, side), amount);
      var _ :- TokenMintTo(destination, minted);
      return Ok(());
    }

    method MintWithdrawalFee(vaultA: U128, vaultB: U128, amount: U64, result: SingleResult, side: TradeDirection,
                             host: Option<Key>, env: Env) returns (r: Result<(), SwapError>)
      modifies `lp, `supply
      ensures match WithdrawalOwnerFee(old(Contents()), vaultA, vaultB, amount, result, side, host, env)
              case Ok(l) => r.Ok? && lp == l.balances && supply == l.supply
              case Err(e) => r == Err(e)
    {
      var swapTokenA, swapTokenB := vaultA, vaultB;
      var poolMintSupply: U128 := supply;
      if result.ownerFee > 0 {
        if side == AtoB {
          swapTokenA :- Sub(swapTokenA, amount).OrError(FeeCalculationFailure);
          swapTokenA :- Sub(swapTokenA, result.ownerFee).OrError(FeeCalculationFailure);
        } else {
          swapTokenB :- Sub(swapTokenB, amount).OrError(FeeCalculationFailure);
          swapTokenB :- Sub(swapTokenB, result.ownerFee).OrError(FeeCalculationFailure);
        }
        poolMintSupply :- Sub(poolMintSupply, result.amount).OrError(FeeCalculationFailure);
        var ownerFeePool :- SingleSided(curve, result.ownerFee, swapTokenA, swapTokenB, poolMintSupply, side, Down,
                                        env.now, env.feeRoot).OrError(FeeCalculationFailure);
        var _ :- MintFees(ownerFeePool, host, Some(keys.feeAccount));
      }
      return Ok(());
    }

    method ProcessWithdrawSingle(amount: U64, maxLp: U64, side: TradeDirection, source: Key, destination: Key,
                                 host: Option<Key>, env: Env) returns (r: Result<(), SwapError>)
      modifies this
      ensures match WithdrawSingleStep(old(Contents()), amount, maxLp, side, source, destination, host, env)
              case Ok(s) => r.Ok? && Contents() == s
              case Err(e) => r == Err(e)
    {
      if destination == VaultOf(keys, side) {
        return Err(InvalidInput);
      }
      var swapTokenA :- Balance(a, keys.vaultA);
      var swapTokenB :- Balance(b, keys.vaultB);
      var result :- WithdrawWithFees(curve, amount, swapTokenA, swapTokenB, supply, side, fees,
                                     env.now, env.root).OrError(ZeroTradingTokens);
      var withdrawFee :- WithdrawFee(keys, lp, fees, result.amount, source);
      var _ :- MintWithdrawalFee(swapTokenA, swapTokenB, amount, result, side, host, env);
      var total :- Add128(result.amount, withdrawFee).OrError(CalculationFailure);
      var total64 :- ToU64(total);
      if total64 > maxLp {
        return Err(ExceededSlippage);
      }
      if total64 == 0 {
        return Err(ZeroTradingTokens);
      }
      var _ :- PayWithdrawal(source, withdrawFee, result.amount);
      var _ :- TokenTransfer(side, VaultOf(keys, side), destination, amount);
      return Ok(());
    }

    method ProcessSetRates(ssr: U128, rho: U128, chi: U128, env: Env) returns (r: Result<(), SwapError>)
      modifies `curve
      ensures match SetRateStep(old(Contents()), ssr, rho, chi, env)
              case Ok(s) => r.Ok? && Contents() == s
              case Err(e) => r == Err(e)
    {
      if !curve.RedemptionRateCurve? {
        return Err(InvalidAccountData);
      }
      var rate :- SetRates(curve.rate, ssr, rho, chi, env.now);
      curve := RedemptionRateCurve(rate);
      return Ok(());
    }

    /** The token program, called by anyone on accounts of their own. */
    method ProcessDirect(step: TokenCall) returns (r: Result<(), SwapError>)
      modifies this
      ensures match TokenStep(old(Contents()), step)
              case Ok(s) => r.Ok? && Contents() == s
              case Err(e) => r == Err(e)
    {
      var spender := Spender(step);
      if spender.Some? && Locked(keys, step.mint, spender.value) {
        return Err(OwnerMismatch);
      }
      match step.mint {
        case MintA => a :- OnAccounts(a, step);
        case MintB => b :- OnAccounts(b, step);
        case MintLp =>
          lp :- OnAccounts(lp, step);
          if step.BurnTokens? {
            supply :- Sub(supply, step.amount).OrError(InsufficientFunds);
          }
      }
      return Ok(());
    }

    /** Dispatches one instruction; the runtime discards every write of one that fails. */
    method Process(call: Call, env: Env) returns (r: Result<(), SwapError>)
      modifies this
      ensures Contents() == Next(old(Contents()), call, env)
      ensures Sound(old(Contents())) ==> Undisturbed(old(Contents()), Contents(), call)
      ensures match Apply(old(Contents()), call, env)
              case Ok(s) => r.Ok? && Contents() == s
              case Err(e) => r == Err(e) && Contents() == old(Contents())
    {
      var a0, b0, lp0, supply0, curve0 := a, b, lp, supply, curve;
      match call {
        case Swap(amountIn, minimumOut, dir, source, destination, host) =>
          r := ProcessSwap(amountIn, minimumOut, dir, source, destination, host, env);
        case DepositAll(lpAmount, maxA, maxB, sourceA, sourceB, destination) =>
          r := ProcessDepositAll(lpAmount, maxA, maxB, sourceA, sourceB, destination);
        case WithdrawAll(lpAmount, minA, minB, source, destinationA, destinationB) =>
          r := ProcessWithdrawAll(lpAmount, minA, minB, source, destinationA, destinationB);
        case DepositSingle(amount, minLp, side, source, destination, feeAccounts) =>
          r := ProcessDepositSingle(amount, minLp, side, source, destination, feeAccounts, env);
        case WithdrawSingle(amount, maxLp, side, source, destination, host) =>
          r := ProcessWithdrawSingle(amount, maxLp, side, source, destination, host, env);
        case SetRate(ssr, rho, chi) =>
          r := ProcessSetRates(ssr, rho, chi, env);
        case Direct(step) =>
          r := ProcessDirect(step);
      }
      if r.Err? {
        a, b, lp, supply, curve := a0, b0, lp0, supply0, curve0;
      }
      if Sound(old(Contents())) {
        NextUndisturbed(old(Contents()), call, env);
      }
    }

    /** Attempts one instruction after another on the same pool. */
    method ProcessAll(attempts: seq<Attempt>)
      requires Sound(Contents())
      modifies this
      ensures Contents() == Run(old(Contents()), attempts)
      ensures Keeps(old(Contents()), Contents())
      ensures OwnInstructions(attempts) ==> Conserves(old(Contents()), Contents())
    {
      for i := 0 to |attempts|
        invariant Run(Contents(), attempts[i..]) == Run(old(Contents()), attempts)
        invariant Sound(Contents())
      {
        assert attempts[i..][0] == attempts[i] && attempts[i..][1..] == attempts[i + 1..];
        var _ := Process(attempts[i].call, attempts[i].env);
      }
      RunKeeps(old(Contents()), attempts);
      if OwnInstructions(attempts) {
        RunConserves(old(Contents()), attempts);
      }
    }
  }
}
