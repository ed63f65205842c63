/** The pool and its instructions as functions on values: each gives the whole state
    after a successful instruction, or the error it fails with
    (program/src/processor.rs, after the account checks). */
module Pool {
  import opened Checked
  import opened Errors
  import opened Ledger
  import opened RedemptionRate
  import opened PriceCurve
  import opened FeeSchedule
  import opened SwapCurve

  const INITIAL_SWAP_POOL_AMOUNT: U64 := 1_000_000_000

  /** Accounts fixed at initialization.  The account holding the initial LP tokens is
      owned by a program-derived address the program never signs for. */
  datatype PoolKeys = PoolKeys(vaultA: Key, vaultB: Key, feeAccount: Key, initialLp: Key)

  datatype State = State(a: Balances, b: Balances, lp: Balances, supply: U64,
                         curve: Curve, fees: Fees, keys: PoolKeys)

  /** Inputs an instruction takes from outside: the clock, and the results of the
      square-root conversions of the two curves that use them. */
  datatype Env = Env(now: U128, root: Option<U128>, feeRoot: Option<U128>)

  /** Fee accounts passed to a single-sided deposit; both are optional, in this order. */
  datatype FeeAccounts = NoFeeAccount | FeeAccount | FeeAndHost(host: Key)

  datatype Call =
    | Swap(amountIn: U64, minimumOut: U64, dir: TradeDirection, source: Key, destination: Key, host: Option<Key>)
    | DepositAll(lpAmount: U64, maxA: U64, maxB: U64, sourceA: Key, sourceB: Key, destination: Key)
    | WithdrawAll(lpAmount: U64, minA: U64, minB: U64, source: Key, destinationA: Key, destinationB: Key)
    | DepositSingle(amount: U64, minLp: U64, side: TradeDirection, source: Key, destination: Key,
                    feeAccounts: FeeAccounts)
    | WithdrawSingle(amount: U64, maxLp: U64, side: TradeDirection, source: Key, destination: Key, host: Option<Key>)
    | SetRate(ssr: U128, rho: U128, chi: U128)
    | Direct(step: TokenCall)

  datatype Mint = MintA | MintB | MintLp

  /** What anyone may ask of the token program in between, on accounts of their own.
      Issuing a trading token is a transfer from an account that stands for its issuer. */
  datatype TokenCall =
    | TransferTokens(mint: Mint, from: Key, to: Key, amount: U64)
    | BurnTokens(mint: Mint, from: Key, amount: U64)
    | OpenAccount(mint: Mint, key: Key)
    | CloseAccount(mint: Mint, key: Key)

  // ---------------------------------------------------------------------------
  // Ledger steps
  // ---------------------------------------------------------------------------

  function ToU64(x: nat): Result<U64, SwapError> {
    if x < U64_LIMIT then Ok(x) else Err(ConversionFailure)
  }

  datatype Lp = Lp(balances: Balances, supply: U64)

  function MintTo(l: Lp, to: Key, amount: U64): Result<Lp, SwapError> {
    if to !in l.balances then Err(ExpectedAccount)
    else if l.supply + amount >= U64_LIMIT || l.balances[to] + amount >= U64_LIMIT then Err(TokenOverflow)
    else Ok(Lp(l.balances[to := l.balances[to] + amount], l.supply + amount))
  }

  function TransferLp(keys: PoolKeys, l: Lp, from: Key, to: Key, amount: U64): Result<Lp, SwapError> {
    if from == keys.initialLp then Err(OwnerMismatch)
    else
      var balances :- Transfer(l.balances, from, to, amount);
      Ok(l.(balances := balances))
  }

  function Burn(keys: PoolKeys, l: Lp, from: Key, amount: U64): Result<Lp, SwapError> {
    if from !in l.balances then Err(ExpectedAccount)
    else if from == keys.initialLp then Err(OwnerMismatch)
    else if l.balances[from] < amount || l.supply < amount then Err(InsufficientFunds)
    else Ok(Lp(l.balances[from := l.balances[from] - amount], l.supply - amount))
  }

  /** Balances of both trading tokens. */
  datatype Trading = Trading(a: Balances, b: Balances)

  function TransferTrading(t: Trading, side: TradeDirection, from: Key, to: Key,
                           amount: U64): Result<Trading, SwapError> {
    match side
    case AtoB => (var a :- Transfer(t.a, from, to, amount); Ok(t.(a := a)))
    case BtoA => (var b :- Transfer(t.b, from, to, amount); Ok(t.(b := b)))
  }

  function Opposite(side: TradeDirection): TradeDirection {
    if side.AtoB? then BtoA else AtoB
  }

  function VaultOf(keys: PoolKeys, side: TradeDirection): Key {
    if side.AtoB? then keys.vaultA else keys.vaultB
  }

  /** LP tokens minted for the owner's fee: the host's part first, the rest to the
      pool's fee account if that still exists. */
  function MintOwnerFee(l: Lp, fees: Fees, amount: U128, host: Option<Key>,
                        feeAccount: Option<Key>): Result<Lp, SwapError> {
    if amount == 0 then Ok(l)
    else
      var (l1, rest) :- MintHostFee(l, fees, amount, host);
      if feeAccount.Some? && feeAccount.value in l1.balances && rest > 0 then
        var minted :- ToU64(rest);
        MintTo(l1, feeAccount.value, minted)
      else Ok(l1)
  }

  function MintHostFee(l: Lp, fees: Fees, amount: U128, host: Option<Key>): Result<(Lp, U128), SwapError> {
    match host
    case None => Ok((l, amount))
    case Some(h) =>
      if h !in l.balances then Err(ExpectedAccount)
      else
        var hostFee :- fees.HostFee(amount).OrError(FeeCalculationFailure);
        if hostFee == 0 then Ok((l, amount))
        else
          var rest :- Sub(amount, hostFee).OrError(FeeCalculationFailure);
          var minted :- ToU64(hostFee);
          var l1 :- MintTo(l, h, minted);
          Ok((l1, rest))
  }

  /** Converts the owner's fee, held out of the given reserves, into LP tokens. */
  function OwnerFeeStep(s: State, l: Lp, ownerFee: U128, a: U128, b: U128, supply: U128, side: TradeDirection,
                        host: Option<Key>, feeAccount: Option<Key>, env: Env): Result<Lp, SwapError>
  {
    var feeLp :- SingleSided(s.curve, ownerFee, a, b, supply, side, Down,
                             env.now, env.feeRoot).OrError(FeeCalculationFailure);
    MintOwnerFee(l, s.fees, feeLp, host, feeAccount)
  }

  /** Reserves with `plus` added and then `minus` and the owner's fee taken out of one side. */
  function FeeReserves(a: U128, b: U128, side: TradeDirection, plus: U128, minus: U128, ownerFee: U128,
                       error: SwapError): Result<(U128, U128), SwapError>
  {
    var x := if side.AtoB? then a else b;
    var y :- Add128(x, plus).OrError(error);
    var z :- Sub(y, minus).OrError(error);
    var w :- Sub(z, ownerFee).OrError(error);
    Ok(if side.AtoB? then (w, b) else (a, w))
  }

  // ---------------------------------------------------------------------------
  // Instructions
  // ---------------------------------------------------------------------------

  /** LP tokens after the owner's fee of a swap is minted, priced on the reserves the
      swap leaves less the fee itself. */
  function SwapOwnerFee(s: State, r: SwapResult, dir: TradeDirection, host: Option<Key>,
                        env: Env): Result<Lp, SwapError> {
    if r.ownerFee == 0 then Ok(Lp(s.lp, s.supply))
    else
      var (newA, newB) := if dir.AtoB? then (r.newSource, r.newDestination) else (r.newDestination, r.newSource);
      var (feeA, feeB) :- FeeReserves(newA, newB, dir, 0, 0, r.ownerFee, CalculationFailure);
      OwnerFeeStep(s, Lp(s.lp, s.supply), r.ownerFee, feeA, feeB, s.supply, dir, host, Some(s.keys.feeAccount), env)
  }

  function SwapStep(s: State, amountIn: U64, minimumOut: U64, dir: TradeDirection,
                    source: Key, destination: Key, host: Option<Key>, env: Env): Result<State, SwapError>
  {
    var a :- Balance(s.a, s.keys.vaultA);
    var b :- Balance(s.b, s.keys.vaultB);
    if source == VaultOf(s.keys, dir) || destination == VaultOf(s.keys, Opposite(dir)) then Err(InvalidInput)
    else
      var (reserveIn, reserveOut) := if dir.AtoB? then (a, b) else (b, a);
      var r :- SwapWithFees(s.curve, amountIn, reserveIn, reserveOut, dir, s.fees, env.now).OrError(ZeroTradingTokens);
      var paid :- ToU64(r.sourceSwapped);
      var out :- ToU64(r.destinationSwapped);
      if out < minimumOut then Err(ExceededSlippage)
      else
        SettleSwap(s, r, paid, out, dir, source, destination, host, env)
  }

  /** Takes the source, mints the owner's fee and pays the destination. */
  function SettleSwap(s: State, r: SwapResult, paid: U64, out: U64, dir: TradeDirection,
                      source: Key, destination: Key, host: Option<Key>, env: Env): Result<State, SwapError>
  {
    var t1 :- TransferTrading(Trading(s.a, s.b), dir, source, VaultOf(s.keys, dir), paid);
    var l :- SwapOwnerFee(s, r, dir, host, env);
    var t2 :- TransferTrading(t1, Opposite(dir), VaultOf(s.keys, Opposite(dir)), destination, out);
    Ok(s.(a := t2.a, b := t2.b, lp := l.balances, supply := l.supply))
  }

  function DepositAllStep(s: State, lpAmount: U64, maxA: U64, maxB: U64,
                          sourceA: Key, sourceB: Key, destination: Key): Result<State, SwapError>
  {
    if s.curve.OffsetCurve? then Err(UnsupportedCurveOperation)
    else if sourceA == s.keys.vaultA || sourceB == s.keys.vaultB then Err(InvalidInput)
    else
      var a :- Balance(s.a, s.keys.vaultA);
      var b :- Balance(s.b, s.keys.vaultB);
      var tokens :- PoolTokensToTradingTokens(s.curve, lpAmount, s.supply, a, b, Up).OrError(ZeroTradingTokens);
      var payA :- ToU64(tokens.a);
      if payA > maxA then Err(ExceededSlippage)
      else
        var payB :- ToU64(tokens.b);
        if payB > maxB then Err(ExceededSlippage)
        else if s.curve.ConstantProductCurve? && (payA == 0 || payB == 0) then Err(ZeroTradingTokens)
        else
          var a' :- Transfer(s.a, sourceA, s.keys.vaultA, payA);
          var b' :- Transfer(s.b, sourceB, s.keys.vaultB, payB);
          var l :- MintTo(Lp(s.lp, s.supply), destination, lpAmount);
          Ok(s.(a := a', b := b', lp := l.balances, supply := l.supply))
  }

  /** The owner's fee on a withdrawal, in LP tokens; none when the fee account is gone
      or is itself the account withdrawn from. */
  function WithdrawFee(keys: PoolKeys, lp: Balances, fees: Fees, lpAmount: U128, source: Key): Result<U128, SwapError> {
    if keys.feeAccount !in lp || keys.feeAccount == source then Ok(0)
    else fees.OwnerWithdrawFee(lpAmount).OrError(FeeCalculationFailure)
  }

  /** Moves the withdrawal fee to the fee account, if there is one, and burns the rest. */
  function PayAndBurn(keys: PoolKeys, l: Lp, source: Key, fee: U64, burnt: U64): Result<Lp, SwapError> {
    var l1 :- if fee > 0 then TransferLp(keys, l, source, keys.feeAccount, fee) else Ok(l);
    Burn(keys, l1, source, burnt)
  }

  function Least(x: nat, y: nat): nat {
    if x <= y then x else y
  }

  function WithdrawAllStep(s: State, lpAmount: U64, minA: U64, minB: U64,
                           source: Key, destinationA: Key, destinationB: Key): Result<State, SwapError>
  {
    if destinationA == s.keys.vaultA || destinationB == s.keys.vaultB then Err(InvalidInput)
    else
      var a :- Balance(s.a, s.keys.vaultA);
      var b :- Balance(s.b, s.keys.vaultB);
      var fee :- WithdrawFee(s.keys, s.lp, s.fees, lpAmount, source);
      var net :- Sub(lpAmount, fee).OrError(CalculationFailure);
      var tokens :- PoolTokensToTradingTokens(s.curve, net, s.supply, a, b, Down).OrError(ZeroTradingTokens);
      var quoteA :- ToU64(tokens.a);
      var outA := Least(a, quoteA);
      if outA < minA then Err(ExceededSlippage)
      else
        var quoteB :- ToU64(tokens.b);
        var outB := Least(b, quoteB);
        if outB < minB then Err(ExceededSlippage)
        else if s.curve.ConstantProductCurve? && ((outA == 0 && a != 0) || (outB == 0 && b != 0)) then
          Err(ZeroTradingTokens)
        else
          var l :- PayAndBurn(s.keys, Lp(s.lp, s.supply), source, fee, net);
          var a' :- if outA > 0 then Transfer(s.a, s.keys.vaultA, destinationA, outA) else Ok(s.a);
          var b' :- if outB > 0 then Transfer(s.b, s.keys.vaultB, destinationB, outB) else Ok(s.b);
          Ok(s.(a := a', b := b', lp := l.balances, supply := l.supply))
  }

  /** LP tokens after the owner's fee of a single-sided deposit is minted, priced on the
      reserves and supply the deposit leaves less the fee itself. */
  function DepositOwnerFee(s: State, a: U128, b: U128, amount: U64, minted: U64, ownerFee: U128,
                           side: TradeDirection, feeAccounts: FeeAccounts, env: Env): Result<Lp, SwapError>
  {
    if ownerFee == 0 then Ok(Lp(s.lp, s.supply))
    else
      var (feeA, feeB) :- FeeReserves(a, b, side, amount, 0, ownerFee, FeeCalculationFailure);
      var supply :- Add128(s.supply, minted).OrError(FeeCalculationFailure);
      OwnerFeeStep(s, Lp(s.lp, s.supply), ownerFee, feeA, feeB, supply, side,
                   if feeAccounts.FeeAndHost? then Some(feeAccounts.host) else None,
                   if feeAccounts.NoFeeAccount? then None else Some(s.keys.feeAccount), env)
  }

  function DepositSingleStep(s: State, amount: U64, minLp: U64, side: TradeDirection,
                             source: Key, destination: Key, feeAccounts: FeeAccounts,
                             env: Env): Result<State, SwapError>
  {
    if s.curve.OffsetCurve? then Err(UnsupportedCurveOperation)
    else if source == VaultOf(s.keys, side) then Err(InvalidInput)
    else
      var a :- Balance(s.a, s.keys.vaultA);
      var b :- Balance(s.b, s.keys.vaultB);
      var r :- DepositWithFees(s.curve, amount, a, b, s.supply, side, s.fees,
                               env.now, env.root).OrError(ZeroTradingTokens);
      var minted :- ToU64(r.amount);
      if minted < minLp then Err(ExceededSlippage)
      else if minted == 0 then Err(ZeroTradingTokens)
      else
        var l :- DepositOwnerFee(s, a, b, amount, minted, r.ownerFee, side, feeAccounts, env);
        var t :- TransferTrading(Trading(s.a, s.b), side, source, VaultOf(s.keys, side), amount);
        var l' :- MintTo(l, destination, minted);
        Ok(s.(a := t.a, b := t.b, lp := l'.balances, supply := l'.supply))
  }

  /** LP tokens after the owner's fee of a single-sided withdrawal is minted, priced on
      the reserves and supply the withdrawal itself leaves. */
  function WithdrawalOwnerFee(s: State, a: U128, b: U128, amount: U64, r: SingleResult, side: TradeDirection,
                              host: Option<Key>, env: Env): Result<Lp, SwapError>
  {
    if r.ownerFee == 0 then Ok(Lp(s.lp, s.supply))
    else
      var (feeA, feeB) :- FeeReserves(a, b, side, 0, amount, r.ownerFee, FeeCalculationFailure);
      var supply :- Sub(s.supply, r.amount).OrError(FeeCalculationFailure);
      OwnerFeeStep(s, Lp(s.lp, s.supply), r.ownerFee, feeA, feeB, supply, side, host, Some(s.keys.feeAccount), env)
  }

  function WithdrawSingleStep(s: State, amount: U64, maxLp: U64, side: TradeDirection,
                              source: Key, destination: Key, host: Option<Key>, env: Env): Result<State, SwapError>
  {
    if destination == VaultOf(s.keys, side) then Err(InvalidInput)
    else
      var a :- Balance(s.a, s.keys.vaultA);
      var b :- Balance(s.b, s.keys.vaultB);
      var r :- WithdrawWithFees(s.curve, amount, a, b, s.supply, side, s.fees,
                                env.now, env.root).OrError(ZeroTradingTokens);
      var fee :- WithdrawFee(s.keys, s.lp, s.fees, r.amount, source);
      var l :- WithdrawalOwnerFee(s, a, b, amount, r, side, host, env);
      var total :- Add128(r.amount, fee).OrError(CalculationFailure);
      var total64 :- ToU64(total);
      if total64 > maxLp then Err(ExceededSlippage)
      else if total64 == 0 then Err(ZeroTradingTokens)
      else
        var l' :- PayAndBurn(s.keys, l, source, fee, r.amount);
        var t :- TransferTrading(Trading(s.a, s.b), side, VaultOf(s.keys, side), destination, amount);
        Ok(s.(a := t.a, b := t.b, lp := l'.balances, supply := l'.supply))
  }

  function SetRateStep(s: State, ssr: U128, rho: U128, chi: U128, env: Env): Result<State, SwapError> {
    if !s.curve.RedemptionRateCurve? then Err(InvalidAccountData)
    else
      var rate :- SetRates(s.curve.rate, ssr, rho, chi, env.now);
      Ok(s.(curve := RedemptionRateCurve(rate)))
  }

  // ---------------------------------------------------------------------------
  // The token program, used directly
  // ---------------------------------------------------------------------------

  /** Accounts nobody but the program signs for, or nobody at all. */
  predicate Locked(keys: PoolKeys, mint: Mint, key: Key) {
    match mint
    case MintA => key == keys.vaultA
    case MintB => key == keys.vaultB
    case MintLp => key == keys.initialLp
  }

  function AccountsOf(s: State, mint: Mint): Balances {
    match mint
    case MintA => s.a
    case MintB => s.b
    case MintLp => s.lp
  }

  function WithAccounts(s: State, mint: Mint, m: Balances): State {
    match mint
    case MintA => s.(a := m)
    case MintB => s.(b := m)
    case MintLp => s.(lp := m)
  }

  /** An account only its holder may take from, or close. */
  function Spender(step: TokenCall): Option<Key> {
    match step
    case TransferTokens(_, from, _, _) => Some(from)
    case BurnTokens(_, from, _) => Some(from)
    case OpenAccount(_, _) => None
    case CloseAccount(_, key) => Some(key)
  }

  function OnAccounts(m: Balances, step: TokenCall): Result<Balances, SwapError> {
    match step
    case TransferTokens(_, from, to, amount) => Transfer(m, from, to, amount)
    case BurnTokens(_, from, amount) =>
      if from !in m then Err(ExpectedAccount)
      else if m[from] < amount then Err(InsufficientFunds)
      else Ok(m[from := m[from] - amount])
    case OpenAccount(_, key) =>
      if key in m then Err(AlreadyInUse) else Ok(m[key := 0])
    case CloseAccount(_, key) =>
      if key !in m then Err(ExpectedAccount)
      else if m[key] != 0 then Err(AccountNotEmpty)
      else Ok(m - {key})
  }

  function TokenStep(s: State, step: TokenCall): Result<State, SwapError> {
    var spender := Spender(step);
    if spender.Some? && Locked(s.keys, step.mint, spender.value) then Err(OwnerMismatch)
    else
      var m :- OnAccounts(AccountsOf(s, step.mint), step);
      var supply :- if step.BurnTokens? && step.mint.MintLp? then Sub(s.supply, step.amount).OrError(InsufficientFunds)
                    else Ok(s.supply);
      Ok(WithAccounts(s, step.mint, m).(supply := supply))
  }

  function Apply(s: State, call: Call, env: Env): Result<State, SwapError> {
    match call
    case Swap(amountIn, minimumOut, dir, source, destination, host) =>
      SwapStep(s, amountIn, minimumOut, dir, source, destination, host, env)
    case DepositAll(lpAmount, maxA, maxB, sourceA, sourceB, destination) =>
      DepositAllStep(s, lpAmount, maxA, maxB, sourceA, sourceB, destination)
    case WithdrawAll(lpAmount, minA, minB, source, destinationA, destinationB) =>
      WithdrawAllStep(s, lpAmount, minA, minB, source, destinationA, destinationB)
    case DepositSingle(amount, minLp, side, source, destination, feeAccounts) =>
      DepositSingleStep(s, amount, minLp, side, source, destination, feeAccounts, env)
    case WithdrawSingle(amount, maxLp, side, source, destination, host) =>
      WithdrawSingleStep(s, amount, maxLp, side, source, destination, host, env)
    case SetRate(ssr, rho, chi) => SetRateStep(s, ssr, rho, chi, env)
    case Direct(step) => TokenStep(s, step)
  }

  /** A fresh pool: vaults already funded, LP accounts empty, the initial LP tokens
      minted to their account. */
  function Initialize(a: Balances, b: Balances, lp: Balances, keys: PoolKeys, curve: Curve, fees: Fees,
                      env: Env): Result<State, SwapError>
  {
    var vaultA :- Balance(a, keys.vaultA);
    var vaultB :- Balance(b, keys.vaultB);
    if keys.feeAccount !in lp || keys.initialLp !in lp then Err(ExpectedAccount)
    else
      var _ :- ValidateSupply(curve, vaultA, vaultB);
      if exists k :: k in lp && lp[k] != 0 then Err(InvalidSupply)
      else
        var _ :- fees.Validate();
        var _ :- ValidateCurve(curve, env.now);
        var l :- MintTo(Lp(lp, 0), keys.initialLp, INITIAL_SWAP_POOL_AMOUNT);
        Ok(State(a, b, l.balances, l.supply, curve, fees, keys))
  }

  /** The state after one attempted instruction: an error leaves it unchanged. */
  function Next(s: State, call: Call, env: Env): State {
    match Apply(s, call, env)
    case Ok(s') => s'
    case Err(_) => s
  }

  datatype Attempt = Attempt(call: Call, env: Env)

  function Run(s: State, attempts: seq<Attempt>): State
    decreases |attempts|
  {
    if attempts == [] then s
    else Run(Next(s, attempts[0].call, attempts[0].env), attempts[1..])
  }

  /** Attempt times start no earlier than t and never go back. */
  predicate InOrderFrom(t: U128, attempts: seq<Attempt>)
    decreases |attempts|
  {
    attempts != [] ==> t <= attempts[0].env.now && InOrderFrom(attempts[0].env.now, attempts[1..])
  }

  function EndTime(t: U128, attempts: seq<Attempt>): U128
    decreases |attempts|
  {
    if attempts == [] then t else EndTime(attempts[0].env.now, attempts[1..])
  }
}
