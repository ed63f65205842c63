/** Exactly how few LP tokens a single-sided withdrawal of B may leave before the loss of
    the other holders exceeds one part in 10^9: for every supply below the initial amount
    there is a reachable pool where it does. */
module SupplyThreshold {
  import opened Checked
  import opened Arith
  import opened Errors
  import opened Ledger
  import opened RayPower
  import opened PriceCurve
  import opened FeeSchedule
  import opened SwapCurve
  import opened Pool
  import opened PoolInvariants
  import opened ShareValue
  import opened ShareRuns

  /** Every successful withdrawal of B that leaves this supply, from any sound pool with a
      price, costs the other holders at most one part in 10^9. */
  ghost predicate KeepsOnePart(left: nat) {
    forall s: State, amount: U64, maxLp: U64, source: Key, destination: Key, host: Option<Key>, env: Env ::
      Sound(s) && HasPrice(s.curve) && SupplyLeft(s, amount, BtoA, env) == left
      && WithdrawSingleStep(s, amount, maxLp, BtoA, source, destination, host, env).Ok? ==>
        LosesOnePart(s, WithdrawSingleStep(s, amount, maxLp, BtoA, source, destination, host, env).value, env)
  }

  ghost predicate LosesOnePart(s: State, s': State, env: Env)
    requires Sound(s)
  {
    var p := PriceOf(s.curve, env.now);
    && p.Some? && Sound(s')
    && LossWithin(1, ValueAt(s, p.value), s.supply, ValueAt(s', p.value), s'.supply)
  }

  lemma EnoughLeft(s: State, s': State, amount: U64, maxLp: U64, source: Key, destination: Key,
                   host: Option<Key>, env: Env)
    requires Sound(s) && HasPrice(s.curve)
    requires WithdrawSingleStep(s, amount, maxLp, BtoA, source, destination, host, env) == Ok(s')
    requires INITIAL_SWAP_POOL_AMOUNT <= SupplyLeft(s, amount, BtoA, env)
    ensures LosesOnePart(s, s', env)
  {
    WithdrawSingleLosesAtMost(s, s', amount, maxLp, BtoA, source, destination, host, env);
    var p := PriceOf(s.curve, env.now).value;
    var left := SupplyLeft(s, amount, BtoA, env);
    SupplyFloor(s.keys, Lp(s.lp, s.supply), 0);
    SupplyFloor(s'.keys, Lp(s'.lp, s'.supply), 0);
    UnitLossInPrice(left, ValueAt(s, p), s.supply, ValueAt(s', p), s'.supply);
    PartAtMost(left);
    PriceLossInParts(1, ValueAt(s, p), s.supply, ValueAt(s', p), s'.supply);
  }

  // ---------------------------------------------------------------------------
  // A failing pool for every supply below 10^9
  // ---------------------------------------------------------------------------

  const BILLION: nat := INITIAL_SWAP_POOL_AMOUNT
  const KEYS := PoolKeys(0, 0, 1, 0)
  const NO_ROOTS := Env(0, None, None)

  predicate TooFew(left: nat) {
    0 < left < BILLION
  }

  /** LP tokens minted for the owner's fee, in multiples of the supply left. */
  function Times(left: nat): nat
    requires TooFew(left)
  {
    (BILLION - 1) / left
  }

  lemma TimesAlmostFill(left: nat)
    requires TooFew(left)
    ensures 0 < Times(left) && left * Times(left) < BILLION <= left * (Times(left) + 1)
  {
    Floor(BILLION - 1, left);
    FloorIsMost(BILLION - 1, left, 1);
    assert left * (Times(left) + 1) == Times(left) * left + left;
  }

  /** The owner's fee, an even number of B. */
  function Fee(left: nat): nat
    requires TooFew(left)
  {
    var value: nat := Times(left) * (2 * left - 1);
    2 * value
  }

  lemma FeeIsModest(left: nat)
    requires TooFew(left)
    ensures 0 < Fee(left) && Fee(left) + 2 * Times(left) < 4 * BILLION
    ensures Fee(left) / 2 == Times(left) * (2 * left - 1)
  {
    var q := Times(left);
    TimesAlmostFill(left);
    MulPositive(q, 2 * left - 1);
    assert q * (2 * left - 1) == 2 * (left * q) - q;
  }

  /** What is withdrawn, and the half of it the fee is charged on. */
  function Amount(left: nat): nat
    requires TooFew(left)
  {
    FeeIsModest(left);
    8 * BILLION - Fee(left) - 4 * left + 1
  }

  function Half(left: nat): nat
    requires TooFew(left)
  {
    (Amount(left) + 1) / 2
  }

  /** One rate, at which grossing the half up adds exactly the fee. */
  function FeesOf(left: nat): Fees
    requires TooFew(left)
  {
    FeeIsModest(left);
    Fees(0, 0, Fee(left), Half(left) + Fee(left), 0, 0, 0, 0)
  }

  function PoolOf(left: nat, a: Balances, b: Balances, lp: Balances, supply: U64): State
    requires TooFew(left)
  {
    State(a, b, lp, supply, ConstantPriceCurve(HALF_RAY), FeesOf(left), KEYS)
  }

  /** B at half an A, one A and 8 * 10^9 - 2 B in the vaults, and 10^9 LP tokens with the
      fee account beside the initial ones: two A of value to each LP token. */
  function Before(left: nat): State
    requires TooFew(left)
  {
    PoolOf(left, map[0 := 1], map[0 := 7_999_999_998, 1 := 0], map[0 := BILLION, 1 := BILLION], 2 * BILLION)
  }

  function After(left: nat): State
    requires TooFew(left)
  {
    var (q, w) := (Times(left), Amount(left));
    TimesAlmostFill(left);
    FeeIsModest(left);
    assert left * (q + 1) == left * q + left;
    PoolOf(left, map[0 := 1], map[0 := 7_999_999_998 - w, 1 := w],
           map[0 := BILLION, 1 := left * (q + 1) - BILLION], left * (q + 1))
  }

  lemma HalfPrice(x: nat)
    ensures x * HALF_RAY / RAY == x / 2
  {
    Floor(x * HALF_RAY, RAY);
    assert x * HALF_RAY == (x / 2) * RAY + (x % 2) * HALF_RAY;
  }

  lemma BeforeIsSound(left: nat)
    requires TooFew(left)
    ensures Sound(Before(left))
  {
    var lp := Before(left).lp;
    TotalRemove(lp, 0);
    assert lp - {0} == map[1 := BILLION];
    TotalRemove(map[1 := BILLION], 1);
    assert map[1 := BILLION] - {1} == map[];
  }

  lemma Basis(left: nat)
    requires TooFew(left)
    ensures Amount(left) < U64_LIMIT && Amount(left) > 0
    ensures WithdrawBasis(Amount(left), FeesOf(left)) == Some((8 * BILLION - 4 * left + 1, Fee(left)))
  {
    FeeIsModest(left);
    var (h, f, w) := (Half(left), Fee(left), Amount(left));
    FloorOfMultiple(h + f, h);
    GrossUpByFee(h, f);
  }

  /** At a rate of f in h + f, the half h grosses up to h + f, of which the fee is f. */
  lemma GrossUpByFee(h: nat, f: nat)
    requires 0 < h && 0 < f && h + f < U64_LIMIT
    ensures PreFeeAmount(h, f, h + f) == Some(h + f)
    ensures CalculateFee(h + f, f, h + f) == Some(f)
  {
    MulMono(h, U64_LIMIT - 1, h + f, U64_LIMIT - 1);
    MulMono(h + f, U64_LIMIT - 1, f, U64_LIMIT - 1);
    CeilOfProduct(h, h + f);
    FloorOfProduct(f, h + f);
  }

  lemma CeilOfProduct(h: nat, p: nat)
    requires h > 0
    ensures (h * p + h - 1) / h == p
  {
    assert h * p == p * h;
    CeilByAdding(p * h, h);
    FloorOfMultiple(p, h);
    Floor(p * h, h);
  }

  lemma FloorOfProduct(f: nat, p: nat)
    requires p > 0
    ensures p * f / p == f
  {
    assert p * f == f * p;
    FloorOfMultiple(f, p);
  }

  lemma Cost(left: nat)
    requires TooFew(left)
    ensures ToPoolTokens(HALF_RAY, 8 * BILLION - 4 * left + 1, 1, 7_999_999_998, 2 * BILLION, BtoA, Up)
         == Some(2 * BILLION - left)
  {
    HalfPrice(8 * BILLION - 4 * left + 1);
    HalfPrice(7_999_999_998);
    assert (8 * BILLION - 4 * left + 1) / 2 == 4 * BILLION - 2 * left;
    assert 2 * BILLION * (4 * BILLION - 2 * left) == (2 * BILLION - left) * (4 * BILLION);
    FloorOfMultiple(2 * BILLION - left, 4 * BILLION);
    Ceil((2 * BILLION - left) * (4 * BILLION), 4 * BILLION);
    CeilIsLeast((2 * BILLION - left) * (4 * BILLION), 4 * BILLION, 2 * BILLION - left);
  }

  lemma QuoteFrom(amount: U128, fees: Fees, basis: U128, owner: U128, lp: U128)
    requires amount > 0 && WithdrawBasis(amount, fees) == Some((basis, owner))
    requires ToPoolTokens(HALF_RAY, basis, 1, 7_999_999_998, 2 * BILLION, BtoA, Up) == Some(lp)
    ensures WithdrawWithFees(ConstantPriceCurve(HALF_RAY), amount, 1, 7_999_999_998, 2 * BILLION, BtoA, fees, 0, None)
         == Some(SingleResult(lp, owner))
  {
  }

  lemma Quote(left: nat)
    requires TooFew(left)
    ensures Amount(left) < U64_LIMIT
    ensures WithdrawWithFees(Before(left).curve, Amount(left), 1, 7_999_999_998, 2 * BILLION, BtoA,
                             FeesOf(left), 0, None) == Some(SingleResult(2 * BILLION - left, Fee(left)))
  {
    Basis(left);
    Cost(left);
    QuoteFrom(Amount(left), FeesOf(left), 8 * BILLION - 4 * left + 1, Fee(left), 2 * BILLION - left);
  }

  lemma MintedLp(left: nat)
    requires TooFew(left)
    ensures Fee(left) < U128_LIMIT
    ensures ToPoolTokens(HALF_RAY, Fee(left), 1, 4 * left - 3, left, BtoA, Down) == Some(left * Times(left))
  {
    FeeIsModest(left);
    TimesAlmostFill(left);
    HalfPrice(Fee(left));
    HalfPrice(4 * left - 3);
    assert (4 * left - 3) / 2 + 1 == 2 * left - 1;
    WholeShare(left, Times(left), 2 * left - 1);
    ShareOf(Fee(left), 4 * left - 3, left, Fee(left) / 2, 2 * left - 1, left * Times(left));
  }

  lemma WholeShare(left: nat, q: nat, v: nat)
    requires v > 0
    ensures left * (q * v) / v == left * q
  {
    assert left * (q * v) == left * q * v;
    FloorOfMultiple(left * q, v);
  }

  lemma ShareOf(amount: U128, b: U128, supply: U128, given: nat, total: nat, lp: U128)
    requires amount * HALF_RAY / RAY == given && b * HALF_RAY / RAY + 1 == total
    requires amount < U64_LIMIT && b < U64_LIMIT && given < U64_LIMIT && supply < U64_LIMIT
    requires total > 0 && supply * given / total == lp
    ensures ToPoolTokens(HALF_RAY, amount, 1, b, supply, BtoA, Down) == Some(lp)
  {
    MulMono(supply, U64_LIMIT, given, U64_LIMIT);
  }

  lemma FeeMint(left: nat)
    requires TooFew(left)
    ensures Fee(left) < U64_LIMIT && Amount(left) < U64_LIMIT && BILLION + left * Times(left) < U64_LIMIT
    ensures WithdrawalOwnerFee(Before(left), 1, 7_999_999_998, Amount(left),
                               SingleResult(2 * BILLION - left, Fee(left)), BtoA, None, NO_ROOTS)
         == Ok(Lp(map[0 := BILLION, 1 := BILLION + left * Times(left)], 2 * BILLION + left * Times(left)))
  {
    FeeIsModest(left);
    TimesAlmostFill(left);
    MintedLp(left);
    var s := Before(left);
    var k := left * Times(left);
    MulPositive(left, Times(left));
    assert FeeReserves(1, 7_999_999_998, BtoA, 0, Amount(left), Fee(left), FeeCalculationFailure)
        == Ok((1, 4 * left - 3));
    assert MintHostFee(Lp(s.lp, s.supply), s.fees, k, None) == Ok((Lp(s.lp, s.supply), k));
    assert s.lp[1 := BILLION + k] == map[0 := BILLION, 1 := BILLION + k];
  }

  lemma Settled(left: nat)
    requires TooFew(left)
    ensures BILLION + left * Times(left) < U64_LIMIT && Amount(left) < U64_LIMIT
    ensures var (s, s', k) := (Before(left), After(left), left * Times(left));
            && PayAndBurn(KEYS, Lp(map[0 := BILLION, 1 := BILLION + k], 2 * BILLION + k), 1, 0, 2 * BILLION - left)
               == Ok(Lp(s'.lp, s'.supply))
            && TransferTrading(Trading(s.a, s.b), BtoA, 0, 1, Amount(left)) == Ok(Trading(s'.a, s'.b))
  {
    FeeIsModest(left);
    TimesAlmostFill(left);
    var (s, s', k) := (Before(left), After(left), left * Times(left));
    assert left * (Times(left) + 1) == k + left;
    assert map[0 := BILLION, 1 := BILLION + k][1 := k + left - BILLION] == s'.lp;
    assert s.b[0 := 7_999_999_998 - Amount(left)][1 := Amount(left)] == s'.b;
  }

  lemma Withdrawn(left: nat)
    requires TooFew(left)
    ensures Amount(left) < U64_LIMIT
    ensures WithdrawSingleStep(Before(left), Amount(left), 2 * BILLION, BtoA, 1, 1, None, NO_ROOTS) == Ok(After(left))
    ensures SupplyLeft(Before(left), Amount(left), BtoA, NO_ROOTS) == left
  {
    FeeIsModest(left);
    Quote(left);
    FeeMint(left);
    Settled(left);
  }

  lemma Values(left: nat)
    requires TooFew(left)
    ensures ValueAt(Before(left), HALF_RAY) == 4 * BILLION
    ensures ValueAt(After(left), HALF_RAY) == (Times(left) + 1) * (2 * left - 1)
  {
    FeeIsModest(left);
    var q := Times(left);
    HalfPrice(7_999_999_998);
    HalfPrice(7_999_999_998 - Amount(left));
    assert 7_999_999_998 - Amount(left) == Fee(left) + 4 * left - 3;
    assert (q + 1) * (2 * left - 1) == q * (2 * left - 1) + 2 * left - 1;
  }

  lemma LosesMore(left: nat, t: nat)
    requires 0 < left < BILLION && t > 0
    ensures !LossWithin(1, 4 * BILLION, 2 * BILLION, t * (2 * left - 1), left * t)
  {
    var x := left * t;
    assert t * (2 * left - 1) == 2 * x - t;
    assert x < BILLION * t;
  }

  /** Value per LP token goes from 2 to 2 - 1/left. */
  lemma FailsBelow(left: nat)
    requires TooFew(left)
    ensures !KeepsOnePart(left)
  {
    BeforeIsSound(left);
    Withdrawn(left);
    Values(left);
    LosesMore(left, Times(left) + 1);
    var s, s' := Before(left), After(left);
    assert !LosesOnePart(s, s', NO_ROOTS);
    assert WithdrawSingleStep(s, Amount(left), 2 * BILLION, BtoA, 1, 1, None, NO_ROOTS).value == s';
  }

  /** A single-sided withdrawal of B that leaves a given supply is certain to cost at most
      one part in 10^9 if and only if that supply is at least 10^9.  None leaves nothing. */
  lemma OnePartIff(left: nat)
    ensures KeepsOnePart(left) <==> left == 0 || INITIAL_SWAP_POOL_AMOUNT <= left
  {
    if TooFew(left) {
      FailsBelow(left);
    } else {
      forall s: State, amount: U64, maxLp: U64, source: Key, destination: Key, host: Option<Key>, env: Env
        | Sound(s) && HasPrice(s.curve) && SupplyLeft(s, amount, BtoA, env) == left
          && WithdrawSingleStep(s, amount, maxLp, BtoA, source, destination, host, env).Ok?
        ensures LosesOnePart(s, WithdrawSingleStep(s, amount, maxLp, BtoA, source, destination, host, env).value, env)
      {
        var s' := WithdrawSingleStep(s, amount, maxLp, BtoA, source, destination, host, env).value;
        WithdrawSingleLosesAtMost(s, s', amount, maxLp, BtoA, source, destination, host, env);
        EnoughLeft(s, s', amount, maxLp, source, destination, host, env);
      }
    }
  }

  // ---------------------------------------------------------------------------
  // Each of those pools is reachable
  // ---------------------------------------------------------------------------

  /** A single A in the vaults, and a user with 8 * 10^9 - 2 B. */
  function Created(left: nat): Result<State, SwapError>
    requires TooFew(left)
  {
    Initialize(map[0 := 1], map[0 := 0, 1 := 7_999_999_998], map[0 := 0, 1 := 0], KEYS,
               ConstantPriceCurve(HALF_RAY), FeesOf(left), NO_ROOTS)
  }

  /** Three B deposited for 10^9 LP tokens of the fee account, the rest sent to the vault. */
  function Preparation(): seq<Attempt> {
    [Attempt(DepositSingle(3, 0, BtoA, 1, 1, NoFeeAccount), NO_ROOTS),
     Attempt(Direct(TransferTokens(MintB, 1, 0, 7_999_999_995)), NO_ROOTS)]
  }

  lemma FeeOfOne(num: U64, den: U64)
    requires 0 < num < den
    ensures CalculateFee(1, num, den) == Some(1)
  {
    FloorIsMost(1 * num, den, 1);
  }

  lemma TwoBForABillion()
    ensures ToPoolTokens(HALF_RAY, 2, 1, 0, BILLION, BtoA, Down) == Some(BILLION)
  {
    HalfPrice(0);
    HalfPrice(2);
  }

  lemma DepositFrom(fees: Fees)
    requires fees.tradeNum == 0 && fees.OwnerTradingFee(1) == Some(1)
    requires ToPoolTokens(HALF_RAY, 2, 1, 0, BILLION, BtoA, Down) == Some(BILLION)
    ensures DepositWithFees(ConstantPriceCurve(HALF_RAY), 3, 1, 0, BILLION, BtoA, fees, 0, None)
         == Some(SingleResult(BILLION, 1))
  {
    assert fees.TradingFee(1) == Some(0);
  }

  lemma DepositQuoted(left: nat)
    requires TooFew(left)
    ensures DepositWithFees(ConstantPriceCurve(HALF_RAY), 3, 1, 0, BILLION, BtoA, FeesOf(left), 0, None)
         == Some(SingleResult(BILLION, 1))
    ensures ToPoolTokens(HALF_RAY, 1, 1, 2, 2 * BILLION, BtoA, Down) == Some(0)
  {
    FeeIsModest(left);
    FeeOfOne(Fee(left), Half(left) + Fee(left));
    TwoBForABillion();
    DepositFrom(FeesOf(left));
    HalfPrice(1);
    HalfPrice(2);
  }

  function Fresh(left: nat): State
    requires TooFew(left)
  {
    PoolOf(left, map[0 := 1], map[0 := 0, 1 := 7_999_999_998], map[0 := BILLION, 1 := 0], BILLION)
  }

  function Deposited(left: nat): State
    requires TooFew(left)
  {
    PoolOf(left, map[0 := 1], map[0 := 3, 1 := 7_999_999_995], map[0 := BILLION, 1 := BILLION], 2 * BILLION)
  }

  lemma CreatedFresh(left: nat)
    requires TooFew(left)
    ensures Created(left) == Ok(Fresh(left))
  {
    FeeIsModest(left);
    assert map[0 := 0, 1 := 0][0 := BILLION] == Fresh(left).lp;
  }

  lemma DepositDone(left: nat)
    requires TooFew(left)
    ensures DepositSingleStep(Fresh(left), 3, 0, BtoA, 1, 1, NoFeeAccount, NO_ROOTS) == Ok(Deposited(left))
  {
    DepositQuoted(left);
    var s := Fresh(left);
    assert FeeReserves(1, 0, BtoA, 3, 0, 1, FeeCalculationFailure) == Ok((1, 2));
    assert DepositOwnerFee(s, 1, 0, 3, BILLION, 1, BtoA, NoFeeAccount, NO_ROOTS) == Ok(Lp(s.lp, BILLION));
    assert s.b[1 := 7_999_999_995][0 := 3] == Deposited(left).b;
    assert s.lp[1 := BILLION] == Deposited(left).lp;
  }

  lemma PaidIn(left: nat)
    requires TooFew(left)
    ensures TokenStep(Deposited(left), TransferTokens(MintB, 1, 0, 7_999_999_995)) == Ok(Before(left))
  {
    assert Deposited(left).b[1 := 0][0 := 7_999_999_998] == Before(left).b;
  }

  /** Each pool of the counterexamples is reached from initialization by one deposit and
      one payment into the vault. */
  lemma BeforeIsReachable(left: nat)
    requires TooFew(left)
    ensures Created(left).Ok? && Run(Created(left).value, Preparation()) == Before(left)
  {
    CreatedFresh(left);
    DepositDone(left);
    PaidIn(left);
    TwoSteps(Fresh(left), Deposited(left), Before(left), Preparation());
  }

  lemma TwoSteps(s0: State, s1: State, s2: State, attempts: seq<Attempt>)
    requires |attempts| == 2
    requires Apply(s0, attempts[0].call, attempts[0].env) == Ok(s1)
    requires Apply(s1, attempts[1].call, attempts[1].env) == Ok(s2)
    ensures Run(s0, attempts) == s2
  {
    assert attempts[1..][0] == attempts[1] && attempts[1..][1..] == [];
    assert Run(s1, attempts[1..]) == Run(s2, []);
  }
}
