/** Why the supply a withdrawal of B leaves matters: a reachable pool where the loss is
    far above one part in 10^9. */
module ThinPool {
  import opened Checked
  import opened Errors
  import opened Ledger
  import opened PriceCurve
  import opened FeeSchedule
  import opened SwapCurve
  import opened Pool
  import opened PoolInvariants
  import opened ShareValue
  import opened ShareRuns

  const PRICE_ONE_AND_A_HALF: U128 := 1_500_000_000_000_000_000_000_000_000
  const NINE_TENTHS_OWNER_FEE := Fees(0, 0, 9, 10, 0, 0, 0, 0)

  /** A pool holding only B, whose fee account owns a single LP token; account 1 of each
      token belongs to a user. */
  function Before(): State {
    State(map[0 := 0, 1 := 1], map[0 := 1_100_000_012, 1 := 0], map[0 := 1_000_000_000, 1 := 1], 1_000_000_001,
          ConstantPriceCurve(PRICE_ONE_AND_A_HALF), NINE_TENTHS_OWNER_FEE, PoolKeys(0, 0, 1, 0))
  }

  function After(): State {
    State(map[0 := 0, 1 := 1], map[0 := 900_000_010, 1 := 200_000_002],
          map[0 := 1_000_000_000, 1 := 350_000_014], 1_350_000_014,
          ConstantPriceCurve(PRICE_ONE_AND_A_HALF), NINE_TENTHS_OWNER_FEE, PoolKeys(0, 0, 1, 0))
  }

  /** The fee is minted before the burn and priced on the reserves and supply the burn
      will leave.  When the withdrawing account is paid that fee and burns it in the
      same instruction, that supply may fall below the initial amount, and the unit
      lost to rounding then weighs on far fewer LP tokens: here 1.65 A per LP token
      becomes 1.00. */
  lemma UnfundedWithdrawalLosesMore()
    ensures var (s, s') := (Before(), After());
            var call := WithdrawSingle(200_000_002, 1_000_000_000, BtoA, 1, 1, None);
            var (env, p) := (Env(0, None, None), PRICE_ONE_AND_A_HALF);
            && Sound(s)
            && Apply(s, call, env) == Ok(s')
            && !LeavesSupply(s, call, env)
            && !LossWithin(1, ValueAt(s, p), s.supply, ValueAt(s', p), s'.supply)
  {
    IsSound();
    ThinQuote();
    ThinFeeMint();
    ThinLoss();
    ThinLedger();
  }

  lemma ThinLedger()
    ensures var (s, s') := (Before(), After());
            && PayAndBurn(s.keys, Lp(map[0 := 1_000_000_000, 1 := 1_350_000_014], 2_350_000_014), 1, 0, 1_000_000_000)
               == Ok(Lp(s'.lp, s'.supply))
            && TransferTrading(Trading(s.a, s.b), BtoA, 0, 1, 200_000_002) == Ok(Trading(s'.a, s'.b))
  {
    var s, s' := Before(), After();
    assert map[0 := 1_000_000_000, 1 := 1_350_000_014][1 := 350_000_014] == s'.lp;
    assert s.b[0 := 900_000_010][1 := 200_000_002] == s'.b;
  }

  lemma IsSound()
    ensures Sound(Before())
  {
    var lp := Before().lp;
    TotalRemove(lp, 0);
    assert lp - {0} == map[1 := 1];
    TotalRemove(map[1 := 1], 1);
    assert map[1 := 1] - {1} == map[];
  }

  lemma ThinQuote()
    ensures WithdrawWithFees(Before().curve, 200_000_002, 0, 1_100_000_012, 1_000_000_001, BtoA,
                             NINE_TENTHS_OWNER_FEE, 0, None) == Some(SingleResult(1_000_000_000, 900_000_009))
  {
    assert PreFeeAmount(100_000_001, 9, 10) == Some(1_000_000_010);
    assert WithdrawBasis(200_000_002, NINE_TENTHS_OWNER_FEE) == Some((1_100_000_011, 900_000_009));
    ThinCost();
  }

  lemma ThinCost()
    ensures ToPoolTokens(PRICE_ONE_AND_A_HALF, 1_100_000_011, 0, 1_100_000_012, 1_000_000_001, BtoA, Up)
         == Some(1_000_000_000)
  {
    assert 1_000_000_001 * 1_650_000_016 / 1_650_000_018 == 999_999_999;
    assert CeilDiv(1_000_000_001 * 1_650_000_016, 1_650_000_018).value.0 == 1_000_000_000;
  }

  lemma ThinFeeMint()
    ensures WithdrawalOwnerFee(Before(), 0, 1_100_000_012, 200_000_002, SingleResult(1_000_000_000, 900_000_009),
                               BtoA, None, Env(0, None, None))
         == Ok(Lp(map[0 := 1_000_000_000, 1 := 1_350_000_014], 2_350_000_014))
  {
    assert ToPoolTokens(PRICE_ONE_AND_A_HALF, 900_000_009, 0, 1, 1, BtoA, Down) == Some(1_350_000_013);
    var s := Before();
    var l := Lp(s.lp, s.supply);
    assert FeeReserves(0, 1_100_000_012, BtoA, 0, 200_000_002, 900_000_009, FeeCalculationFailure) == Ok((0, 1));
    assert MintHostFee(l, s.fees, 1_350_000_013, None) == Ok((l, 1_350_000_013));
    assert s.lp[1 := 1_350_000_014] == map[0 := 1_000_000_000, 1 := 1_350_000_014];
  }

  lemma ThinLoss()
    ensures ValueAt(Before(), PRICE_ONE_AND_A_HALF) == 1_650_000_018
    ensures ValueAt(After(), PRICE_ONE_AND_A_HALF) == 1_350_000_015
    ensures !LossWithin(1, 1_650_000_018, 1_000_000_001, 1_350_000_015, 1_350_000_014)
  {
  }

  // ---------------------------------------------------------------------------
  // The pool is reachable
  // ---------------------------------------------------------------------------

  const KEYS := PoolKeys(0, 0, 1, 0)
  const NO_ROOTS := Env(0, None, None)

  /** One A and a little more than 1.1 * 10^9 B in the vaults, three B with the user. */
  function Created(): Result<State, SwapError> {
    Initialize(map[0 := 1, 1 := 0], map[0 := 1_100_000_009, 1 := 3], map[0 := 0, 1 := 0], KEYS,
               ConstantPriceCurve(PRICE_ONE_AND_A_HALF), NINE_TENTHS_OWNER_FEE, NO_ROOTS)
  }

  /** Selling the three B for the only A leads from a fresh pool to the one above. */
  lemma IsReachable()
    ensures Created().Ok?
    ensures Run(Created().value, [Attempt(Swap(3, 1, BtoA, 1, 1, None), NO_ROOTS)]) == Before()
  {
    var s := State(map[0 := 1, 1 := 0], map[0 := 1_100_000_009, 1 := 3], map[0 := 1_000_000_000, 1 := 0],
                   1_000_000_000, ConstantPriceCurve(PRICE_ONE_AND_A_HALF), NINE_TENTHS_OWNER_FEE, KEYS);
    assert map[0 := 0, 1 := 0][0 := 1_000_000_000] == s.lp;
    assert Created() == Ok(s);
    SaleQuote();
    SaleFee(s);
    SaleLedger(s);
    var call := Swap(3, 1, BtoA, 1, 1, None);
    assert Apply(s, call, NO_ROOTS) == Ok(Before());
    assert [Attempt(call, NO_ROOTS)][1..] == [];
  }

  lemma SaleQuote()
    ensures SwapWithFees(ConstantPriceCurve(PRICE_ONE_AND_A_HALF), 3, 1_100_000_009, 1, BtoA, NINE_TENTHS_OWNER_FEE, 0)
         == Some(SwapResult(1_100_000_012, 0, 3, 1, 0, 2))
  {
    assert SwapAt(PRICE_ONE_AND_A_HALF, 1, BtoA) == Some(Quote(1, 1));
  }

  lemma SaleFee(s: State)
    requires s.lp == map[0 := 1_000_000_000, 1 := 0] && s.supply == 1_000_000_000 && s.keys == KEYS
    requires s.curve == ConstantPriceCurve(PRICE_ONE_AND_A_HALF) && s.fees == NINE_TENTHS_OWNER_FEE
    ensures SwapOwnerFee(s, SwapResult(1_100_000_012, 0, 3, 1, 0, 2), BtoA, None, NO_ROOTS)
         == Ok(Lp(Before().lp, 1_000_000_001))
  {
    assert FeeReserves(0, 1_100_000_012, BtoA, 0, 0, 2, CalculationFailure) == Ok((0, 1_100_000_010));
    assert ToPoolTokens(PRICE_ONE_AND_A_HALF, 2, 0, 1_100_000_010, 1_000_000_000, BtoA, Down) == Some(1);
    assert MintHostFee(Lp(s.lp, s.supply), s.fees, 1, None) == Ok((Lp(s.lp, s.supply), 1));
    assert s.lp[1 := 1] == Before().lp;
  }

  lemma SaleLedger(s: State)
    requires s.a == map[0 := 1, 1 := 0] && s.b == map[0 := 1_100_000_009, 1 := 3]
    ensures TransferTrading(Trading(s.a, s.b), BtoA, 1, 0, 3) == Ok(Trading(s.a, Before().b))
    ensures TransferTrading(Trading(s.a, Before().b), AtoB, 0, 1, 1) == Ok(Trading(Before().a, Before().b))
  {
    assert s.b[1 := 0][0 := 1_100_000_012] == Before().b;
    assert s.a[0 := 0][1 := 1] == Before().a;
  }
}
