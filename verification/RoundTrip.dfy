/** An all-token deposit undone by an all-token withdrawal of the same LP tokens. */
module RoundTrip {
  import opened Checked
  import opened Arith
  import opened Errors
  import opened Ledger
  import opened PriceCurve
  import opened SwapCurve
  import opened Pool
  import opened PoolInvariants
  import opened ShareValue
  import CP = ConstantProduct

  /** What a deposit asks for x LP tokens on one reserve: the part rounded up, or nothing
      for a part below one token. */
  predicate PaidFor(paid: nat, x: nat, supply: nat, reserve: nat)
    requires supply > 0
  {
    paid == CeilQuotient(x * reserve, supply) || (paid == 0 && x * reserve < supply)
  }

  lemma QuoteUp(c: Curve, x: U64, supply: U64, a: U64, b: U64)
    requires supply > 0 && !c.OffsetCurve? && PoolTokensToTradingTokens(c, x, supply, a, b, Up).Some?
    ensures var paid := PoolTokensToTradingTokens(c, x, supply, a, b, Up).value;
            PaidFor(paid.a, x, supply, a) && PaidFor(paid.b, x, supply, b)
  {
    if c.ConstantProductCurve? {
      CP.ShareUpIsCeilingUnlessTiny(x, supply, a);
      CP.ShareUpIsCeilingUnlessTiny(x, supply, b);
    }
  }

  lemma QuoteDown(c: Curve, x: U64, supply: U64, a: U64, b: U64) returns (outA: nat, outB: nat)
    requires supply > 0 && !c.OffsetCurve? && PoolTokensToTradingTokens(c, x, supply, a, b, Down).Some?
    ensures var back := PoolTokensToTradingTokens(c, x, supply, a, b, Down).value;
            && outA == x * a / supply && outB == x * b / supply
            && back.a == outA && back.b == outB
  {
    var back := PoolTokensToTradingTokens(c, x, supply, a, b, Down).value;
    outA, outB := back.a, back.b;
  }

  lemma ReserveRoundTrip(net: nat, x: nat, supply: nat, reserve: nat, paid: nat, out: nat)
    requires supply > 0 && net <= x && PaidFor(paid, x, supply, reserve)
    requires out == net * (reserve + paid) / (supply + x)
    ensures out <= paid && (net == x ==> paid <= out + 1)
  {
    MulMono(net, x, reserve + paid, reserve + paid);
    FloorMono(net * (reserve + paid), x * (reserve + paid), supply + x);
    if paid == CeilQuotient(x * reserve, supply) {
      TokenRoundTrip(x, supply, reserve);
    } else {
      FloorIsMost(x * reserve, supply + x, 1);
    }
  }

  /** What the deposit did to vaults and supply. */
  lemma DepositPaid(s: State, s1: State, x: U64, maxA: U64, maxB: U64, sourceA: Key, sourceB: Key, destination: Key)
    returns (paidA: nat, paidB: nat)
    requires Sound(s) && DepositAllStep(s, x, maxA, maxB, sourceA, sourceB, destination) == Ok(s1)
    ensures s.supply > 0 && s1.supply == s.supply + x && s1.keys == s.keys && s1.curve == s.curve && Sound(s1)
    ensures !s.curve.OffsetCurve?
    ensures var (a, b) := (s.a[s.keys.vaultA], s.b[s.keys.vaultB]);
            && s1.a[s.keys.vaultA] == a + paidA && s1.b[s.keys.vaultB] == b + paidB
            && PaidFor(paidA, x, s.supply, a) && PaidFor(paidB, x, s.supply, b)
  {
    SupplyFloor(s.keys, Lp(s.lp, s.supply), 0);
    DepositAllConserves(s, s1, x, maxA, maxB, sourceA, sourceB, destination);
    var a, b := s.a[s.keys.vaultA], s.b[s.keys.vaultB];
    QuoteUp(s.curve, x, s.supply, a, b);
    var paid := PoolTokensToTradingTokens(s.curve, x, s.supply, a, b, Up).value;
    paidA, paidB := paid.a, paid.b;
  }

  lemma PartOfVault(x: nat, supply: nat, reserve: nat, out: nat)
    requires 0 < supply && x <= supply && out == x * reserve / supply
    ensures out <= reserve
  {
    WithdrawKeepsPerShare(x, supply, reserve, out);
  }

  lemma WithdrawalBurns(s: State, s2: State, x: U64, minA: U64, minB: U64,
                        source: Key, destinationA: Key, destinationB: Key) returns (fee: nat)
    requires Sound(s) && WithdrawAllStep(s, x, minA, minB, source, destinationA, destinationB) == Ok(s2)
    ensures WithdrawFee(s.keys, s.lp, s.fees, x, source) == Ok(fee) && fee <= x
    ensures s2.supply + (x - fee) == s.supply && x - fee <= s.supply
  {
    fee := WithdrawFee(s.keys, s.lp, s.fees, x, source).value;
    PayAndBurnAdvances(s.keys, Lp(s.lp, s.supply), source, fee, x - fee);
  }

  /** What a withdrawal paid, on a curve that counts its reserves as they are. */
  lemma WithdrawalPays(s: State, s2: State, x: U64, minA: U64, minB: U64,
                       source: Key, destinationA: Key, destinationB: Key, fee: nat)
    returns (outA: nat, outB: nat)
    requires Sound(s) && !s.curve.OffsetCurve? && s.supply > 0
    requires WithdrawAllStep(s, x, minA, minB, source, destinationA, destinationB) == Ok(s2)
    requires WithdrawFee(s.keys, s.lp, s.fees, x, source) == Ok(fee) && fee <= x && x - fee <= s.supply
    ensures var (a, b) := (s.a[s.keys.vaultA], s.b[s.keys.vaultB]);
            && outA == (x - fee) * a / s.supply && outB == (x - fee) * b / s.supply
            && s.keys.vaultA in s2.a && s2.a[s.keys.vaultA] == a - outA
            && s.keys.vaultB in s2.b && s2.b[s.keys.vaultB] == b - outB
  {
    var a, b := s.a[s.keys.vaultA], s.b[s.keys.vaultB];
    outA, outB := QuoteDown(s.curve, x - fee, s.supply, a, b);
    PartOfVault(x - fee, s.supply, a, outA);
    PartOfVault(x - fee, s.supply, b, outB);
    VaultAfterPayout(s.a, s.keys.vaultA, destinationA, outA);
    VaultAfterPayout(s.b, s.keys.vaultB, destinationB, outB);
  }

  /** Supply and vaults as they were, but for the withdrawal fee and the rounding. */
  ghost predicate Restored(s: State, s2: State, fee: nat) {
    && Sound(s) && Sound(s2) && s2.keys == s.keys
    && s2.supply == s.supply + fee
    && var a: nat, b: nat := s.a[s.keys.vaultA], s.b[s.keys.vaultB];
       && a <= s2.a[s.keys.vaultA] && b <= s2.b[s.keys.vaultB]
       && (fee == 0 ==> s2.a[s.keys.vaultA] <= a + 1 && s2.b[s.keys.vaultB] <= b + 1)
  }

  /** Depositing both tokens for x LP tokens and withdrawing x LP tokens, from any
      accounts: neither vault ends below where it began; and when no withdrawal fee is
      due, neither ends more than one unit above it, and the supply is back where it was.
      A fee leaves exactly its LP tokens outstanding. */
  lemma DepositThenWithdraw(s: State, s1: State, s2: State, x: U64, maxA: U64, maxB: U64,
                            sourceA: Key, sourceB: Key, destination: Key, minA: U64, minB: U64,
                            source: Key, destinationA: Key, destinationB: Key)
    requires Sound(s)
    requires DepositAllStep(s, x, maxA, maxB, sourceA, sourceB, destination) == Ok(s1)
    requires WithdrawAllStep(s1, x, minA, minB, source, destinationA, destinationB) == Ok(s2)
    ensures var fee := WithdrawFee(s.keys, s1.lp, s1.fees, x, source);
            fee.Ok? && Restored(s, s2, fee.value)
  {
    var paidA, paidB := DepositPaid(s, s1, x, maxA, maxB, sourceA, sourceB, destination);
    WithdrawAllConserves(s1, s2, x, minA, minB, source, destinationA, destinationB);
    var fee := WithdrawalBurns(s1, s2, x, minA, minB, source, destinationA, destinationB);
    var outA, outB := WithdrawalPays(s1, s2, x, minA, minB, source, destinationA, destinationB, fee);
    ReserveRoundTrip(x - fee, x, s.supply, s.a[s.keys.vaultA], paidA, outA);
    ReserveRoundTrip(x - fee, x, s.supply, s.b[s.keys.vaultB], paidB, outB);
  }
}
