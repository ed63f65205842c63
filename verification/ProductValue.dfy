/** The product of the reserves per squared LP token over whole runs of a constant-product
    pool, or of an offset pool with the offset counted. */
module ProductValue {
  import opened Checked
  import opened Arith
  import opened Errors
  import opened Ledger
  import opened PriceCurve
  import opened FeeSchedule
  import opened SwapCurve
  import opened Pool
  import opened PoolInvariants
  import CP = ConstantProduct
  import SV = ShareValue

  /** a b / s^2 does not fall. */
  predicate ProductKept(a: nat, b: nat, s: nat, a': nat, b': nat, s': nat) {
    a * b * (s' * s') <= a' * b' * (s * s)
  }

  lemma ProductComposes(x0: nat, s0: nat, x1: nat, s1: nat, x2: nat, s2: nat)
    requires s1 > 0
    requires x0 * (s1 * s1) <= x1 * (s0 * s0) && x1 * (s2 * s2) <= x2 * (s1 * s1)
    ensures x0 * (s2 * s2) <= x2 * (s0 * s0)
  {
    MulPositive(s1, s1);
    SV.RatioTransitive(x0, x1, x2, s0 * s0, s1 * s1, s2 * s2);
  }

  lemma ProportionalKeepsProduct(a: nat, b: nat, s: nat, a': nat, b': nat, s': nat)
    requires a * s' <= a' * s && b * s' <= b' * s
    ensures ProductKept(a, b, s, a', b', s')
  {
    MulMono(a * s', a' * s, b * s', b' * s);
    Square(a, b, s');
    Square(a', b', s);
  }

  lemma Square(a: nat, b: nat, s: nat)
    ensures (a * s) * (b * s) == a * b * (s * s)
  {
    assert (a * s) * (b * s) == a * b * s * s;
  }

  predicate HasProduct(c: Curve) {
    c.ConstantProductCurve? || c.OffsetCurve?
  }

  /** Reserve B as the curve counts it. */
  function ReserveB(s: State): nat
    requires s.keys.vaultB in s.b
  {
    CountedB(s.curve, s.b[s.keys.vaultB])
  }

  function ReserveProduct(s: State): nat
    requires s.keys.vaultA in s.a && s.keys.vaultB in s.b
  {
    var a: nat, b: nat := s.a[s.keys.vaultA], ReserveB(s);
    a * b
  }

  lemma QuoteKeepsProduct(c: Curve, less: U128, a: U128, b: U128, dir: TradeDirection, now: U128, swapped: nat)
    requires HasProduct(c)
    requires var q := SwapWithoutFees(c, less, if dir.AtoB? then a else b, if dir.AtoB? then b else a, dir, now);
             q.Some? && q.value.used <= swapped && q.value.out <= if dir.AtoB? then b else a
    ensures var q := SwapWithoutFees(c, less, if dir.AtoB? then a else b, if dir.AtoB? then b else a, dir, now);
            var (a', b') := Moved(dir, a, b, swapped, q.value.out);
            a * CountedB(c, b) <= a' * CountedB(c, b')
  {
    var offset := if c.OffsetCurve? then c.tokenBOffset else 0;
    var (x, y) := if dir.AtoB? then (a, b) else (b, a);
    var q := SwapWithoutFees(c, less, x, y, dir, now).value;
    assert CP.SwapOffset(offset, less, x, y, dir) == Some(q);
    CP.OffsetSwapIsTight(offset, less, a, b, dir);
    match dir
    case AtoB => MulMono(a + q.used, a + swapped, b + offset - q.out, b + offset - q.out);
    case BtoA => MulMono(a - q.out, a - q.out, b + offset + q.used, b + offset + swapped);
  }

  lemma SwapKeepsProduct(s: State, amountIn: U64, minimumOut: U64, dir: TradeDirection,
                         source: Key, destination: Key, host: Option<Key>, env: Env)
    requires Sound(s) && HasProduct(s.curve) && s.fees.ownerTradeNum == 0
    requires SwapStep(s, amountIn, minimumOut, dir, source, destination, host, env).Ok?
    ensures var s' := SwapStep(s, amountIn, minimumOut, dir, source, destination, host, env).value;
            && s'.supply == s.supply && s'.curve == s.curve
            && s'.keys == s.keys && s.keys.vaultA in s'.a && s.keys.vaultB in s'.b
            && ReserveProduct(s) <= ReserveProduct(s')
  {
    var s' := SwapStep(s, amountIn, minimumOut, dir, source, destination, host, env).value;
    var a, b := s.a[s.keys.vaultA], s.b[s.keys.vaultB];
    var (x, y) := if dir.AtoB? then (a, b) else (b, a);
    SwapAccounts(s.curve, amountIn, x, y, dir, s.fees, env.now);
    var r := SV.SwapEffects(s, s', amountIn, minimumOut, dir, source, destination, host, env);
    NoOwnerFee(s.curve, amountIn, x, y, dir, s.fees, env.now);
    QuoteKeepsProduct(s.curve, LessFees(amountIn, s.fees).value, a, b, dir, env.now, r.sourceSwapped);
  }

  lemma NoOwnerFee(c: Curve, source: U128, x: U128, y: U128, dir: TradeDirection, fees: Fees, now: U128)
    requires fees.ownerTradeNum == 0 && SwapWithFees(c, source, x, y, dir, fees, now).Some?
    ensures SwapWithFees(c, source, x, y, dir, fees, now).value.ownerFee == 0
  {
  }

  lemma DepositAllKeepsProduct(s: State, lpAmount: U64, maxA: U64, maxB: U64, sourceA: Key, sourceB: Key,
                               destination: Key)
    requires Sound(s) && s.curve.ConstantProductCurve?
    requires DepositAllStep(s, lpAmount, maxA, maxB, sourceA, sourceB, destination).Ok?
    ensures var s' := DepositAllStep(s, lpAmount, maxA, maxB, sourceA, sourceB, destination).value;
            var (a, b) := (s.a[s.keys.vaultA], s.b[s.keys.vaultB]);
            && s'.keys == s.keys && s.keys.vaultA in s'.a && s.keys.vaultB in s'.b
            && a * s'.supply <= s'.a[s.keys.vaultA] * s.supply
            && b * s'.supply <= s'.b[s.keys.vaultB] * s.supply
  {
    SupplyFloor(s.keys, Lp(s.lp, s.supply), 0);
    var a, b := s.a[s.keys.vaultA], s.b[s.keys.vaultB];
    // the processor refuses zero amounts, which is where the rounding is not a ceiling
    CP.ShareUpIsCeilingUnlessTiny(lpAmount, s.supply, a);
    CP.ShareUpIsCeilingUnlessTiny(lpAmount, s.supply, b);
    DepositKeepsPerShare(lpAmount, s.supply, a);
    DepositKeepsPerShare(lpAmount, s.supply, b);
  }

  lemma WithdrawAllKeepsProduct(s: State, lpAmount: U64, minA: U64, minB: U64, source: Key, destinationA: Key,
                                destinationB: Key)
    requires Sound(s) && HasProduct(s.curve)
    requires WithdrawAllStep(s, lpAmount, minA, minB, source, destinationA, destinationB).Ok?
    ensures var s' := WithdrawAllStep(s, lpAmount, minA, minB, source, destinationA, destinationB).value;
            && s'.curve == s.curve
            && s'.keys == s.keys && s.keys.vaultA in s'.a && s.keys.vaultB in s'.b
            && s.a[s.keys.vaultA] * s'.supply <= s'.a[s.keys.vaultA] * s.supply
            && ReserveB(s) * s'.supply <= ReserveB(s') * s.supply
  {
    SupplyFloor(s.keys, Lp(s.lp, s.supply), 0);
    var a, b := s.a[s.keys.vaultA], s.b[s.keys.vaultB];
    var fee := WithdrawFee(s.keys, s.lp, s.fees, lpAmount, source).value;
    var net := lpAmount - fee;
    var tokens := CP.Shares(net, s.supply, a, ReserveB(s), Down).value;
    PayAndBurnAdvances(s.keys, Lp(s.lp, s.supply), source, fee, net);
    var outA, outB := Least(a, tokens.a), Least(b, tokens.b);
    WithdrawKeepsPerShare(net, s.supply, a, outA);
    WithdrawKeepsPerShare(net, s.supply, ReserveB(s), outB);
    SV.VaultAfterPayout(s.a, s.keys.vaultA, destinationA, outA);
    SV.VaultAfterPayout(s.b, s.keys.vaultB, destinationB, outB);
  }

  lemma DirectKeepsProduct(s: State, s': State, step: TokenCall)
    requires Sound(s) && TokenStep(s, step) == Ok(s')
    ensures KeepsProduct(s, s')
  {
    TokenStepKeeps(s, s', step);
    var supply: nat, supply': nat := s.supply, s'.supply;
    MulMono(s.a[s.keys.vaultA], s'.a[s.keys.vaultA], ReserveB(s), ReserveB(s'));
    MulMono(supply', supply, supply', supply);
    MulMono(ReserveProduct(s), ReserveProduct(s'), supply' * supply', supply * supply);
  }

  /** Only the instructions this invariant is about. */
  predicate ProductCall(call: Call) {
    call.Swap? || call.DepositAll? || call.WithdrawAll? || call.Direct?
  }

  /** Product per squared LP token between two states of one pool. */
  ghost predicate KeepsProduct(s: State, s': State) {
    && s'.keys == s.keys
    && s.keys.vaultA in s.a && s.keys.vaultB in s.b && s.keys.vaultA in s'.a && s.keys.vaultB in s'.b
    && ProductKept(s.a[s.keys.vaultA], ReserveB(s), s.supply, s'.a[s.keys.vaultA], ReserveB(s'), s'.supply)
  }

  lemma KeepsProductComposes(s0: State, s1: State, s2: State)
    requires s1.supply > 0 && KeepsProduct(s0, s1) && KeepsProduct(s1, s2)
    ensures KeepsProduct(s0, s2)
  {
    ProductComposes(ReserveProduct(s0), s0.supply, ReserveProduct(s1), s1.supply, ReserveProduct(s2), s2.supply);
  }

  lemma ProportionalKeeps(s: State, s': State)
    requires s'.keys == s.keys
    requires s.keys.vaultA in s.a && s.keys.vaultB in s.b && s.keys.vaultA in s'.a && s.keys.vaultB in s'.b
    requires s.a[s.keys.vaultA] * s'.supply <= s'.a[s.keys.vaultA] * s.supply
    requires ReserveB(s) * s'.supply <= ReserveB(s') * s.supply
    ensures KeepsProduct(s, s')
  {
    ProportionalKeepsProduct(s.a[s.keys.vaultA], ReserveB(s), s.supply, s'.a[s.keys.vaultA], ReserveB(s'), s'.supply);
  }

  lemma SameSupplyKeeps(s: State, s': State)
    requires s'.keys == s.keys && s'.supply == s.supply
    requires s.keys.vaultA in s.a && s.keys.vaultB in s.b && s.keys.vaultA in s'.a && s.keys.vaultB in s'.b
    requires ReserveProduct(s) <= ReserveProduct(s')
    ensures KeepsProduct(s, s')
  {
    var supply: nat := s.supply;
    MulMono(ReserveProduct(s), ReserveProduct(s'), supply * supply, supply * supply);
  }

  lemma NextKeepsProduct(s: State, call: Call, env: Env)
    requires Sound(s) && HasProduct(s.curve) && s.fees.ownerTradeNum == 0 && ProductCall(call)
    ensures KeepsProduct(s, Next(s, call, env))
  {
    var s' := Next(s, call, env);
    if Apply(s, call, env).Ok? {
      match call
      case Swap(amountIn, minimumOut, dir, source, destination, host) =>
        SwapKeepsProduct(s, amountIn, minimumOut, dir, source, destination, host, env);
        SameSupplyKeeps(s, s');
      case DepositAll(lpAmount, maxA, maxB, sourceA, sourceB, destination) =>
        DepositAllKeepsProduct(s, lpAmount, maxA, maxB, sourceA, sourceB, destination);
        ProportionalKeeps(s, s');
      case WithdrawAll(lpAmount, minA, minB, source, destinationA, destinationB) =>
        WithdrawAllKeepsProduct(s, lpAmount, minA, minB, source, destinationA, destinationB);
        ProportionalKeeps(s, s');
      case Direct(step) => DirectKeepsProduct(s, s', step);
    }
  }

  /** Over any run of swaps without owner fee, all-token deposits and withdrawals and
      direct uses of the token program, the reserves' product per squared LP token never
      falls, an offset counted in. */
  lemma {:induction false} RunKeepsProduct(s: State, attempts: seq<Attempt>)
    requires Sound(s) && HasProduct(s.curve) && s.fees.ownerTradeNum == 0
    requires forall i :: 0 <= i < |attempts| ==> ProductCall(attempts[i].call)
    ensures KeepsProduct(s, Run(s, attempts))
    decreases |attempts|
  {
    if attempts != [] {
      var (call, env) := (attempts[0].call, attempts[0].env);
      var s1 := Next(s, call, env);
      NextKeeps(s, call, env);
      NextKeepsProduct(s, call, env);
      RunKeepsProduct(s1, attempts[1..]);
      SupplyFloor(s1.keys, Lp(s1.lp, s1.supply), 0);
      KeepsProductComposes(s, s1, Run(s, attempts));
    }
  }
}
