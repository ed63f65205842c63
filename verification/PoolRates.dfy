/** The redemption rate inside a pool: everything proved about runs of rate updates
    holds between any two moments of a pool's run. */
module PoolRates {
  import opened Checked
  import opened Arith
  import opened Errors
  import opened Ledger
  import opened RayPower
  import opened RedemptionRate
  import opened FeeSchedule
  import opened SwapCurve
  import opened Pool
  import opened PoolInvariants

  /** The rate updates a run attempts, in order. */
  function RateCalls(attempts: seq<Attempt>): seq<RateCall> {
    if attempts == [] then []
    else
      var (call, env) := (attempts[0].call, attempts[0].env);
      (if call.SetRate? then [RateCall(call.ssr, call.rho, call.chi, env.now)] else []) + RateCalls(attempts[1..])
  }

  /** A pool's whole run moves its rate exactly as its rate updates alone would, so
      everything proved about runs of updates holds inside the pool. */
  lemma {:induction false} RunMovesRateLikeUpdates(s: State, attempts: seq<Attempt>)
    requires Sound(s) && s.curve.RedemptionRateCurve?
    ensures Run(s, attempts).curve == RedemptionRateCurve(RunRates(s.curve.rate, RateCalls(attempts)))
    decreases |attempts|
  {
    if attempts != [] {
      var (call, env) := (attempts[0].call, attempts[0].env);
      var s' := Next(s, call, env);
      NextKeeps(s, call, env);
      RunMovesRateLikeUpdates(s', attempts[1..]);
      var rest := RateCalls(attempts[1..]);
      if call.SetRate? {
        var r := RateCall(call.ssr, call.rho, call.chi, env.now);
        assert RateCalls(attempts) == [r] + rest;
        assert ([r] + rest)[1..] == rest;
        assert s'.curve.rate == Posted(s.curve.rate, r);
      } else {
        assert RateCalls(attempts) == rest;
      }
    }
  }

  lemma {:induction false} RateCallsInOrder(t: U128, u: U128, attempts: seq<Attempt>)
    requires u <= t && InOrderFrom(t, attempts)
    ensures ClockFrom(u, RateCalls(attempts))
    ensures LastTime(u, RateCalls(attempts)) <= EndTime(t, attempts)
    ensures t <= EndTime(t, attempts)
    decreases |attempts|
  {
    if attempts != [] {
      var (call, env) := (attempts[0].call, attempts[0].env);
      var rest := RateCalls(attempts[1..]);
      if call.SetRate? {
        RateCallsInOrder(env.now, env.now, attempts[1..]);
        var r := RateCall(call.ssr, call.rho, call.chi, env.now);
        assert RateCalls(attempts) == [r] + rest;
        assert ([r] + rest)[1..] == rest;
      } else {
        RateCallsInOrder(env.now, u, attempts[1..]);
        assert RateCalls(attempts) == rest;
      }
    }
  }

  // ---------------------------------------------------------------------------
  // Two moments of one run
  // ---------------------------------------------------------------------------

  /** A run stopped after k attempts and resumed, with its clock. */
  lemma {:induction false} RunResumes(s: State, t: U128, attempts: seq<Attempt>, k: nat)
    requires k <= |attempts| && InOrderFrom(t, attempts)
    ensures Run(s, attempts) == Run(Run(s, attempts[..k]), attempts[k..])
    ensures t <= EndTime(t, attempts[..k])
    ensures InOrderFrom(EndTime(t, attempts[..k]), attempts[k..])
    ensures EndTime(EndTime(t, attempts[..k]), attempts[k..]) == EndTime(t, attempts)
    decreases |attempts|
  {
    if k == 0 {
      assert attempts[..0] == [] && attempts[0..] == attempts;
    } else {
      var (call, env) := (attempts[0].call, attempts[0].env);
      RunResumes(Next(s, call, env), env.now, attempts[1..], k - 1);
      assert attempts[..k][0] == attempts[0];
      assert attempts[..k][1..] == attempts[1..][..k - 1];
      assert attempts[k..] == attempts[1..][k - 1..];
    }
  }

  /** A pool with a redemption-rate curve whose posting time the clock has reached. */
  ghost predicate RateSound(s: State, t: U128) {
    Sound(s) && s.curve.RedemptionRateCurve? && s.curve.rate.rho <= t
  }

  lemma InitialRateSound(a: Balances, b: Balances, lp: Balances, keys: PoolKeys, curve: Curve, fees: Fees, env: Env)
    requires curve.RedemptionRateCurve? && Initialize(a, b, lp, keys, curve, fees, env).Ok?
    ensures RateSound(Initialize(a, b, lp, keys, curve, fees, env).value, env.now)
  {
    InitializeIsSound(a, b, lp, keys, curve, fees, env);
  }

  lemma RunKeepsRateSound(s: State, t: U128, attempts: seq<Attempt>)
    requires RateSound(s, t) && InOrderFrom(t, attempts)
    ensures RateSound(Run(s, attempts), EndTime(t, attempts))
    ensures Run(s, attempts).curve.rate == RunRates(s.curve.rate, RateCalls(attempts))
    ensures ClockFrom(t, RateCalls(attempts)) && LastTime(t, RateCalls(attempts)) <= EndTime(t, attempts)
  {
    RunKeeps(s, attempts);
    RunMovesRateLikeUpdates(s, attempts);
    RateCallsInOrder(t, t, attempts);
    RunKeepsRateOrder(s.curve.rate, t, RateCalls(attempts));
  }

  /** The rate after k attempts of a run and the updates that follow take it to the
      rate at its end. */
  lemma RateResumes(s: State, t: U128, attempts: seq<Attempt>, k: nat)
    requires RateSound(s, t) && InOrderFrom(t, attempts) && k <= |attempts|
    ensures var (at, here) := (Run(s, attempts[..k]), EndTime(t, attempts[..k]));
            var later := RateCalls(attempts[k..]);
            && RateSound(at, here)
            && RateSound(Run(s, attempts), EndTime(t, attempts))
            && Run(s, attempts).curve.rate == RunRates(at.curve.rate, later)
            && ClockFrom(here, later) && LastTime(here, later) <= EndTime(t, attempts)
  {
    RunResumes(s, t, attempts, k);
    PrefixInOrder(t, attempts, k);
    RunKeepsRateSound(s, t, attempts[..k]);
    RunKeepsRateSound(Run(s, attempts[..k]), EndTime(t, attempts[..k]), attempts[k..]);
  }

  lemma {:induction false} PrefixInOrder(t: U128, attempts: seq<Attempt>, k: nat)
    requires k <= |attempts| && InOrderFrom(t, attempts)
    ensures InOrderFrom(t, attempts[..k])
    decreases |attempts|
  {
    if k > 0 {
      PrefixInOrder(attempts[0].env.now, attempts[1..], k - 1);
      assert attempts[..k][1..] == attempts[1..][..k - 1];
    }
  }

  /** In a pool whose clock never goes back, from any moment of a run to its end: the
      posting time never passes the clock, so the price never asks for a negative
      duration; the cap parameter never changes; a posting time once set, whenever that
      was, and chi with it, never falls; and one accepted update anywhere in the run
      settles the rate between 1.0 and the cap for good. */
  lemma ReachableRateInOrder(a: Balances, b: Balances, lp: Balances, keys: PoolKeys, curve: Curve, fees: Fees,
                             env: Env, s0: State, attempts: seq<Attempt>, k: nat)
    requires curve.RedemptionRateCurve? && k <= |attempts|
    requires Initialize(a, b, lp, keys, curve, fees, env) == Ok(s0) && InOrderFrom(env.now, attempts)
    ensures var (at, end) := (Run(s0, attempts[..k]), Run(s0, attempts));
            && at.curve.RedemptionRateCurve? && end.curve.RedemptionRateCurve?
            && var (c, d) := (at.curve.rate, end.curve.rate);
            && d.rho <= EndTime(env.now, attempts)
            && d.maxSsr == c.maxSsr == curve.rate.maxSsr
            && (c.rho != 0 ==> c.rho <= d.rho && c.chi <= d.chi)
            && (Settled(c) || AnyAccepted(curve.rate, RateCalls(attempts)) ==> Settled(d))
  {
    InitialRateSound(a, b, lp, keys, curve, fees, env);
    RateResumes(s0, env.now, attempts, k);
    RateResumes(s0, env.now, attempts, 0);
    assert attempts[..0] == [] && attempts[0..] == attempts;
    var at, here := Run(s0, attempts[..k]), EndTime(env.now, attempts[..k]);
    RunKeepsRateOrder(at.curve.rate, here, RateCalls(attempts[k..]));
    RunKeepsRateOrder(curve.rate, env.now, RateCalls(attempts));
  }

  /** A chi accepted at any moment of a pool's run, with a non-zero posting time, is a
      floor under the price at the end of the run and after. */
  lemma ReachablePriceFloor(a: Balances, b: Balances, lp: Balances, keys: PoolKeys, curve: Curve, fees: Fees,
                            env: Env, s0: State, attempts: seq<Attempt>, k: nat, later: U128)
    requires curve.RedemptionRateCurve? && k < |attempts|
    requires Initialize(a, b, lp, keys, curve, fees, env) == Ok(s0) && InOrderFrom(env.now, attempts)
    requires var call := attempts[k].call;
             call.SetRate? && call.rho != 0 && Apply(Run(s0, attempts[..k]), call, attempts[k].env).Ok?
    requires EndTime(env.now, attempts) <= later
    ensures var s := Run(s0, attempts);
            && s.curve.RedemptionRateCurve?
            && var price := ConversionRate(s.curve.rate, later);
               price.Some? ==> attempts[k].call.chi <= price.value
  {
    InitialRateSound(a, b, lp, keys, curve, fees, env);
    RateResumes(s0, env.now, attempts, k);
    var at, here := Run(s0, attempts[..k]), EndTime(env.now, attempts[..k]);
    var call := attempts[k].call;
    var calls := RateCalls(attempts[k..]);
    assert attempts[k..][0] == attempts[k];
    assert calls[0] == RateCall(call.ssr, call.rho, call.chi, attempts[k].env.now);
    assert calls[..0] == [];
    PostedChiIsPriceFloor(at.curve.rate, here, calls, 0, later);
  }

  /** The growth cap between any two moments of a pool's run, the first with a posted
      rate: at the later moment chi is within the cap compounded since, and so is the
      price from then on once an update has been accepted. */
  lemma ReachableGrowthCap(a: Balances, b: Balances, lp: Balances, keys: PoolKeys, curve: Curve, fees: Fees,
                           env: Env, s0: State, attempts: seq<Attempt>, k: nat, later: U128)
    requires curve.RedemptionRateCurve? && k <= |attempts|
    requires Initialize(a, b, lp, keys, curve, fees, env) == Ok(s0) && InOrderFrom(env.now, attempts)
    requires EndTime(env.now, attempts) <= later
    ensures var (at, end) := (Run(s0, attempts[..k]).curve, Run(s0, attempts).curve);
            && at.RedemptionRateCurve? && end.RedemptionRateCurve?
            && WithinCap(at.rate, end.rate, later)
            && (AnyAccepted(curve.rate, RateCalls(attempts)) ==> Settled(end.rate))
  {
    InitialRateSound(a, b, lp, keys, curve, fees, env);
    ReachableRateInOrder(a, b, lp, keys, curve, fees, env, s0, attempts, k);
    RateResumes(s0, env.now, attempts, k);
    var at, here := Run(s0, attempts[..k]).curve, EndTime(env.now, attempts[..k]);
    RunStaysWithinCap(at.rate, here, RateCalls(attempts[k..]), later);
  }
}
