/** The accruing price of token B and its update rule
    (program/src/curve/redemption_rate.rs, `get_conversion_rate`, `set_rates`). */
module RedemptionRate {
  import opened Checked
  import opened Arith
  import opened RayPower
  import opened Errors

  datatype RateCurve = RateCurve(maxSsr: U128, ssr: U128, rho: U128, chi: U128)

  /** Price of one B in A at time t, scaled by RAY.  The product with chi is a plain
      multiplication in the program, which aborts on overflow. */
  function ConversionRate(c: RateCurve, t: U128): Option<U256> {
    if t == c.rho then Some(c.chi)
    else if t < c.rho then None
    else
      var z :- Rpow(c.ssr, t - c.rho);
      var y :- Below(U256_LIMIT, z * c.chi);
      Some(y / RAY)
  }

  /** Largest chi the growth cap admits at time rho. */
  function ChiMax(c: RateCurve, rho: U128): Result<nat, SwapError>
    requires c.rho <= rho
  {
    var z :- Rpow(c.maxSsr, rho - c.rho).OrError(CalculationFailure);
    var y :- Below(U256_LIMIT, z * c.chi).OrError(ArithmeticOverflow);
    Ok(y / RAY)
  }

  function SetRates(c: RateCurve, ssr: U128, rho: U128, chi: U128, now: U128): Result<RateCurve, SwapError> {
    if rho > now then Err(InvalidRho)
    else if ssr < RAY then Err(InvalidSsr)
    else if c.maxSsr != 0 && ssr > c.maxSsr then Err(InvalidSsr)
    else if c.rho == 0 then Ok(RateCurve(c.maxSsr, ssr, rho, chi))
    else if rho < c.rho then Err(InvalidRho)
    else if chi < c.chi then Err(InvalidChi)
    else if c.maxSsr != 0 then
      var chiMax :- ChiMax(c, rho);
      if chi > chiMax then Err(InvalidChi)
      else Ok(RateCurve(c.maxSsr, ssr, rho, chi))
    else Ok(RateCurve(c.maxSsr, ssr, rho, chi))
  }

  // ---------------------------------------------------------------------------
  // Exactly which updates are accepted
  // ---------------------------------------------------------------------------

  /** The growth cap admits chi: the power of the cap over the time passed is computable,
      and chi is at most the old chi grown by it. */
  predicate CapAdmits(c: RateCurve, rho: U128, chi: U128)
    requires c.rho <= rho
  {
    && Rpow(c.maxSsr, rho - c.rho).Some?
    && var grown := Rpow(c.maxSsr, rho - c.rho).value * c.chi;
       grown < U256_LIMIT && chi * RAY <= grown
  }

  /** What an update has to meet: a time not in the future, a rate of at least 1.0 and
      within the cap; and once a rate is posted, a time and a chi that do not go back and
      a chi the cap admits.  The first posting is free of these. */
  predicate Admissible(c: RateCurve, ssr: U128, rho: U128, chi: U128, now: U128) {
    && rho <= now
    && RAY <= ssr
    && (c.maxSsr != 0 ==> ssr <= c.maxSsr)
    && (c.rho != 0 ==>
          && c.rho <= rho
          && c.chi <= chi
          && (c.maxSsr != 0 ==> CapAdmits(c, rho, chi)))
  }

  lemma CapRule(c: RateCurve, rho: U128, chi: U128)
    requires c.rho <= rho
    ensures CapAdmits(c, rho, chi) <==> ChiMax(c, rho).Ok? && chi <= ChiMax(c, rho).value
  {
    if Rpow(c.maxSsr, rho - c.rho).Some? {
      FloorIsMost(Rpow(c.maxSsr, rho - c.rho).value * c.chi, RAY, chi);
    }
  }

  /** An update is accepted if and only if it is admissible, the first posting included,
      and then replaces everything but the cap. */
  lemma UpdateAcceptedIff(c: RateCurve, ssr: U128, rho: U128, chi: U128, now: U128)
    ensures SetRates(c, ssr, rho, chi, now).Ok? <==> Admissible(c, ssr, rho, chi, now)
    ensures Admissible(c, ssr, rho, chi, now) ==>
              SetRates(c, ssr, rho, chi, now) == Ok(RateCurve(c.maxSsr, ssr, rho, chi))
  {
    if c.rho <= rho {
      CapRule(c, rho, chi);
    }
  }

  /** Why an update is refused, the first reason that applies. */
  lemma UpdateRefusedBecause(c: RateCurve, ssr: U128, rho: U128, chi: U128, now: U128)
    requires !Admissible(c, ssr, rho, chi, now)
    ensures SetRates(c, ssr, rho, chi, now) == Err(
              if rho > now then InvalidRho
              else if ssr < RAY || (c.maxSsr != 0 && c.maxSsr < ssr) then InvalidSsr
              else if rho < c.rho then InvalidRho
              else if chi < c.chi then InvalidChi
              else if Rpow(c.maxSsr, rho - c.rho).None? then CalculationFailure
              else if Rpow(c.maxSsr, rho - c.rho).value * c.chi >= U256_LIMIT then ArithmeticOverflow
              else InvalidChi)
  {
    if c.rho <= rho {
      CapRule(c, rho, chi);
    }
  }

  // ---------------------------------------------------------------------------
  // The price between updates
  // ---------------------------------------------------------------------------

  /** While the rate is at least 1.0 the price never falls, never drops below the
      posted chi, and is computable at every time before one where it is. */
  lemma PriceNeverFalls(c: RateCurve, t: U128, t': U128)
    requires RAY <= c.ssr && c.rho <= t <= t'
    ensures AtMost(ConversionRate(c, t), ConversionRate(c, t'))
    ensures ConversionRate(c, t).Some? ==> c.chi <= ConversionRate(c, t).value
  {
    RpowMonotoneInExponent(c.ssr, t - c.rho, t' - c.rho);
    RpowMonotoneInExponent(c.ssr, 0, t - c.rho);
    AccruedIsScaledPower(c, t);
    AccruedIsScaledPower(c, t');
    var z, z' := Rpow(c.ssr, t - c.rho), Rpow(c.ssr, t' - c.rho);
    assert Rpow(c.ssr, 0) == Some(RAY);
    if z.Some? {
      MulMono(RAY, z.value, c.chi, c.chi);
      FloorOfMultiple(c.chi, RAY);
      FloorMono(RAY * c.chi, z.value * c.chi, RAY);
    }
    if z'.Some? {
      MulMono(z.value, z'.value, c.chi, c.chi);
      FloorMono(z.value * c.chi, z'.value * c.chi, RAY);
    }
  }

  /** The early return at t == rho agrees with the general formula. */
  lemma AccruedIsScaledPower(c: RateCurve, t: U128)
    requires c.rho <= t
    ensures ConversionRate(c, t) == var z :- Rpow(c.ssr, t - c.rho);
                                    var y :- Below(U256_LIMIT, z * c.chi);
                                    Some(y / RAY)
  {
    if t == c.rho {
      assert Rpow(c.ssr, 0) == Some(RAY);
      FloorOfMultiple(c.chi, RAY);
    }
  }

  /** Posting the curve's own accrued price as the new chi is refused only where
      the growth cap itself cannot be computed: the cap grows at least as fast as
      the price it bounds. */
  lemma HonestUpdateAccepted(c: RateCurve, ssr: U128, rho: U128, now: U128)
    requires c.rho != 0 && c.rho <= rho <= now
    requires RAY <= ssr && RAY <= c.ssr
    requires c.maxSsr != 0 ==> ssr <= c.maxSsr && c.ssr <= c.maxSsr
    requires ConversionRate(c, rho).Some? && ConversionRate(c, rho).value < U128_LIMIT
    ensures var chi := ConversionRate(c, rho).value;
            SetRates(c, ssr, rho, chi, now).Ok? <==> c.maxSsr == 0 || ChiMax(c, rho).Ok?
    ensures var chi := ConversionRate(c, rho).value;
            SetRates(c, ssr, rho, chi, now).Ok? ==>
              SetRates(c, ssr, rho, chi, now) == Ok(RateCurve(c.maxSsr, ssr, rho, chi))
  {
    PriceNeverFalls(c, rho, rho);
    if c.maxSsr != 0 && ChiMax(c, rho).Ok? {
      AccruedIsScaledPower(c, rho);
      RpowMonotoneInBase(c.ssr, c.maxSsr, rho - c.rho);
      var z, m := Rpow(c.ssr, rho - c.rho).value, Rpow(c.maxSsr, rho - c.rho).value;
      MulMono(z, m, c.chi, c.chi);
      FloorMono(z * c.chi, m * c.chi, RAY);
    }
  }

  // ---------------------------------------------------------------------------
  // Runs of updates
  // ---------------------------------------------------------------------------

  datatype RateCall = RateCall(ssr: U128, rho: U128, chi: U128, now: U128)

  predicate Accepted(c: RateCurve, r: RateCall) {
    SetRates(c, r.ssr, r.rho, r.chi, r.now).Ok?
  }

  /** The curve after one attempted update; a refused update changes nothing. */
  function Posted(c: RateCurve, r: RateCall): RateCurve {
    if Accepted(c, r) then SetRates(c, r.ssr, r.rho, r.chi, r.now).value else c
  }

  function RunRates(c: RateCurve, calls: seq<RateCall>): RateCurve
    decreases |calls|
  {
    if calls == [] then c else RunRates(Posted(c, calls[0]), calls[1..])
  }

  /** Call times start no earlier than t and never go back. */
  predicate ClockFrom(t: U128, calls: seq<RateCall>)
    decreases |calls|
  {
    calls != [] ==> t <= calls[0].now && ClockFrom(calls[0].now, calls[1..])
  }

  function LastTime(t: U128, calls: seq<RateCall>): U128
    decreases |calls|
  {
    if calls == [] then t else LastTime(calls[0].now, calls[1..])
  }

  /** Some call of the run is accepted in the state it meets. */
  predicate AnyAccepted(c: RateCurve, calls: seq<RateCall>)
    decreases |calls|
  {
    calls != [] && (Accepted(c, calls[0]) || AnyAccepted(Posted(c, calls[0]), calls[1..]))
  }

  /** What every accepted update establishes and every attempt keeps. */
  predicate Settled(c: RateCurve) {
    RAY <= c.ssr && (c.maxSsr != 0 ==> c.ssr <= c.maxSsr)
  }

  /** Over a whole run of attempted updates: the cap parameter never changes, the
      posting time never passes the clock, and once it is set neither it nor chi
      ever falls; one acceptance is enough for the rate to stay within its bounds. */
  lemma {:induction false} RunKeepsRateOrder(c: RateCurve, t: U128, calls: seq<RateCall>)
    requires c.rho <= t && ClockFrom(t, calls)
    ensures var d := RunRates(c, calls);
            && d.maxSsr == c.maxSsr
            && d.rho <= LastTime(t, calls)
            && t <= LastTime(t, calls)
            && (c.rho != 0 ==> c.rho <= d.rho && c.chi <= d.chi)
            && (Settled(c) || AnyAccepted(c, calls) ==> Settled(d))
    decreases |calls|
  {
    if calls != [] {
      RunKeepsRateOrder(Posted(c, calls[0]), calls[0].now, calls[1..]);
    }
  }

  lemma {:induction false} RunSplits(c: RateCurve, t: U128, calls: seq<RateCall>, k: nat)
    requires k <= |calls| && ClockFrom(t, calls)
    ensures RunRates(c, calls) == RunRates(RunRates(c, calls[..k]), calls[k..])
    ensures ClockFrom(t, calls[..k]) && ClockFrom(LastTime(t, calls[..k]), calls[k..])
    ensures LastTime(LastTime(t, calls[..k]), calls[k..]) == LastTime(t, calls)
    decreases |calls|
  {
    if k == 0 {
      assert calls[..0] == [] && calls[0..] == calls;
    } else {
      RunSplits(Posted(c, calls[0]), calls[0].now, calls[1..], k - 1);
      assert calls[..k][0] == calls[0];
      assert calls[..k][1..] == calls[1..][..k - 1];
      assert calls[k..] == calls[1..][k - 1..];
    }
  }

  /** A chi once posted with a non-zero time is a floor under every later price. */
  lemma PostedChiIsPriceFloor(c: RateCurve, t: U128, calls: seq<RateCall>, k: nat, later: U128)
    requires c.rho <= t && ClockFrom(t, calls) && k < |calls|
    requires var at := RunRates(c, calls[..k]); Accepted(at, calls[k]) && calls[k].rho != 0
    requires LastTime(t, calls) <= later
    ensures var price := ConversionRate(RunRates(c, calls), later);
            price.Some? ==> calls[k].chi <= price.value
  {
    var at, here := RunRates(c, calls[..k]), LastTime(t, calls[..k]);
    RunSplits(c, t, calls, k);
    RunKeepsRateOrder(c, t, calls[..k]);
    var rest := calls[k + 1..];
    assert calls[k..][0] == calls[k] && calls[k..][1..] == rest;
    RunKeepsRateOrder(Posted(at, calls[k]), calls[k].now, rest);
    PriceNeverFalls(RunRates(c, calls), later, later);
  }

  // ---------------------------------------------------------------------------
  // The growth cap
  // ---------------------------------------------------------------------------

  /** Growth from v0 to v over a period, no faster than m per second compounded, up
      to one relative rounding of 1/(2 RAY) a second. */
  ghost predicate GrowthWithin(m: nat, v: nat, v0: nat, period: nat) {
    v * Pow(2 * RAY * RAY, period) <= v0 * (Pow(m, period) * Pow(2 * RAY + 1, period))
  }

  lemma GrowthComposes(m: nat, v2: nat, v1: nat, v0: nat, s: nat, t: nat)
    requires GrowthWithin(m, v1, v0, s) && GrowthWithin(m, v2, v1, t)
    ensures GrowthWithin(m, v2, v0, s + t)
  {
    var d, k := 2 * RAY * RAY, 2 * RAY + 1;
    PowAdd(d, s, t);
    PowAdd(m, s, t);
    PowAdd(k, s, t);
    ChainProducts(v2, v1, v0, Pow(d, s), Pow(d, t), Pow(m, s) * Pow(k, s), Pow(m, t) * Pow(k, t));
    Swap4(Pow(m, s), Pow(m, t), Pow(k, s), Pow(k, t));
  }

  lemma Swap4(a: nat, b: nat, c: nat, d: nat)
    ensures (a * b) * (c * d) == (a * c) * (b * d)
  {
  }

  lemma ChainProducts(v2: nat, v1: nat, v0: nat, a: nat, b: nat, p: nat, q: nat)
    requires v1 * a <= v0 * p && v2 * b <= v1 * q
    ensures v2 * (a * b) <= v0 * (p * q)
  {
    MulMono(v2 * b, v1 * q, a, a);
    MulMono(v1 * a, v0 * p, q, q);
    assert v2 * (a * b) == (v2 * b) * a;
    assert (v1 * q) * a == (v1 * a) * q;
    assert (v0 * p) * q == v0 * (p * q);
  }

  /** One period of growth at rate x <= m, rounded down, stays within the cap. */
  lemma PeriodWithinCap(m: U128, x: U128, chi: nat, v: nat, period: U128)
    requires RAY <= x <= m
    requires Rpow(x, period).Some? && v <= Rpow(x, period).value * chi / RAY
    ensures GrowthWithin(m, v, chi, period)
  {
    var z := Rpow(x, period).value;
    Floor(z * chi, RAY);
    if period == 0 {
      FloorOfMultiple(chi, RAY);
      assert Pow(2 * RAY * RAY, 0) == Pow(m, 0) == Pow(2 * RAY + 1, 0) == 1;
    } else {
      RpowErrorBound(x, period);
      var d, k := 2 * RAY * RAY, 2 * RAY + 1;
      PowMonoBase(x, m, period);
      CapStep(RAY, v, z, chi, Pow(d, period - 1), Pow(x, period), Pow(m, period), Pow(k, period - 1));
    }
  }

  lemma CapStep(r: nat, v: nat, z: nat, chi: nat, d: nat, x: nat, m: nat, k: nat)
    requires v * r <= z * chi && z * d <= x * k && x <= m
    ensures v * (2 * r * r * d) <= chi * (m * ((2 * r + 1) * k))
  {
    MulMono(x, m, k, k);
    CapProduct(r, v, z, chi, d, m * k);
    MulMono(2 * r, 2 * r + 1, (v * r) * d, chi * (m * k));
    CapShapes(r, v, chi, d, m, k);
  }

  lemma CapProduct(r: nat, v: nat, z: nat, chi: nat, d: nat, w: nat)
    requires v * r <= z * chi && z * d <= w
    ensures (v * r) * d <= chi * w
  {
    MulMono(v * r, z * chi, d, d);
    MulMono(z * d, w, chi, chi);
    assert (z * chi) * d == (z * d) * chi;
  }

  lemma CapShapes(r: nat, v: nat, chi: nat, d: nat, m: nat, k: nat)
    ensures v * (2 * r * r * d) == 2 * r * ((v * r) * d)
    ensures (2 * r + 1) * (chi * (m * k)) == chi * (m * ((2 * r + 1) * k))
  {
    assert (2 * r + 1) * (chi * (m * k)) == chi * ((2 * r + 1) * (m * k));
  }

  /** Whole-run growth cap on chi, over any attempted updates. */
  lemma {:induction false} RunGrowthCap(c: RateCurve, t: U128, calls: seq<RateCall>)
    requires c.rho != 0 && c.rho <= t && ClockFrom(t, calls)
    requires c.maxSsr != 0
    ensures var d := RunRates(c, calls);
            c.rho <= d.rho && GrowthWithin(c.maxSsr, d.chi, c.chi, d.rho - c.rho)
    decreases |calls|
  {
    RunKeepsRateOrder(c, t, calls);
    if calls == [] {
      assert Pow(2 * RAY * RAY, 0) == Pow(c.maxSsr, 0) == Pow(2 * RAY + 1, 0) == 1;
    } else {
      var r := calls[0];
      var e := Posted(c, r);
      if Accepted(c, r) {
        PeriodWithinCap(c.maxSsr, c.maxSsr, c.chi, e.chi, e.rho - c.rho);
        RunGrowthCap(e, r.now, calls[1..]);
        var d := RunRates(c, calls);
        GrowthComposes(c.maxSsr, d.chi, e.chi, c.chi, e.rho - c.rho, d.rho - e.rho);
      } else {
        RunGrowthCap(c, r.now, calls[1..]);
      }
    }
  }

  lemma AccruedWithinCap(d: RateCurve, later: U128)
    requires d.maxSsr != 0 && Settled(d) && d.rho <= later && ConversionRate(d, later).Some?
    ensures GrowthWithin(d.maxSsr, ConversionRate(d, later).value, d.chi, later - d.rho)
  {
    AccruedIsScaledPower(d, later);
    PeriodWithinCap(d.maxSsr, d.ssr, d.chi, ConversionRate(d, later).value, later - d.rho);
  }

  /** Where the run ends with a settled rate, the cap also bounds the price at any later
      time, counted from the run's first posting time. */
  lemma SettledPriceCap(c: RateCurve, t: U128, calls: seq<RateCall>, later: U128)
    requires c.rho != 0 && c.rho <= t && ClockFrom(t, calls)
    requires c.maxSsr != 0 && Settled(RunRates(c, calls))
    requires LastTime(t, calls) <= later
    requires ConversionRate(RunRates(c, calls), later).Some?
    ensures c.rho <= later
    ensures GrowthWithin(c.maxSsr, ConversionRate(RunRates(c, calls), later).value, c.chi, later - c.rho)
  {
    var d := RunRates(c, calls);
    RunKeepsRateOrder(c, t, calls);
    RunGrowthCap(c, t, calls);
    AccruedWithinCap(d, later);
    var price := ConversionRate(d, later).value;
    GrowthComposes(c.maxSsr, price, d.chi, c.chi, d.rho - c.rho, later - d.rho);
  }

  /** One accepted update settles the rate, whatever it was before. */
  lemma RunPriceCap(c: RateCurve, t: U128, calls: seq<RateCall>, later: U128)
    requires c.rho != 0 && c.rho <= t && ClockFrom(t, calls)
    requires c.maxSsr != 0 && AnyAccepted(c, calls)
    requires LastTime(t, calls) <= later
    requires ConversionRate(RunRates(c, calls), later).Some?
    ensures c.rho <= later
    ensures GrowthWithin(c.maxSsr, ConversionRate(RunRates(c, calls), later).value, c.chi, later - c.rho)
  {
    RunKeepsRateOrder(c, t, calls);
    SettledPriceCap(c, t, calls, later);
  }

  /** What the cap promises from the rate c of one moment to the rate d of a later one. */
  ghost predicate WithinCap(c: RateCurve, d: RateCurve, later: U128) {
    c.rho != 0 && c.maxSsr != 0 ==>
      && c.rho <= d.rho
      && GrowthWithin(c.maxSsr, d.chi, c.chi, d.rho - c.rho)
      && (Settled(d) && ConversionRate(d, later).Some? ==>
            c.rho <= later && GrowthWithin(c.maxSsr, ConversionRate(d, later).value, c.chi, later - c.rho))
  }

  lemma RunStaysWithinCap(c: RateCurve, t: U128, calls: seq<RateCall>, later: U128)
    requires c.rho <= t && ClockFrom(t, calls) && LastTime(t, calls) <= later
    ensures WithinCap(c, RunRates(c, calls), later)
  {
    if c.rho != 0 && c.maxSsr != 0 {
      RunGrowthCap(c, t, calls);
      if Settled(RunRates(c, calls)) && ConversionRate(RunRates(c, calls), later).Some? {
        SettledPriceCap(c, t, calls, later);
      }
    }
  }
}
