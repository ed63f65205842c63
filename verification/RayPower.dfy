/** Fixed-point powers: square-and-multiply on numbers scaled by RAY, every product
    rounded half up (program/src/curve/redemption_rate.rs, `_rpow`). */
module RayPower {
  import opened Checked
  import opened Arith

  const RAY: U128 := 1_000_000_000_000_000_000_000_000_000
  const HALF_RAY: U128 := 500_000_000_000_000_000_000_000_000

  /** Division kept behind a name: proofs about rounding start from `Floor`. */
  function Quotient(n: nat, d: nat): nat
    requires d > 0
  {
    n / d
  }

  /** One rounded product; None on 256-bit overflow. */
  function MulRay(x: nat, y: nat): Option<nat> {
    if x * y + HALF_RAY >= U256_LIMIT then None else Some(Quotient(x * y + HALF_RAY, RAY))
  }

  /** The product is the nearest multiple, halves going up, whenever doubling it and adding
      RAY stays below twice the 256-bit limit; otherwise there is none. */
  lemma MulRayIsNearest(x: nat, y: nat, z: nat)
    ensures MulRay(x, y) == Some(z) <==>
              2 * (x * y) + RAY < 2 * U256_LIMIT && 2 * z * RAY <= 2 * (x * y) + RAY < 2 * (z + 1) * RAY
  {
    Floor(x * y + HALF_RAY, RAY);
    FloorIsMost(x * y + HALF_RAY, RAY, z);
    FloorIsMost(x * y + HALF_RAY, RAY, z + 1);
  }

  /** What the loop still computes from accumulator z, base x and remaining exponent n. */
  function PowFrom(z: nat, x: nat, n: nat): Option<nat>
    decreases n
  {
    if n == 0 then Some(z)
    else
      var x' :- MulRay(x, x);
      var z' :- if n % 2 == 1 then MulRay(z, x') else Some(z);
      PowFrom(z', x', n / 2)
  }

  function Rpow(x: U128, n: U128): Option<nat> {
    if x == 0 then Some(if n == 0 then RAY else 0)
    else PowFrom(if n % 2 == 0 then RAY else x, x, n / 2)
  }

  /** The loop as the program runs it. */
  method ComputeRpow(x: U128, n: U128) returns (result: Option<nat>)
    ensures result == Rpow(x, n)
  {
    var z: nat;
    if x == 0 {
      z := if n == 0 then RAY else 0;
    } else {
      z := if n % 2 == 0 then RAY else x;
      var m: nat := n / 2;
      var b: nat := x;
      while m > 0
        invariant PowFrom(z, b, m) == Rpow(x, n)
        decreases m
      {
        var square := b * b + HALF_RAY;
        if square >= U256_LIMIT {
          return None;
        }
        b := square / RAY;
        if m % 2 == 1 {
          var product := z * b + HALF_RAY;
          if product >= U256_LIMIT {
            return None;
          }
          z := product / RAY;
        }
        m := m / 2;
      }
    }
    return Some(z);
  }

  // ---------------------------------------------------------------------------
  // The same computation one exponent bit at a time, starting from 1.0
  // ---------------------------------------------------------------------------

  function Ladder(z: nat, x: nat, n: nat): Option<nat>
    decreases n
  {
    if n == 0 then Some(z)
    else
      var z' :- if n % 2 == 1 then MulRay(z, x) else Some(z);
      if n / 2 == 0 then Some(z')
      else
        var x' :- MulRay(x, x);
        Ladder(z', x', n / 2)
  }

  lemma MulOne(x: nat)
    requires RAY * x + HALF_RAY < U256_LIMIT
    ensures MulRay(RAY, x) == Some(x)
  {
  }

  lemma {:induction false} LoopIsLadder(z: nat, x: nat, n: nat)
    requires n > 0
    ensures PowFrom(z, x, n) == var x' :- MulRay(x, x); Ladder(z, x', n)
    decreases n
  {
    if n / 2 > 0 {
      match MulRay(x, x)
      case None =>
      case Some(x') =>
        var z' := if n % 2 == 1 then MulRay(z, x') else Some(z);
        if z'.Some? {
          LoopIsLadder(z'.value, x', n / 2);
        }
    }
  }

  lemma {:induction false} LadderOfZero(z: nat, n: nat)
    requires n > 0
    ensures Ladder(z, 0, n) == Some(0)
    decreases n
  {
    assert MulRay(z, 0) == Some(0) && MulRay(0, 0) == Some(0);
    if n / 2 > 0 {
      LadderOfZero(if n % 2 == 1 then 0 else z, n / 2);
    }
  }

  lemma RpowIsLadder(x: U128, n: U128)
    ensures Rpow(x, n) == Ladder(RAY, x, n)
  {
    assert RAY * x + HALF_RAY < U256_LIMIT;
    MulOne(x);
    if x == 0 {
      if n > 0 {
        LadderOfZero(RAY, n);
      }
    } else if n / 2 > 0 {
      LoopIsLadder(if n % 2 == 0 then RAY else x, x, n / 2);
    }
  }

  /** A square is one nearest product, a cube a second one on top of it. */
  lemma RpowSquareAndCube(x: U128, z: nat)
    ensures Rpow(x, 2) == Some(z) <==> 2 * z * RAY <= 2 * (x * x) + RAY < 2 * (z + 1) * RAY
    ensures Rpow(x, 2) == Some(z) ==> Rpow(x, 3) == MulRay(x, z)
  {
    MulMono(x, U128_LIMIT - 1, x, U128_LIMIT - 1);
    assert x * x + RAY < U256_LIMIT;
    var s := MulRay(x, x).value;
    MulRayIsNearest(x, x, s);
    MulRayIsNearest(x, x, z);
    if x > 0 {
      SquareOfLoop(x);
      MulOne(s);
    } else {
      assert MulRay(0, z) == Some(0) && MulRay(0, 0) == Some(0);
    }
  }

  lemma SquareOfLoop(x: U128)
    requires x > 0
    ensures Rpow(x, 2) == var s :- MulRay(x, x); MulRay(RAY, s)
    ensures Rpow(x, 3) == var s :- MulRay(x, x); MulRay(x, s)
  {
    match MulRay(x, x)
    case None =>
    case Some(s) =>
      assert PowFrom(RAY, x, 1) == var z :- MulRay(RAY, s); PowFrom(z, s, 0);
      assert PowFrom(x, x, 1) == var z :- MulRay(x, s); PowFrom(z, s, 0);
  }

  lemma Halving(f: nat, n: nat)
    ensures f * n == (f + f) * (n / 2) + (if n % 2 == 1 then f else 0)
    ensures n > 1 ==> f + f <= (f + f) * (n / 2)
  {
    assert f * n == f * (2 * (n / 2) + n % 2);
    if n > 1 {
      MulMono(f + f, f + f, 1, n / 2);
    }
  }

  /** Induction over the ladder: a relation between values and exponents that a
      rounded product preserves, and that holds of 1.0 and the base, holds of the
      result with the exponents added up. */
  lemma {:induction false} LadderInduction(p: (nat, nat) -> bool, z: nat, e: nat, x: nat, f: nat, n: nat)
    requires p(z, e) && p(x, f)
    requires forall v: nat, d: nat, w: nat, c: nat ::
               p(v, d) && p(w, c) && MulRay(v, w).Some? ==> p(MulRay(v, w).value, d + c)
    requires Ladder(z, x, n).Some?
    ensures p(Ladder(z, x, n).value, e + f * n)
    decreases n
  {
    if n != 0 {
      var (z', e') := if n % 2 == 1 then (MulRay(z, x).value, e + f) else (z, e);
      assert p(z', e');
      Halving(f, n);
      if n / 2 != 0 {
        var x' := MulRay(x, x).value;
        assert p(x', f + f);
        LadderInduction(p, z', e', x', f + f, n / 2);
      }
    }
  }

  // ---------------------------------------------------------------------------
  // Monotonicity
  // ---------------------------------------------------------------------------

  /** Whenever b is defined, a is defined and no larger. */
  predicate AtMost(a: Option<nat>, b: Option<nat>) {
    b.Some? ==> a.Some? && a.value <= b.value
  }

  lemma MulRayMono(x: nat, x': nat, y: nat, y': nat)
    requires x <= x' && y <= y'
    ensures AtMost(MulRay(x, y), MulRay(x', y'))
  {
    MulMono(x, x', y, y');
  }

  lemma {:induction false} LadderMono(z: nat, z': nat, x: nat, x': nat, n: nat)
    requires z <= z' && x <= x'
    ensures AtMost(Ladder(z, x, n), Ladder(z', x', n))
    decreases n
  {
    if n != 0 {
      MulRayMono(z, z', x, x');
      MulRayMono(x, x', x, x');
      var w := if n % 2 == 1 then MulRay(z, x) else Some(z);
      var w' := if n % 2 == 1 then MulRay(z', x') else Some(z');
      if w.Some? && w'.Some? && MulRay(x, x).Some? && MulRay(x', x').Some? {
        LadderMono(w.value, w'.value, MulRay(x, x).value, MulRay(x', x').value, n / 2);
      }
    }
  }

  /** The power is monotone in its base, and a larger base never computes where a
      smaller one overflows. */
  lemma RpowMonotoneInBase(x: U128, y: U128, n: U128)
    requires x <= y
    ensures AtMost(Rpow(x, n), Rpow(y, n))
  {
    RpowIsLadder(x, n);
    RpowIsLadder(y, n);
    LadderMono(RAY, RAY, x, y, n);
  }

  /** Adding one to an exponent carries through its trailing one bits.  Where the
      bits are being cleared the larger run's accumulator is still 1.0, and the
      smaller run's accumulator has not passed the current base. */
  lemma {:induction false} Carry(w: nat, x: nat, n: nat, next: nat)
    requires next == n + 1
    requires w <= x
    requires RAY <= x
    ensures AtMost(Ladder(w, x, n), Ladder(RAY, x, next))
    decreases n
  {
    if Ladder(RAY, x, next).Some? {
      if n % 2 == 0 {
        assert next / 2 == n / 2;
        var one := MulRay(RAY, x);
        assert one == Some(x);
        if n / 2 != 0 {
          var x' := MulRay(x, x).value;
          LadderMono(w, x, x', x', n / 2);
        }
      } else {
        assert next / 2 == n / 2 + 1;
        var x' := MulRay(x, x).value;
        assert RAY <= x' by { MulMono(RAY, x, RAY, x); }
        MulRayMono(w, x, x, x);
        Carry(MulRay(w, x).value, x', n / 2, next / 2);
      }
    }
  }

  /** For a base of at least 1.0 the power never falls as the exponent grows, and
      a computable power has all its smaller exponents computable. */
  lemma {:induction false} RpowMonotoneInExponent(x: U128, m: U128, n: U128)
    requires RAY <= x && m <= n
    ensures AtMost(Rpow(x, m), Rpow(x, n))
    decreases n - m
  {
    if m < n {
      RpowMonotoneInExponent(x, m, n - 1);
      RpowIsLadder(x, n - 1);
      RpowIsLadder(x, n);
      Carry(RAY, x, n - 1, n);
    }
  }

  // ---------------------------------------------------------------------------
  // Accuracy
  // ---------------------------------------------------------------------------

  /** v stands for b to the e in units of r, with at most e - 1 roundings, each worth a
      factor between 1 - 1/(2 r) and 1 + 1/(2 r). */
  ghost predicate Approximates(r: nat, b: nat, v: nat, e: nat)
    requires r > 0
  {
    if e == 0 then v == r
    else
      && r <= v
      && Pow(b, e) * Pow(2 * r - 1, e - 1) <= v * Pow(2 * r * r, e - 1)
      && v * Pow(2 * r * r, e - 1) <= Pow(b, e) * Pow(2 * r + 1, e - 1)
  }

  lemma RoundingError(a: nat)
    requires RAY * RAY <= a
    ensures var h := (a + HALF_RAY) / RAY;
            RAY <= h && (2 * RAY - 1) * a <= 2 * RAY * RAY * h <= (2 * RAY + 1) * a
  {
  }

  /** Combines two lower bounds and one rounding ... */
  lemma LowerProduct(a: nat, u: nat, v: nat, w: nat, s: nat, t: nat, k: nat, r: nat, h: nat)
    requires a <= v * s && u <= w * t && k * (v * w) <= r * h
    ensures k * (a * u) <= h * (r * (s * t))
  {
    MulMono(a, v * s, u, w * t);
    MulMono(k, k, a * u, (v * s) * (w * t));
    MulMono(k * (v * w), r * h, s * t, s * t);
    Shuffle(v, w, s, t, k, r, h);
  }

  /** ... and two upper bounds. */
  lemma UpperProduct(a: nat, u: nat, v: nat, w: nat, s: nat, t: nat, k: nat, r: nat, h: nat)
    requires v * s <= a && w * t <= u && r * h <= k * (v * w)
    ensures h * (r * (s * t)) <= k * (a * u)
  {
    MulMono(v * s, a, w * t, u);
    MulMono(k, k, (v * s) * (w * t), a * u);
    MulMono(r * h, k * (v * w), s * t, s * t);
    Shuffle(v, w, s, t, k, r, h);
  }

  lemma Shuffle(v: nat, w: nat, s: nat, t: nat, k: nat, r: nat, h: nat)
    ensures k * (v * w) * (s * t) == k * ((v * s) * (w * t))
    ensures r * h * (s * t) == h * (r * (s * t))
  {
    assert (v * w) * (s * t) == (v * s) * (w * t);
    assert k * (v * w) * (s * t) == k * ((v * w) * (s * t));
  }

  lemma Regroup(x: nat, y: nat, u: nat, v: nat, k: nat)
    ensures (x * y) * (k * (u * v)) == k * ((x * u) * (y * v))
  {
    assert (x * y) * (u * v) == (x * u) * (y * v);
    assert (x * y) * (k * (u * v)) == k * ((x * y) * (u * v));
  }

  lemma PowProduct(b: nat, k: nat, d: nat, c: nat)
    requires d > 0 && c > 0
    ensures Pow(b, d + c) * Pow(k, d + c - 1) == k * (Pow(b, d) * Pow(k, d - 1) * (Pow(b, c) * Pow(k, c - 1)))
    ensures Pow(k, d + c - 1) == k * (Pow(k, d - 1) * Pow(k, c - 1))
  {
    PowAdd(b, d, c);
    PowAdd(k, d - 1, c - 1);
    Regroup(Pow(b, d), Pow(b, c), Pow(k, d - 1), Pow(k, c - 1), k);
  }

  /** A product h of two approximations, rounded once, approximates the sum of their
      exponents. */
  lemma ApproximatesProduct(r: nat, b: nat, v: nat, d: nat, w: nat, c: nat, h: nat)
    requires r > 0 && d > 0 && c > 0 && Approximates(r, b, v, d) && Approximates(r, b, w, c)
    requires r <= h && (2 * r - 1) * (v * w) <= 2 * r * r * h <= (2 * r + 1) * (v * w)
    ensures Approximates(r, b, h, d + c)
  {
    var lo, hi, q := 2 * r - 1, 2 * r + 1, 2 * r * r;
    PowProduct(b, lo, d, c);
    PowProduct(b, hi, d, c);
    PowProduct(b, q, d, c);
    var s, t := Pow(q, d - 1), Pow(q, c - 1);
    LowerProduct(Pow(b, d) * Pow(lo, d - 1), Pow(b, c) * Pow(lo, c - 1), v, w, s, t, lo, q, h);
    UpperProduct(Pow(b, d) * Pow(hi, d - 1), Pow(b, c) * Pow(hi, c - 1), v, w, s, t, hi, q, h);
  }

  lemma MulRayApproximates(b: nat, v: nat, d: nat, w: nat, c: nat)
    requires Approximates(RAY, b, v, d) && Approximates(RAY, b, w, c) && MulRay(v, w).Some?
    ensures Approximates(RAY, b, MulRay(v, w).value, d + c)
  {
    if d == 0 {
      MulOne(w);
    } else if c == 0 {
      MulOne(v);
      assert v * w == w * v;
    } else {
      MulMono(RAY, v, RAY, w);
      RoundingError(v * w);
      ApproximatesProduct(RAY, b, v, d, w, c, MulRay(v, w).value);
    }
  }

  lemma ApproximatesBase(r: nat, x: nat)
    requires 0 < r <= x
    ensures Approximates(r, x, x, 1)
  {
    assert Pow(x, 1) == x;
  }

  /** Two-sided error bound.  2 * RAY * RAY to the n - 1 is the product of the n - 1
      RAY scalings the loop divides out and the n - 1 denominators 2 * RAY of the
      relative errors. */
  lemma RpowErrorBound(x: U128, n: U128)
    requires RAY <= x && n >= 1
    requires Rpow(x, n).Some?
    ensures var z := Rpow(x, n).value;
            && RAY <= z
            && Pow(x, n) * Pow(2 * RAY - 1, n - 1) <= z * Pow(2 * RAY * RAY, n - 1)
            && z * Pow(2 * RAY * RAY, n - 1) <= Pow(x, n) * Pow(2 * RAY + 1, n - 1)
  {
    RpowIsLadder(x, n);
    var p := (v: nat, e: nat) => Approximates(RAY, x, v, e);
    forall v: nat, d: nat, w: nat, c: nat | p(v, d) && p(w, c) && MulRay(v, w).Some?
      ensures p(MulRay(v, w).value, d + c)
    {
      MulRayApproximates(x, v, d, w, c);
    }
    ApproximatesBase(RAY, x);
    LadderInduction(p, RAY, 0, x, 1, n);
  }

  /** v is at least 1.0 plus e periods of interest i. */
  ghost predicate EarnsSimple(i: nat, v: nat, e: nat) {
    RAY + e * i <= v
  }

  lemma EarnsBoth(s: nat, t: nat, v: nat, w: nat)
    requires RAY + s <= v && RAY + t <= w && MulRay(v, w).Some?
    ensures RAY + s + t <= MulRay(v, w).value
  {
    InterestOnBoth(RAY, s, t, v, w);
  }

  lemma EarnsSimpleProduct(i: nat, v: nat, d: nat, w: nat, c: nat, z: nat)
    requires EarnsSimple(i, v, d) && EarnsSimple(i, w, c) && MulRay(v, w) == Some(z)
    ensures EarnsSimple(i, z, d + c)
  {
    EarnsBoth(d * i, c * i, v, w);
    assert (d + c) * i == d * i + c * i;
  }

  lemma InterestOnBoth(r: nat, s: nat, t: nat, v: nat, w: nat)
    requires r + s <= v && r + t <= w
    ensures r * (r + s + t) <= v * w
  {
    MulMono(r + s, v, r + t, w);
    assert (r + s) * (r + t) == r * (r + s + t) + s * t;
  }

  /** Compound interest is never less than simple interest. */
  lemma RpowDominatesSimpleInterest(x: U128, n: U128)
    requires RAY <= x
    requires Rpow(x, n).Some?
    ensures Rpow(x, n).value >= RAY + n * (x - RAY)
  {
    RpowIsLadder(x, n);
    var i := x - RAY;
    var p := (v: nat, e: nat) => EarnsSimple(i, v, e);
    forall v: nat, d: nat, w: nat, c: nat | p(v, d) && p(w, c) && MulRay(v, w).Some?
      ensures p(MulRay(v, w).value, d + c)
    {
      EarnsSimpleProduct(i, v, d, w, c, MulRay(v, w).value);
    }
    LadderInduction(p, RAY, 0, x, 1, n);
  }

  // ---------------------------------------------------------------------------
  // Whole multiples of RAY
  // ---------------------------------------------------------------------------

  /** p scaled by RAY, where the product it comes from, rounding half added, fits. */
  function Scaled(p: nat): Option<nat> {
    if p * RAY * RAY + HALF_RAY < U256_LIMIT then Some(p * RAY) else None
  }

  lemma ExactProduct(a: nat, b: nat)
    ensures MulRay(a * RAY, b * RAY) == Scaled(a * b)
  {
    assert (a * RAY) * (b * RAY) == a * b * RAY * RAY;
  }

  lemma ScaledMono(p: nat, q: nat)
    requires p <= q
    ensures Scaled(q).Some? ==> Scaled(p).Some?
  {
  }

  lemma TopBits(b: nat, n: nat)
    requires b > 0
    ensures Pow(b, n) == if n % 2 == 1 then b * Pow(b * b, n / 2) else Pow(b * b, n / 2)
    ensures n > 1 ==> b * b <= Pow(b * b, n / 2)
    ensures Pow(b * b, n / 2) > 0
  {
    PowSquare(b, n / 2);
    PowPositive(b, 2 * (n / 2));
    MulPositive(b, b);
    if n > 1 {
      PowPositive(b * b, n / 2 - 1);
      MulMono(b * b, b * b, 1, Pow(b * b, n / 2 - 1));
    }
  }

  lemma BitOfPower(a: nat, b: nat, n: nat)
    requires a > 0 && b > 0 && n > 0
    ensures var a' := if n % 2 == 1 then a * b else a;
            && a' * Pow(b * b, n / 2) == a * Pow(b, n)
            && a' <= a * Pow(b, n)
            && (n > 1 ==> b * b <= a * Pow(b, n))
  {
    TopBits(b, n);
    Weigh(a, b, Pow(b * b, n / 2));
  }

  lemma Weigh(a: nat, b: nat, q: nat)
    requires a > 0 && b > 0 && q > 0
    ensures a * b * q == a * (b * q)
    ensures a * b <= a * (b * q) && a <= a * q && q <= a * q && q <= a * (b * q)
  {
    MulMono(a * b, a * b, 1, q);
    MulMono(a, a, 1, q);
    MulMono(1, a, q, q);
    MulMono(1, b, q, q);
    MulMono(1, a, b * q, b * q);
  }

  /** One bit of the ladder, given the two products it uses. */
  lemma LadderStep(z: nat, x: nat, n: nat, z': Option<nat>, x': Option<nat>)
    requires n > 0 && z' == (if n % 2 == 1 then MulRay(z, x) else Some(z)) && x' == MulRay(x, x)
    ensures Ladder(z, x, n) == if z'.None? || n == 1 then z'
                               else if x'.None? then None
                               else Ladder(z'.value, x'.value, n / 2)
  {
  }

  lemma {:induction false} LadderExact(a: nat, b: nat, n: nat)
    requires a > 0 && b > 0 && n > 0
    ensures Ladder(a * RAY, b * RAY, n) == Scaled(a * Pow(b, n))
    decreases n
  {
    var p := a * Pow(b, n);
    ExactProduct(a, b);
    ExactProduct(b, b);
    BitOfPower(a, b, n);
    LadderStep(a * RAY, b * RAY, n, if n % 2 == 1 then Scaled(a * b) else Some(a * RAY), Scaled(b * b));
    ScaledMono(if n % 2 == 1 then a * b else a, p);
    if n > 1 {
      ScaledMono(b * b, p);
      LadderExact(if n % 2 == 1 then a * b else a, b * b, n / 2);
    }
  }

  /** Integer powers are exact, and computed precisely when the scaled result,
      with the rounding half added, fits in 256 bits. */
  lemma RpowIntegerPowersExact(m: nat, n: U128)
    requires m * RAY < U128_LIMIT
    ensures Rpow(m * RAY, n) == Scaled(Pow(m, n))
  {
    if m == 0 {
      assert n > 0 ==> Pow(0, n) == 0;
    } else {
      RpowIsLadder(m * RAY, n);
      if n > 0 {
        LadderExact(1, m, n);
      }
    }
  }
}
