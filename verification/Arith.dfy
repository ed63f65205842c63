/** Integer powers and the floor and ceiling facts every rounding argument uses. */
module Arith {
  import opened Checked

  function Pow(b: nat, e: nat): nat {
    if e == 0 then 1 else b * Pow(b, e - 1)
  }

  lemma MulMono(x: nat, x': nat, y: nat, y': nat)
    requires x <= x' && y <= y'
    ensures x * y <= x' * y'
  {
    assert x * y <= x' * y;
    assert x' * y <= x' * y';
  }

  lemma MulPositive(x: nat, y: nat)
    requires x > 0 && y > 0
    ensures x * y > 0
  {
  }

  /** Cancels a positive common factor. */
  lemma CancelLe(x: int, y: int, k: int)
    requires k > 0 && x * k <= y * k
    ensures x <= y
  {
    assert y < x ==> y * k < x * k;
  }

  lemma Floor(n: nat, d: nat)
    requires d > 0
    ensures n / d * d <= n < n / d * d + d
  {
    assert n == d * (n / d) + n % d;
  }

  /** The floor quotient is the largest q with q * d <= n. */
  lemma FloorIsMost(n: nat, d: nat, q: nat)
    requires d > 0
    ensures q * d <= n <==> q <= n / d
  {
    Floor(n, d);
    if q <= n / d {
      MulMono(q, n / d, d, d);
    } else {
      MulMono(n / d + 1, q, d, d);
      assert (n / d + 1) * d == n / d * d + d;
    }
  }

  lemma FloorMono(m: nat, n: nat, d: nat)
    requires d > 0 && m <= n
    ensures m / d <= n / d
  {
    Floor(m, d);
    FloorIsMost(n, d, m / d);
  }

  lemma FloorOfMultiple(q: nat, d: nat)
    requires d > 0
    ensures q * d / d == q
  {
    FloorIsMost(q * d, d, q);
    Floor(q * d, d);
    CancelLe(q * d / d, q, d);
  }

  /** The ceiling quotient is the least q with n <= q * d. */
  lemma CeilIsLeast(n: nat, d: nat, q: nat)
    requires d > 0
    ensures n <= q * d <==> CeilQuotient(n, d) <= q
  {
    var c := CeilQuotient(n, d);
    assert n == d * (n / d) + n % d;
    assert n <= c * d by {
      assert (n / d + 1) * d == n / d * d + d;
    }
    if c <= q {
      MulMono(c, q, d, d);
    } else {
      MulMono(q, c - 1, d, d);
      assert (c - 1) * d == c * d - d;
      assert (n / d + 1) * d == n / d * d + d;
    }
  }

  lemma Ceil(n: nat, d: nat)
    requires d > 0
    ensures n <= CeilQuotient(n, d) * d < n + d
    ensures n / d <= CeilQuotient(n, d) <= n / d + 1
  {
    CeilIsLeast(n, d, CeilQuotient(n, d));
    Floor(n, d);
    assert (n / d + 1) * d == n / d * d + d;
  }

  lemma CeilByAdding(n: nat, d: nat)
    requires d > 0
    ensures (n + d - 1) / d == CeilQuotient(n, d)
  {
    var c := CeilQuotient(n, d);
    Ceil(n, d);
    FloorIsMost(n + d - 1, d, c);
    assert (c + 1) * d == c * d + d;
    FloorIsMost(n + d - 1, d, c + 1);
  }

  /** The pair a ceiling division returns is tight from both sides: the quotient is
      the least that covers the dividend, the adjusted divisor the least that keeps
      that quotient, and neither exceeds what the caller offered. */
  lemma CeilDivIsTight(n: nat, d: nat)
    requires CeilDiv(n, d).Some?
    ensures var (q, r) := CeilDiv(n, d).value;
            && 0 < q && 0 < r <= d
            && (q - 1) * d < n <= q * d
            && q * (r - 1) < n <= q * r
            && CeilQuotient(n, r) == q
  {
    var (q, r) := CeilDiv(n, d).value;
    FloorIsMost(n, d, 1);
    Ceil(n, d);
    Ceil(n, q);
    Pred(q, d);
    Pred(r, q);
    CeilIsLeast(n, q, d);
    assert r > 0;
    AdjustedDivisorKeepsQuotient(n, d, q, r);
  }

  lemma Pred(x: nat, y: nat)
    ensures (x - 1) * y == x * y - y && y * (x - 1) == x * y - y
  {
  }

  lemma AdjustedDivisorKeepsQuotient(n: nat, d: nat, q: nat, r: nat)
    requires 0 < q && 0 < r <= d && (q - 1) * d < n <= q * r
    ensures CeilQuotient(n, r) == q
  {
    CeilIsLeast(n, r, q);
    CeilIsLeast(n, r, q - 1);
    MulMono(q - 1, q - 1, r, d);
  }

  lemma PowPositive(b: nat, e: nat)
    requires b > 0
    ensures Pow(b, e) > 0
  {
  }

  lemma {:induction false} PowAdd(b: nat, e: nat, f: nat)
    ensures Pow(b, e + f) == Pow(b, e) * Pow(b, f)
  {
    if e != 0 {
      PowAdd(b, e - 1, f);
      assert b * (Pow(b, e - 1) * Pow(b, f)) == b * Pow(b, e - 1) * Pow(b, f);
    }
  }

  lemma {:induction false} PowSquare(b: nat, k: nat)
    ensures Pow(b * b, k) == Pow(b, 2 * k)
    decreases k
  {
    if k > 0 {
      PowSquare(b, k - 1);
      assert Pow(b, 2 * k) == b * (b * Pow(b, 2 * k - 2));
    }
  }

  lemma {:induction false} PowMonoBase(b: nat, c: nat, e: nat)
    requires b <= c
    ensures Pow(b, e) <= Pow(c, e)
  {
    if e != 0 {
      PowMonoBase(b, c, e - 1);
      MulMono(b, c, Pow(b, e - 1), Pow(c, e - 1));
    }
  }
}
