/** Facts about products and quotients that the solver needs spelled out, and rounding half to even. */
module Arithmetic {
  lemma MulDistributes(a: int, b: int, c: int)
    ensures a * (b - c) == a * b - a * c && a * (b + c) == a * b + a * c
  {
  }

  lemma MulAssociates(a: int, b: int, c: int)
    ensures a * (b * c) == (a * b) * c == b * (a * c)
  {
  }

  lemma MulOrdered(a: nat, x: int, y: int)
    requires x <= y
    ensures a * x <= a * y
    ensures x < y && a > 0 ==> a * x + a <= a * y
  {
    MulDistributes(a, y, x);
    if x < y {
      MulDistributes(a, y - x, 1);
      assert a * (y - x - 1) >= 0;
    } else {
      assert a * (y - x) == 0;
    }
  }

  lemma DivUnique(a: nat, b: nat, q: nat, r: nat)
    requires b > 0 && a == b * q + r && r < b
    ensures a / b == q && a % b == r
  {
    var (q', r') := (a / b, a % b);
    assert a == b * q' + r';
    if q' < q {
      MulOrdered(b, q', q);
    } else if q' > q {
      MulOrdered(b, q, q');
    }
  }

  lemma MulParts(p: int, q: int, r: int, k: int)
    ensures (p * q + r) * k == (p * k) * q + r * k && (p * q + r) * k == p * (q * k) + r * k
  {
    MulDistributes(k, p * q, r);
    MulAssociates(k, p, q);
    MulAssociates(p, q, k);
  }

  lemma DivScaled(n: nat, p: nat, k: nat)
    requires p > 0 && k > 0
    ensures p * k > 0 && (n * k) / (p * k) == n / p && (n * k) % (p * k) == (n % p) * k
  {
    var (q, r) := (n / p, n % p);
    assert n == p * q + r;
    MulParts(p, q, r, k);
    MulOrdered(k, r, p);
    var (a, b, c) := (n * k, p * k, r * k);
    assert a == b * q + c && c < b;
    DivUnique(a, b, q, c);
  }

  // ---- rounding half to even ----

  predicate RoundsUp(q: nat, r: nat, p: nat) {
    2 * r > p || (2 * r == p && q % 2 == 1)
  }

  /** Round half to even at a multiple of p, in units of p. */
  function RoundedTo(n: nat, p: nat): nat
    requires p > 0
  {
    if RoundsUp(n / p, n % p, p) then n / p + 1 else n / p
  }

  lemma RoundsUpScaled(q: nat, r: nat, p: nat, t: nat)
    requires t > 0
    ensures RoundsUp(q, r * t, p * t) == RoundsUp(q, r, p)
  {
    MulAssociates(2, r, t);
    if 2 * r <= p {
      MulOrdered(t, 2 * r, p);
    } else {
      MulOrdered(t, p, 2 * r);
    }
  }

  lemma RoundedToScaled(n: nat, p: nat, t: nat)
    requires p > 0 && t > 0
    ensures p * t > 0 && RoundedTo(n * t, p * t) == RoundedTo(n, p)
  {
    DivScaled(n, p, t);
    RoundsUpScaled(n / p, n % p, p, t);
  }

  lemma RoundedToExact(n: nat, p: nat)
    requires p > 0
    ensures RoundedTo(n, p) * p == n <==> n % p == 0
  {
    if n % p == 0 {
      assert n == p * (n / p);
      assert !RoundsUp(n / p, 0, p);
    } else if RoundedTo(n, p) * p == n {
      DivUnique(n, p, RoundedTo(n, p), 0);
    }
  }
}
