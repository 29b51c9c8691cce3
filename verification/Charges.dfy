/** Token charges: a float division rounded up, and when it is the exact charge. */
module Charges {
  import opened Arithmetic

  const MICROS_PER_SHELL := 1_000_000
  const TOKENS_PER_SHELL := 1000

  function Pow2(k: nat): (r: nat)
    ensures r > 0
  {
    if k == 0 then 1 else 2 * Pow2(k - 1)
  }

  // ---- division of integers into a 53-bit float ----

  /** The e with 2^e <= n/d < 2^(e+1), for n < 2d. */
  function ExponentBelow(n: nat, d: nat): int
    requires n > 0 && n < 2 * d
    decreases if n < d then d - n else 0
  {
    if n < d then ExponentBelow(2 * n, d) - 1 else 0
  }

  function Exponent(n: nat, d: nat): int
    requires n > 0 && d > 0
    decreases n - d
  {
    if n < 2 * d then ExponentBelow(n, d) else Exponent(n, 2 * d) + 1
  }

  /** The significand of the float nearest to n/d: the value is significand * 2^(e - 52). */
  function Significand(n: nat, d: nat, e: int): nat
    requires d > 0
  {
    if e <= 52 then RoundedTo(n * Pow2(52 - e), d) else RoundedTo(n, d * Pow2(e - 52))
  }

  function CeilDiv(n: nat, d: nat): nat
    requires d > 0
  {
    if n % d == 0 then n / d else n / d + 1
  }

  /** math.ceil(n / d) for positive n. */
  function FloatCeil(n: nat, d: nat): nat
    requires n > 0 && d > 0
  {
    var e := Exponent(n, d);
    if e <= 52 then CeilDiv(Significand(n, d, e), Pow2(52 - e)) else Significand(n, d, e) * Pow2(e - 52)
  }

  /** math.floor(n / d) for positive n. */
  function FloatFloor(n: nat, d: nat): nat
    requires n > 0 && d > 0
  {
    var e := Exponent(n, d);
    if e <= 52 then Significand(n, d, e) / Pow2(52 - e) else Significand(n, d, e) * Pow2(e - 52)
  }

  /** `_shell_micros_for_tokens`. */
  function ShellMicros(tokens: int, multiplier: int): int {
    if tokens <= 0 then 0
    else
      var n := tokens * multiplier * MICROS_PER_SHELL;
      if n == 0 then 0
      else if n > 0 then FloatCeil(n, TOKENS_PER_SHELL * 1_000_000)
      else 0 - FloatFloor(0 - n, TOKENS_PER_SHELL * 1_000_000)
  }

  function Product(a: nat, b: nat): nat { a * b }

  /** The charge without rounding: a multiplier counts millionths. */
  function ExactMicros(tokens: int, multiplier: int): int {
    if tokens <= 0 || multiplier <= 0 then 0 else CeilDiv(Product(tokens, multiplier), 1000)
  }

  // ---- the common factor cancels ----

  lemma {:induction false} ExponentBelowScaled(n: nat, d: nat, k: nat)
    requires n > 0 && n < 2 * d && k > 0
    ensures n * k > 0 && n * k < 2 * (d * k) && ExponentBelow(n * k, d * k) == ExponentBelow(n, d)
    decreases if n < d then d - n else 0
  {
    MulOrdered(k, n, 2 * d);
    MulAssociates(2, d, k);
    if n < d {
      MulOrdered(k, n, d);
      MulAssociates(2, n, k);
      ExponentBelowScaled(2 * n, d, k);
    } else {
      MulOrdered(k, d, n);
    }
  }

  lemma {:induction false} ExponentScaled(n: nat, d: nat, k: nat)
    requires n > 0 && d > 0 && k > 0
    ensures n * k > 0 && d * k > 0 && Exponent(n * k, d * k) == Exponent(n, d)
    decreases n - d
  {
    MulAssociates(2, d, k);
    if n < 2 * d {
      ExponentBelowScaled(n, d, k);
    } else {
      MulOrdered(k, 2 * d, n);
      ExponentScaled(n, 2 * d, k);
    }
  }

  lemma SignificandScaled(n: nat, d: nat, e: int, k: nat)
    requires d > 0 && k > 0
    ensures d * k > 0 && Significand(n * k, d * k, e) == Significand(n, d, e)
  {
    if e <= 52 {
      RoundedToScaled(n * Pow2(52 - e), d, k);
      MulAssociates(n, Pow2(52 - e), k);
      MulAssociates(n, k, Pow2(52 - e));
    } else {
      RoundedToScaled(n, d * Pow2(e - 52), k);
      MulAssociates(d, Pow2(e - 52), k);
      MulAssociates(d, k, Pow2(e - 52));
    }
  }

  lemma FloatCeilScaled(n: nat, d: nat, k: nat)
    requires n > 0 && d > 0 && k > 0
    ensures n * k > 0 && d * k > 0 && FloatCeil(n * k, d * k) == FloatCeil(n, d)
  {
    ExponentScaled(n, d, k);
    SignificandScaled(n, d, Exponent(n, d), k);
  }

  // ---- when the rounded quotient still rounds up to the right integer ----

  /** A fraction of x parts in d is rounded away beside y whole parts. */
  predicate Vanishes(y: int, x: int, d: nat) {
    2 * x < d || (2 * x == d && y % 2 == 0)
  }

  /** A condition on n alone: below 2^53 the fraction past the integer part must not vanish in the
      float, above it the result must be one of the integers a float can hold. */
  predicate Survives(n: nat, d: nat)
    requires n > 0 && d > 0
  {
    var e := Exponent(n, d);
    if e <= 52 then
      var (p, i, r) := (Pow2(52 - e), n / d, n % d);
      r == 0 || !Vanishes(i * p, r * p, d)
    else CeilDiv(n, d) % Pow2(e - 52) == 0
  }

  lemma PartsOf(a: nat, d: nat, y: nat, x: nat)
    requires d > 0 && a == d * y + x
    ensures a / d == y + x / d && a % d == x % d
  {
    MulDistributes(d, y, x / d);
    DivUnique(a, d, y + x / d, x % d);
  }

  /** n * p splits at d into i * p whole parts and what the remainder adds. */
  lemma SplitProduct(n: nat, d: nat, p: nat)
    requires d > 0
    ensures var (y, x) := ((n / d) * p, (n % d) * p); (n * p) / d == y + x / d && (n * p) % d == x % d
  {
    var (y, x) := ((n / d) * p, (n % d) * p);
    MulParts(d, n / d, n % d, p);
    assert n == d * (n / d) + n % d;
    PartsOf(n * p, d, y, x);
  }

  lemma CeilOf(i: nat, t: nat, p: nat)
    requires p > 0 && t <= p
    ensures CeilDiv(i * p + t, p) == if t == 0 then i else i + 1
  {
    if t < p {
      DivUnique(i * p + t, p, i, t);
    } else {
      MulDistributes(p, i, 1);
      DivUnique(i * p + t, p, i + 1, 0);
    }
  }

  /** What rounding x/d adds to an integer number of parts y. */
  function Tail(y: nat, x: nat, d: nat): nat
    requires d > 0
  {
    if RoundsUp(y + x / d, x % d, d) then x / d + 1 else x / d
  }

  lemma TailOf(y: nat, x: nat, d: nat)
    requires d > 0
    ensures Tail(y, x, d) == 0 <==> Vanishes(y, x, d)
  {
    if x / d == 0 {
      assert x % d == x;
    } else {
      MulOrdered(d, 1, x / d);
    }
  }

  lemma RoundedSplits(n: nat, d: nat, p: nat)
    requires d > 0
    ensures RoundedTo(n * p, d) == (n / d) * p + Tail((n / d) * p, (n % d) * p, d)
  {
    SplitProduct(n, d, p);
  }

  lemma QuotientBelow(r: nat, d: nat, p: nat)
    requires r < d && p > 0
    ensures (r * p) / d < p
  {
    MulOrdered(p, r, d);
    if (r * p) / d >= p {
      MulOrdered(d, p, (r * p) / d);
    }
  }

  lemma SmallExactly(n: nat, d: nat, p: nat)
    requires d > 0 && p > 0
    ensures CeilDiv(RoundedTo(n * p, d), p) == CeilDiv(n, d)
            <==> n % d == 0 || !Vanishes((n / d) * p, (n % d) * p, d)
  {
    var (y, x) := ((n / d) * p, (n % d) * p);
    RoundedSplits(n, d, p);
    TailOf(y, x, d);
    QuotientBelow(n % d, d, p);
    CeilOf(n / d, Tail(y, x, d), p);
    if n % d == 0 {
      assert x == 0;
    }
  }

  lemma MultipleOf(c: nat, k: nat, m: nat)
    requires k > 0
    ensures c == m * k ==> c % k == 0
    ensures c % k == 0 ==> c == k * (c / k)
  {
    if c == m * k {
      DivUnique(c, k, m, 0);
    }
  }

  lemma LargeExactly(n: nat, d: nat, k: nat)
    requires d > 0 && k >= 2 && n > 0
    ensures d * k > 0 && (RoundedTo(n, d * k) * k == CeilDiv(n, d) <==> CeilDiv(n, d) % k == 0)
  {
    var c := CeilDiv(n, d);
    MulOrdered(d, 1, k);
    MultipleOf(c, k, RoundedTo(n, d * k));
    if c % k == 0 {
      MultipleNearest(n, d, k, c / k);
    }
  }

  lemma MultipleNearest(n: nat, d: nat, k: nat, m: nat)
    requires d > 0 && k >= 2 && n > 0 && CeilDiv(n, d) == k * m
    ensures d * k > 0 && RoundedTo(n, d * k) == m
  {
    MulOrdered(d, 2, k);
    MulAssociates(d, k, m);
    CeilMeans(n, d);
    NearestMultiple(n, d * k, m, (d * k) * m - n);
  }

  lemma NearestMultiple(n: nat, u: nat, m: nat, short: nat)
    requires u > 0 && n > 0 && n == u * m - short && 2 * short < u
    ensures RoundedTo(n, u) == m
  {
    if short == 0 {
      DivUnique(n, u, m, 0);
    } else {
      assert m > 0;
      MulDistributes(u, m, 1);
      DivUnique(n, u, m - 1, u - short);
    }
  }

  /** The float division rounded up is the exact ceiling exactly when `Survives` says so. */
  lemma FloatCeilExactly(n: nat, d: nat)
    requires n > 0 && d > 0
    ensures FloatCeil(n, d) == CeilDiv(n, d) <==> Survives(n, d)
  {
    var e := Exponent(n, d);
    if e <= 52 {
      SmallExactly(n, d, Pow2(52 - e));
    } else {
      assert Pow2(e - 52) == 2 * Pow2(e - 53);
      LargeExactly(n, d, Pow2(e - 52));
    }
  }

  /** A token charge is the exact ceiling of tokens * multiplier / 1000 exactly when `Survives` says
      so, and nothing positive is charged when there is nothing to charge. */
  lemma ChargeExactly(tokens: int, multiplier: int)
    ensures tokens > 0 && multiplier > 0 ==>
              tokens * multiplier > 0
              && (ShellMicros(tokens, multiplier) == ExactMicros(tokens, multiplier) <==> Survives(tokens * multiplier, 1000))
    ensures tokens <= 0 || multiplier <= 0 ==> ShellMicros(tokens, multiplier) <= 0 && ExactMicros(tokens, multiplier) == 0
  {
    if tokens > 0 && multiplier > 0 {
      MulOrdered(tokens, 1, multiplier);
      FloatCeilScaled(tokens * multiplier, 1000, MICROS_PER_SHELL);
      FloatCeilExactly(tokens * multiplier, 1000);
    } else if tokens > 0 {
      MulOrdered(tokens, multiplier, 0);
    }
  }

  // ---- every charge up to 2^44 micros is exact ----

  lemma {:induction false} ExponentLess(n: nat, d: nat, k: nat)
    requires n > 0 && d > 0 && n < d * Pow2(k)
    ensures Exponent(n, d) < k
    decreases k
  {
    if n < 2 * d {
      BelowLess(n, d);
      if k == 0 {
        assert Pow2(0) == 1;
      }
    } else {
      assert k > 0 by { assert Pow2(0) == 1; }
      MulAssociates(d, 2, Pow2(k - 1));
      ExponentLess(n, 2 * d, k - 1);
    }
  }

  lemma BelowLess(n: nat, d: nat)
    requires n > 0 && n < 2 * d
    ensures ExponentBelow(n, d) <= 0 && (n < d ==> ExponentBelow(n, d) < 0)
    decreases if n < d then d - n else 0
  {
    if n < d {
      BelowLess(2 * n, d);
    }
  }

  lemma {:induction false} Pow2Monotone(i: nat, j: nat)
    requires i <= j
    ensures Pow2(i) <= Pow2(j)
    decreases j
  {
    if i < j {
      Pow2Monotone(i, j - 1);
    }
  }

  lemma Powers2()
    ensures Pow2(8) == 256 && Pow2(9) == 512 && Pow2(44) == 0x1000_0000_0000
  {
    assert Pow2(4) == 16;
    assert Pow2(9) == 32 * Pow2(4);
    assert Pow2(14) == 32 * Pow2(9);
    assert Pow2(19) == 32 * Pow2(14);
    assert Pow2(24) == 32 * Pow2(19);
    assert Pow2(29) == 32 * Pow2(24);
    assert Pow2(34) == 32 * Pow2(29);
    assert Pow2(39) == 32 * Pow2(34);
    assert Pow2(44) == 32 * Pow2(39);
  }

  lemma SurvivesBelow(n: nat)
    requires 0 < n <= 1000 * 0x1000_0000_0000
    ensures Survives(n, 1000)
  {
    Powers2();
    var e := Exponent(n, 1000);
    if n % 1000 != 0 {
      ExponentLess(n, 1000, 44);
      Pow2Monotone(9, 52 - e);
      MulOrdered(n % 1000, 512, Pow2(52 - e));
    } else {
      assert Pow2(45) == 2 * Pow2(44);
      ExponentLess(n, 1000, 45);
    }
  }

  /** Charging by float division is exact for every charge up to 2^44 micros, .. */
  lemma ChargeIsExact(tokens: int, multiplier: int)
    requires tokens * multiplier <= 1000 * 0x1000_0000_0000 && multiplier >= 0
    ensures ShellMicros(tokens, multiplier) == ExactMicros(tokens, multiplier)
  {
    ChargeExactly(tokens, multiplier);
    if tokens > 0 && multiplier > 0 {
      SurvivesBelow(tokens * multiplier);
    }
  }

  /** .. and one thousandth of a micro more is already charged short by a whole micro. */
  lemma ChargeFallsShort()
    ensures ShellMicros(1000 * 0x1000_0000_0000 + 1, 1) == 0x1000_0000_0000
    ensures ExactMicros(1000 * 0x1000_0000_0000 + 1, 1) == 0x1000_0000_0000 + 1
  {
    var n := 1000 * 0x1000_0000_0000 + 1;
    Powers2();
    ExponentAt(n, 1000, 44);
    FloatCeilScaled(n, 1000, MICROS_PER_SHELL);
    assert Significand(n, 1000, 44) == 0x1000_0000_0000 * 256;
  }

  lemma {:induction false} ExponentAt(n: nat, d: nat, k: nat)
    requires d > 0 && d * Pow2(k) <= n < 2 * (d * Pow2(k))
    ensures Exponent(n, d) == k
    decreases k
  {
    if k == 0 {
      assert Pow2(0) == 1;
    } else {
      MulAssociates(d, 2, Pow2(k - 1));
      MulOrdered(2 * d, 1, Pow2(k - 1));
      ExponentAt(n, 2 * d, k - 1);
    }
  }

  // ---- what exact charges satisfy ----

  lemma CeilMeans(n: nat, d: nat)
    requires d > 0
    ensures d * CeilDiv(n, d) >= n && d * CeilDiv(n, d) < n + d
  {
    MulDistributes(d, n / d, 1);
  }

  /** A larger usage never costs less, and billing two usages together never costs more than billing
      them apart, nor a whole micro less. */
  lemma ExactChargeOrder(a: nat, b: nat, multiplier: nat)
    ensures a <= b ==> ExactMicros(a, multiplier) <= ExactMicros(b, multiplier)
    ensures ExactMicros(a + b, multiplier) <= ExactMicros(a, multiplier) + ExactMicros(b, multiplier)
    ensures ExactMicros(a, multiplier) + ExactMicros(b, multiplier) <= ExactMicros(a + b, multiplier) + 1
  {
    MulDistributes(multiplier, a, b);
    CeilOrder(a * multiplier, b * multiplier);
    if a <= b {
      MulOrdered(multiplier, a, b);
    }
  }

  lemma CeilOrder(x: nat, y: nat)
    ensures x <= y ==> CeilDiv(x, 1000) <= CeilDiv(y, 1000)
    ensures CeilDiv(x + y, 1000) <= CeilDiv(x, 1000) + CeilDiv(y, 1000) <= CeilDiv(x + y, 1000) + 1
  {
    CeilMeans(x, 1000);
    CeilMeans(y, 1000);
    CeilMeans(x + y, 1000);
  }
}
