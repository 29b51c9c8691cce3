/** Natural numbers written in decimal, and read back. */
module Decimals {
  predicate IsDigit(c: char) { '0' <= c <= '9' }

  predicate AllDigits(s: string) {
    forall c <- s :: IsDigit(c)
  }

  function Pow10(k: nat): (r: nat)
    ensures r > 0
  {
    if k == 0 then 1 else 10 * Pow10(k - 1)
  }

  function DigitOf(d: nat): (c: char)
    requires d < 10
    ensures IsDigit(c) && c as int - '0' as int == d
  {
    ('0' as int + d) as char
  }

  /** str(n) */
  function Decimal(n: nat): (s: string)
    ensures s != "" && AllDigits(s)
  {
    if n < 10 then [DigitOf(n)] else Decimal(n / 10) + [DigitOf(n % 10)]
  }

  /** The number a digit string stands for. */
  function Value(s: string): nat
    requires AllDigits(s)
  {
    if s == "" then 0
    else
      var last := s[|s| - 1];
      assert last in s;
      10 * Value(s[..|s| - 1]) + (last as int - '0' as int)
  }

  lemma {:induction false} ValueDecimal(n: nat)
    ensures Value(Decimal(n)) == n
  {
    if n >= 10 {
      ValueDecimal(n / 10);
      assert Decimal(n)[..|Decimal(n)| - 1] == Decimal(n / 10);
    }
  }

  lemma DecimalInjective(m: nat, n: nat)
    requires Decimal(m) == Decimal(n)
    ensures m == n
  {
    ValueDecimal(m);
    ValueDecimal(n);
  }

  lemma {:induction false} ValueConcat(a: string, b: string)
    requires AllDigits(a) && AllDigits(b)
    ensures AllDigits(a + b) && Value(a + b) == Value(a) * Pow10(|b|) + Value(b)
  {
    if b == "" {
      assert a + b == a;
    } else {
      var pre := b[..|b| - 1];
      ValueConcat(a, pre);
      assert (a + b)[..|a + b| - 1] == a + pre;
      var p := Pow10(|pre|);
      assert Pow10(|b|) == 10 * p;
      assert 10 * (Value(a) * p) == Value(a) * (10 * p);
    }
  }

  lemma {:induction false} Pow10Add(i: nat, j: nat)
    ensures Pow10(i + j) == Pow10(i) * Pow10(j)
  {
    if i > 0 {
      Pow10Add(i - 1, j);
      assert 10 * (Pow10(i - 1) * Pow10(j)) == (10 * Pow10(i - 1)) * Pow10(j);
    }
  }

  /** n followed by k zeros. */
  function Scale(n: nat, k: nat): nat {
    if k == 0 then n else 10 * Scale(n, k - 1)
  }

  lemma {:induction false} ScaleIs(n: nat, k: nat)
    ensures Scale(n, k) == n * Pow10(k)
  {
    if k > 0 {
      ScaleIs(n, k - 1);
      var p := Pow10(k - 1);
      assert 10 * (n * p) == n * (10 * p);
    }
  }

  /** How many digits str(n) has, for positive n. */
  function Length(n: nat): nat {
    if n == 0 then 0 else 1 + Length(n / 10)
  }

  lemma {:induction false} LengthBounds(n: nat)
    ensures n < Pow10(Length(n)) && (n > 0 ==> Pow10(Length(n) - 1) <= n)
  {
    if n > 0 {
      LengthBounds(n / 10);
    }
  }

  lemma {:induction false} Pow10Monotone(i: nat, j: nat)
    requires i <= j
    ensures Pow10(i) <= Pow10(j)
    decreases j
  {
    if i < j {
      Pow10Monotone(i, j - 1);
    }
  }

  /** Fewer than k digits means less than 10^k. */
  lemma LengthAtMost(n: nat, k: nat)
    ensures Length(n) <= k <==> n < Pow10(k)
  {
    LengthBounds(n);
    if Length(n) <= k {
      Pow10Monotone(Length(n), k);
    } else {
      Pow10Monotone(k, Length(n) - 1);
    }
  }
}
