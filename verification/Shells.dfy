/** Amounts of shells written for people and read back, and the subject string of a quota. */
module Shells {
  import opened Wrappers
  import opened Text
  import opened Decimals
  import opened Arithmetic

  const MICROS_PER_SHELL := 1_000_000

  // ---- writing ----

  function Padded(n: nat, width: nat): (s: string)
    ensures |s| == width && AllDigits(s)
  {
    if width == 0 then "" else Padded(n / 10, width - 1) + [DigitOf(n % 10)]
  }

  function StripZeros(s: string): string {
    if s != "" && s[|s| - 1] == '0' then StripZeros(s[..|s| - 1]) else s
  }

  function Magnitude(n: int): nat { if n < 0 then -n else n }

  function Written(sign: string, n: nat): string {
    var (whole, fraction) := (n / MICROS_PER_SHELL, n % MICROS_PER_SHELL);
    if fraction == 0 then sign + Decimal(whole)
    else StripZeros(sign + Decimal(whole) + "." + Padded(fraction, 6))
  }

  /** `format_shell_micros`, and `_format_shell_amount` of the wallet pages. */
  function FormatMicros(n: int): string {
    Written(if n < 0 then "-" else "", Magnitude(n))
  }

  // ---- reading ----

  /** (-1)^negative * coefficient / 10^places */
  datatype Number = Number(negative: bool, coefficient: nat, places: nat)

  function ReadUnsigned(s: string): Option<Number> {
    var dot := IndexOf(s, '.');
    var (whole, fraction) := (s[..dot], if dot < |s| then s[dot + 1..] else "");
    if AllDigits(whole) && AllDigits(fraction) && whole + fraction != ""
    then
      ValueConcat(whole, fraction);
      Some(Number(false, Value(whole + fraction), |fraction|))
    else None
  }

  /** Python's Decimal on the plain spellings: an optional sign, digits, and an optional point. */
  function ReadNumber(s: string): Option<Number> {
    if s != "" && (s[0] == '-' || s[0] == '+') then
      var r := ReadUnsigned(s[1..]);
      if r.Some? then Some(r.value.(negative := s[0] == '-')) else None
    else ReadUnsigned(s)
  }

  const PRECISION := 28

  function Excess(n: nat): nat {
    if Length(n) <= PRECISION then 0 else Length(n) - PRECISION
  }

  /** Round half to even at a multiple of 10^d, in units of 10^d. */
  function RoundedUnits(n: nat, d: nat): nat {
    RoundedTo(n, Pow10(d))
  }

  /** The value nearest to n that 28 significant digits can write. */
  function Rounded28(n: nat): nat {
    RoundedUnits(n, Excess(n)) * Pow10(Excess(n))
  }

  /** coefficient * 10^6 rounded to 28 digits and divided by 10^places, when that is an integer. */
  function MicrosOf(coefficient: nat, places: nat): Option<nat> {
    var product := coefficient * MICROS_PER_SHELL;
    var (d, units) := (Excess(product), RoundedUnits(product, Excess(product)));
    if d >= places then Some(units * Pow10(d - places))
    else if units % Pow10(places - d) == 0 then Some(units / Pow10(places - d))
    else None
  }

  function ToMicros(number: Number): Result<int> {
    if number.negative || number.coefficient == 0 then Err(InvalidAmount)
    else match MicrosOf(number.coefficient, number.places)
      case None => Err(InvalidAmount)
      case Some(micros) => Ok(micros)
  }

  /** `parse_shell_amount`. */
  function ParseAmount(raw: string): Result<int> {
    var text := CleanText(raw);
    if text == "" then Err(MissingText)
    else match ReadNumber(text)
      case None => Err(InvalidAmount)
      case Some(number) => ToMicros(number)
  }

  // ---- what is written can be read ----

  lemma {:induction false} ValuePadded(n: nat, width: nat)
    requires n < Pow10(width)
    ensures Value(Padded(n, width)) == n
  {
    if width > 0 {
      ValuePadded(n / 10, width - 1);
      assert Padded(n, width)[..width - 1] == Padded(n / 10, width - 1);
    }
  }

  /** A non-zero digit string loses its trailing zeros, and nothing of its value. */
  lemma {:induction false} StripsTo(head: string, digits: string) returns (k: nat)
    requires AllDigits(digits) && Value(digits) > 0
    ensures 0 < k <= |digits| && StripZeros(head + digits) == head + digits[..k]
    ensures Value(digits) == Scale(Value(digits[..k]), |digits| - k)
  {
    var n := |digits|;
    if digits[n - 1] == '0' {
      assert (head + digits)[..|head| + n - 1] == head + digits[..n - 1];
      k := StripsTo(head, digits[..n - 1]);
      assert digits[..n - 1][..k] == digits[..k];
    } else {
      assert digits[n - 1] in digits;
      k := n;
      assert digits[..n] == digits;
    }
  }

  lemma Powers()
    ensures Pow10(1) == 10 && Pow10(2) == 100 && Pow10(3) == 1000 && Pow10(4) == 10000 && Pow10(6) == 1_000_000
  {
    assert Pow10(0) == 1;
    assert Pow10(5) == 100000;
  }

  lemma ReadsPoint(whole: string, fraction: string)
    requires AllDigits(whole) && AllDigits(fraction) && whole != ""
    ensures AllDigits(whole + fraction)
    ensures ReadUnsigned(whole + "." + fraction) == Some(Number(false, Value(whole + fraction), |fraction|))
  {
    var s := whole + "." + fraction;
    IndexOfFirst(whole, '.', fraction);
    assert IndexOf(s, '.') == |whole|;
    assert s[..|whole|] == whole && s[|whole| + 1..] == fraction;
    assert whole + fraction != "";
  }

  lemma ReadsWhole(whole: string)
    requires AllDigits(whole) && whole != ""
    ensures ReadUnsigned(whole) == Some(Number(false, Value(whole), 0))
  {
    IndexOfFirst(whole, '.', "");
    assert whole[..|whole|] == whole && whole + "" == whole;
  }

  /** coefficient / 10^places shells are exactly n micros. */
  predicate Makes(number: Number, n: nat) {
    number.places <= 6 && Scale(number.coefficient, 6 - number.places) == n
  }

  /** The text written after the sign, read back: its coefficient and places make up the amount. */
  lemma BodyReads(n: nat, sign: string) returns (body: string, number: Number)
    ensures ReadUnsigned(body) == Some(number) && !number.negative
    ensures Makes(number, n)
    ensures sign + body == Written(sign, n)
    ensures body != "" && IsDigit(body[0]) && IsDigit(body[|body| - 1])
  {
    var (whole, fraction) := (n / MICROS_PER_SHELL, n % MICROS_PER_SHELL);
    Powers();
    ValueDecimal(whole);
    if fraction == 0 {
      body := Decimal(whole);
      assert body[0] in body && body[|body| - 1] in body;
      ReadsWhole(body);
      number := Number(false, whole, 0);
      ScaleIs(whole, 6);
    } else {
      body, number := FractionReads(whole, fraction, sign);
    }
  }

  /** whole followed by the first k of six digits, as a coefficient. */
  lemma CoefficientOf(whole: nat, fraction: nat, digits: string, k: nat)
    requires AllDigits(digits) && |digits| == 6 && k <= 6 && AllDigits(Decimal(whole) + digits[..k])
    requires fraction == Value(digits) && Value(digits) == Scale(Value(digits[..k]), 6 - k)
    ensures Scale(Value(Decimal(whole) + digits[..k]), 6 - k) == whole * MICROS_PER_SHELL + fraction
  {
    ScaleIs(Value(Decimal(whole) + digits[..k]), 6 - k);
    ScaleIs(Value(digits[..k]), 6 - k);
    ValueConcat(Decimal(whole), digits[..k]);
    ValueDecimal(whole);
    Powers();
    Pow10Add(k, 6 - k);
    CoefficientScaled(whole, Value(digits[..k]), Pow10(k), Pow10(6 - k));
  }

  lemma CoefficientScaled(whole: nat, v: nat, p: nat, q: nat)
    ensures (whole * p + v) * q == whole * (p * q) + v * q
  {
    MulDistributes(q, whole * p, v);
    MulAssociates(whole, p, q);
  }

  lemma FractionReads(whole: nat, fraction: nat, sign: string) returns (body: string, number: Number)
    requires 0 < fraction < MICROS_PER_SHELL
    ensures ReadUnsigned(body) == Some(number) && !number.negative
    ensures Makes(number, whole * MICROS_PER_SHELL + fraction)
    ensures sign + body == StripZeros(sign + Decimal(whole) + "." + Padded(fraction, 6))
    ensures body != "" && IsDigit(body[0]) && IsDigit(body[|body| - 1])
  {
    var digits := Padded(fraction, 6);
    assert fraction < Pow10(6) by { Powers(); }
    ValuePadded(fraction, 6);
    var k := StripsTo(sign + Decimal(whole) + ".", digits);
    body := Decimal(whole) + "." + digits[..k];
    assert sign + body == sign + Decimal(whole) + "." + digits[..k];
    ReadsPoint(Decimal(whole), digits[..k]);
    number := Number(false, Value(Decimal(whole) + digits[..k]), k);
    CoefficientOf(whole, fraction, digits, k);
    assert body[0] == Decimal(whole)[0] && Decimal(whole)[0] in Decimal(whole);
    assert body[|body| - 1] == digits[k - 1] && digits[k - 1] in digits;
  }

  /** What the written text stands for is the amount itself: sign, coefficient and places recover it. */
  lemma FormatReads(n: int) returns (number: Number)
    ensures ReadNumber(FormatMicros(n)) == Some(number)
    ensures Makes(number, Magnitude(n))
    ensures number.negative == (n < 0)
  {
    var sign := if n < 0 then "-" else "";
    var body, unsigned := BodyReads(Magnitude(n), sign);
    number := unsigned.(negative := n < 0);
    assert FormatMicros(n) == sign + body;
    SignReads(sign, body);
  }

  lemma FormatEnds(n: int)
    ensures var s := FormatMicros(n); s != "" && !IsSpace(s[0]) && !IsSpace(s[|s| - 1])
  {
    var sign := if n < 0 then "-" else "";
    var body, unsigned := BodyReads(Magnitude(n), sign);
    assert FormatMicros(n) == sign + body;
  }

  lemma SignReads(sign: string, body: string)
    requires (sign == "" || sign == "-") && body != "" && IsDigit(body[0]) && ReadUnsigned(body).Some?
    requires !ReadUnsigned(body).value.negative
    ensures ReadNumber(sign + body) == Some(ReadUnsigned(body).value.(negative := sign == "-"))
  {
    assert (sign + body)[|sign|..] == body;
    assert sign == "" ==> sign + body == body;
  }

  lemma SameAmount(number: Number, m: int, n: int)
    requires Makes(number, Magnitude(m)) && Makes(number, Magnitude(n)) && (m < 0 <==> n < 0)
    ensures m == n
  {
  }

  /** The written form is injective on all integers. */
  lemma FormatInjective(m: int, n: int)
    requires FormatMicros(m) == FormatMicros(n)
    ensures m == n
  {
    var x := FormatReads(m);
    var y := FormatReads(n);
    assert Some(x) == Some(y);
    SameAmount(x, m, n);
  }

  // ---- how the 28-digit arithmetic rounds ----

  lemma LengthTimesTen(n: nat)
    requires n > 0
    ensures Length(10 * n) == Length(n) + 1
  {
  }

  lemma {:induction false} LengthScaled(n: nat, k: nat)
    requires n > 0
    ensures n * Pow10(k) > 0 && Length(n * Pow10(k)) == Length(n) + k
  {
    if k > 0 {
      LengthScaled(n, k - 1);
      MulAssociates(n, 10, Pow10(k - 1));
      LengthTimesTen(n * Pow10(k - 1));
    }
  }

  /** Scaling by a power of ten commutes with rounding. */
  lemma RoundedScaled(n: nat, d: nat, k: nat)
    ensures RoundedUnits(n * Pow10(k), d + k) == RoundedUnits(n, d)
  {
    Pow10Add(d, k);
    RoundedToScaled(n, Pow10(d), Pow10(k));
  }

  lemma ExactUnits(n: nat, d: nat)
    ensures RoundedUnits(n * Pow10(d), d) == n
  {
    DivUnique(n * Pow10(d), Pow10(d), n, 0);
  }

  // ---- the round trip ----

  lemma ProductOf(number: Number, n: nat)
    requires Makes(number, n)
    ensures number.coefficient * MICROS_PER_SHELL == n * Pow10(number.places)
  {
    var (c, k) := (number.coefficient, number.places);
    ScaleIs(c, 6 - k);
    Pow10Add(6 - k, k);
    Powers();
    MulAssociates(c, Pow10(6 - k), Pow10(k));
  }

  lemma ShortProduct(n: nat, places: nat, d: nat)
    requires d <= places
    ensures RoundedUnits(n * Pow10(places), d) == n * Pow10(places - d)
    ensures (n * Pow10(places - d)) % Pow10(places - d) == 0 && (n * Pow10(places - d)) / Pow10(places - d) == n
  {
    Pow10Add(places - d, d);
    MulAssociates(n, Pow10(places - d), Pow10(d));
    ExactUnits(n * Pow10(places - d), d);
    DivUnique(n * Pow10(places - d), Pow10(places - d), n, 0);
  }

  lemma MicrosOfProduct(n: nat, places: nat, product: nat)
    requires n > 0 && product == n * Pow10(places)
    ensures var (d, units) := (Excess(product), RoundedUnits(product, Excess(product)));
            if d >= places then units * Pow10(d - places) == Rounded28(n)
            else units % Pow10(places - d) == 0 && units / Pow10(places - d) == Rounded28(n)
  {
    LengthScaled(n, places);
    var d := Excess(product);
    if Length(n) > PRECISION {
      RoundedScaled(n, Excess(n), places);
    } else {
      ExactUnits(n, 0);
      ShortProduct(n, places, d);
    }
  }

  lemma CleanAlready(s: string)
    requires s != "" && !IsSpace(s[0]) && !IsSpace(s[|s| - 1])
    ensures CleanText(s) == s
  {
    TrimRightEnds(s);
  }

  lemma NumberToMicros(number: Number, n: nat)
    requires Makes(number, n) && n > 0 && !number.negative
    ensures ToMicros(number) == Ok(Rounded28(n))
  {
    ProductOf(number, n);
    MicrosOfProduct(n, number.places, number.coefficient * MICROS_PER_SHELL);
    assert number.coefficient != 0 by {
      if number.coefficient == 0 {
        ScaleIs(0, 6 - number.places);
      }
    }
  }

  /** Reading a written amount gives the amount rounded to the 28 digits of the arithmetic; nothing
      that is not positive is ever read. */
  lemma ParseFormat(n: int)
    ensures ParseAmount(FormatMicros(n)) == if n > 0 then Ok(Rounded28(n)) else Err(InvalidAmount)
  {
    var number := FormatReads(n);
    FormatEnds(n);
    CleanAlready(FormatMicros(n));
    if n > 0 {
      NumberToMicros(number, n);
    } else if n == 0 {
      ZeroScales(number.coefficient, 6 - number.places);
    }
  }

  lemma {:induction false} ZeroScales(n: nat, k: nat)
    requires Scale(n, k) == 0
    ensures n == 0
  {
    if k > 0 {
      ZeroScales(n, k - 1);
    }
  }

  /** A positive amount survives the round trip exactly when its digits past the 28th are zeros. */
  lemma RoundTripExactly(n: nat)
    requires n > 0
    ensures ParseAmount(FormatMicros(n)) == Ok(n) <==> n % Pow10(Excess(n)) == 0
  {
    ParseFormat(n);
    RoundedToExact(n, Pow10(Excess(n)));
  }

  /** In particular every amount below 10^28 micros does. */
  lemma RoundTrip(n: nat)
    requires 0 < n < Pow10(28)
    ensures ParseAmount(FormatMicros(n)) == Ok(n)
  {
    LengthAtMost(n, 28);
    RoundTripExactly(n);
    assert Pow10(0) == 1;
  }

  /** How amounts look: whole ones without a point, .. */
  lemma WholeLooks()
    ensures FormatMicros(3_000_000) == "3" && FormatMicros(-3_000_000) == "-3"
  {
    assert Decimal(3) == "3";
  }

  /** .. others without trailing zeros, .. */
  lemma FractionLooks()
    ensures FormatMicros(-1_500_000) == "-1.5"
  {
    Ends("-1.", "5", 5);
    assert Padded(500000, 6) == "500000" by {
      assert Padded(500, 3) == "500";
      assert Padded(5000, 4) == "5000";
      assert Padded(50000, 5) == "50000";
    }
    assert Zeros(3) == "000" && Zeros(5) == "00000";
    assert "-" + Decimal(1) + "." == "-1.";
    assert "-1." + "5" + Zeros(5) == "-1." + "500000";
  }

  /** .. and with the zeros after the point that the sixth place needs. */
  lemma SmallLooks()
    ensures FormatMicros(7) == "0.000007"
  {
    Ends("0.", "000007", 0);
    assert Padded(7, 6) == "000007" by {
      assert Padded(0, 2) == "00";
      assert Padded(0, 5) == "00000";
    }
    assert "" + Decimal(0) + "." == "0.";
    assert "0." + "000007" + Zeros(0) == "0." + "000007";
  }

  function Zeros(n: nat): string { if n == 0 then "" else Zeros(n - 1) + "0" }

  lemma {:induction false} Ends(head: string, digits: string, n: nat)
    requires digits != "" && digits[|digits| - 1] != '0'
    ensures StripZeros(head + digits + Zeros(n)) == head + digits
  {
    var s := head + digits + Zeros(n);
    if n > 0 {
      assert s[..|s| - 1] == head + digits + Zeros(n - 1);
      Ends(head, digits, n - 1);
    } else {
      assert s == head + digits;
    }
  }

  // ---- quota subjects ----

  /** `product_quota_subject`. */
  function QuotaSubject(user: string, app: string): Result<string> {
    var (u, a) := (CleanText(user), CleanText(app));
    if u == "" || a == "" then Err(MissingText)
    else Ok("product:" + (Decimal(|a|) + ":" + (a + ":" + u)))
  }

  lemma AfterPrefix(prefix: string, a: string, b: string)
    requires prefix + a == prefix + b
    ensures a == b
  {
    assert (prefix + a)[|prefix|..] == a && (prefix + b)[|prefix|..] == b;
  }

  lemma SameParts(a: string, u: string, a': string, u': string)
    requires Decimal(|a|) + ":" + (a + ":" + u) == Decimal(|a'|) + ":" + (a' + ":" + u')
    ensures a == a' && u == u'
  {
    var (x, y) := (a + ":" + u, a' + ":" + u');
    assert ':' !in Decimal(|a|) && ':' !in Decimal(|a'|);
    SameSplit(Decimal(|a|), Decimal(|a'|), x, y);
    DecimalInjective(|a|, |a'|);
    assert x[..|a|] == a && y[..|a'|] == a' && x[|a| + 1..] == u && y[|a'| + 1..] == u';
  }

  /** Two (user, app) pairs share a quota subject only when they are the same after cleaning, whatever
      characters, colons included, they contain. */
  lemma QuotaSubjectInjective(user: string, app: string, user': string, app': string)
    requires QuotaSubject(user, app).Ok? && QuotaSubject(user, app) == QuotaSubject(user', app')
    ensures CleanText(user) == CleanText(user') && CleanText(app) == CleanText(app')
  {
    var (u, a, u', a') := (CleanText(user), CleanText(app), CleanText(user'), CleanText(app'));
    AfterPrefix("product:", Decimal(|a|) + ":" + (a + ":" + u), Decimal(|a'|) + ":" + (a' + ":" + u'));
    SameParts(a, u, a', u');
  }
}
