/** Refund currency conversion over exact rationals, the exchange rate a parameter. */
module RefundConversion {
  import opened Basics

  const ZERO_DECIMAL_CURRENCIES: set<string> := {
    "bif", "clp", "djf", "gnf", "jpy", "kmf", "krw", "mga",
    "pyg", "rwf", "ugx", "vnd", "vuv", "xaf", "xof", "xpf"}

  /** Decimal.quantize(Decimal("1"), ROUND_HALF_UP): ties go away from zero. */
  function RoundHalfUp(x: real): int {
    if x >= 0.0 then (x + 0.5).Floor else -(-x + 0.5).Floor
  }

  /** An amount in major units; zero is whether the currency has no cents. */
  function FromMinor(amount: int, zero: bool): real {
    if zero then amount as real else amount as real / 100.0
  }

  function ToMinor(converted: real, zero: bool): int {
    if zero then RoundHalfUp(converted) else RoundHalfUp(converted * 100.0)
  }

  predicate ZeroDecimal(currency: string) { currency in ZERO_DECIMAL_CURRENCIES }

  function ConvertAt(amount: int, fromZero: bool, toZero: bool, rate: real): int {
    ToMinor(FromMinor(amount, fromZero) * rate, toZero)
  }

  /** Without a stored rate the amount is handed on unchanged for Stripe to convert. */
  function Convert(amount: int, from: string, to: string, rate: Option<real>): int {
    match rate
    case None => amount
    case Some(r) => ConvertAt(amount, ZeroDecimal(from), ZeroDecimal(to), r)
  }

  /** A rate, or an amount times it, taken from the minor units of one currency to those of the other. */
  function Rescaled(fromZero: bool, toZero: bool, x: real): real {
    if fromZero == toZero then x else if fromZero then x * 100.0 else x / 100.0
  }

  /** Target minor units per source minor unit. */
  function Factor(from: string, to: string, rate: real): real {
    Rescaled(ZeroDecimal(from), ZeroDecimal(to), rate)
  }

  function Distance(x: real, y: real): real { if x < y then y - x else x - y }

  // ---------------------------------------------------------------- rounding

  lemma RoundIsNearest(x: real)
    ensures Distance(RoundHalfUp(x) as real, x) <= 0.5
    ensures x >= 0.0 ==> RoundHalfUp(x) >= 0 && RoundHalfUp(-x) == -RoundHalfUp(x)
  {}

  /** n is the integer nearest to x, and of two equally near the one farther from zero. */
  predicate NearestAway(n: int, x: real) {
    if x >= 0.0 then n as real - 0.5 <= x < n as real + 0.5 else n as real - 0.5 < x <= n as real + 0.5
  }

  /** No other integer is. */
  lemma NearestAwayIs(x: real, n: int)
    ensures NearestAway(n, x) <==> n == RoundHalfUp(x)
  {}

  /** Half a unit apart is the only tie. */
  lemma RoundPins(x: real, n: int)
    requires Distance(x, n as real) < 0.5
    ensures RoundHalfUp(x) == n
  {}

  lemma RoundMonotone(x: real, y: real)
    requires x <= y
    ensures RoundHalfUp(x) <= RoundHalfUp(y)
  {}

  // ---------------------------------------------------------------- scaling by a factor, rounded

  function Scaled(amount: int, k: real): int {
    RoundHalfUp(amount as real * k)
  }

  lemma ScaleMonotone(x: real, y: real, k: real)
    requires x <= y && k >= 0.0
    ensures x * k <= y * k
  {}

  lemma ScaledIsNearest(a: int, k: real, exact: real)
    requires exact == a as real * k
    ensures Distance(Scaled(a, k) as real, exact) <= 0.5
  {
    RoundIsNearest(exact);
  }

  lemma ScaledMonotone(a: int, b: int, k: real)
    requires a <= b && k >= 0.0
    ensures Scaled(a, k) <= Scaled(b, k)
  {
    ScaleMonotone(a as real, b as real, k);
    ScaledInOrder(a, b, k, a as real * k, b as real * k);
  }

  lemma ScaledInOrder(a: int, b: int, k: real, x: real, y: real)
    requires x == a as real * k && y == b as real * k && x <= y
    ensures Scaled(a, k) <= Scaled(b, k)
  {
    RoundMonotone(x, y);
  }

  function Sum(parts: seq<int>): int {
    if parts == [] then 0 else Sum(parts[..|parts| - 1]) + parts[|parts| - 1]
  }

  function Halves(n: nat): real { n as real / 2.0 }

  function SumScaled(parts: seq<int>, k: real): int {
    if parts == [] then 0 else SumScaled(parts[..|parts| - 1], k) + Scaled(parts[|parts| - 1], k)
  }

  function SumExact(parts: seq<int>, k: real): real {
    if parts == [] then 0.0 else SumExact(parts[..|parts| - 1], k) + parts[|parts| - 1] as real * k
  }

  lemma {:induction false} SumExactIsProduct(parts: seq<int>, k: real, sum: int)
    requires sum == Sum(parts)
    ensures SumExact(parts, k) == sum as real * k
  {
    if parts != [] {
      var last := parts[|parts| - 1];
      SumExactIsProduct(parts[..|parts| - 1], k, sum - last);
      Distribute(sum - last, last, k);
    }
  }

  lemma {:induction false} PartsNearExact(parts: seq<int>, k: real)
    ensures Distance(SumScaled(parts, k) as real, SumExact(parts, k)) <= Halves(|parts|)
  {
    if parts != [] {
      var front, last := parts[..|parts| - 1], parts[|parts| - 1];
      PartsNearExact(front, k);
      RoundIsNearest(last as real * k);
      ErrorsAdd(SumScaled(front, k), SumExact(front, k), |front|, Scaled(last, k), last as real * k);
    }
  }

  lemma ErrorsAdd(m: int, x: real, p: nat, n: int, y: real)
    requires Distance(m as real, x) <= Halves(p) && Distance(n as real, y) <= 0.5
    ensures Distance((m + n) as real, x + y) <= Halves(p + 1)
  {}

  lemma Distribute(a: int, b: int, k: real)
    ensures (a + b) as real * k == a as real * k + b as real * k
  {}

  /** Dividing an approximation of a * k by k: the error is divided too. */
  lemma BackOff(a: real, y: real, k: real, c: real)
    requires k > 0.0 && c > 0.0 && k * c == 1.0
    ensures Distance(y * c, a) == Distance(y, a * k) * c
  {
    assert a * k * c == a * (k * c);
    assert (y - a * k) * c == y * c - a * k * c;
    assert (a * k - y) * c == a * k * c - y * c;
    if y < a * k {
      assert (a * k - y) * c > 0.0;
    } else {
      assert (y - a * k) * c >= 0.0;
    }
  }

  lemma HalfScaled(d: real, c: real)
    requires d <= 0.5 && c > 0.0
    ensures d * c <= c / 2.0
  {}

  lemma BackIsNear(a: int, y: int, k: real, c: real, x: real)
    requires k > 0.0 && c > 0.0 && k * c == 1.0 && Distance(y as real, a as real * k) <= 0.5 && x == y as real * c
    ensures Distance(x, a as real) <= c / 2.0
  {
    BackOff(a as real, y as real, k, c);
    HalfScaled(Distance(y as real, a as real * k), c);
  }

  lemma Inverse(k: real, c: real)
    requires k >= 1.0 && c > 0.0 && k * c == 1.0
    ensures if k == 1.0 then c == 1.0 else c < 1.0
  {}

  lemma RoundedNear(x: real, a: int, d: real)
    requires Distance(x, a as real) <= d
    ensures Distance(RoundHalfUp(x) as real, a as real) <= 0.5 + d
    ensures d < 0.5 ==> RoundHalfUp(x) == a
  {
    RoundIsNearest(x);
  }

  lemma ScaledError(a: int, y: int, k: real, c: real, x: real, z: int)
    requires k > 0.0 && c > 0.0 && k * c == 1.0 && y == Scaled(a, k) && x == y as real * c && z == RoundHalfUp(x)
    ensures Distance(z as real, a as real) <= 0.5 + c / 2.0
    ensures c < 1.0 ==> z == a
  {
    ScaledIsNearest(a, k, a as real * k);
    BackIsNear(a, y, k, c, x);
    RoundedNear(x, a, c / 2.0);
  }

  lemma ScaledThereAndBack(a: int, y: int, z: int, k: real, c: real)
    requires k > 0.0 && c > 0.0 && k * c == 1.0 && y == Scaled(a, k) && z == Scaled(y, c)
    ensures Distance(z as real, a as real) <= 0.5 + c / 2.0
    ensures c < 1.0 ==> z == a
  {
    ScaledError(a, y, k, c, y as real * c, z);
  }

  lemma ScaledExactBack(a: int, y: int, z: int, k: real, c: real)
    requires k >= 1.0 && c > 0.0 && k * c == 1.0 && y == Scaled(a, k) && z == Scaled(y, c)
    ensures z == a
  {
    Inverse(k, c);
    if k == 1.0 {
      UnitScale(a);
      UnitScale(y);
    } else {
      ScaledThereAndBack(a, y, z, k, c);
    }
  }

  lemma UnitScale(a: int)
    ensures Scaled(a, 1.0) == a
  {
    RoundPins(a as real, a);
  }

  /** With a factor below one, two neighbouring amounts are scaled to the same one. */
  lemma Collision(k: real) returns (a: nat)
    requires 0.0 < k < 1.0
    ensures Scaled(a, k) == Scaled(a + 1, k)
  {
    var n := Enough(1.0 - k);
    FallsShort(n, k, 1.0 - k);
    UpTo(n, k);
    a :| 0 <= a < n && Scaled(a, k) == Scaled(a + 1, k);
  }

  /** Strictly growing values from 0 to n would reach n. */
  lemma UpTo(n: nat, k: real)
    requires k > 0.0 && Scaled(n, k) < n
    ensures exists a: nat :: a < n && Scaled(a, k) == Scaled(a + 1, k)
  {
    var a := 0;
    UnitZero(k);
    while a < n && Scaled(a, k) != Scaled(a + 1, k)
      invariant a <= n && Scaled(a, k) >= a
      decreases n - a
    {
      ScaledMonotone(a, a + 1, k);
      a := a + 1;
    }
  }

  lemma UnitZero(k: real)
    ensures Scaled(0, k) == 0
  {
    assert 0.0 * k == 0.0;
  }

  lemma FallsShort(n: nat, k: real, c: real)
    requires k == 1.0 - c && n as real * c >= 1.0
    ensures Scaled(n, k) < n
  {
    var exact := n as real - n as real * c;
    Complement(n as real, k, c);
    ScaledIsNearest(n, k, exact);
  }

  lemma Enough(c: real) returns (n: nat)
    requires c > 0.0
    ensures n as real * c >= 1.0
  {
    var x := 1.0 / c;
    Reciprocal(c, x);
    n := x.Floor + 1;
    ScaleMonotone(x, n as real, c);
  }

  lemma Reciprocal(c: real, x: real)
    requires c > 0.0 && x == 1.0 / c
    ensures x * c == 1.0 && x > 0.0
  {}

  lemma Complement(n: real, k: real, c: real)
    requires k == 1.0 - c
    ensures n * k == n - n * c
  {}

  // ---------------------------------------------------------------- conversion

  lemma Hundredth(a: real, h: real, rate: real, product: real)
    requires product == a * rate && a == 100.0 * h
    ensures h * rate == product / 100.0
  {
    assert 100.0 * h * rate == 100.0 * (h * rate);
  }

  lemma ConvertedExactly(amount: int, fromZero: bool, rate: real, product: real)
    requires product == amount as real * rate
    ensures FromMinor(amount, fromZero) * rate == if fromZero then product else product / 100.0
  {
    if !fromZero {
      Hundredth(amount as real, FromMinor(amount, false), rate, product);
    }
  }

  lemma ToMinorRounds(converted: real, fromZero: bool, toZero: bool, product: real)
    requires converted == if fromZero then product else product / 100.0
    ensures ToMinor(converted, toZero) == RoundHalfUp(Rescaled(fromZero, toZero, product))
  {
    if !fromZero && !toZero {
      assert converted * 100.0 == product;
    }
  }

  lemma ConvertAtRounds(amount: int, fromZero: bool, toZero: bool, rate: real, product: real)
    requires product == amount as real * rate
    ensures ConvertAt(amount, fromZero, toZero, rate) == RoundHalfUp(Rescaled(fromZero, toZero, product))
  {
    ConvertedExactly(amount, fromZero, rate, product);
    ToMinorRounds(FromMinor(amount, fromZero) * rate, fromZero, toZero, product);
  }

  lemma TimesHundred(a: real, rate: real, product: real)
    requires product == a * rate
    ensures a * (rate * 100.0) == product * 100.0
  {}

  lemma OverHundred(a: real, rate: real, product: real, h: real)
    requires product == a * rate && rate == 100.0 * h
    ensures a * h == product / 100.0
  {
    assert 100.0 * h * a == 100.0 * (h * a);
  }

  lemma RescaledTimes(a: real, fromZero: bool, toZero: bool, rate: real, product: real, k: real)
    requires product == a * rate && k == Rescaled(fromZero, toZero, rate)
    ensures a * k == Rescaled(fromZero, toZero, product)
  {
    if fromZero && !toZero {
      TimesHundred(a, rate, product);
    } else if toZero && !fromZero {
      OverHundred(a, rate, product, rate / 100.0);
    }
  }

  lemma ScaledIs(a: int, k: real, exact: real)
    requires exact == a as real * k
    ensures Scaled(a, k) == RoundHalfUp(exact)
  {}

  lemma ConvertAtScales(amount: int, fromZero: bool, toZero: bool, rate: real, k: real, product: real)
    requires product == amount as real * rate && k == Rescaled(fromZero, toZero, rate)
    ensures ConvertAt(amount, fromZero, toZero, rate) == Scaled(amount, k)
  {
    ConvertAtRounds(amount, fromZero, toZero, rate, product);
    RescaledTimes(amount as real, fromZero, toZero, rate, product, k);
    ScaledIs(amount, k, Rescaled(fromZero, toZero, product));
  }

  lemma ConvertIsScaling(amount: int, from: string, to: string, rate: real)
    ensures Convert(amount, from, to, Some(rate)) == Scaled(amount, Factor(from, to, rate))
  {
    ConvertAtScales(amount, ZeroDecimal(from), ZeroDecimal(to), rate, Factor(from, to, rate), amount as real * rate);
  }

  lemma FactorInverts(from: string, to: string, rate: real)
    requires rate > 0.0
    ensures Factor(from, to, rate) > 0.0 && Factor(to, from, 1.0 / rate) > 0.0
    ensures Factor(from, to, rate) * Factor(to, from, 1.0 / rate) == 1.0
  {
    var c := 1.0 / rate;
    Reciprocal(rate, c);
    assert rate * 100.0 * (c / 100.0) == 1.0 && rate / 100.0 * (c * 100.0) == 1.0 && rate * c == 1.0;
  }

  /** In all four combinations of decimals the result is within half a minor unit of the exact
      value, and a larger refund never converts to a smaller one. */
  lemma ConvertIsNearest(a: int, b: int, from: string, to: string, rate: real)
    requires a <= b && rate > 0.0
    ensures Distance(Convert(a, from, to, Some(rate)) as real, a as real * Factor(from, to, rate)) <= 0.5
    ensures Convert(a, from, to, Some(rate)) <= Convert(b, from, to, Some(rate))
  {
    ConvertIsScaling(a, from, to, rate);
    ConvertIsScaling(b, from, to, rate);
    FactorInverts(from, to, rate);
    RoundIsNearest(a as real * Factor(from, to, rate));
    ScaledMonotone(a, b, Factor(from, to, rate));
  }

  /** In each of the four cases the exact value is the amount times the rate, times or divided by a
      hundred where only one of the currencies has cents; n is the nearest integer to it, a tie going
      away from zero. */
  predicate Rounded(n: int, fromZero: bool, toZero: bool, product: real) {
    match (fromZero, toZero)
    case (true, true) => NearestAway(n, product)
    case (false, false) => NearestAway(n, product)
    case (true, false) => NearestAway(n, product * 100.0)
    case (false, true) => NearestAway(n, product / 100.0)
  }

  /** The conversion is that and nothing else, and without a rate it is the amount itself. */
  lemma ConvertRoundsHalfUp(amount: int, from: string, to: string, rate: real, product: real, n: int)
    requires product == amount as real * rate
    ensures n == Convert(amount, from, to, Some(rate)) <==> Rounded(n, ZeroDecimal(from), ZeroDecimal(to), product)
    ensures Convert(amount, from, to, None) == amount
  {
    ConvertAtRounds(amount, ZeroDecimal(from), ZeroDecimal(to), rate, product);
    NearestAwayIs(Rescaled(ZeroDecimal(from), ZeroDecimal(to), product), n);
  }

  /** Two ties between dollars and yen, and their mirror images. */
  lemma TiesGoAway()
    ensures Convert(50, "usd", "jpy", Some(101.0)) == 51 && Convert(-50, "usd", "jpy", Some(101.0)) == -51
    ensures Convert(1, "usd", "jpy", Some(50.0)) == 1 && Convert(-1, "usd", "jpy", Some(50.0)) == -1
  {
    ConvertRoundsHalfUp(50, "usd", "jpy", 101.0, 5050.0, 51);
    ConvertRoundsHalfUp(-50, "usd", "jpy", 101.0, -5050.0, -51);
    ConvertRoundsHalfUp(1, "usd", "jpy", 50.0, 50.0, 1);
    ConvertRoundsHalfUp(-1, "usd", "jpy", 50.0, -50.0, -1);
  }

  function SumConverted(parts: seq<int>, from: string, to: string, rate: Option<real>): int {
    if parts == [] then 0
    else SumConverted(parts[..|parts| - 1], from, to, rate) + Convert(parts[|parts| - 1], from, to, rate)
  }

  lemma {:induction false} SumConvertedIsScaled(parts: seq<int>, from: string, to: string, rate: Option<real>)
    ensures SumConverted(parts, from, to, rate)
            == if rate.None? then Sum(parts) else SumScaled(parts, Factor(from, to, rate.value))
  {
    if parts != [] {
      SumConvertedIsScaled(parts[..|parts| - 1], from, to, rate);
      if rate.Some? {
        ConvertIsScaling(parts[|parts| - 1], from, to, rate.value);
      }
    }
  }

  /** Refunding in n parts instead of at once changes the refund by at most (n + 1) / 2 minor units,
      and by nothing when the rate is missing. */
  lemma PartialRefundsAddUp(parts: seq<int>, from: string, to: string, rate: Option<real>)
    ensures var split, whole := SumConverted(parts, from, to, rate), Convert(Sum(parts), from, to, rate);
            && 2 * (split - whole) <= |parts| + 1 && 2 * (whole - split) <= |parts| + 1
            && (rate.None? ==> split == whole)
  {
    SumConvertedIsScaled(parts, from, to, rate);
    if rate.Some? {
      ConvertIsScaling(Sum(parts), from, to, rate.value);
      SplitScaled(parts, Factor(from, to, rate.value), Sum(parts));
    }
  }

  lemma SplitScaled(parts: seq<int>, k: real, sum: int)
    requires sum == Sum(parts)
    ensures 2 * (SumScaled(parts, k) - Scaled(sum, k)) <= |parts| + 1
    ensures 2 * (Scaled(sum, k) - SumScaled(parts, k)) <= |parts| + 1
  {
    PartsNearExact(parts, k);
    SumExactIsProduct(parts, k, sum);
    ScaledIsNearest(sum, k, SumExact(parts, k));
    IntegersApart(SumScaled(parts, k), Scaled(sum, k), SumExact(parts, k), |parts|);
  }

  lemma IntegersApart(m: int, n: int, x: real, p: nat)
    requires Distance(m as real, x) <= Halves(p) && Distance(n as real, x) <= 0.5
    ensures 2 * (m - n) <= p + 1 && 2 * (n - m) <= p + 1
  {
    assert (m - n) as real <= Halves(p + 1) && (n - m) as real <= Halves(p + 1);
  }

  function ThereAndBack(amount: int, from: string, to: string, rate: real): int
    requires rate > 0.0
  {
    Convert(Convert(amount, from, to, Some(rate)), to, from, Some(1.0 / rate))
  }

  lemma ThereAndBackIsScaled(amount: int, from: string, to: string, rate: real)
    requires rate > 0.0
    ensures ThereAndBack(amount, from, to, rate)
            == Scaled(Scaled(amount, Factor(from, to, rate)), Factor(to, from, 1.0 / rate))
  {
    ConvertIsScaling(amount, from, to, rate);
    ConvertIsScaling(Convert(amount, from, to, Some(rate)), to, from, 1.0 / rate);
  }

  /** Converting there at a rate and back at its inverse is off by at most 1/2 + 1/(2k), where k is the
      factor there and c = 1/k the factor back. */
  lemma RoundTripError(amount: int, from: string, to: string, rate: real, k: real, c: real)
    requires rate > 0.0 && k == Factor(from, to, rate) && c == Factor(to, from, 1.0 / rate)
    ensures k * c == 1.0
    ensures Distance(ThereAndBack(amount, from, to, rate) as real, amount as real) <= 0.5 + c / 2.0
  {
    FactorInverts(from, to, rate);
    ThereAndBackIsScaled(amount, from, to, rate);
    var y := Scaled(amount, k);
    ScaledThereAndBack(amount, y, Scaled(y, c), k, c);
  }

  /** The round trip gives every amount back exactly when a source minor unit is worth at least a
      target minor unit. */
  lemma RoundTripIff(from: string, to: string, rate: real)
    requires rate > 0.0
    ensures (forall amount: int :: ThereAndBack(amount, from, to, rate) == amount) <==> Factor(from, to, rate) >= 1.0
  {
    var k, c := Factor(from, to, rate), Factor(to, from, 1.0 / rate);
    FactorInverts(from, to, rate);
    if k >= 1.0 {
      forall amount: int ensures ThereAndBack(amount, from, to, rate) == amount {
        ThereAndBackIsScaled(amount, from, to, rate);
        ScaledExactBack(amount, Scaled(amount, k), Scaled(Scaled(amount, k), c), k, c);
      }
    } else {
      var a := Collision(k);
      ThereAndBackIsScaled(a, from, to, rate);
      ThereAndBackIsScaled(a + 1, from, to, rate);
    }
  }
}
