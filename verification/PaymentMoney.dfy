/** Amounts of money in payments/domain/value_objects.py.

    The decimals that come in have any scale; multiplying one rounds the product, half to even, to the 28
    significant digits of the standard decimal context. */
module PaymentMoney {
  import opened Common

  datatype Currency = RWF | USD | EUR | KES | GHS | NGN

  function Decimals(c: Currency): nat {
    if c.RWF? then 0 else 2
  }

  const MIN_MINOR := 100

  function MaxMinor(c: Currency): int {
    match c
    case RWF => 10_000_000
    case KES => 5_000_000
    case NGN => 50_000_000
    case _ => 1_000_000
  }

  datatype Money = Money(minorUnits: int, currency: Currency)
  datatype Result = Ok(money: Money) | Invalid

  predicate Valid(m: Money) {
    MIN_MINOR <= m.minorUnits <= MaxMinor(m.currency)
  }

  /** `Money(...)`; Invalid stands for the raised DomainValidationError. */
  function Make(minorUnits: int, currency: Currency): Result {
    if minorUnits < MIN_MINOR || minorUnits > MaxMinor(currency) then Invalid else Ok(Money(minorUnits, currency))
  }

  function Add(a: Money, b: Money): Result {
    if a.currency != b.currency then Invalid else Make(a.minorUnits + b.minorUnits, a.currency)
  }

  function Sub(a: Money, b: Money): Result {
    if a.currency != b.currency then Invalid else Make(a.minorUnits - b.minorUnits, a.currency)
  }

  /** What an amount may be, in minor units: at least one whole unit of a currency with cents and 100 of one
      without; at most 10,000 whole units, and 50,000 of KES, 500,000 of NGN, and 10,000,000 of RWF. */
  lemma AmountsInBounds(units: int, c: Currency)
    ensures Make(units, c).Ok? <==>
              && 100 <= units
              && units <= (if c == RWF then 10_000_000 else 100 * if c == KES then 50_000 else if c == NGN then 500_000 else 10_000)
    ensures Make(units, c).Ok? ==> Make(units, c) == Ok(Money(units, c)) && Valid(Make(units, c).money)
  {
  }

  /** Sums and differences succeed exactly within one currency and its bounds.  Subtraction undoes every addition
      that succeeds, and addition every subtraction. */
  lemma AddAndSubUndoEachOther(a: Money, b: Money)
    requires Valid(a) && Valid(b)
    ensures Add(a, b).Ok? <==> a.currency == b.currency && Valid(Money(a.minorUnits + b.minorUnits, a.currency))
    ensures Sub(a, b).Ok? <==> a.currency == b.currency && Valid(Money(a.minorUnits - b.minorUnits, a.currency))
    ensures Add(a, b).Ok? ==> Valid(Add(a, b).money) && Sub(Add(a, b).money, b) == Ok(a) && Sub(Add(a, b).money, a) == Ok(b)
    ensures Sub(a, b).Ok? ==> Valid(Sub(a, b).money) && Add(Sub(a, b).money, b) == Ok(a)
  {
  }

  // ---------------------------------------------------------------- decimals

  /** The precision of the decimal context in force; the standard one has 28 digits.  Eight hold any amount. */
  type Precision = p: nat | p >= 8 witness 28

  /** The number coefficient / 10^scale, or its negative. */
  datatype Decimal = Decimal(negative: bool, coefficient: nat, scale: nat)

  function Pow10(k: nat): (p: nat)
    ensures p > 0
  {
    if k == 0 then 1 else 10 * Pow10(k - 1)
  }

  /** How many digits more than the precision n has, if it has at least j more. */
  function Excess(p: Precision, n: nat, j: nat): (k: nat)
    requires j > 0 ==> Pow10(p + j - 1) <= n
    ensures j <= k && n < Pow10(p + k)
    ensures k > 0 ==> Pow10(p + k - 1) <= n
    decreases n - Pow10(p + j)
  {
    if n < Pow10(p + j) then j else Excess(p, n, j + 1)
  }

  /** n to the nearest multiple of unit, half to the even one. */
  function Nearest(n: nat, unit: nat): nat
    requires unit > 0
  {
    var q, r := n / unit, n % unit;
    if 2 * r < unit || (2 * r == unit && q % 2 == 0) then q * unit else (q + 1) * unit
  }

  /** n to the digits of the context. */
  function Rounded(p: Precision, n: nat): nat {
    Nearest(n, Pow10(Excess(p, n, 0)))
  }

  // ---------------------------------------------------------------- powers

  lemma {:induction false} Pow10Add(a: nat, b: nat)
    ensures Pow10(a + b) == Pow10(a) * Pow10(b)
  {
    if a > 0 {
      Pow10Add(a - 1, b);
      Associate(10, Pow10(a - 1), Pow10(b));
    }
  }

  lemma Associate(a: int, b: int, c: int)
    ensures (a * b) * c == a * (b * c)
  {
  }

  lemma {:induction false} Pow10Grows(a: nat, b: nat)
    requires a <= b
    ensures Pow10(a) <= Pow10(b)
  {
    if a < b {
      Pow10Grows(a, b - 1);
    }
  }

  lemma ExcessIs(p: Precision, n: nat, k: nat)
    requires n < Pow10(p + k) && (k > 0 ==> Pow10(p + k - 1) <= n)
    ensures Excess(p, n, 0) == k
  {
    var e := Excess(p, n, 0);
    if e < k {
      Pow10Grows(p + e, p + k - 1);
    } else if k < e {
      Pow10Grows(p + k, p + e - 1);
    }
  }

  // ---------------------------------------------------------------- rounding

  lemma QuotientIs(n: nat, d: nat, q: nat, r: nat)
    requires d > 0 && r < d && n == q * d + r
    ensures n / d == q && n % d == r
  {
    Division(n, d);
    var x := n / d - q;
    assert x * d == r - n % d by {
      Distribute(n / d, q, d);
    }
    if x >= 1 {
      MulMonotone(1, x, d);
    } else if x <= -1 {
      MulMonotone(x, -1, d);
    }
  }

  lemma Distribute(a: int, b: int, d: int)
    ensures (a - b) * d == a * d - b * d
    ensures (a + b) * d == a * d + b * d
  {
  }

  lemma SmallerQuotient(n: nat, m: nat, d: nat)
    requires n <= m && d > 0
    ensures n / d <= m / d
  {
    Division(n, d);
    Division(m, d);
    if n / d > m / d {
      MulMonotone(m / d + 1, n / d, d);
      Distribute(m / d, 1, d);
    }
  }

  /** The nearest multiple is at most half a unit away. */
  lemma NearestIsNear(n: nat, unit: nat)
    requires unit > 0
    ensures 0 - unit <= 2 * (Nearest(n, unit) - n) <= unit
  {
    Division(n, unit);
    Distribute(n / unit, 1, unit);
  }

  lemma NearestGrows(n: nat, m: nat, unit: nat)
    requires n <= m && unit > 0
    ensures Nearest(n, unit) <= Nearest(m, unit)
  {
    Division(n, unit);
    Division(m, unit);
    SmallerQuotient(n, m, unit);
    Distribute(n / unit, 1, unit);
    Distribute(m / unit, 1, unit);
    if n / unit < m / unit {
      MulMonotone(n / unit + 1, m / unit, unit);
    }
  }

  lemma NearestKeepsMultiples(q: nat, unit: nat)
    requires unit > 0
    ensures Nearest(q * unit, unit) == q * unit
  {
    QuotientIs(q * unit, unit, q, 0);
  }

  lemma NearestScales(n: nat, unit: nat)
    requires unit > 0
    ensures Nearest(10 * n, 10 * unit) == 10 * Nearest(n, unit)
  {
    var q, r := n / unit, n % unit;
    Division(n, unit);
    assert q * (10 * unit) == 10 * (q * unit) && (q + 1) * (10 * unit) == 10 * ((q + 1) * unit);
    QuotientIs(10 * n, 10 * unit, q, 10 * r);
  }

  lemma RoundedGrows(p: Precision, n: nat, m: nat)
    requires n <= m
    ensures Rounded(p, n) <= Rounded(p, m)
  {
    var k, l := Excess(p, n, 0), Excess(p, m, 0);
    if k == l {
      NearestGrows(n, m, Pow10(k));
    } else if k < l {
      Pow10Grows(p + k, p + l - 1);
      Pow10Add(p, k);
      NearestGrows(n, Pow10(p + k), Pow10(k));
      NearestKeepsMultiples(Pow10(p), Pow10(k));
      Pow10Add(p - 1, l);
      NearestGrows(Pow10(p + l - 1), m, Pow10(l));
      NearestKeepsMultiples(Pow10(p - 1), Pow10(l));
    } else {
      Pow10Grows(p + l, p + k - 1);
    }
  }

  lemma RoundedScales(p: Precision, n: nat)
    ensures Rounded(p, 10 * n) == 10 * Rounded(p, n)
  {
    var k := Excess(p, n, 0);
    if n < Pow10(p - 1) {
      ExcessIs(p, n, 0);
      ExcessIs(p, 10 * n, 0);
    } else {
      ExcessIs(p, 10 * n, k + 1);
      NearestScales(n, Pow10(k));
    }
  }

  // ---------------------------------------------------------------- any rounding to nearest

  predicate ScalesAt(round: nat -> nat, n: nat) {
    round(10 * n) == 10 * round(n)
  }

  predicate NearAt(p: Precision, round: nat -> nat, n: nat) {
    var unit := Pow10(Excess(p, n, 0));
    0 - unit <= 2 * (round(n) - n) <= unit
  }

  /** What matters about a context's rounding: monotone, the same for a trailing zero more, exact for numbers
      that fit, and at most half a unit of the last digit away. */
  ghost predicate RoundsToNearest(p: Precision, round: nat -> nat) {
    && (forall n: nat, m: nat | n <= m :: round(n) <= round(m))
    && (forall n: nat :: ScalesAt(round, n))
    && (forall n: nat | n < Pow10(p) :: round(n) == n)
    && (forall n: nat :: NearAt(p, round, n))
  }

  /** Half to even, the standard mode, is such a rounding. */
  lemma HalfEvenRoundsToNearest(p: Precision)
    ensures RoundsToNearest(p, n => Rounded(p, n))
  {
    var round: nat -> nat := n => Rounded(p, n);
    forall n: nat, m: nat | n <= m
      ensures round(n) <= round(m)
    {
      RoundedGrows(p, n, m);
    }
    forall n: nat
      ensures ScalesAt(round, n)
    {
      RoundedScales(p, n);
    }
    forall n: nat | n < Pow10(p)
      ensures round(n) == n
    {
    }
    forall n: nat
      ensures NearAt(p, round, n)
    {
      NearestIsNear(n, Pow10(Excess(p, n, 0)));
    }
  }

  lemma {:induction false} KeepsDigits(p: Precision, round: nat -> nat, q: nat, k: nat)
    requires RoundsToNearest(p, round) && q < Pow10(p)
    ensures round(q * Pow10(k)) == q * Pow10(k)
  {
    if k > 0 {
      KeepsDigits(p, round, q, k - 1);
      assert q * Pow10(k) == 10 * (q * Pow10(k - 1));
      assert ScalesAt(round, q * Pow10(k - 1));
    }
  }

  // ---------------------------------------------------------------- from_decimal

  /** Multiplied by 10 to the power of the currency's decimals. */
  function Shifted(n: nat, c: Currency): nat {
    if Decimals(c) == 0 then n else 100 * n
  }

  lemma QuotientIsNat(n: nat, d: nat)
    requires d > 0
    ensures n / d >= 0
  {
  }

  /** The minor units of coefficient / 10^scale: rounded to the context, then down. */
  function Units(round: nat -> nat, coefficient: nat, scale: nat, c: Currency): nat {
    var n, d := round(Shifted(coefficient, c)), Pow10(scale);
    QuotientIsNat(n, d);
    n / d
  }

  function FromDecimal(round: nat -> nat, d: Decimal, c: Currency): Result {
    var units := Units(round, d.coefficient, d.scale, c);
    Make(if d.negative then 0 - units else units, c)
  }

  /** An exact quotient is given with no more trailing zeros after the point than it needs. */
  function Reduced(coefficient: nat, scale: nat): Decimal {
    if scale > 0 && coefficient % 10 == 0 then Reduced(coefficient / 10, scale - 1) else Decimal(false, coefficient, scale)
  }

  function ToDecimal(m: Money): Decimal
    requires Valid(m)
  {
    Reduced(m.minorUnits, Decimals(m.currency))
  }

  lemma {:induction false} ReducedHasSameValue(n: nat, scale: nat)
    ensures var d := Reduced(n, scale);
            && !d.negative && d.coefficient * Pow10(scale) == n * Pow10(d.scale)
            && d.scale <= scale && (d.scale > 0 ==> d.coefficient % 10 != 0)
    decreases scale
  {
    if scale > 0 && n % 10 == 0 {
      ReducedHasSameValue(n / 10, scale - 1);
      var d := Reduced(n, scale);
    }
  }

  lemma QuotientScales(n: nat, d: nat)
    requires d > 0
    ensures 10 * n / (10 * d) == n / d
  {
    Division(n, d);
    assert n / d * (10 * d) == 10 * (n / d * d);
    QuotientIs(10 * n, 10 * d, n / d, 10 * (n % d));
  }

  lemma OneMoreZero(p: Precision, round: nat -> nat, n: nat, scale: nat, c: Currency)
    requires RoundsToNearest(p, round)
    ensures Units(round, 10 * n, scale + 1, c) == Units(round, n, scale, c)
  {
    assert ScalesAt(round, Shifted(n, c));
    assert Shifted(10 * n, c) == 10 * Shifted(n, c);
    QuotientScales(round(Shifted(n, c)), Pow10(scale));
  }

  lemma PowerStep(n: nat, j: nat)
    requires j > 0
    ensures n * Pow10(j) == 10 * (n * Pow10(j - 1))
  {
  }

  lemma {:induction false} SameValueSameUnits(p: Precision, round: nat -> nat, n: nat, scale: nat, c: Currency, j: nat)
    requires RoundsToNearest(p, round)
    ensures Units(round, n * Pow10(j), scale + j, c) == Units(round, n, scale, c)
  {
    if j > 0 {
      SameValueSameUnits(p, round, n, scale, c, j - 1);
      OneMoreZero(p, round, n * Pow10(j - 1), scale + j - 1, c);
      PowerStep(n, j);
    }
  }

  /** A greater amount never becomes fewer minor units, whatever the scales; negative amounts are refused. */
  lemma FromDecimalIsMonotone(p: Precision, round: nat -> nat, a: Decimal, b: Decimal, c: Currency)
    requires RoundsToNearest(p, round) && a.coefficient * Pow10(b.scale) <= b.coefficient * Pow10(a.scale)
    ensures a.negative ==> FromDecimal(round, a, c) == Invalid
    ensures FromDecimal(round, a, c).Ok? && FromDecimal(round, b, c).Ok? ==>
              FromDecimal(round, a, c).money.minorUnits <= FromDecimal(round, b, c).money.minorUnits
  {
    SameValueSameUnits(p, round, a.coefficient, a.scale, c, b.scale);
    SameValueSameUnits(p, round, b.coefficient, b.scale, c, a.scale);
    var x, y := Shifted(a.coefficient * Pow10(b.scale), c), Shifted(b.coefficient * Pow10(a.scale), c);
    assert round(x) <= round(y);
    SmallerQuotient(round(x), round(y), Pow10(a.scale + b.scale));
  }

  lemma EightDigits(p: Precision)
    ensures Pow10(p) >= 100_000_000
  {
    Pow10Grows(8, p);
    assert Pow10(8) == 100_000_000;
  }

  lemma ShortIsExact(p: Precision, round: nat -> nat, n: nat, c: Currency)
    requires RoundsToNearest(p, round) && n < Pow10(p)
    ensures round(Shifted(n, c)) == Shifted(n, c)
  {
    assert ScalesAt(round, n) && ScalesAt(round, 10 * n);
    assert 10 * (10 * n) == 100 * n;
  }

  lemma ExactUnits(p: Precision, round: nat -> nat, m: Money)
    requires RoundsToNearest(p, round) && Valid(m)
    ensures Units(round, m.minorUnits, Decimals(m.currency), m.currency) == m.minorUnits
  {
    EightDigits(p);
    ShortIsExact(p, round, m.minorUnits, m.currency);
    assert Pow10(0) == 1 && Pow10(2) == 100;
  }

  lemma EqualValuesEqualUnits(p: Precision, round: nat -> nat, a: Decimal, b: Decimal, c: Currency)
    requires RoundsToNearest(p, round) && a.coefficient * Pow10(b.scale) == b.coefficient * Pow10(a.scale)
    ensures Units(round, a.coefficient, a.scale, c) == Units(round, b.coefficient, b.scale, c)
  {
    SameValueSameUnits(p, round, a.coefficient, a.scale, c, b.scale);
    SameValueSameUnits(p, round, b.coefficient, b.scale, c, a.scale);
  }

  /** Reading back what was written gives the amount, in every currency, and so does reading any other decimal
      of the same value: with trailing zeros, or without them. */
  lemma RoundTrip(p: Precision, round: nat -> nat, m: Money, d: Decimal)
    requires RoundsToNearest(p, round) && Valid(m)
    requires !d.negative && d.coefficient * Pow10(Decimals(m.currency)) == m.minorUnits * Pow10(d.scale)
    ensures FromDecimal(round, ToDecimal(m), m.currency) == Ok(m) == FromDecimal(round, d, m.currency)
  {
    ExactUnits(p, round, m);
    var written := Decimal(false, m.minorUnits, Decimals(m.currency));
    EqualValuesEqualUnits(p, round, d, written, m.currency);
    ReducedHasSameValue(m.minorUnits, Decimals(m.currency));
    EqualValuesEqualUnits(p, round, ToDecimal(m), written, m.currency);
  }

  /** Whole amounts: in a currency with cents each is a hundred minor units, and each from 1 up to the currency's
      greatest is accepted; in RWF each is one, from 100 up. */
  lemma WholeAmounts(p: Precision, round: nat -> nat, n: nat, c: Currency)
    requires RoundsToNearest(p, round) && n < Pow10(p)
    ensures FromDecimal(round, Decimal(false, n, 0), c) ==
            if (if c == RWF then 100 else 1) <= n
               && n <= (match c case RWF => 10_000_000 case KES => 50_000 case NGN => 500_000 case _ => 10_000)
            then Ok(Money(if c == RWF then n else 100 * n, c)) else Invalid
  {
    ShortIsExact(p, round, n, c);
    assert Pow10(0) == 1;
  }

  /** An accepted amount keeps enough digits to tell its whole minor units. */
  lemma AcceptedIsPrecise(p: Precision, round: nat -> nat, x: nat, scale: nat)
    requires RoundsToNearest(p, round) && round(x) / Pow10(scale) < 100_000_000
    ensures x < Pow10(p + scale)
  {
    if x >= Pow10(p + scale) {
      EightDigits(p);
      Pow10Add(8, scale);
      Pow10Grows(8 + scale, p + scale);
      assert Pow10(8) == 100_000_000;
      KeepsMore(p, round, scale);
      SmallerQuotient(100_000_000 * Pow10(scale), round(x), Pow10(scale));
      QuotientIs(100_000_000 * Pow10(scale), Pow10(scale), 100_000_000, 0);
    }
  }

  lemma KeepsMore(p: Precision, round: nat -> nat, scale: nat)
    requires RoundsToNearest(p, round)
    ensures round(100_000_000 * Pow10(scale)) == 100_000_000 * Pow10(scale)
  {
    KeepsDigits(p, round, 1, 8 + scale);
    Pow10Add(8, scale);
    assert Pow10(8) == 100_000_000;
  }

  lemma WholePartFits(p: Precision, x: nat, scale: nat)
    requires x < Pow10(p + scale)
    ensures x / Pow10(scale) < Pow10(p) && Excess(p, x, 0) <= scale
  {
    Division(x, Pow10(scale));
    Pow10Add(p, scale);
    if x / Pow10(scale) >= Pow10(p) {
      MulMonotone(Pow10(p), x / Pow10(scale), Pow10(scale));
    }
    if Excess(p, x, 0) > scale {
      Pow10Grows(p + scale, p + Excess(p, x, 0) - 1);
    }
  }

  lemma FloorAtLeast(q: nat, d: nat, y: nat)
    requires d > 0 && q * d <= y
    ensures q <= y / d
  {
    Division(y, d);
    if y / d < q {
      MulMonotone(y / d + 1, q, d);
      Distribute(y / d, 1, d);
    }
  }

  /** Rounding never falls below the whole part. */
  lemma WholePartIsKept(p: Precision, round: nat -> nat, x: nat, scale: nat)
    requires RoundsToNearest(p, round) && x < Pow10(p + scale)
    ensures x / Pow10(scale) <= round(x) / Pow10(scale)
  {
    var d := Pow10(scale);
    var q := x / d;
    WholePartFits(p, x, scale);
    Division(x, d);
    KeepsDigits(p, round, q, scale);
    assert round(q * d) <= round(x);
    FloorAtLeast(q, d, round(x));
  }

  lemma NearQuotients(x: nat, y: nat, d: nat)
    requires d > 0 && x / d <= y / d && 2 * (y - x) <= d
    ensures x < (y / d + 1) * d && 2 * (y / d * d - x) <= d
    ensures y / d * d <= x <==> y < (x / d + 1) * d
  {
    Division(x, d);
    Division(y, d);
    Distribute(x / d, 1, d);
    Distribute(y / d, 1, d);
    MulMonotone(x / d, y / d, d);
    if y / d > x / d {
      MulMonotone(x / d + 1, y / d, d);
    }
  }

  lemma {:induction false} UnitsAreNear(p: Precision, round: nat -> nat, x: nat, scale: nat)
    requires RoundsToNearest(p, round) && round(x) / Pow10(scale) < 100_000_000
    ensures var units := round(x) / Pow10(scale);
            var one := Pow10(scale);
            && x < (units + 1) * one && 2 * (units * one - x) <= one
            && (units * one <= x <==> round(x) < (x / one + 1) * one)
  {
    AcceptedIsPrecise(p, round, x, scale);
    WholePartIsKept(p, round, x, scale);
    WholePartFits(p, x, scale);
    assert NearAt(p, round, x);
    Pow10Grows(Excess(p, x, 0), scale);
    NearQuotients(x, round(x), Pow10(scale));
  }

  lemma {:induction false} ShortNeverGains(p: Precision, round: nat -> nat, n: nat, scale: nat, c: Currency)
    requires RoundsToNearest(p, round) && n < Pow10(p)
    ensures Units(round, n, scale, c) * Pow10(scale) <= Shifted(n, c)
  {
    ShortIsExact(p, round, n, c);
    Division(Shifted(n, c), Pow10(scale));
  }

  /** An accepted amount loses less than one minor unit and gains at most half of one.  It gains nothing
      exactly when rounding to the context's digits stays below the next whole minor unit, and so always when
      its coefficient has no more digits than the context. */
  lemma RoundingDown(p: Precision, round: nat -> nat, d: Decimal, c: Currency)
    requires RoundsToNearest(p, round) && FromDecimal(round, d, c).Ok?
    ensures var units := FromDecimal(round, d, c).money.minorUnits;
            var x := Shifted(d.coefficient, c);
            var one := Pow10(d.scale);
            && x < (units + 1) * one && 2 * (units * one - x) <= one
            && (units * one <= x <==> round(x) < (x / one + 1) * one)
            && (d.coefficient < Pow10(p) ==> units * one <= x)
  {
    UnitsAreNear(p, round, Shifted(d.coefficient, c), d.scale);
    if d.coefficient < Pow10(p) {
      ShortNeverGains(p, round, d.coefficient, d.scale, c);
    }
  }

  /** Half to even rounds below a multiple of the unit exactly from more than half a unit away, or from half a
      unit when the multiple is odd. */
  lemma NearestBelow(x: nat, unit: nat, m: nat)
    requires unit > 0 && x < m * unit
    ensures Nearest(x, unit) < m * unit <==>
              2 * (m * unit - x) > unit || (2 * (m * unit - x) == unit && m % 2 == 1)
  {
    Division(x, unit);
    var q := x / unit;
    Distribute(q, 1, unit);
    if m <= q {
      MulMonotone(m, q, unit);
    } else if m >= q + 2 {
      MulMonotone(q + 2, m, unit);
      Distribute(q, 2, unit);
    } else {
      assert m == q + 1;
    }
  }

  lemma NextWholeIsMultiple(p: Precision, x: nat, scale: nat)
    requires Excess(p, x, 0) <= scale
    ensures var unit, one := Pow10(Excess(p, x, 0)), Pow10(scale);
            var m := (x / one + 1) * Pow10(scale - Excess(p, x, 0));
            x / one >= 0 && m >= 0 && m * unit == (x / one + 1) * one && x < m * unit && m * unit / unit == m
  {
    var k := Excess(p, x, 0);
    var q := x / Pow10(scale);
    QuotientIsNat(x, Pow10(scale));
    Pow10Add(scale - k, k);
    Associate(q + 1, Pow10(scale - k), Pow10(k));
    Division(x, Pow10(scale));
    Distribute(q, 1, Pow10(scale));
    var m := (q + 1) * Pow10(scale - k);
    MulMonotone(0, q + 1, Pow10(scale - k));
    QuotientIs(m * Pow10(k), Pow10(k), m, 0);
  }

  lemma HalfEvenStaysBelow(p: Precision, x: nat, scale: nat)
    requires Excess(p, x, 0) <= scale
    ensures var unit, one := Pow10(Excess(p, x, 0)), Pow10(scale);
            var next := (x / one + 1) * one;
            Rounded(p, x) < next <==> 2 * (next - x) > unit || (2 * (next - x) == unit && next / unit % 2 == 1)
  {
    NextWholeIsMultiple(p, x, scale);
    var unit, one := Pow10(Excess(p, x, 0)), Pow10(scale);
    NearestBelow(x, unit, (x / one + 1) * Pow10(scale - Excess(p, x, 0)));
  }

  /** With the standard rounding an accepted amount gains nothing exactly when the next whole minor unit is
      more than half a unit of the last digit away, or just half a unit and odd in such units: then, and only
      then, rounding down is what happens. */
  lemma HalfEvenGainsNothingExactlyWhen(p: Precision, d: Decimal, c: Currency)
    ensures var result := FromDecimal(n => Rounded(p, n), d, c);
            var x := Shifted(d.coefficient, c);
            var unit, one := Pow10(Excess(p, x, 0)), Pow10(d.scale);
            var next := (x / one + 1) * one;
            result.Ok? ==>
              (result.money.minorUnits * one <= x
               <==> 2 * (next - x) > unit || (2 * (next - x) == unit && next / unit % 2 == 1))
  {
    var round: nat -> nat := n => Rounded(p, n);
    var x := Shifted(d.coefficient, c);
    HalfEvenRoundsToNearest(p);
    if FromDecimal(round, d, c).Ok? {
      UnitsAreNear(p, round, x, d.scale);
      AcceptedIsPrecise(p, round, x, d.scale);
      WholePartFits(p, x, d.scale);
      HalfEvenStaysBelow(p, x, d.scale);
    }
  }

  /** With more digits than the context an amount can gain: whole minus a tiny fraction becomes whole, so that
      an amount just under the minimum is accepted as the minimum. */
  lemma LongAmountsRoundUp(p: Precision, whole: nat, scale: nat)
    requires MIN_MINOR <= whole <= MaxMinor(RWF) && Pow10(p + 1) < whole * Pow10(scale)
    ensures FromDecimal(n => Rounded(p, n), Decimal(false, whole * Pow10(scale) - 1, scale), RWF) == Ok(Money(whole, RWF))
  {
    var x: nat := whole * Pow10(scale) - 1;
    var k := Excess(p, x, 0);
    if k < 2 {
      Pow10Grows(p + k, p + 1);
    }
    if k > scale {
      Pow10Grows(p + scale, p + k - 1);
      Pow10Add(p, scale);
      EightDigits(p);
      MulMonotone(whole, Pow10(p), Pow10(scale));
    }
    Pow10Add(scale - k, k);
    Associate(whole, Pow10(scale - k), Pow10(k));
    var m := whole * Pow10(scale - k);
    Pow10Grows(2, k);
    assert Pow10(2) == 100;
    Distribute(m, 1, Pow10(k));
    QuotientIs(x, Pow10(k), m - 1, Pow10(k) - 1);
    QuotientIs(whole * Pow10(scale), Pow10(scale), whole, 0);
  }
}
