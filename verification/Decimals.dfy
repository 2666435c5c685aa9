/**
 The arithmetic of decimal.js with its default settings: results keep 20 significant digits, rounded
 half away from zero. A value is its coefficient times a power of ten.
 */
module Decimals {
  import opened Common

  const PRECISION: nat := 20

  datatype Decimal = Decimal(coefficient: int, exponent: int)

  function Abs(n: int): nat {
    if n < 0 then -n else n
  }

  function Pow10(n: nat): (p: nat)
    ensures p >= 1
  {
    if n == 0 then 1 else 10 * Pow10(n - 1)
  }

  /** Decimal digits of a number; 0 has one. */
  function Digits(n: nat): (d: nat)
    ensures d >= 1
  {
    if n < 10 then 1 else 1 + Digits(n / 10)
  }

  /** The integer nearest to n / d, ties away from zero. */
  function HalfUp(n: int, d: int): int
    requires d > 0
  {
    if n >= 0 then (2 * n + d) / (2 * d) else -((2 * -n + d) / (2 * d))
  }

  /** The result of an operation: all digits, or the first 20 of them, rounded. */
  function Rounded(d: Decimal): Decimal {
    var n := Digits(Abs(d.coefficient));
    if n <= PRECISION then d
    else Decimal(HalfUp(d.coefficient, Pow10(n - PRECISION)), d.exponent + n - PRECISION)
  }

  function Mul(a: Decimal, b: Decimal): Decimal {
    Rounded(Decimal(a.coefficient * b.coefficient, a.exponent + b.exponent))
  }

  function DivPow10(a: Decimal, n: nat): Decimal {
    Rounded(Decimal(a.coefficient, a.exponent - n))
  }

  /** toDecimalPlaces(0, ROUND_HALF_UP) and toFixed(0). */
  function ToInteger(d: Decimal): int {
    if d.exponent >= 0 then d.coefficient * Pow10(d.exponent) else HalfUp(d.coefficient, Pow10(-d.exponent))
  }

  lemma {:induction false} DigitsBound(n: nat, k: nat)
    requires k >= 1
    ensures Digits(n) <= k <==> n < Pow10(k)
    decreases k
  {
    if k == 1 {
      assert Pow10(1) == 10 * Pow10(0);
    } else if n >= 10 {
      DigitsBound(n / 10, k - 1);
    } else {
      assert Pow10(k - 1) >= 1;
    }
  }

  lemma FitsExactly(d: Decimal)
    requires Abs(d.coefficient) < Pow10(PRECISION)
    ensures Rounded(d) == d
  {
    DigitsBound(Abs(d.coefficient), PRECISION);
  }

  // ---- Rounding ---------------------------------------------------------------------------------

  lemma HalfUpNearest(n: int, d: int)
    requires d > 0
    ensures 2 * Abs(n - d * HalfUp(n, d)) <= d
  {
    var a := Abs(n);
    var q, r := (2 * a + d) / (2 * d), (2 * a + d) % (2 * d);
    assert 2 * a + d == 2 * d * q + r;
    assert HalfUp(n, d) == if n >= 0 then q else -q;
    if n >= 0 {
      assert 2 * (n - d * q) == r - d;
    } else {
      assert d * -q == -(d * q);
      assert 2 * (n - d * -q) == d - r;
    }
  }

  /** A tie goes away from zero. */
  lemma HalfUpTie(n: int, d: int)
    requires d > 0
    ensures 2 * Abs(n - d * HalfUp(n, d)) == d ==> Abs(d * HalfUp(n, d)) > Abs(n)
  {
    var a := Abs(n);
    var q := (2 * a + d) / (2 * d);
    assert HalfUp(n, d) == if n >= 0 then q else -q;
    hide HalfUp;
    RoundedMultiple(a, d, q);
    SignedMultiple(d, q);
  }

  lemma RoundedMultiple(a: nat, d: int, q: int)
    requires d > 0 && q == (2 * a + d) / (2 * d)
    ensures d * q >= 0 && (2 * Abs(a - d * q) == d ==> d * q > a)
  {
    var x, r := d * q, (2 * a + d) % (2 * d);
    assert 2 * a + d == 2 * x + r by {
      assert 2 * a + d == 2 * d * q + r && 2 * d * q == 2 * (d * q);
    }
    Monotone(0, q, d);
  }

  lemma SignedMultiple(d: int, q: int)
    ensures d * -q == -(d * q)
  {
  }

  /** Half-up rounding is the nearest integer, and of two nearest the one away from zero; nothing else is. */
  lemma HalfUpExactlyWhen(n: int, d: int, k: int)
    requires d > 0
    ensures k == HalfUp(n, d) <==> 2 * Abs(n - d * k) <= d && (2 * Abs(n - d * k) == d ==> Abs(d * k) > Abs(n))
  {
    HalfUpNearest(n, d);
    HalfUpTie(n, d);
    hide HalfUp;
    OneNearest(n, d, k, HalfUp(n, d));
  }

  lemma OneNearest(n: int, d: int, j: int, k: int)
    requires d > 0
    requires 2 * Abs(n - d * k) <= d && (2 * Abs(n - d * k) == d ==> Abs(d * k) > Abs(n))
    ensures 2 * Abs(n - d * j) <= d && (2 * Abs(n - d * j) == d ==> Abs(d * j) > Abs(n)) ==> j == k
  {
    var x, y := d * j, d * k;
    assert (j - k) * d == x - y;
    if 2 * Abs(n - x) <= d && (2 * Abs(n - x) == d ==> Abs(x) > Abs(n)) {
      if x - y == d {
        OneApart(j, k, d);
      } else if y - x == d {
        OneApart(k, j, d);
      }
      TwoNearest(n, d, x, y);
      SmallMultiple(j - k, d);
    }
  }

  lemma TwoNearest(n: int, d: int, x: int, y: int)
    requires d > 0
    requires 2 * Abs(n - x) <= d && (2 * Abs(n - x) == d ==> Abs(x) > Abs(n))
    requires 2 * Abs(n - y) <= d && (2 * Abs(n - y) == d ==> Abs(y) > Abs(n))
    requires x - y == d ==> y >= 0 || x <= 0
    requires y - x == d ==> x >= 0 || y <= 0
    ensures -d < x - y < d
  {
  }

  /** Neighbouring multiples do not lie on both sides of 0. */
  lemma OneApart(j: int, k: int, d: int)
    requires d > 0 && d * j - d * k == d
    ensures d * k >= 0 || d * j <= 0
  {
    assert (j - k - 1) * d == 0;
    SmallMultiple(j - k - 1, d);
    if k >= 0 {
      Monotone(0, k, d);
    } else {
      Monotone(j, 0, d);
    }
  }

  lemma DivScale(a: nat, b: int, k: int)
    requires b > 0 && k > 0
    ensures k * b > 0 && (k * a) / (k * b) == a / b
  {
    var q, r := a / b, a % b;
    assert k * a == k * b * q + k * r by {
      assert a == b * q + r;
    }
    assert 0 <= k * r < k * b by {
      assert k * r <= k * (b - 1);
    }
    QuotientUnique(k * a, k * b, q, k * r);
  }

  lemma Monotone(a: int, b: int, d: int)
    requires a <= b && d >= 0
    ensures a * d <= b * d
  {
  }

  lemma SmallMultiple(k: int, d: int)
    requires -d < k * d < d
    ensures k == 0
  {
    if k >= 1 {
      Monotone(1, k, d);
    } else if k <= -1 {
      Monotone(k, -1, d);
    }
  }

  lemma QuotientUnique(a: int, b: int, q: int, r: int)
    requires b > 0 && a == b * q + r && 0 <= r < b
    ensures a / b == q && a % b == r
  {
    var p := a / b;
    assert a == b * p + a % b;
    assert (q - p) * b == b * q - b * p;
    SmallMultiple(q - p, b);
  }

  /** Only the quotient matters, not how it is written. */
  lemma HalfUpScale(n: int, d: int, k: int)
    requires d > 0 && k > 0
    ensures k * d > 0 && HalfUp(k * n, k * d) == HalfUp(n, d)
  {
    var a := Abs(n);
    DivScale(2 * a + d, 2 * d, k);
    assert k * (2 * a + d) == 2 * (k * a) + k * d && k * (2 * d) == 2 * (k * d);
    assert n >= 0 ==> k * n == k * a;
    assert n < 0 ==> -(k * n) == k * a && k * n < 0;
  }

  lemma HalfUpExact(q: int, d: int)
    requires d > 0
    ensures HalfUp(q * d, d) == q
  {
    var h := HalfUp(q * d, d);
    HalfUpNearest(q * d, d);
    assert (q - h) * d == q * d - d * h;
    SmallMultiple(q - h, d);
  }

  // ---- Tax --------------------------------------------------------------------------------------

  /**
   calculateTax: amount times the rate in percent, divided by 100, rounded to an integer. The string
   form of a result of 10^21 or more has an exponent, which BigInt refuses.
   */
  function CalculateTax(amount: int, rate: Decimal): Option<int> {
    var tax := ToInteger(DivPow10(Mul(Decimal(amount, 0), rate), 2));
    if Abs(tax) < Pow10(21) then Some(tax) else None
  }

  /** A product of more than 20 digits loses its last `k` before the division rounds again. */
  function DroppedDigits(n: nat): nat {
    if Digits(n) <= PRECISION then 0 else Digits(n) - PRECISION
  }

  /** The part of `n` below `d` lies just under one half: rounding it to a multiple of `p` first reaches the half. */
  predicate JustUnderHalf(n: nat, d: int, p: int)
    requires d > 0
  {
    d - p <= 2 * (n % d) < d
  }

  /** The digits that the product loses lift it from just under one half. */
  predicate Lifts(product: int, scale: nat) {
    var k := DroppedDigits(Abs(product));
    0 < k < scale + 2 && JustUnderHalf(Abs(product), Pow10(scale + 2), Pow10(k))
  }

  /**
   calculateTax is the exact half-up rounding of amount times rate over 100, exactly when the product
   keeps all its digits, or the dropped ones do not lift it from just under one half. Products of up
   to 22 digits plus the rate's decimal places are covered.
   */
  lemma TaxExactlyWhen(amount: int, coefficient: int, scale: nat)
    requires Digits(Abs(amount * coefficient)) <= PRECISION + scale + 2
    ensures CalculateTax(amount, Decimal(coefficient, -(scale as int)))
            == Some(HalfUp(amount * coefficient, Pow10(scale + 2)))
            <==> !Lifts(amount * coefficient, scale)
  {
    var n := amount * coefficient;
    var k := DroppedDigits(Abs(n));
    if k == 0 {
      DigitsBound(Abs(n), PRECISION);
      TaxExact(amount, coefficient, scale);
    } else {
      TaxOfLongProduct(amount, coefficient, scale, k);
      LongExactlyWhen(n, scale, k);
    }
  }

  /** A long product is rounded twice: to 20 digits, and to an integer. */
  lemma TaxOfLongProduct(amount: int, coefficient: int, scale: nat, k: nat)
    requires k > 0 && Digits(Abs(amount * coefficient)) == PRECISION + k && k <= scale + 2
    ensures CalculateTax(amount, Decimal(coefficient, -(scale as int)))
         == Some(HalfUp(HalfUp(amount * coefficient, Pow10(k)), Pow10(scale + 2 - k)))
  {
    var n, e := amount * coefficient, scale + 2 - k;
    var c := HalfUp(n, Pow10(k));
    var product := Mul(Decimal(amount, 0), Decimal(coefficient, -(scale as int)));
    assert product == Decimal(c, k - scale);
    ShortAfterRounding(n, k);
    CarryKeepsValue(c, e);
    var tax := ToInteger(DivPow10(product, 2));
    assert tax == HalfUp(c, Pow10(e));
    HalfUpSmall(c, Pow10(e));
    assert Abs(tax) < Pow10(21) by {
      assert Pow10(21) == 10 * Pow10(20);
    }
  }

  lemma LongExactlyWhen(n: int, scale: nat, k: nat)
    requires 0 < k <= scale + 2
    ensures HalfUp(HalfUp(n, Pow10(k)), Pow10(scale + 2 - k)) == HalfUp(n, Pow10(scale + 2))
            <==> (k < scale + 2 ==> !JustUnderHalf(Abs(n), Pow10(scale + 2), Pow10(k)))
  {
    var e := scale + 2 - k;
    PowAdds(k, e);
    if e == 0 {
      assert HalfUp(n, Pow10(k)) * 1 == HalfUp(n, Pow10(k));
      HalfUpExact(HalfUp(n, Pow10(k)), 1);
    } else {
      SecondRounding(n, Pow10(k), Pow10(e - 1));
    }
  }

  /**
   Rounding twice is off by at most 11/20 of a unit: a half from the second rounding, and a twentieth
   from the first, which keeps one digit or more after the point.
   */
  lemma TwoRoundingsNear(n: int, p: int, q: int, c: int, t: int)
    requires p > 0 && q > 0 && (q == 1 || q >= 10)
    requires 2 * Abs(n - p * c) <= p && 2 * Abs(c - q * t) <= q && (q == 1 ==> c == t)
    ensures 20 * Abs(n - p * q * t) <= 11 * (p * q)
  {
    ScaledError(p, q, c - q * t);
    ErrorParts(n, p, q, c, t);
    if q == 1 {
      assert p * (c - q * t) == 0 && p * q == p;
    } else {
      Monotone(10, q, p);
      assert q * p == p * q;
    }
    hide Abs;
    ErrorSum(n - p * c, p * (c - q * t), p, p * q);
  }

  lemma ErrorParts(n: int, p: int, q: int, c: int, t: int)
    ensures n - p * q * t == (n - p * c) + p * (c - q * t)
  {
    assert p * (q * t) == p * q * t;
  }

  lemma ScaledError(p: int, q: int, x: int)
    requires p > 0 && 2 * Abs(x) <= q
    ensures 2 * Abs(p * x) <= p * q
  {
    AbsProduct(p, x);
    Monotone(2 * Abs(x), q, p);
    assert 2 * Abs(x) * p == 2 * (p * Abs(x));
    assert q * p == p * q;
  }

  lemma ErrorSum(a: int, b: int, p: int, d: int)
    requires 2 * Abs(a) <= p && 2 * Abs(b) <= d && (10 * p <= d || (b == 0 && p == d))
    ensures 20 * Abs(a + b) <= 11 * d
  {
  }

  /** The tax is within 11/20 of a unit of amount times rate over 100. */
  lemma TaxNear(amount: int, coefficient: int, scale: nat)
    requires Digits(Abs(amount * coefficient)) <= PRECISION + scale + 2
    ensures var tax := CalculateTax(amount, Decimal(coefficient, -(scale as int)));
            tax.Some? && 20 * Abs(amount * coefficient - Pow10(scale + 2) * tax.value) <= 11 * Pow10(scale + 2)
  {
    var n := amount * coefficient;
    var k := DroppedDigits(Abs(n));
    if k == 0 {
      DigitsBound(Abs(n), PRECISION);
      TaxExact(amount, coefficient, scale);
      HalfUpNearest(n, Pow10(scale + 2));
      hide CalculateTax, HalfUp, Pow10, Digits;
    } else {
      var e := scale + 2 - k;
      var c := HalfUp(n, Pow10(k));
      TaxOfLongProduct(amount, coefficient, scale, k);
      PowAdds(k, e);
      TenOrOne(e);
      HalfUpNearest(n, Pow10(k));
      HalfUpNearest(c, Pow10(e));
      HalfUpOfOne(c);
      hide CalculateTax, HalfUp, Pow10, Digits;
      TwoRoundingsNear(n, Pow10(k), Pow10(e), c, HalfUp(c, Pow10(e)));
    }
  }

  lemma TenOrOne(e: nat)
    ensures Pow10(e) == 1 || Pow10(e) >= 10
  {
  }

  lemma HalfUpOfOne(c: int)
    ensures HalfUp(c, 1) == c
  {
    assert c * 1 == c;
    HalfUpExact(c, 1);
  }

  /** Just under one half, only the integer below is within half a unit. */
  lemma OnlyNearest(n: int, d: int, t: int)
    requires d > 0 && 2 * (Abs(n) % d) < d && t != HalfUp(n, d)
    ensures 2 * Abs(n - d * t) > d
  {
    var h := HalfUp(n, d);
    LowRest(n, d);
    hide HalfUp;
    FarFromNearest(n, d, h, t);
  }

  lemma LowRest(n: int, d: int)
    requires d > 0 && 2 * (Abs(n) % d) < d
    ensures 2 * Abs(n - d * HalfUp(n, d)) < d
  {
    var q := Abs(n) / d;
    RemainderOfDouble(Abs(n), d);
    HalfUpOdd(n, d);
    hide HalfUp;
    assert Abs(n) == d * q + Abs(n) % d;
    assert d * -q == -(d * q);
  }

  lemma FarFromNearest(n: int, d: int, h: int, t: int)
    requires d > 0 && 2 * Abs(n - d * h) < d && t != h
    ensures 2 * Abs(n - d * t) > d
  {
    Distribute(d, h, t);
    var x, y := d * h, d * t;
    if 2 * Abs(n - y) <= d {
      assert Abs((h - t) * d) < d;
      SmallMultiple(h - t, d);
      assert false;
    }
  }

  /** It is within half a unit exactly when it is the exact half-up rounding. */
  lemma TaxWithinHalfExactlyWhen(amount: int, coefficient: int, scale: nat)
    requires Digits(Abs(amount * coefficient)) <= PRECISION + scale + 2
    ensures var tax := CalculateTax(amount, Decimal(coefficient, -(scale as int)));
            && tax.Some?
            && (2 * Abs(amount * coefficient - Pow10(scale + 2) * tax.value) <= Pow10(scale + 2)
                <==> !Lifts(amount * coefficient, scale))
  {
    var n := amount * coefficient;
    var tax := CalculateTax(amount, Decimal(coefficient, -(scale as int)));
    TaxNear(amount, coefficient, scale);
    TaxExactlyWhen(amount, coefficient, scale);
    HalfUpNearest(n, Pow10(scale + 2));
    hide CalculateTax, HalfUp, Pow10, Digits;
    if Lifts(n, scale) {
      OnlyNearest(n, Pow10(scale + 2), tax.value);
    }
  }

  lemma ShortAfterRounding(n: int, k: nat)
    requires k > 0 && Digits(Abs(n)) == PRECISION + k
    ensures Abs(HalfUp(n, Pow10(k))) <= Pow10(PRECISION)
  {
    hide Digits, Pow10, HalfUp;
    DigitsBound(Abs(n), PRECISION + k);
    PowAdds(PRECISION, k);
    RoundedAtMost(Abs(n), Pow10(k), Pow10(PRECISION));
    HalfUpOdd(n, Pow10(k));
    HalfUpNotNegative(Abs(n), Pow10(k));
  }

  lemma HalfUpOdd(n: int, d: int)
    requires d > 0
    ensures HalfUp(n, d) == if n >= 0 then HalfUp(Abs(n), d) else -HalfUp(Abs(n), d)
  {
  }

  lemma HalfUpNotNegative(n: nat, d: int)
    requires d > 0
    ensures HalfUp(n, d) >= 0
  {
  }

  lemma RoundedAtMost(n: nat, p: int, top: int)
    requires p > 0 && n < top * p
    ensures HalfUp(n, p) <= top
  {
    HalfUpNearest(n, p);
    hide HalfUp;
    var h := HalfUp(n, p);
    Distribute(p, h, top);
    assert (h - top) * p < p;
    if h > top {
      Monotone(1, h - top, p);
    }
  }

  lemma Distribute(d: int, i: int, j: int)
    ensures (i - j) * d == d * i - d * j
  {
  }

  /** A coefficient rounded up to 10^20 has 21 digits; rounding it again only rewrites it. */
  lemma CarryKeepsValue(c: int, e: nat)
    requires Abs(c) <= Pow10(PRECISION)
    ensures ToInteger(Rounded(Decimal(c, -(e as int)))) == HalfUp(c, Pow10(e))
  {
    NextPow10(PRECISION);
    NextPow10(PRECISION - 1);
    assert e == 0 ==> Pow10(e) == 1;
    hide Digits, Rounded, Pow10;
    DigitsBound(Abs(c), PRECISION);
    DigitsBound(Abs(c), PRECISION + 1);
    if Digits(Abs(c)) > PRECISION {
      Carry(c, e, Pow10(PRECISION - 1));
    } else {
      FitsExactly(Decimal(c, -(e as int)));
      if e == 0 {
        HalfUpExact(c, 1);
      }
    }
  }

  lemma Carry(c: int, e: nat, tenth: nat)
    requires Abs(c) == 10 * tenth && Digits(Abs(c)) == PRECISION + 1
    ensures ToInteger(Rounded(Decimal(c, -(e as int)))) == HalfUp(c, Pow10(e))
  {
    var q := if c > 0 then tenth else -(tenth as int);
    assert c == q * 10 == 10 * q;
    assert Pow10(0) == 1;
    PowOne();
    HalfUpExact(q, 10);
    hide Digits, Pow10, HalfUp;
    assert Rounded(Decimal(c, -(e as int))) == Decimal(q, 1 - e);
    if e == 0 {
      HalfUpExact(c, 1);
    } else if e > 1 {
      NextPow10(e - 1);
      HalfUpScale(q, Pow10(e - 1), 10);
    }
  }

  lemma DivDiv(x: nat, a: int, b: int)
    requires a > 0 && b > 0
    ensures a * b > 0 && (x / a) / b == x / (a * b)
  {
    var y, s := x / a, x % a;
    var q, r := y / b, y % b;
    ProductOfSum(a, b, q, r);
    RestFits(a, b, r, s);
    QuotientUnique(x, a * b, q, a * r + s);
  }

  lemma ProductOfSum(a: int, b: int, q: int, r: int)
    ensures a * (b * q + r) == a * b * q + a * r
  {
  }

  lemma RestFits(a: int, b: int, r: int, s: int)
    requires 0 <= r < b && 0 <= s < a
    ensures 0 <= a * r + s < a * b
  {
    Monotone(r, b - 1, a);
    Monotone(0, r, a);
    assert (b - 1) * a == a * b - a;
  }

  lemma DivPlus(x: nat, a: int, h: int)
    requires a > 0
    ensures x / a + h == (x + a * h) / a
  {
    assert x == a * (x / a) + x % a;
    assert x + a * h == a * (x / a + h) + x % a;
    QuotientUnique(x + a * h, a, x / a + h, x % a);
  }

  lemma HalfUpOfTwice(a: nat, h: int)
    requires h > 0
    ensures HalfUp(a, 2 * h) == (a + h) / (2 * h)
  {
    DivScale(a + h, 2 * h, 2);
    assert 2 * (a + h) == 2 * a + 2 * h && 2 * (2 * h) == 4 * h;
  }

  lemma TwiceProduct(p: int, h: int)
    requires p > 0 && h > 0
    ensures p * (2 * h) == 2 * (p * h) == 2 * p * h && 2 * p * (2 * h) == 2 * (p * (2 * h)) && p * (2 * h) > 0
  {
    Monotone(1, h, p);
  }

  /** Rounding to a multiple of `p`, then that to one of 10 * `t`, adds half of `p` before one division. */
  lemma TwoRoundings(n: nat, p: int, t: int)
    requires p > 0 && t > 0
    ensures var d := p * (10 * t);
            d > 0 && HalfUp(HalfUp(n, p), 10 * t) == (2 * n + p + d) / (2 * d)
  {
    var a, h := HalfUp(n, p), 5 * t;
    HalfUpNotNegative(n, p);
    HalfUpOfTwice(a, h);
    assert a == (2 * n + p) / (2 * p);
    assert 2 * h == 10 * t;
    hide HalfUp;
    TwiceProduct(p, h);
    DivPlus(2 * n + p, 2 * p, h);
    DivDiv(2 * n + p + 2 * p * h, 2 * p, 2 * h);
  }

  lemma RemainderOfDouble(n: nat, d: int)
    requires d > 0
    ensures (2 * n + d) / (2 * d) == n / d + (if 2 * (n % d) < d then 0 else 1)
    ensures (2 * n + d) % (2 * d) == 2 * (n % d) + (if 2 * (n % d) < d then d else -d)
  {
    var q, r := n / d, n % d;
    assert n == d * q + r;
    if 2 * r < d {
      assert 2 * n + d == 2 * d * q + (2 * r + d);
      QuotientUnique(2 * n + d, 2 * d, q, 2 * r + d);
    } else {
      assert 2 * d * (q + 1) == 2 * d * q + 2 * d;
      assert 2 * n + d == 2 * d * (q + 1) + (2 * r - d);
      QuotientUnique(2 * n + d, 2 * d, q + 1, 2 * r - d);
    }
  }

  lemma SecondRounding(n: int, p: int, t: int)
    requires p > 0 && t > 0
    ensures var d := p * (10 * t);
            d > 0 && (HalfUp(HalfUp(n, p), 10 * t) == HalfUp(n, d) <==> !JustUnderHalf(Abs(n), d, p))
  {
    SecondRoundingOfNat(Abs(n), p, t);
    OddTwice(n, p, 10 * t, p * (10 * t));
  }

  lemma OddTwice(n: int, p: int, u: int, d: int)
    requires p > 0 && u > 0 && d > 0
    ensures HalfUp(HalfUp(n, p), u) == HalfUp(n, d) <==> HalfUp(HalfUp(Abs(n), p), u) == HalfUp(Abs(n), d)
  {
    assert 0 * u == 0;
    HalfUpExact(0, u);
    hide HalfUp;
    HalfUpOdd(n, p);
    HalfUpOdd(n, d);
    HalfUpNotNegative(Abs(n), p);
    HalfUpOdd(HalfUp(n, p), u);
  }

  lemma SecondRoundingOfNat(n: nat, p: int, t: int)
    requires p > 0 && t > 0
    ensures var d := p * (10 * t);
            d > 0 && (HalfUp(HalfUp(n, p), 10 * t) == HalfUp(n, d) <==> !JustUnderHalf(n, d, p))
  {
    var d := p * (10 * t);
    TwoRoundings(n, p, t);
    Monotone(10, 10 * t, p);
    RemainderOfDouble(n, d);
    ShiftedQuotient(2 * n + d, p, 2 * d);
    assert 2 * n + p + d == 2 * n + d + p;
  }

  lemma ShiftedQuotient(m: nat, p: int, d: int)
    requires 0 < p < d
    ensures (m + p) / d == m / d <==> m % d + p < d
  {
    var q, r := m / d, m % d;
    assert m == d * q + r;
    if r + p < d {
      QuotientUnique(m + p, d, q, r + p);
    } else {
      assert d * (q + 1) == d * q + d;
      QuotientUnique(m + p, d, q + 1, r + p - d);
    }
  }

  /** The tax is exact: below 10^20 no step before the last one rounds. */
  lemma TaxExact(amount: int, coefficient: int, scale: nat)
    requires Abs(amount * coefficient) < Pow10(PRECISION)
    ensures CalculateTax(amount, Decimal(coefficient, -(scale as int)))
        == Some(HalfUp(amount * coefficient, Pow10(scale + 2)))
  {
    var n := amount * coefficient;
    HalfUpSmall(n, Pow10(scale + 2));
    NextPow10(PRECISION);
    hide HalfUp, Rounded, Pow10, Digits;
    FitsExactly(Decimal(n, -(scale as int)));
    FitsExactly(Decimal(n, -(scale as int) - 2));
    assert Mul(Decimal(amount, 0), Decimal(coefficient, -(scale as int))) == Decimal(n, -(scale as int));
    hide Mul, Abs;
  }

  lemma NextPow10(k: nat)
    ensures Pow10(k + 1) == 10 * Pow10(k)
  {
  }

  lemma AbsProduct(d: nat, h: int)
    ensures Abs(d * h) == d * Abs(h)
  {
    if h < 0 {
      assert d * -h == -(d * h);
      Monotone(0, -h, d);
    } else {
      Monotone(0, h, d);
    }
  }

  lemma SmallQuotient(a: nat, h: nat, d: nat)
    requires d > 0 && 2 * (d * h - a) <= d
    ensures h <= a + 1
  {
    if h >= 1 {
      assert d * (h - 1) == d * h - d;
      Monotone(1, d, h - 1);
    }
  }

  lemma HalfUpSmall(n: int, d: int)
    requires d > 0
    ensures Abs(HalfUp(n, d)) <= Abs(n) + 1
  {
    HalfUpNearest(n, d);
    hide HalfUp;
    var h := HalfUp(n, d);
    AbsProduct(d, h);
    SmallQuotient(Abs(n), Abs(h), d);
  }

  lemma TenToTwenty()
    ensures Pow10(2) == 100 && Pow10(20) == 100_000_000_000_000_000_000
    ensures Pow10(21) == 1_000_000_000_000_000_000_000
  {
    assert Pow10(5) == 100_000 by {
      assert Pow10(3) == 1000;
    }
    PowAdds(5, 5);
    PowAdds(10, 10);
  }

  /** Beyond the bound the tax can be wrong: 18% of this amount, which a BIGINT column holds, is one too high. */
  lemma LargeTaxIsInexact()
    ensures CalculateTax(5_555_555_555_555_555_586, Decimal(18, 0))
        != Some(HalfUp(5_555_555_555_555_555_586 * 18, Pow10(2)))
  {
    var n := 5_555_555_555_555_555_586 * 18;
    TenToTwenty();
    hide Pow10, HalfUp, Digits, CalculateTax;
    DigitsBound(n, 20);
    DigitsBound(n, 21);
    DigitsBound(n, 22);
    PowOne();
    TaxExactlyWhen(5_555_555_555_555_555_586, 18, 0);
    assert JustUnderHalf(n, 100, 10);
  }

  lemma PowOne()
    ensures Pow10(1) == 10
  {
    assert Pow10(0) == 1;
  }

  // ---- Minor and major units --------------------------------------------------------------------

  /** fromSmallestUnit, for a currency of `places` decimal places. */
  function FromSmallestUnit(amount: int, places: nat): Decimal {
    DivPow10(Decimal(amount, 0), places)
  }

  /** toSmallestUnit. */
  function ToSmallestUnit(amount: Decimal, places: nat): int {
    ToInteger(Mul(amount, Decimal(1, places)))
  }

  /** The digits of the amount after its 20th are all zero. */
  predicate TwentyDigits(amount: int) {
    var n := Digits(Abs(amount));
    n <= PRECISION || Abs(amount) % Pow10(n - PRECISION) == 0
  }

  lemma PowAdds(m: nat, n: nat)
    ensures Pow10(m + n) == Pow10(m) * Pow10(n)
  {
    if m > 0 {
      PowAdds(m - 1, n);
    }
  }

  lemma RoundTripShort(amount: int, places: nat)
    requires Digits(Abs(amount)) <= PRECISION
    ensures ToSmallestUnit(FromSmallestUnit(amount, places), places) == amount
  {
    assert FromSmallestUnit(amount, places) == Decimal(amount, -(places as int));
    assert Mul(Decimal(amount, -(places as int)), Decimal(1, places)) == Decimal(amount, 0);
  }

  lemma MultipleOfPower(c: int, e: nat, k: nat)
    requires k <= e
    ensures (c * Pow10(e)) % Pow10(k) == 0
  {
    PowAdds(e - k, k);
    ProductHasNoRest(c, Pow10(e - k), Pow10(k));
  }

  lemma ProductHasNoRest(c: int, a: int, b: int)
    requires b > 0
    ensures (c * (a * b)) % b == 0
  {
    assert c * (a * b) == (c * a) * b;
    MultipleHasNoRest(c * a, b);
  }

  lemma MultipleHasNoRest(m: int, d: int)
    requires d > 0
    ensures (m * d) % d == 0
  {
    assert m * d == d * m + 0;
    QuotientUnique(m * d, d, m, 0);
  }

  lemma RoundTripLong(amount: int, places: nat)
    requires Digits(Abs(amount)) > PRECISION
    ensures ToSmallestUnit(FromSmallestUnit(amount, places), places) == amount <==> TwentyDigits(amount)
  {
    var k := Digits(Abs(amount)) - PRECISION;
    var p := Pow10(k);
    var c := HalfUp(amount, p);
    var major := FromSmallestUnit(amount, places);
    assert major == Decimal(c, k - places);
    var product := Mul(major, Decimal(1, places));
    var back := ToSmallestUnit(major, places);
    assert product == Rounded(Decimal(c, k));
    assert product.exponent >= k && back == product.coefficient * Pow10(product.exponent);
    MultipleOfPower(product.coefficient, product.exponent, k);
    if TwentyDigits(amount) {
      LongExact(amount, k);
      assert product == Decimal(c, k);
    } else {
      NegatedRest(back, p);
      NegatedRest(amount, p);
    }
  }

  lemma NegatedRest(n: int, d: int)
    requires d > 0
    ensures n % d == 0 <==> Abs(n) % d == 0
  {
    if n < 0 {
      if n % d == 0 {
        assert -n == -(n / d) * d;
        MultipleHasNoRest(-(n / d), d);
      }
      if -n % d == 0 {
        assert n == -(-n / d) * d;
        MultipleHasNoRest(-(-n / d), d);
      }
    }
  }

  /** A long amount with 20 significant digits is its first 20 digits and zeros. */
  lemma LongExact(amount: int, k: nat)
    requires Digits(Abs(amount)) == PRECISION + k && k > 0 && Abs(amount) % Pow10(k) == 0
    ensures var c := HalfUp(amount, Pow10(k));
            c * Pow10(k) == amount && Digits(Abs(c)) <= PRECISION
  {
    var p, ten := Pow10(k), Pow10(PRECISION);
    DigitsBound(Abs(amount), PRECISION + k);
    PowAdds(PRECISION, k);
    var q := FirstDigits(amount, p, ten);
    DigitsBound(Abs(q), PRECISION);
  }

  lemma FirstDigits(amount: int, p: int, bound: int) returns (q: int)
    requires p > 0 && Abs(amount) % p == 0 && Abs(amount) < bound * p
    ensures q == HalfUp(amount, p) && q * p == amount && Abs(q) < bound
  {
    NegatedRest(amount, p);
    q := amount / p;
    assert amount == q * p;
    HalfUpExact(q, p);
    TopDigits(q, p, bound);
  }

  lemma TopDigits(q: int, p: int, bound: int)
    requires p > 0 && Abs(q * p) < bound * p
    ensures Abs(q) < bound
  {
    if q >= bound {
      Monotone(bound, q, p);
    } else if -q >= bound {
      Monotone(bound, -q, p);
      assert -q * p == -(q * p);
    }
  }

  /**
   Converting minor to major units and back is the identity exactly on the amounts of 20 significant
   digits, so on every amount below 10^20.
   */
  lemma RoundTripExactlyWhen(amount: int, places: nat)
    ensures ToSmallestUnit(FromSmallestUnit(amount, places), places) == amount <==> TwentyDigits(amount)
    ensures Abs(amount) < Pow10(PRECISION) ==> TwentyDigits(amount)
  {
    DigitsBound(Abs(amount), PRECISION);
    if Digits(Abs(amount)) <= PRECISION {
      RoundTripShort(amount, places);
    } else {
      RoundTripLong(amount, places);
    }
  }

  /** Up to 20 digits, minor to major divides by the power exactly, and major to minor multiplies and rounds half up. */
  lemma UnitsExactly(amount: int, scale: nat, places: nat)
    requires Abs(amount) < Pow10(PRECISION)
    ensures FromSmallestUnit(amount, places) == Decimal(amount, -(places as int))
    ensures ToSmallestUnit(Decimal(amount, -(scale as int)), places) == HalfUp(amount * Pow10(places), Pow10(scale))
  {
    MinorUnits(amount, places);
    MajorUnits(amount, scale, places);
    ScaledUnits(amount, scale, places);
    hide *;
  }

  lemma MinorUnits(amount: int, places: nat)
    requires Abs(amount) < Pow10(PRECISION)
    ensures FromSmallestUnit(amount, places) == Decimal(amount, -(places as int))
  {
    FitsExactly(Decimal(amount, -(places as int)));
    hide Rounded, Pow10;
  }

  lemma MajorUnits(amount: int, scale: nat, places: nat)
    requires Abs(amount) < Pow10(PRECISION)
    ensures ToSmallestUnit(Decimal(amount, -(scale as int)), places)
         == if scale <= places then amount * Pow10(places - scale) else HalfUp(amount, Pow10(scale - places))
  {
    assert amount * 1 == amount;
    FitsExactly(Decimal(amount, places - scale));
    hide HalfUp, Rounded, Pow10;
  }

  lemma ScaledUnits(amount: int, scale: nat, places: nat)
    ensures HalfUp(amount * Pow10(places), Pow10(scale))
         == if scale <= places then amount * Pow10(places - scale) else HalfUp(amount, Pow10(scale - places))
  {
    hide HalfUp, Pow10;
    if scale <= places {
      PowAdds(scale, places - scale);
      var p, q := Pow10(scale), Pow10(places - scale);
      Regroup(amount, p, q);
      HalfUpExact(amount * q, p);
    } else {
      PowAdds(places, scale - places);
      HalfUpScale(amount, Pow10(scale - places), Pow10(places));
      Regroup(amount, Pow10(places), 1);
    }
  }

  lemma Regroup(a: int, p: int, q: int)
    ensures a * (p * q) == a * q * p && a * p == p * a
  {
  }
}
