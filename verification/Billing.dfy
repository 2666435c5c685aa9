/** Invoice lines, GST and invoice totals (src/modules/billing/billing.service.ts). */
module Billing {
  import opened Common
  import opened Decimals

  /** A GST rate in percent: its digits over a power of ten, as in 12.5 = 125 / 10^1. */
  datatype Gst = Gst(interState: bool, digits: int, places: nat)

  datatype Item = Item(quantity: int, unitAmount: int, gst: Option<Gst>)

  datatype Line = Line(amount: int, cgst: Option<int>, sgst: Option<int>, igst: Option<int>, totalTax: int)

  function Amount(item: Item): int {
    item.quantity * item.unitAmount
  }

  predicate Taxed(item: Item) {
    item.gst.Some? && item.gst.value.digits > 0
  }

  function Rate(g: Gst): Decimal {
    Decimal(g.digits, -(g.places as int))
  }

  /** Half of the rate, in lowest terms, as the shortest decimal of the halved number is. */
  function HalfRate(g: Gst): Decimal {
    if g.digits % 2 == 0 then Decimal(g.digits / 2, -(g.places as int))
      else Decimal(5 * g.digits, -(g.places as int) - 1)
  }

  /** The rate that each calculateTax call of the line uses. */
  function UsedRate(g: Gst): Decimal {
    if g.interState then Rate(g) else HalfRate(g)
  }

  /** calculateItem; None where BigInt refuses a tax. */
  function CalculateItem(item: Item): Option<Line> {
    var amount := Amount(item);
    if !Taxed(item) then Some(Line(amount, None, None, None, 0))
    else if item.gst.value.interState then
      match CalculateTax(amount, Rate(item.gst.value))
      case None => None
      case Some(igst) => Some(Line(amount, None, None, Some(igst), igst))
    else
      match CalculateTax(amount, HalfRate(item.gst.value))
      case None => None
      case Some(half) => Some(Line(amount, Some(half), Some(half), None, half + half))
  }

  function CalculateItems(items: seq<Item>): Option<seq<Line>> {
    if items == [] then Some([])
    else
      match CalculateItems(items[..|items| - 1])
      case None => None
      case Some(lines) =>
        match CalculateItem(items[|items| - 1])
        case None => None
        case Some(line) => Some(lines + [line])
  }

  function Subtotal(lines: seq<Line>): int {
    if lines == [] then 0 else Subtotal(lines[..|lines| - 1]) + lines[|lines| - 1].amount
  }

  function TaxTotal(lines: seq<Line>): int {
    if lines == [] then 0 else TaxTotal(lines[..|lines| - 1]) + lines[|lines| - 1].totalTax
  }

  function OrZero(n: Option<int>): int {
    if n.Some? then n.value else 0
  }

  /** The CGST, SGST and IGST amounts that the invoice's items store. */
  function StoredTaxes(lines: seq<Line>): int {
    if lines == [] then 0
    else
      var l := lines[|lines| - 1];
      StoredTaxes(lines[..|lines| - 1]) + OrZero(l.cgst) + OrZero(l.sgst) + OrZero(l.igst)
  }

  // ---- One line ---------------------------------------------------------------------------------

  /** The tax in units, as a fraction: numerator over denominator. */
  function Numerator(item: Item): int
    requires Taxed(item)
  {
    item.quantity * item.unitAmount * item.gst.value.digits
  }

  function Denominator(item: Item): (d: int)
    requires Taxed(item)
    ensures d >= 1
  {
    Pow10(item.gst.value.places + 2)
  }

  /** The product has at most 22 digits before the rate's decimal places: a tax below 10^20. */
  predicate InRange(item: Item) {
    Taxed(item) ==> Digits(Abs(Numerator(item))) <= PRECISION + item.gst.value.places + 2
  }

  /** Every line that the tables can hold is in range: amounts are BIGINT, rates DECIMAL(5,2). */
  lemma ColumnsAreInRange(item: Item)
    requires Abs(item.quantity * item.unitAmount) <= 9_223_372_036_854_775_808
    requires Taxed(item) ==> item.gst.value.digits < Pow10(item.gst.value.places + 3)
    ensures InRange(item)
  {
    if Taxed(item) {
      var g := item.gst.value;
      PowAdds(19, g.places + 3);
      TenToNineteen();
      hide Pow10, Digits;
      ProductBelow(Amount(item), g.digits, Pow10(19), Pow10(g.places + 3));
      DigitsBound(Abs(Numerator(item)), PRECISION + g.places + 2);
    }
  }

  lemma TenToNineteen()
    ensures Pow10(19) == 10_000_000_000_000_000_000
  {
    TenToTwenty();
    NextPow10(19);
    hide Pow10;
  }

  lemma ProductBelow(a: int, b: int, x: int, y: int)
    requires Abs(a) < x && 0 < b < y
    ensures Abs(a * b) < x * y
  {
    AbsProduct(b, a);
    assert b * a == a * b;
    Monotone(Abs(a), x, b);
    Monotone(b, y, x);
    assert x * b == b * x && y * x == x * y && Abs(a) * b == b * Abs(a);
  }

  /** The product of one calculateTax call, and its decimal places. */
  function UsedProduct(item: Item): int
    requires Taxed(item)
  {
    Amount(item) * UsedRate(item.gst.value).coefficient
  }

  function UsedPlaces(item: Item): (places: nat)
    requires Taxed(item)
    ensures UsedRate(item.gst.value) == Decimal(UsedRate(item.gst.value).coefficient, -(places as int))
  {
    -UsedRate(item.gst.value).exponent
  }

  /** The rounding to 20 digits lifts the line's tax from just under one half. */
  predicate Lifted(item: Item) {
    Taxed(item) && Lifts(UsedProduct(item), UsedPlaces(item))
  }

  lemma MoreDigits(m: nat, n: nat, k: nat)
    requires Digits(n) <= k && m <= 10 * n
    ensures Digits(m) <= k + 1
    ensures m <= n ==> Digits(m) <= k
  {
    DigitsBound(n, k);
    DigitsBound(m, k);
    DigitsBound(m, k + 1);
    NextPow10(k);
    hide Digits, Pow10;
  }

  lemma HalvedProduct(amount: int, digits: int)
    ensures digits % 2 == 0 ==> amount * digits == 2 * (amount * (digits / 2))
    ensures amount * (5 * digits) == 5 * (amount * digits)
  {
    if digits % 2 == 0 {
      var half := digits / 2;
      assert amount * (2 * half) == 2 * (amount * half);
    }
  }

  /** How the call's fraction relates to the line's: the same, or half of it in lowest terms. */
  lemma UsedFraction(item: Item)
    requires Taxed(item)
    ensures var (n, d) := (Numerator(item), Denominator(item));
            var (u, v) := (UsedProduct(item), Pow10(UsedPlaces(item) + 2));
            if item.gst.value.interState then u == n && v == d
            else if item.gst.value.digits % 2 == 0 then n == 2 * u && v == d
            else u == 5 * n && v == 10 * d
    ensures InRange(item) ==> Digits(Abs(UsedProduct(item))) <= PRECISION + UsedPlaces(item) + 2
  {
    var g := item.gst.value;
    HalvedProduct(Amount(item), g.digits);
    NextPow10(g.places + 2);
    hide Digits, Pow10, Amount;
    if InRange(item) {
      MoreDigits(Abs(UsedProduct(item)), Abs(Numerator(item)), PRECISION + g.places + 2);
    }
  }

  /** One calculateTax call of the line. */
  function UsedTax(item: Item): Option<int>
    requires Taxed(item)
  {
    CalculateTax(Amount(item), UsedRate(item.gst.value))
  }

  lemma LineIsUsedTax(item: Item)
    requires Taxed(item)
    ensures CalculateItem(item).Some? <==> UsedTax(item).Some?
    ensures UsedTax(item).Some? ==>
              CalculateItem(item).value.totalTax
                == (if item.gst.value.interState then UsedTax(item).value else 2 * UsedTax(item).value)
  {
    hide CalculateTax;
  }

  /** Twice the error that exact rounding allows: one unit if inter-state, two if intra-state, over the denominator. */
  function Allowed(item: Item): int
    requires Taxed(item)
  {
    if item.gst.value.interState then Denominator(item) else 2 * Denominator(item)
  }

  /** The line's distance from its fraction, in terms of the call's. */
  lemma LineDistance(n: int, d: int, u: int, v: int, t: int)
    ensures n == 2 * u && v == d ==> n - d * (2 * t) == 2 * (u - v * t)
    ensures u == 5 * n && v == 10 * d ==> u - v * t == 5 * (n - d * (2 * t))
  {
    assert d * (2 * t) == 2 * (d * t) && 10 * d * t == 10 * (d * t);
  }

  /** The call's error `e`, over `v`, scaled to the line's error `f`, over `d`. */
  lemma ScaledToLine(f: int, d: int, e: int, v: int, interState: bool, even: bool)
    requires if interState then e == f && v == d else if even then f == 2 * e && v == d else e == 5 * f && v == 10 * d
    ensures var allowed := if interState then d else 2 * d;
            && (2 * Abs(f) <= allowed <==> 2 * Abs(e) <= v)
            && (20 * Abs(f) <= 11 * allowed <==> 20 * Abs(e) <= 11 * v)
  {
  }

  lemma UsedTaxExactlyWhen(item: Item)
    requires Taxed(item) && InRange(item)
    ensures UsedTax(item).Some?
    ensures var u, v, t := UsedProduct(item), Pow10(UsedPlaces(item) + 2), UsedTax(item).value;
            && 20 * Abs(u - v * t) <= 11 * v
            && (2 * Abs(u - v * t) <= v <==> !Lifted(item))
            && (t == HalfUp(u, v) <==> !Lifted(item))
  {
    assert item.gst.Some?;
    hide *;
    UsedFraction(item);
    UsedTaxIs(item);
    TaxErrors(Amount(item), UsedRate(item.gst.value).coefficient, UsedPlaces(item), UsedProduct(item));
  }

  lemma TaxErrors(amount: int, coefficient: int, scale: nat, u: int)
    requires u == amount * coefficient && Digits(Abs(u)) <= PRECISION + scale + 2
    ensures var tax, v := CalculateTax(amount, Decimal(coefficient, -(scale as int))), Pow10(scale + 2);
            && tax.Some? && 20 * Abs(u - v * tax.value) <= 11 * v
            && (2 * Abs(u - v * tax.value) <= v <==> !Lifts(u, scale))
            && (tax.value == HalfUp(u, v) <==> !Lifts(u, scale))
  {
    hide *;
    TaxNear(amount, coefficient, scale);
    TaxWithinHalfExactlyWhen(amount, coefficient, scale);
    TaxExactlyWhen(amount, coefficient, scale);
  }

  lemma UsedTaxIs(item: Item)
    requires Taxed(item)
    ensures var coefficient := UsedRate(item.gst.value).coefficient;
            && UsedTax(item) == CalculateTax(Amount(item), Decimal(coefficient, -(UsedPlaces(item) as int)))
            && UsedProduct(item) == Amount(item) * coefficient
            && (Lifted(item) <==> Lifts(UsedProduct(item), UsedPlaces(item)))
  {
    hide CalculateTax, Lifts, Amount, UsedRate;
  }

  lemma AllowedIs(item: Item)
    requires Taxed(item)
    ensures Allowed(item) == if item.gst.value.interState then Denominator(item) else 2 * Denominator(item)
  {
  }

  /**
   The line's tax is within half a unit of the exact tax if inter-state, within one unit if
   intra-state, exactly when no rounding lifts it; lifted, it is within eleven tenths of that.
   */
  lemma LineWithinExactlyWhen(item: Item)
    requires Taxed(item) && InRange(item)
    ensures CalculateItem(item).Some?
    ensures var off := Abs(Numerator(item) - Denominator(item) * CalculateItem(item).value.totalTax);
            (2 * off <= Allowed(item) <==> !Lifted(item)) && 20 * off <= 11 * Allowed(item)
  {
    assert item.gst.Some?;
    hide *;
    UsedFraction(item);
    LineIsUsedTax(item);
    UsedTaxExactlyWhen(item);
    AllowedIs(item);
    var even := item.gst.value.digits % 2 == 0;
    var n, d := Numerator(item), Denominator(item);
    var u, v, t := UsedProduct(item), Pow10(UsedPlaces(item) + 2), UsedTax(item).value;
    LineDistance(n, d, u, v, t);
    ScaledToLine(n - d * CalculateItem(item).value.totalTax, d, u - v * t, v, item.gst.value.interState, even);
  }

  lemma HalvedRounding(n: int, d: int, u: int, v: int, even: bool)
    requires d > 0 && (if even then n == 2 * u && v == d else u == 5 * n && v == 10 * d)
    ensures HalfUp(u, v) == HalfUp(n, 2 * d)
  {
    if even {
      HalfUpScale(u, d, 2);
    } else {
      HalfUpScale(n, 2 * d, 5);
    }
  }

  /**
   Both kinds of tax are half-up roundings of one fraction, whole for inter-state and halved for
   intra-state, exactly when no rounding lifts them.
   */
  lemma LineTaxExactlyWhen(item: Item)
    requires Taxed(item) && InRange(item)
    ensures CalculateItem(item).Some?
    ensures CalculateItem(item).value.totalTax ==
            (if item.gst.value.interState then HalfUp(Numerator(item), Denominator(item))
             else 2 * HalfUp(Numerator(item), 2 * Denominator(item)))
            <==> !Lifted(item)
  {
    assert item.gst.Some?;
    hide *;
    UsedFraction(item);
    LineIsUsedTax(item);
    UsedTaxExactlyWhen(item);
    if !item.gst.value.interState {
      HalvedRounding(Numerator(item), Denominator(item), UsedProduct(item), Pow10(UsedPlaces(item) + 2),
                     item.gst.value.digits % 2 == 0);
    }
  }

  lemma BelowTwo(k: int, d: int, m: int)
    requires d > 0 && m == k * d && -2 * d < m < 2 * d
    ensures -1 <= k <= 1
  {
    if k >= 2 {
      Monotone(2, k, d);
    } else if k <= -2 {
      Monotone(k, -2, d);
    }
  }

  /** 11/20 of a unit and twice that are less than two units. */
  lemma GapBelowTwo(n: int, d: int, i: int, j: int)
    requires d > 0 && 20 * Abs(n - d * i) <= 11 * d && 20 * Abs(n - d * j) <= 22 * d
    ensures Abs(i - j) <= 1
  {
    var x, y := d * i, d * j;
    Distribute(d, i, j);
    BelowTwo(i - j, d, x - y);
  }

  /** The same line taxed the other way: intra-state instead of inter-state, or back. */
  function Flipped(item: Item): Item {
    if item.gst.None? then item else item.(gst := Some(item.gst.value.(interState := !item.gst.value.interState)))
  }

  /** A line in range taxed the other way differs by at most one unit, however its product is rounded. */
  lemma LinesDiffer(item: Item)
    requires InRange(item)
    ensures CalculateItem(item).Some? && CalculateItem(Flipped(item)).Some?
    ensures Abs(CalculateItem(item).value.totalTax - CalculateItem(Flipped(item)).value.totalTax)
        <= (if Taxed(item) then 1 else 0)
  {
    if Taxed(item) {
      var other := Flipped(item);
      assert Numerator(other) == Numerator(item) && Denominator(other) == Denominator(item) && InRange(other);
      hide CalculateItem, Numerator, Denominator, Lifted;
      LineWithinExactlyWhen(item);
      LineWithinExactlyWhen(other);
      var n, d := Numerator(item), Denominator(item);
      var tax, otherTax := CalculateItem(item).value.totalTax, CalculateItem(other).value.totalTax;
      if item.gst.value.interState {
        GapBelowTwo(n, d, tax, otherTax);
      } else {
        GapBelowTwo(n, d, otherTax, tax);
      }
    }
  }

  // ---- What is stored ---------------------------------------------------------------------------

  /** The line charges quantity times unit amount, and stores the tax of one kind: IGST, or two equal halves. */
  predicate Charges(item: Item, l: Line) {
    && l.amount == item.quantity * item.unitAmount
    && (item.gst.None? || item.gst.value.digits <= 0 ==>
          l.cgst.None? && l.sgst.None? && l.igst.None? && l.totalTax == 0)
    && (item.gst.Some? && item.gst.value.digits > 0 && item.gst.value.interState ==>
          l.cgst.None? && l.sgst.None? && l.igst == Some(l.totalTax))
    && (item.gst.Some? && item.gst.value.digits > 0 && !item.gst.value.interState ==>
          l.igst.None? && l.cgst.Some? && l.cgst == l.sgst && l.totalTax == l.cgst.value + l.sgst.value)
  }

  /** The sum of quantity times unit amount. */
  function ChargeTotal(items: seq<Item>): int {
    if items == [] then 0
    else
      var item := items[|items| - 1];
      ChargeTotal(items[..|items| - 1]) + item.quantity * item.unitAmount
  }

  /** The stored lines follow the items, in order, and their amounts add up to the charges. */
  lemma {:induction false} LinesChargeItems(items: seq<Item>)
    requires CalculateItems(items).Some?
    ensures var lines := CalculateItems(items).value;
            && |lines| == |items|
            && (forall i :: 0 <= i < |items| ==> Charges(items[i], lines[i]))
            && Subtotal(lines) == ChargeTotal(items)
  {
    hide CalculateItem, Charges;
    if items != [] {
      var n := |items| - 1;
      LinesChargeItems(items[..n]);
      assert CalculateItems(items).value[..n] == CalculateItems(items[..n]).value;
      LineChargesItem(items[n]);
      LineAmount(items[n], CalculateItems(items).value[n]);
    }
  }

  lemma LineChargesItem(item: Item)
    requires CalculateItem(item).Some?
    ensures Charges(item, CalculateItem(item).value)
  {
    hide CalculateTax;
  }

  lemma LineAmount(item: Item, l: Line)
    requires Charges(item, l)
    ensures l.amount == item.quantity * item.unitAmount
  {
  }

  // ---- Whole invoices ---------------------------------------------------------------------------

  lemma {:induction false} StoredTaxesAddUp(items: seq<Item>)
    requires CalculateItems(items).Some?
    ensures StoredTaxes(CalculateItems(items).value) == TaxTotal(CalculateItems(items).value)
    ensures |CalculateItems(items).value| == |items|
  {
    if items != [] {
      var n := |items| - 1;
      StoredTaxesAddUp(items[..n]);
      var lines := CalculateItems(items[..n]).value;
      assert CalculateItems(items).value[..n] == lines;
    }
  }

  /** The exact tax of a line, in units. */
  function ExactTax(item: Item): real {
    if Taxed(item) then Numerator(item) as real / Denominator(item) as real else 0.0
  }

  function ExactTaxTotal(items: seq<Item>): real {
    if items == [] then 0.0 else ExactTaxTotal(items[..|items| - 1]) + ExactTax(items[|items| - 1])
  }

  function AbsReal(x: real): real {
    if x < 0.0 then -x else x
  }

  /** A line may be off by half a unit if inter-state, by one if intra-state, and by a tenth more of that if it
      is lifted. */
  function Tolerance(item: Item): real {
    if !Taxed(item) then 0.0
    else (if item.gst.value.interState then 0.5 else 1.0) * (if Lifted(item) then 1.1 else 1.0)
  }

  function ToleranceTotal(items: seq<Item>): real {
    if items == [] then 0.0 else ToleranceTotal(items[..|items| - 1]) + Tolerance(items[|items| - 1])
  }

  lemma NoItems()
    ensures CalculateItems([]) == Some([]) && TaxTotal([]) == 0 && CountTaxed([]) == 0
    ensures FlippedAll([]) == []
    ensures ExactTaxTotal([]) == ToleranceTotal([]) == 0.0 && AbsReal(0.0) == 0.0 && Abs(0) == 0
  {
  }

  ghost predicate AllInRange(items: seq<Item>) {
    forall i :: 0 <= i < |items| ==> InRange(items[i])
  }

  lemma AllInRangeLast(items: seq<Item>)
    requires items != [] && AllInRange(items)
    ensures AllInRange(items[..|items| - 1]) && InRange(items[|items| - 1])
  {
    hide InRange;
  }

  function FlippedAll(items: seq<Item>): (r: seq<Item>)
    ensures |r| == |items|
  {
    seq(|items|, i requires 0 <= i < |items| => Flipped(items[i]))
  }

  function CountTaxed(items: seq<Item>): nat {
    if items == [] then 0 else CountTaxed(items[..|items| - 1]) + (if Taxed(items[|items| - 1]) then 1 else 0)
  }

  /** An invoice calculates when each line does; the last line adds its tax to that of the lines before it. */
  lemma LastLine(items: seq<Item>)
    requires items != []
    ensures CalculateItems(items).Some? <==>
            CalculateItems(items[..|items| - 1]).Some? && CalculateItem(items[|items| - 1]).Some?
    ensures CalculateItems(items).Some? ==>
              TaxTotal(CalculateItems(items).value) ==
              TaxTotal(CalculateItems(items[..|items| - 1]).value) + CalculateItem(items[|items| - 1]).value.totalTax
  {
    hide CalculateItem;
    if CalculateItems(items).Some? {
      var lines, line := CalculateItems(items[..|items| - 1]).value, CalculateItem(items[|items| - 1]).value;
      assert CalculateItems(items).value == lines + [line];
      assert (lines + [line])[..|lines|] == lines;
    }
  }

  lemma FlippedLast(items: seq<Item>)
    requires items != []
    ensures FlippedAll(items)[..|items| - 1] == FlippedAll(items[..|items| - 1])
    ensures FlippedAll(items)[|items| - 1] == Flipped(items[|items| - 1])
  {
  }

  lemma LastCounted(items: seq<Item>)
    requires items != []
    ensures CountTaxed(items) == CountTaxed(items[..|items| - 1]) + (if Taxed(items[|items| - 1]) then 1 else 0)
  {
  }

  lemma DifferenceAdds(a: int, b: int, x: int, y: int)
    ensures Abs((a + x) - (b + y)) <= Abs(a - b) + Abs(x - y)
  {
  }

  /** Taxing every line the other way moves the invoice by at most one unit per taxed line. */
  lemma {:induction false} IntraInterDiffer(items: seq<Item>)
    requires AllInRange(items)
    ensures CalculateItems(items).Some? && CalculateItems(FlippedAll(items)).Some?
    ensures Abs(TaxTotal(CalculateItems(items).value) - TaxTotal(CalculateItems(FlippedAll(items)).value))
        <= CountTaxed(items) <= |items|
  {
    hide *;
    if items == [] {
      NoItems();
    } else {
      var n := |items| - 1;
      FlippedLast(items);
      LastCounted(items);
      AllInRangeLast(items);
      IntraInterDiffer(items[..n]);
      LinesDiffer(items[n]);
      LastLine(items);
      LastLine(FlippedAll(items));
      assert CalculateItems(items).Some? && CalculateItems(FlippedAll(items)).Some?;
      DifferenceAdds(TaxTotal(CalculateItems(items[..n]).value), TaxTotal(CalculateItems(FlippedAll(items[..n])).value),
                     CalculateItem(items[n]).value.totalTax, CalculateItem(Flipped(items[n])).value.totalTax);
    }
  }

  lemma ErrorAsReal(n: int, d: int, tax: int, bound: int)
    requires d > 0
    ensures AbsReal(tax as real - n as real / d as real) <= bound as real / 20.0 <==> 20 * Abs(n - d * tax) <= bound * d
  {
    var x := n as real / d as real;
    assert x * d as real == n as real;
    var e, b := tax as real - x, bound as real / 20.0;
    assert e * d as real == (d * tax - n) as real;
    hide AbsReal, Abs;
    ScaledReal(e, b, d as real);
    assert 20.0 * (b * d as real) == (bound * d) as real;
    AbsAsReal(d * tax - n);
    AbsNegated(d * tax - n);
  }

  lemma ScaledReal(e: real, b: real, d: real)
    requires d > 0.0
    ensures AbsReal(e * d) <= b * d <==> AbsReal(e) <= b
  {
    if e >= 0.0 {
      assert e * d >= 0.0;
      assert e <= b ==> e * d <= b * d;
      assert e > b ==> e * d > b * d;
    } else {
      assert e * d < 0.0 && -(e * d) == -e * d;
      assert -e <= b ==> -e * d <= b * d;
      assert -e > b ==> -e * d > b * d;
    }
  }

  lemma AbsAsReal(n: int)
    ensures AbsReal(n as real) == Abs(n) as real
  {
  }

  lemma AbsNegated(n: int)
    ensures Abs(-n) == Abs(n)
  {
  }

  /** Twenty times the error that exact rounding allows the line, in units. */
  function Twentieths(item: Item): int
    requires Taxed(item)
  {
    if item.gst.value.interState then 10 else 20
  }

  lemma WithinTwentieths(item: Item)
    requires Taxed(item) && InRange(item)
    ensures CalculateItem(item).Some?
    ensures var d := Denominator(item);
            var off := Abs(Numerator(item) - d * CalculateItem(item).value.totalTax);
            (20 * off <= Twentieths(item) * d <==> !Lifted(item))
              && 20 * off <= (Twentieths(item) + Twentieths(item) / 10) * d
  {
    assert item.gst.Some?;
    TwentiethsOf(item);
    hide *;
    LineWithinExactlyWhen(item);
    AllowedIs(item);
    var off := Abs(Numerator(item) - Denominator(item) * CalculateItem(item).value.totalTax);
    AllowedInTwentieths(off, Denominator(item), if item.gst.value.interState then 1 else 2);
  }

  lemma TwentiethsOf(item: Item)
    requires Taxed(item)
    ensures Twentieths(item) == (if item.gst.value.interState then 10 * 1 else 10 * 2)
    ensures Twentieths(item) + Twentieths(item) / 10 == (if item.gst.value.interState then 11 * 1 else 11 * 2)
  {
  }

  lemma AllowedInTwentieths(off: int, d: int, halves: int)
    requires halves == 1 || halves == 2
    ensures 20 * off <= 10 * halves * d <==> 2 * off <= halves * d
    ensures 20 * off <= 11 * halves * d <==> 20 * off <= 11 * (halves * d)
  {
  }

  /** The same in units: half a unit or one unit exactly when not lifted, and a tenth more in any case. */
  lemma LineErrorExactlyWhen(item: Item)
    requires Taxed(item) && InRange(item)
    ensures CalculateItem(item).Some?
    ensures var error := AbsReal(CalculateItem(item).value.totalTax as real - ExactTax(item));
            var allowed := if item.gst.value.interState then 0.5 else 1.0;
            (error <= allowed <==> !Lifted(item)) && error <= 1.1 * allowed
  {
    hide CalculateItem, InRange, Numerator, Denominator, Lifted, Abs, AbsReal;
    WithinTwentieths(item);
    var n, d, tax := Numerator(item), Denominator(item), CalculateItem(item).value.totalTax;
    ErrorAsReal(n, d, tax, Twentieths(item));
    ErrorAsReal(n, d, tax, Twentieths(item) + Twentieths(item) / 10);
  }

  /** The line is off by no more than exact rounding allows. */
  ghost predicate WithinAllowed(item: Item) {
    Taxed(item) ==>
      CalculateItem(item).Some?
      && AbsReal(CalculateItem(item).value.totalTax as real - ExactTax(item))
         <= (if item.gst.value.interState then 0.5 else 1.0)
  }

  /** Every line of an invoice keeps to that exactly when none is lifted. */
  lemma InvoiceWithinExactlyWhen(items: seq<Item>)
    requires AllInRange(items)
    ensures (forall i :: 0 <= i < |items| ==> WithinAllowed(items[i]))
        <==> (forall i :: 0 <= i < |items| ==> !Lifted(items[i]))
  {
    forall i | 0 <= i < |items|
      ensures WithinAllowed(items[i]) <==> !Lifted(items[i])
    {
      assert InRange(items[i]);
      hide CalculateItem, InRange, ExactTax, AbsReal, Lifts;
      if Taxed(items[i]) {
        LineErrorExactlyWhen(items[i]);
      }
    }
    hide WithinAllowed, Lifted;
  }

  lemma LineErrorAsReal(item: Item)
    requires InRange(item)
    ensures CalculateItem(item).Some?
    ensures AbsReal(CalculateItem(item).value.totalTax as real - ExactTax(item)) <= Tolerance(item)
  {
    hide CalculateItem, InRange, ExactTax, Lifted, AbsReal;
    if Taxed(item) {
      LineErrorExactlyWhen(item);
    } else {
      UntaxedLine(item);
    }
  }

  lemma UntaxedLine(item: Item)
    requires !Taxed(item)
    ensures CalculateItem(item).Some? && CalculateItem(item).value.totalTax == 0 && ExactTax(item) == 0.0
    ensures AbsReal(0.0 - 0.0) == 0.0
  {
  }

  const LARGE: int := 5_555_555_555_555_555_586

  function LargeItem(): Item {
    Item(1, LARGE, Some(Gst(true, 18, 0)))
  }

  lemma LargeItemParts()
    ensures var item := LargeItem();
            && Taxed(item) && item.gst.Some? && item.gst.value.interState && InRange(item)
            && UsedTax(item) != Some(HalfUp(Numerator(item), Denominator(item)))
  {
    var item := LargeItem();
    assert Pow10(3) == 1000 by {
      TenToTwenty();
      NextPow10(2);
    }
    hide CalculateTax, Pow10, Digits, HalfUp;
    ColumnsAreInRange(item);
    LargeTaxIsInexact();
  }

  /** A line of 18% that a BIGINT column holds, off by more than half a unit. */
  lemma LiftedLineExceeds()
    ensures var item := LargeItem();
            && InRange(item) && CalculateItem(item).Some?
            && AbsReal(CalculateItem(item).value.totalTax as real - ExactTax(item)) > 0.5
  {
    hide *;
    LargeItemParts();
    UsedTaxExactlyWhen(LargeItem());
    LineIsUsedTax(LargeItem());
    WrongTaxExceeds(LargeItem());
  }

  lemma WrongTaxExceeds(item: Item)
    requires Taxed(item) && item.gst.Some? && item.gst.value.interState && InRange(item)
    requires CalculateItem(item).Some?
        && CalculateItem(item).value.totalTax != HalfUp(Numerator(item), Denominator(item))
    ensures AbsReal(CalculateItem(item).value.totalTax as real - ExactTax(item)) > 0.5
  {
    hide *;
    LineTaxExactlyWhen(item);
    LineErrorExactlyWhen(item);
  }

  lemma ErrorAdds(a: int, b: int, x: real, y: real, s: real, t: real)
    requires AbsReal(a as real - x) <= s && AbsReal(b as real - y) <= t
    ensures AbsReal((a + b) as real - (x + y)) <= s + t
  {
  }

  lemma LastTotals(items: seq<Item>)
    requires items != []
    ensures ExactTaxTotal(items) == ExactTaxTotal(items[..|items| - 1]) + ExactTax(items[|items| - 1])
    ensures ToleranceTotal(items) == ToleranceTotal(items[..|items| - 1]) + Tolerance(items[|items| - 1])
  {
    hide ExactTax, Tolerance;
  }

  /**
   The rounding error of an invoice: at most half a unit per inter-state and one per intra-state line,
   and a tenth more on the lines that LineWithinExactlyWhen says exceed that.
   */
  lemma {:induction false} InvoiceError(items: seq<Item>)
    requires AllInRange(items)
    ensures CalculateItems(items).Some?
    ensures AbsReal(TaxTotal(CalculateItems(items).value) as real - ExactTaxTotal(items)) <= ToleranceTotal(items)
  {
    hide *;
    if items == [] {
      NoItems();
    } else {
      var n := |items| - 1;
      LastTotals(items);
      AllInRangeLast(items);
      InvoiceError(items[..n]);
      LineErrorAsReal(items[n]);
      LastLine(items);
      ErrorAdds(TaxTotal(CalculateItems(items[..n]).value), CalculateItem(items[n]).value.totalTax,
                ExactTaxTotal(items[..n]), ExactTax(items[n]), ToleranceTotal(items[..n]), Tolerance(items[n]));
    }
  }

  predicate Intra(item: Item) {
    Taxed(item) ==> !item.gst.value.interState
  }

  ghost predicate AllIntra(items: seq<Item>) {
    forall i :: 0 <= i < |items| ==> Intra(items[i])
  }

  lemma AllIntraLast(items: seq<Item>)
    requires items != [] && AllIntra(items)
    ensures AllIntra(items[..|items| - 1]) && Intra(items[|items| - 1])
  {
    hide Intra;
  }

  lemma LineEven(item: Item)
    requires CalculateItem(item).Some? && Intra(item)
    ensures CalculateItem(item).value.totalTax % 2 == 0
  {
    hide CalculateTax, Rate, HalfRate, Amount;
    if Taxed(item) {
      EvenSum(CalculateItem(item).value.cgst.value);
    }
  }

  lemma EvenSum(half: int)
    ensures (half + half) % 2 == 0
  {
  }

  lemma EvenAdds(a: int, b: int)
    requires a % 2 == 0 && b % 2 == 0
    ensures (a + b) % 2 == 0
  {
  }

  /** The tax of an invoice with only intra-state lines is even: CGST equals SGST on every line. */
  lemma {:induction false} IntraTaxEven(items: seq<Item>)
    requires CalculateItems(items).Some? && AllIntra(items)
    ensures TaxTotal(CalculateItems(items).value) % 2 == 0
  {
    hide *;
    if items == [] {
      NoItems();
    } else {
      var n := |items| - 1;
      AllIntraLast(items);
      LastLine(items);
      IntraTaxEven(items[..n]);
      LineEven(items[n]);
      EvenAdds(TaxTotal(CalculateItems(items[..n]).value), CalculateItem(items[n]).value.totalTax);
    }
  }
}
