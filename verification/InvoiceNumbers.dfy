/** The text of invoice numbers: INV-YYYYMM-XXXXXXXX (src/modules/billing/billing.service.ts). */
module InvoiceNumbers {
  import D = Decimals

  function DigitChar(n: nat): char
    requires n < 10
  {
    ('0' as int + n) as char
  }

  predicate IsDigit(c: char) {
    '0' <= c <= '9'
  }

  function DigitValue(c: char): (n: nat)
    requires IsDigit(c)
    ensures n < 10
  {
    c as int - '0' as int
  }

  predicate AllDigits(s: string) {
    forall i :: 0 <= i < |s| ==> IsDigit(s[i])
  }

  function NatString(n: nat): string {
    if n < 10 then [DigitChar(n)] else NatString(n / 10) + [DigitChar(n % 10)]
  }

  function IntString(n: int): string {
    if n < 0 then "-" + NatString(-n) else NatString(n)
  }

  /** padStart with '0'. */
  function PadStart(s: string, width: nat): string {
    if |s| >= width then s else Zeros(width - |s|) + s
  }

  function Zeros(n: nat): (s: string)
    ensures |s| == n
  {
    if n == 0 then "" else Zeros(n - 1) + "0"
  }

  /** Months count from 0; the number continues the tenant's count of invoices. */
  function InvoiceNumber(year: int, month: nat, count: nat): string {
    Prefix(year, month) + "-" + PadStart(NatString(count + 1), 8)
  }

  function Prefix(year: int, month: nat): string {
    "INV-" + IntString(year) + PadStart(NatString(month + 1), 2)
  }

  lemma Text2024()
    ensures NatString(2024) == "2024"
  {
    assert NatString(20) == "2" + "0";
    assert NatString(202) == "20" + "2";
    assert NatString(2024) == "202" + "4";
  }

  lemma PaddedText()
    ensures PadStart(NatString(1), 8) == "00000001" && PadStart(NatString(4), 2) == "04"
  {
    assert Zeros(2) == "00" && Zeros(4) == "00" + "00";
    assert Zeros(7) == "0000" + "000";
    assert "0000000" + "1" == "00000001" && "0" + "4" == "04";
  }

  /** The source's own example. */
  lemma FirstOfApril2024()
    ensures InvoiceNumber(2024, 3, 0) == "INV-202404-00000001"
  {
    Text2024();
    PaddedText();
    hide PadStart, NatString, Zeros;
    assert Prefix(2024, 3) == "INV-2024" + "04";
  }

  // ---- Reading numbers back ---------------------------------------------------------------------

  function Value(s: string): nat
    requires AllDigits(s)
  {
    if s == "" then 0 else 10 * Value(s[..|s| - 1]) + DigitValue(s[|s| - 1])
  }

  lemma {:induction false} NatStringRoundTrip(n: nat)
    ensures AllDigits(NatString(n)) && Value(NatString(n)) == n
    ensures |NatString(n)| == D.Digits(n)
  {
    if n < 10 {
      assert [DigitChar(n)][..0] == "";
    } else {
      NatStringRoundTrip(n / 10);
      assert NatString(n)[..|NatString(n)| - 1] == NatString(n / 10);
    }
  }

  lemma {:induction false} PaddingKeepsValue(s: string, k: nat)
    requires AllDigits(s)
    ensures AllDigits(Zeros(k) + s) && Value(Zeros(k) + s) == Value(s)
    decreases k, |s|
  {
    var padded := Zeros(k) + s;
    if s != "" {
      PaddingKeepsValue(s[..|s| - 1], k);
      assert padded[..|padded| - 1] == Zeros(k) + s[..|s| - 1];
    } else if k > 0 {
      PaddingKeepsValue("", k - 1);
      assert padded[..|padded| - 1] == Zeros(k - 1) + "";
    }
  }

  lemma PaddedNat(n: nat, width: nat)
    ensures var s := PadStart(NatString(n), width);
            AllDigits(s) && Value(s) == n && (width >= 1 && n < D.Pow10(width) ==> |s| == width)
  {
    NatStringRoundTrip(n);
    PaddingKeepsValue(NatString(n), if |NatString(n)| >= width then 0 else width - |NatString(n)|);
    if width >= 1 {
      D.DigitsBound(n, width);
    }
  }

  lemma DashesAlign(a: string, x: string, b: string, y: string)
    requires AllDigits(x) && AllDigits(y) && a + "-" + x == b + "-" + y
    ensures a == b && x == y
  {
    var s, t := a + "-" + x, b + "-" + y;
    assert s[|a|] == '-' && t[|b|] == '-';
    assert forall i :: |a| < i < |s| ==> s[i] == x[i - |a| - 1];
    assert forall i :: |b| < i < |t| ==> t[i] == y[i - |b| - 1];
    assert |a| == |b|;
    assert s[..|a|] == a && t[..|b|] == b && s[|a| + 1..] == x && t[|b| + 1..] == y;
  }

  lemma IntStringRoundTrip(m: int, n: int)
    requires IntString(m) == IntString(n)
    ensures m == n
  {
    var a, b: nat := if m < 0 then -m else m, if n < 0 then -n else n;
    NatStringRoundTrip(a);
    NatStringRoundTrip(b);
    hide NatString, Value;
    assert m >= 0 ==> IsDigit(IntString(m)[0]);
    assert n >= 0 ==> IsDigit(IntString(n)[0]);
    assert m < 0 ==> IntString(m)[1..] == NatString(a);
    assert n < 0 ==> IntString(n)[1..] == NatString(b);
  }

  lemma SameTail(p: string, s: string, q: string, t: string)
    requires p + s == q + t && |s| == |t|
    ensures p == q && s == t
  {
    assert (p + s)[..|p|] == p && (p + s)[|p|..] == s && (q + t)[..|q|] == q && (q + t)[|q|..] == t;
  }

  lemma PrefixDetermines(y: int, m: nat, z: int, n: nat)
    requires m < 12 && n < 12 && Prefix(y, m) == Prefix(z, n)
    ensures y == z && m == n
  {
    TwoDigits();
    PaddedNat(m + 1, 2);
    PaddedNat(n + 1, 2);
    hide PadStart, NatString, IntString, D.Pow10, Value;
    var mm, nn := PadStart(NatString(m + 1), 2), PadStart(NatString(n + 1), 2);
    SameTail("INV-" + IntString(y), mm, "INV-" + IntString(z), nn);
    assert ("INV-" + IntString(y))[4..] == IntString(y) && ("INV-" + IntString(z))[4..] == IntString(z);
    IntStringRoundTrip(y, z);
  }

  lemma TwoDigits()
    ensures D.Pow10(2) == 100 && D.Pow10(3) == 1000 && D.Pow10(4) == 10000
  {
    assert D.Pow10(1) == 10;
  }

  /** A number determines its year, its month and its place in the count. */
  lemma NumberDetermines(y: int, m: nat, c: nat, z: int, n: nat, d: nat)
    requires m < 12 && n < 12 && InvoiceNumber(y, m, c) == InvoiceNumber(z, n, d)
    ensures y == z && m == n && c == d
  {
    PaddedNat(c + 1, 8);
    PaddedNat(d + 1, 8);
    hide Prefix, PadStart, NatString;
    DashesAlign(Prefix(y, m), PadStart(NatString(c + 1), 8), Prefix(z, n), PadStart(NatString(d + 1), 8));
    PrefixDetermines(y, m, z, n);
  }

  // ---- Order ------------------------------------------------------------------------------------

  /** Code-unit order of strings. */
  predicate Less(s: string, t: string) {
    t != "" && (s == "" || s[0] < t[0] || (s[0] == t[0] && Less(s[1..], t[1..])))
  }

  lemma {:induction false} LessConcat(p: string, q: string, s: string, t: string)
    requires |p| == |q|
    ensures Less(p + s, q + t) <==> Less(p, q) || (p == q && Less(s, t))
  {
    if p == "" {
      assert p + s == s && q + t == t;
    } else {
      LessConcat(p[1..], q[1..], s, t);
      assert (p + s)[1..] == p[1..] + s && (q + t)[1..] == q[1..] + t;
      assert p == [p[0]] + p[1..] && q == [q[0]] + q[1..];
    }
  }

  /** Among digit strings of one width, string order is numeric order. */
  lemma {:induction false} SameWidthOrder(s: string, t: string)
    requires AllDigits(s) && AllDigits(t) && |s| == |t|
    ensures Less(s, t) <==> Value(s) < Value(t)
    ensures s == t <==> Value(s) == Value(t)
  {
    if s != "" {
      var n := |s| - 1;
      SameWidthOrder(s[..n], t[..n]);
      assert s == s[..n] + [s[n]] && t == t[..n] + [t[n]];
      LessConcat(s[..n], t[..n], [s[n]], [t[n]]);
    }
  }

  predicate Before(y: int, m: nat, c: nat, z: int, n: nat, d: nat) {
    y < z || (y == z && m < n) || (y == z && m == n && c < d)
  }

  lemma PaddedOrder(m: nat, n: nat, width: nat)
    requires width >= 1 && m < D.Pow10(width) && n < D.Pow10(width)
    ensures |PadStart(NatString(m), width)| == |PadStart(NatString(n), width)| == width
    ensures Less(PadStart(NatString(m), width), PadStart(NatString(n), width)) <==> m < n
    ensures PadStart(NatString(m), width) == PadStart(NatString(n), width) <==> m == n
  {
    PaddedNat(m, width);
    PaddedNat(n, width);
    SameWidthOrder(PadStart(NatString(m), width), PadStart(NatString(n), width));
  }

  lemma FourDigits(y: nat)
    requires 1000 <= y <= 9999
    ensures AllDigits(NatString(y)) && |NatString(y)| == 4 && Value(NatString(y)) == y
  {
    NatStringRoundTrip(y);
    TwoDigits();
    D.DigitsBound(y, 3);
    D.DigitsBound(y, 4);
  }

  lemma YearOrder(y: nat, z: nat)
    requires 1000 <= y <= 9999 && 1000 <= z <= 9999
    ensures |IntString(y)| == |IntString(z)| == 4
    ensures Less(IntString(y), IntString(z)) <==> y < z
  {
    TwoDigits();
    FourDigits(y);
    FourDigits(z);
    hide NatString;
    SameWidthOrder(NatString(y), NatString(z));
  }

  lemma PrefixOrder(y: int, m: nat, z: int, n: nat)
    requires 1000 <= y <= 9999 && 1000 <= z <= 9999 && m < 12 && n < 12
    ensures |Prefix(y, m)| == |Prefix(z, n)|
    ensures Less(Prefix(y, m), Prefix(z, n)) <==> y < z || (y == z && m < n)
    ensures Prefix(y, m) == Prefix(z, n) <==> y == z && m == n
  {
    TwoDigits();
    YearOrder(y, z);
    PaddedOrder(m + 1, n + 1, 2);
    hide IntString, PadStart, NatString, Less, D.Pow10;
    if Prefix(y, m) == Prefix(z, n) {
      PrefixDetermines(y, m, z, n);
    }
    if IntString(y) == IntString(z) {
      IntStringRoundTrip(y, z);
    }
    LessConcat("INV-" + IntString(y), "INV-" + IntString(z),
      PadStart(NatString(m + 1), 2), PadStart(NatString(n + 1), 2));
    LessConcat("INV-", "INV-", IntString(y), IntString(z));
    NotLess("INV-");
    assert "INV-" + IntString(y) == "INV-" + IntString(z) ==> IntString(y) == IntString(z) by {
      assert ("INV-" + IntString(y))[4..] == IntString(y) && ("INV-" + IntString(z))[4..] == IntString(z);
    }
  }

  lemma {:induction false} NotLess(s: string)
    ensures !Less(s, s)
  {
    if s != "" {
      NotLess(s[1..]);
    }
  }

  /** With four-digit years and fewer than 10^8 invoices, string order is the order of year, month and count. */
  lemma NumberOrder(y: int, m: nat, c: nat, z: int, n: nat, d: nat)
    requires 1000 <= y <= 9999 && 1000 <= z <= 9999 && m < 12 && n < 12
    requires c + 1 < D.Pow10(8) && d + 1 < D.Pow10(8)
    ensures Less(InvoiceNumber(y, m, c), InvoiceNumber(z, n, d)) <==> Before(y, m, c, z, n, d)
  {
    PrefixOrder(y, m, z, n);
    PaddedOrder(c + 1, d + 1, 8);
    hide Prefix, PadStart, NatString, Less;
    var p, q := Prefix(y, m), Prefix(z, n);
    LessConcat(p + "-", q + "-", PadStart(NatString(c + 1), 8), PadStart(NatString(d + 1), 8));
    LessConcat(p, q, "-", "-");
    NotLess("-");
    assert p + "-" == q + "-" ==> p == q by {
      assert (p + "-")[..|p|] == p && (q + "-")[..|q|] == q;
    }
  }
}
