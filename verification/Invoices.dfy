/**
 Invoice creation (src/modules/billing/billing.service.ts), alone and in serial runs. The clock that
 numbers an invoice also stamps its row. Status changes rewrite no column kept here.
 */
module Invoices {
  import opened Common
  import opened Calendar
  import opened Billing
  import opened InvoiceNumbers
  import D = Decimals

  datatype Invoice = Invoice(
    tenantId: string, number: string, createdAt: int,
    subtotal: int, taxAmount: int, totalAmount: int, lines: seq<Line>)

  datatype Call = Call(tenantId: string, items: seq<Item>, now: int)

  function CountOf(rows: seq<Invoice>, tenantId: string): nat {
    if rows == [] then 0
    else CountOf(rows[..|rows| - 1], tenantId) + (if rows[|rows| - 1].tenantId == tenantId then 1 else 0)
  }

  /** The capacity of the eight-digit counter. */
  const CAPACITY: nat := 100_000_000

  /** generateInvoiceNumber. */
  function NumberFor(rows: seq<Invoice>, tenantId: string, now: int): string {
    InvoiceNumber(DateOf(now).year, DateOf(now).month, CountOf(rows, tenantId))
  }

  /** The unique index on (tenantId, invoiceNumber). */
  predicate Taken(rows: seq<Invoice>, tenantId: string, number: string) {
    exists i :: 0 <= i < |rows| && rows[i].tenantId == tenantId && rows[i].number == number
  }

  /** What createInvoice does once it holds a number: calculate, then insert under the unique index. */
  function Insert(rows: seq<Invoice>, number: string, call: Call): Result<seq<Invoice>> {
    match CalculateItems(call.items)
    case None => Thrown(SyntaxError)
    case Some(lines) =>
      if Taken(rows, call.tenantId, number) then Thrown(UniqueViolation)
      else
        var subtotal, tax := Subtotal(lines), TaxTotal(lines);
        Ok(rows + [Invoice(call.tenantId, number, call.now, subtotal, tax, subtotal + tax, lines)])
  }

  function Create(rows: seq<Invoice>, call: Call): Result<seq<Invoice>> {
    Insert(rows, NumberFor(rows, call.tenantId, call.now), call)
  }

  function RowsAfter(calls: seq<Call>): seq<Invoice> {
    if calls == [] then []
    else
      var rows := RowsAfter(calls[..|calls| - 1]);
      match Create(rows, calls[|calls| - 1])
      case Ok(after) => after
      case Thrown(_) => rows
  }

  /** The tenant's invoices. */
  function OwnedBy(rows: seq<Invoice>, tenantId: string): set<nat> {
    set i: nat | i < |rows| && rows[i].tenantId == tenantId
  }

  lemma {:induction false} CountIsCardinality(rows: seq<Invoice>, tenantId: string)
    ensures CountOf(rows, tenantId) == |OwnedBy(rows, tenantId)|
  {
    if rows != [] {
      var n := |rows| - 1;
      CountIsCardinality(rows[..n], tenantId);
      var before := OwnedBy(rows[..n], tenantId);
      assert OwnedBy(rows, tenantId) == if rows[n].tenantId == tenantId then before + {n} else before;
    }
  }

  /** A row is what the call asks for, numbered by its month and the invoices its tenant had. */
  ghost predicate InvoiceOf(rows: seq<Invoice>, call: Call, i: Invoice) {
    && i.tenantId == call.tenantId && i.createdAt == call.now
    && (var d := DateOf(call.now); i.number == InvoiceNumber(d.year, d.month, |OwnedBy(rows, call.tenantId)|))
    && |i.lines| == |call.items| && (forall k :: 0 <= k < |i.lines| ==> Charges(call.items[k], i.lines[k]))
    && i.subtotal == ChargeTotal(call.items)
    && i.taxAmount == StoredTaxes(i.lines)
    && i.totalAmount == i.subtotal + i.taxAmount
  }

  /** Creation adds one row, and it is the one that the call asks for. */
  lemma CreatedIsInvoiceOf(rows: seq<Invoice>, call: Call)
    requires Create(rows, call).Ok?
    ensures var after := Create(rows, call).value;
            |after| == |rows| + 1 && after[..|rows|] == rows && InvoiceOf(rows, call, after[|rows|])
  {
    StoredTaxesAddUp(call.items);
    LinesChargeItems(call.items);
    CountIsCardinality(rows, call.tenantId);
    hide CalculateItems, Subtotal, TaxTotal, StoredTaxes, Taken, ChargeTotal, Charges, OwnedBy, DateOf, InvoiceNumber;
  }

  // ---- The service ------------------------------------------------------------------------------

  class BillingService {
    var invoices: seq<Invoice>

    constructor ()
      ensures invoices == []
    {
      invoices := [];
    }

    /**
     The new row charges quantity times unit amount of each item, its tax is the sum of every CGST, SGST
     and IGST amount stored with its lines, and its total is both.
     */
    method CreateInvoice(call: Call) returns (r: Result<Invoice>)
      modifies this
      ensures r.Ok? ==> Create(old(invoices), call) == Ok(invoices) && invoices == old(invoices) + [r.value]
      ensures r.Ok? ==> InvoiceOf(old(invoices), call, r.value)
      ensures r.Thrown? ==> Create(old(invoices), call) == Thrown(r.error) && invoices == old(invoices)
    {
      hide CalculateItems, Subtotal, TaxTotal, StoredTaxes, Taken, ChargeTotal, Charges, OwnedBy, DateOf, InvoiceNumber;
      var number := NumberFor(invoices, call.tenantId, call.now);
      var processed := CalculateItems(call.items);
      if processed.None? {
        return Thrown(SyntaxError);
      }
      var lines := processed.value;
      var subtotal, taxAmount := Subtotal(lines), TaxTotal(lines);
      StoredTaxesAddUp(call.items);
      LinesChargeItems(call.items);
      CountIsCardinality(invoices, call.tenantId);
      if Taken(invoices, call.tenantId, number) {
        return Thrown(UniqueViolation);
      }
      var invoice := Invoice(call.tenantId, number, call.now, subtotal, taxAmount, subtotal + taxAmount, lines);
      invoices := invoices + [invoice];
      r := Ok(invoice);
    }
  }

  // ---- Numbers over runs ------------------------------------------------------------------------

  /** Every row carries the number its tenant's count gave when it was inserted. */
  ghost predicate Numbered(rows: seq<Invoice>) {
    forall i :: 0 <= i < |rows| ==> rows[i].number == NumberFor(rows[..i], rows[i].tenantId, rows[i].createdAt)
  }

  lemma {:induction false} CountGrows(rows: seq<Invoice>, i: nat, j: nat, tenantId: string)
    requires i <= j <= |rows|
    ensures CountOf(rows[..i], tenantId) <= CountOf(rows[..j], tenantId)
    ensures i < j && rows[i].tenantId == tenantId ==> CountOf(rows[..i], tenantId) < CountOf(rows[..j], tenantId)
    decreases j
  {
    if i < j {
      CountGrows(rows, i, j - 1, tenantId);
      assert rows[..j][..j - 1] == rows[..j - 1];
    }
  }

  /** Numbers are pairwise distinct per tenant, and the next one is new. */
  lemma NumbersDistinct(rows: seq<Invoice>)
    requires Numbered(rows)
    ensures forall i, j :: 0 <= i < j < |rows| && rows[i].tenantId == rows[j].tenantId
             ==> rows[i].number != rows[j].number
    ensures forall tenantId, now :: !Taken(rows, tenantId, NumberFor(rows, tenantId, now))
  {
    hide InvoiceNumber, DateFromDay;
    forall i, j | 0 <= i < j < |rows| && rows[i].tenantId == rows[j].tenantId
      ensures rows[i].number != rows[j].number
    {
      LaterIsOther(rows, i, j, rows[j].createdAt);
    }
    assert rows[..|rows|] == rows;
    forall tenantId, now
      ensures !Taken(rows, tenantId, NumberFor(rows, tenantId, now))
    {
      forall i | 0 <= i < |rows| && rows[i].tenantId == tenantId
        ensures rows[i].number != NumberFor(rows, tenantId, now)
      {
        LaterIsOther(rows, i, |rows|, now);
      }
    }
  }

  lemma LaterIsOther(rows: seq<Invoice>, i: nat, j: nat, now: int)
    requires Numbered(rows) && i < j <= |rows|
    ensures rows[i].number != NumberFor(rows[..j], rows[i].tenantId, now)
  {
    hide InvoiceNumber, DateFromDay;
    var t := rows[i].tenantId;
    CountGrows(rows, i, j, t);
    var d, e := DateOf(rows[i].createdAt), DateOf(now);
    if rows[i].number == NumberFor(rows[..j], t, now) {
      NumberDetermines(d.year, d.month, CountOf(rows[..i], t), e.year, e.month, CountOf(rows[..j], t));
    }
  }

  lemma InsertKeepsNumbered(rows: seq<Invoice>, call: Call)
    requires Numbered(rows) && Create(rows, call).Ok?
    ensures Numbered(Create(rows, call).value)
  {
    hide NumberFor, Subtotal, TaxTotal;
    var after := Create(rows, call).value;
    forall i | 0 <= i < |after|
      ensures after[i].number == NumberFor(after[..i], after[i].tenantId, after[i].createdAt)
    {
      assert after[..i] == rows[..i];
      assert rows[..|rows|] == rows;
    }
  }

  /**
   Over any serial run the unique index never refuses an invoice: creation fails only when a tax does
   not convert, and the numbers of a tenant are pairwise distinct.
   */
  lemma {:induction false} SerialRunsNeverCollide(calls: seq<Call>, next: Call)
    ensures Numbered(RowsAfter(calls))
    ensures Create(RowsAfter(calls), next).Ok? <==> CalculateItems(next.items).Some?
    decreases |calls|
  {
    hide NumberFor, CalculateItems;
    if calls != [] {
      var n := |calls| - 1;
      SerialRunsNeverCollide(calls[..n], calls[n]);
      if Create(RowsAfter(calls[..n]), calls[n]).Ok? {
        InsertKeepsNumbered(RowsAfter(calls[..n]), calls[n]);
      }
    }
    NumbersDistinct(RowsAfter(calls));
  }

  // ---- String order -----------------------------------------------------------------------------

  ghost predicate ClockAdvances(calls: seq<Call>) {
    forall i, j :: 0 <= i < j < |calls| ==> calls[i].now <= calls[j].now
  }

  ghost predicate FourDigitYears(calls: seq<Call>) {
    forall i :: 0 <= i < |calls| ==> 1000 <= DateOf(calls[i].now).year <= 9999
  }

  /** Rows are stamped in order, by calls whose years have four digits. */
  ghost predicate Stamped(rows: seq<Invoice>) {
    && (forall i, j :: 0 <= i < j < |rows| ==> rows[i].createdAt <= rows[j].createdAt)
    && (forall i :: 0 <= i < |rows| ==> 1000 <= DateOf(rows[i].createdAt).year <= 9999)
  }

  lemma {:induction false} RowsFollowTheClock(calls: seq<Call>)
    requires ClockAdvances(calls) && FourDigitYears(calls)
    ensures Stamped(RowsAfter(calls))
    ensures forall i :: 0 <= i < |RowsAfter(calls)|
             ==> calls != [] && RowsAfter(calls)[i].createdAt <= calls[|calls| - 1].now
  {
    hide NumberFor, CalculateItems, DateOf;
    if calls != [] {
      var n := |calls| - 1;
      RowsFollowTheClock(calls[..n]);
      var rows := RowsAfter(calls[..n]);
      if n > 0 {
        assert calls[..n][n - 1].now <= calls[n].now;
      }
      assert forall i :: 0 <= i < |rows| ==> rows[i].createdAt <= calls[n].now;
    }
  }

  lemma DatesFollowTheClock(s: int, t: int)
    requires s <= t
    ensures var d, e := DateOf(s), DateOf(t);
            d.year < e.year || (d.year == e.year && d.month <= e.month)
  {
    DatesOrdered(DateOf(s), DateOf(t));
    DatesOrdered(DateOf(t), DateOf(s));
    hide DateFromDay, DayNumber;
  }

  lemma EightDigits()
    ensures D.Pow10(8) == CAPACITY
  {
    TwoDigits();
    D.PowAdds(4, 4);
  }

  lemma EarlierIsLess(rows: seq<Invoice>, i: nat, j: nat)
    requires Numbered(rows) && Stamped(rows) && i < j < |rows| && rows[i].tenantId == rows[j].tenantId
    requires CountOf(rows, rows[i].tenantId) < CAPACITY
    ensures Less(rows[i].number, rows[j].number) && !Less(rows[j].number, rows[i].number)
  {
    EightDigits();
    hide DateOf, InvoiceNumber, Less, D.Pow10, CountOf;
    var t, d, e := rows[i].tenantId, DateOf(rows[i].createdAt), DateOf(rows[j].createdAt);
    DatesFollowTheClock(rows[i].createdAt, rows[j].createdAt);
    CountGrows(rows, i, j, t);
    CountGrows(rows, j, |rows|, t);
    assert rows[..|rows|] == rows;
    var c, n := CountOf(rows[..i], t), CountOf(rows[..j], t);
    NumberOrder(d.year, d.month, c, e.year, e.month, n);
    NumberOrder(e.year, e.month, n, d.year, d.month, c);
  }

  /**
   With a clock that never goes back, four-digit years and fewer than 10^8 invoices, the string order
   of a tenant's invoice numbers is their creation order.
   */
  lemma StringOrderIsCreationOrder(calls: seq<Call>, i: nat, j: nat)
    requires ClockAdvances(calls) && FourDigitYears(calls)
    requires i < |RowsAfter(calls)| && j < |RowsAfter(calls)|
    requires RowsAfter(calls)[i].tenantId == RowsAfter(calls)[j].tenantId
    requires CountOf(RowsAfter(calls), RowsAfter(calls)[i].tenantId) < CAPACITY
    ensures Less(RowsAfter(calls)[i].number, RowsAfter(calls)[j].number) <==> i < j
  {
    hide *;
    var rows := RowsAfter(calls);
    SerialRunsNeverCollide(calls, Call("", [], 0));
    RowsFollowTheClock(calls);
    if i < j {
      EarlierIsLess(rows, i, j);
    } else if j < i {
      EarlierIsLess(rows, j, i);
    } else {
      NotLess(rows[i].number);
    }
  }

  // ---- Overlapping calls ------------------------------------------------------------------------

  predicate SameMonth(s: int, t: int) {
    DateOf(s).year == DateOf(t).year && DateOf(s).month == DateOf(t).month
  }

  lemma SameNumberExactlyWhen(rows: seq<Invoice>, tenantId: string, s: int, t: int)
    ensures NumberFor(rows, tenantId, s) == NumberFor(rows, tenantId, t) <==> SameMonth(s, t)
  {
    var d, e, c := DateOf(s), DateOf(t), CountOf(rows, tenantId);
    hide InvoiceNumber, DateOf;
    if NumberFor(rows, tenantId, s) == NumberFor(rows, tenantId, t) {
      NumberDetermines(d.year, d.month, c, e.year, e.month, c);
    }
  }

  /**
   Two calls of a tenant that both count before either inserts: the later insert is refused exactly
   when both fall into the same month.
   */
  lemma RaceRefusedExactlyWhen(calls: seq<Call>, first: Call, second: Call, rows: seq<Invoice>, between: seq<Invoice>)
    requires rows == RowsAfter(calls) && Create(rows, first) == Ok(between)
    requires first.tenantId == second.tenantId && CalculateItems(second.items).Some?
    ensures Insert(between, NumberFor(rows, second.tenantId, second.now), second) == Thrown(UniqueViolation)
            <==> SameMonth(first.now, second.now)
    ensures Insert(between, NumberFor(rows, second.tenantId, second.now), second).Ok?
            <==> !SameMonth(first.now, second.now)
  {
    hide *;
    SerialRunsNeverCollide(calls, first);
    NumbersDistinct(rows);
    SameNumberExactlyWhen(rows, first.tenantId, first.now, second.now);
    InsertedRow(rows, first, between);
    var number, other := NumberFor(rows, first.tenantId, first.now), NumberFor(rows, first.tenantId, second.now);
    TakenAfter(rows, between[|rows|], first.tenantId, other);
    InsertRefusedExactlyWhen(between, other, second);
  }

  lemma InsertedRow(rows: seq<Invoice>, call: Call, after: seq<Invoice>)
    requires Create(rows, call) == Ok(after)
    ensures |after| == |rows| + 1 && after == rows + [after[|rows|]]
    ensures after[|rows|].tenantId == call.tenantId && after[|rows|].number == NumberFor(rows, call.tenantId, call.now)
  {
    hide NumberFor, CalculateItems, Subtotal, TaxTotal, Taken;
  }

  lemma TakenAfter(rows: seq<Invoice>, r: Invoice, tenantId: string, number: string)
    ensures Taken(rows + [r], tenantId, number)
        <==> Taken(rows, tenantId, number) || (r.tenantId == tenantId && r.number == number)
  {
    assert forall i :: 0 <= i < |rows| ==> (rows + [r])[i] == rows[i];
    assert (rows + [r])[|rows|] == r;
  }

  lemma InsertRefusedExactlyWhen(rows: seq<Invoice>, number: string, call: Call)
    requires CalculateItems(call.items).Some?
    ensures Insert(rows, number, call) == Thrown(UniqueViolation) <==> Taken(rows, call.tenantId, number)
    ensures Insert(rows, number, call).Ok? <==> !Taken(rows, call.tenantId, number)
  {
    hide CalculateItems, Subtotal, TaxTotal, Taken;
  }
}
