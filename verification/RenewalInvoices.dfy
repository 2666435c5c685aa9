/**
 The invoices that renewals create (src/modules/subscription/subscription.service.ts:466-489), over
 serial runs in which each call may end at any await. Each statement is made twice: for the invoices
 created, drafts included, and for those issued.
 */
module RenewalInvoices {
  import opened Periods
  import opened Subscriptions
  import opened RenewalRuns

  /** An invoice that counts: any, or an issued one. */
  predicate Counts(i: Invoice, issuedOnly: bool) {
    i.issued || !issuedOnly
  }

  /** How many invoices bill the period that starts at `start`. */
  function CountOf(invoices: seq<Invoice>, start: int, issuedOnly: bool): nat {
    if invoices == [] then 0
    else
      var n := |invoices| - 1;
      CountOf(invoices[..n], start, issuedOnly)
      + (if invoices[n].periodStart == start && Counts(invoices[n], issuedOnly) then 1 else 0)
  }

  ghost predicate OneInvoiceEach(invoices: seq<Invoice>, issuedOnly: bool) {
    forall start :: CountOf(invoices, start, issuedOnly) <= 1
  }

  /** The call gets past the creation of the invoice, or past its issue. */
  predicate Bills(a: Account, op: Op, issuedOnly: bool) {
    op.Renewal? && Starts(a) && Rank(op.ending.Reached()) > Rank(if issuedOnly then IssueInvoice else CreateInvoice)
  }

  /** Since the last advance a call has billed, and ended before it advanced the period. */
  predicate LeftBilled(a: Account, ops: seq<Op>, limits: Limits, issuedOnly: bool)
    requires ValidOps(ops)
  {
    if ops == [] then false
    else
      var n := |ops| - 1;
      var b := Run(a, ops[..n], limits);
      !Advances(b, ops[n]) && (Bills(b, ops[n], issuedOnly) || LeftBilled(a, ops[..n], limits, issuedOnly))
  }

  /** Some call bills after an earlier one had billed and ended before the advance. */
  predicate BillsAgain(a: Account, ops: seq<Op>, limits: Limits, issuedOnly: bool)
    requires ValidOps(ops)
  {
    if ops == [] then false
    else
      var n := |ops| - 1;
      BillsAgain(a, ops[..n], limits, issuedOnly)
      || (Bills(Run(a, ops[..n], limits), ops[n], issuedOnly) && LeftBilled(a, ops[..n], limits, issuedOnly))
  }

  // ---- One operation ----------------------------------------------------------------------------

  /** The operation's effect on the counts and on the current period. */
  lemma OpBills(a: Account, op: Op, limits: Limits, start: int, issuedOnly: bool)
    requires op.Valid()
    ensures var b := Apply(a, op, limits);
            && CountOf(b.invoices, start, issuedOnly)
               == CountOf(a.invoices, start, issuedOnly)
                  + (if Bills(a, op, issuedOnly) && start == a.subscription.periodStart then 1 else 0)
            && b.subscription.periodStart
               == (if Advances(a, op) then a.subscription.periodEnd else a.subscription.periodStart)
    ensures Advances(a, op) ==> Bills(a, op, issuedOnly) && Renewable(a.subscription.status)
  {
    OpInvoices(a, op, limits);
    hide Apply, Starts, Advances;
    OneMore(a.invoices, Invoice(a.subscription.periodStart, false), start, issuedOnly);
    OneMore(a.invoices, Invoice(a.subscription.periodStart, true), start, issuedOnly);
  }

  lemma OneMore(invoices: seq<Invoice>, i: Invoice, start: int, issuedOnly: bool)
    ensures CountOf(invoices + [i], start, issuedOnly)
         == CountOf(invoices, start, issuedOnly) + (if i.periodStart == start && Counts(i, issuedOnly) then 1 else 0)
  {
    assert (invoices + [i])[..|invoices|] == invoices;
  }

  lemma OpInvoices(a: Account, op: Op, limits: Limits)
    requires op.Valid()
    ensures var b, start := Apply(a, op, limits), a.subscription.periodStart;
            && b.invoices == a.invoices + (if Bills(a, op, true) then [Invoice(start, true)]
                                           else if Bills(a, op, false) then [Invoice(start, false)] else [])
            && b.subscription.periodStart == (if Advances(a, op) then a.subscription.periodEnd else start)
    ensures Advances(a, op) ==> Bills(a, op, true) && Renewable(a.subscription.status)
    ensures Bills(a, op, true) ==> Bills(a, op, false)
  {
    hide NextPeriodEnd, FindCycle, EnsureCycle, PastGrace;
  }

  // ---- Runs -------------------------------------------------------------------------------------

  /** The invoices of a run whose periods are `bounds`. */
  ghost predicate Billed(b: Account, bounds: seq<int>, left: bool, again: bool, issuedOnly: bool) {
    && |bounds| >= 2 && b.subscription.periodStart == bounds[|bounds| - 2]
    && (forall i :: 0 <= i < |bounds| - 2 ==> CountOf(b.invoices, bounds[i], issuedOnly) >= 1)
    && (forall start :: start > b.subscription.periodStart ==> CountOf(b.invoices, start, issuedOnly) == 0)
    && (CountOf(b.invoices, b.subscription.periodStart, issuedOnly) > 0 <==> left)
    && (OneInvoiceEach(b.invoices, issuedOnly) <==> !again)
  }

  lemma BilledStep(a: Account, op: Op, limits: Limits, bounds: seq<int>, left: bool, again: bool, issuedOnly: bool)
    requires op.Valid() && Billed(a, bounds, left, again, issuedOnly)
    requires Advances(a, op) ==> a.subscription.periodEnd == bounds[|bounds| - 1] > a.subscription.periodStart
    ensures Billed(Apply(a, op, limits), Extend(a, op, bounds),
                   !Advances(a, op) && (Bills(a, op, issuedOnly) || left),
                   again || (Bills(a, op, issuedOnly) && left), issuedOnly)
  {
    var b := Apply(a, op, limits);
    forall start
      ensures CountOf(b.invoices, start, issuedOnly)
           == CountOf(a.invoices, start, issuedOnly)
              + (if Bills(a, op, issuedOnly) && start == a.subscription.periodStart then 1 else 0)
    {
      OpBills(a, op, limits, start, issuedOnly);
    }
    OpBills(a, op, limits, 0, issuedOnly);
    ExtendIs(a, op, bounds);
    hide Apply, Bills, Advances, CountOf, Advance, OneInvoiceEach, Billed, Extend;
    BilledFollows(a, b, bounds, Bills(a, op, issuedOnly), Advances(a, op), left, again, issuedOnly);
  }

  lemma ExtendIs(a: Account, op: Op, bounds: seq<int>)
    ensures Advances(a, op) ==> Extend(a, op, bounds) == bounds + [Advance(a).periodEnd]
    ensures !Advances(a, op) ==> Extend(a, op, bounds) == bounds
  {
    hide Advance;
  }

  /** The step on the rows alone: `b` has the counts and the period start that the operation leaves. */
  lemma BilledFollows(a: Account, b: Account, bounds: seq<int>, bills: bool, advances: bool,
                      left: bool, again: bool, issuedOnly: bool)
    requires Billed(a, bounds, left, again, issuedOnly) && (advances ==> bills)
    requires forall start :: CountOf(b.invoices, start, issuedOnly)
                          == CountOf(a.invoices, start, issuedOnly)
                             + (if bills && start == a.subscription.periodStart then 1 else 0)
    requires b.subscription.periodStart
          == (if advances then a.subscription.periodEnd else a.subscription.periodStart)
    requires advances ==> a.subscription.periodEnd == bounds[|bounds| - 1] > a.subscription.periodStart
    ensures !advances ==> Billed(b, bounds, bills || left, again || (bills && left), issuedOnly)
    ensures forall next: int :: advances ==> Billed(b, bounds + [next], false, again || (bills && left), issuedOnly)
  {
    hide CountOf, OneInvoiceEach;
    CountsFollow(a.invoices, b.invoices, a.subscription.periodStart, bills, left, issuedOnly);
  }

  /** One invoice more at `start`, or none. */
  lemma CountsFollow(before: seq<Invoice>, after: seq<Invoice>, start: int, bills: bool, left: bool, issuedOnly: bool)
    requires forall x :: CountOf(after, x, issuedOnly)
                      == CountOf(before, x, issuedOnly) + (if bills && x == start then 1 else 0)
    requires CountOf(before, start, issuedOnly) > 0 <==> left
    ensures OneInvoiceEach(after, issuedOnly) <==> OneInvoiceEach(before, issuedOnly) && !(bills && left)
  {
    hide CountOf;
    if !OneInvoiceEach(before, issuedOnly) {
      var x :| CountOf(before, x, issuedOnly) > 1;
      assert CountOf(after, x, issuedOnly) > 1;
    } else if bills && left {
      assert CountOf(after, start, issuedOnly) > 1;
    } else {
      forall x
        ensures CountOf(after, x, issuedOnly) <= 1
      {
        assert CountOf(before, x, issuedOnly) <= 1;
      }
    }
  }

  lemma {:induction false} RunBills(a: Account, ops: seq<Op>, limits: Limits, issuedOnly: bool)
    requires Created(a) && a.invoices == [] && ValidOps(ops) && PositiveRun(a, ops, limits)
    ensures Billed(Run(a, ops, limits), BoundsOf(a, ops, limits), LeftBilled(a, ops, limits, issuedOnly),
                   BillsAgain(a, ops, limits, issuedOnly), issuedOnly)
  {
    hide Apply, Billed, Bills, Advances, Extend, PositivePlan, Created;
    if ops == [] {
      NothingBilled(a, issuedOnly);
    } else {
      var n := |ops| - 1;
      RunBills(a, ops[..n], limits, issuedOnly);
      var b, bounds := Run(a, ops[..n], limits), BoundsOf(a, ops[..n], limits);
      PositiveRunTiles(a, ops[..n], limits);
      AdvanceMovesOn(b, ops[n], bounds);
      BilledStep(b, ops[n], limits, bounds, LeftBilled(a, ops[..n], limits, issuedOnly),
                 BillsAgain(a, ops[..n], limits, issuedOnly), issuedOnly);
    }
  }

  lemma NothingBilled(a: Account, issuedOnly: bool)
    requires a.invoices == []
    ensures Billed(a, [a.subscription.periodStart, a.subscription.periodEnd], false, false, issuedOnly)
  {
  }

  lemma AdvanceMovesOn(a: Account, op: Op, bounds: seq<int>)
    requires TiledBy(a, bounds)
    ensures Advances(a, op) ==> a.subscription.periodEnd == bounds[|bounds| - 1] > a.subscription.periodStart
  {
    hide AllFit, HasCycle, HasPaidCycle, OneLiveCycle;
  }

  /**
   Over every serial run with positive counts each past period has at least one invoice, and no period
   has two exactly when no call bills after one that billed and ended before the advance: a failure
   between the invoice and the advance, once retried, bills the period again.
   */
  lemma InvoicesPerPeriodExactlyWhen(a: Account, ops: seq<Op>, limits: Limits, issuedOnly: bool)
    requires Created(a) && a.invoices == [] && ValidOps(ops) && PositiveRun(a, ops, limits)
    ensures var b, bounds := Run(a, ops, limits), BoundsOf(a, ops, limits);
            && (forall i :: 0 <= i < |bounds| - 2 ==> CountOf(b.invoices, bounds[i], issuedOnly) >= 1)
            && (OneInvoiceEach(b.invoices, issuedOnly) <==> !BillsAgain(a, ops, limits, issuedOnly))
  {
    RunBills(a, ops, limits, issuedOnly);
    hide Run, BoundsOf, BillsAgain, LeftBilled, CountOf, OneInvoiceEach;
  }

  /**
   A call that bills and then fails before the advance, and a next one that completes, issue two
   invoices for one period, unless the failure expired the subscription.
   */
  lemma RetryBillsAgain(a: Account, at: Point, handled: int, limits: Limits, now: int)
    requires Starts(a) && !HasPaidCycle(a.cycles, a.subscription.periodStart) && at.AdvancePeriod?
    ensures var b := Renew(a, Throws(at, Handled), limits, handled);
            var c := Renew(b, Stops(Returned), limits, now);
            CountOf(c.invoices, a.subscription.periodStart, true)
            == CountOf(a.invoices, a.subscription.periodStart, true) + (if b.subscription.status.Expired? then 1 else 2)
  {
    var fails, completes := Renewal(Throws(at, Handled), handled), Renewal(Stops(Returned), now);
    var b := Renew(a, Throws(at, Handled), limits, handled);
    RetryStarts(a, at, handled, limits);
    OpBills(a, fails, limits, a.subscription.periodStart, true);
    OpBills(b, completes, limits, a.subscription.periodStart, true);
    hide Renew, Starts, CountOf;
  }

  /** The failed cycle is FAILED, so the next call opens another, while the subscription is PAST_DUE. */
  lemma RetryStarts(a: Account, at: Point, handled: int, limits: Limits)
    requires Starts(a) && !HasPaidCycle(a.cycles, a.subscription.periodStart) && at.AdvancePeriod?
    ensures var b := Renew(a, Throws(at, Handled), limits, handled);
            b.subscription.periodStart == a.subscription.periodStart
            && (b.subscription.status.PastDue? || b.subscription.status.Expired?)
            && (Starts(b) <==> !b.subscription.status.Expired?)
  {
    hide NextPeriodEnd, AddDays;
    var i := FindCycle(a.cycles, a.subscription.periodStart);
    var b := Renew(a, Throws(at, Handled), limits, handled);
    assert b.cycles[i].status.Failed? && forall j :: 0 <= j < |b.cycles| && j != i ==> b.cycles[j] == a.cycles[j];
  }
}
