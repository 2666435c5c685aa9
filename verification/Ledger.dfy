/** The double-entry ledger: an append-only log of entries (src/modules/ledger/ledger.service.ts). */
module Ledger {
  import opened Common

  datatype Account = AccountsReceivable | Revenue | TaxPayable | RefundLiability | Cash

  datatype EntryType = Payment | Refund | Tax

  datatype Entry = Entry(
    tenantId: string, transactionId: nat, kind: EntryType, debit: Account, credit: Account,
    amount: int, currency: string, createdAt: int)

  /** What recordPayment appends; a tax of 0 counts as absent. */
  function PaymentEntries(tenantId: string, transactionId: nat,
      amount: int, currency: string, tax: Option<int>, now: int)
    : (es: seq<Entry>)
  {
    var base := if tax.Some? && tax.value != 0 then amount - tax.value else amount;
    [Entry(tenantId, transactionId, Payment, AccountsReceivable, Revenue, base, currency, now)]
    + (if tax.Some? && tax.value > 0
       then [Entry(tenantId, transactionId, Tax, AccountsReceivable, TaxPayable, tax.value, currency, now)] else [])
  }

  /** What recordRefund appends. */
  function RefundEntries(tenantId: string, transactionId: nat,
      amount: int, currency: string, now: int): (es: seq<Entry>) {
    [Entry(tenantId, transactionId, Refund, Revenue, AccountsReceivable, amount, currency, now),
     Entry(tenantId, transactionId, Refund, RefundLiability, Cash, amount, currency, now)]
  }

  // ---- Balances ---------------------------------------------------------------------------------

  /** The date range of a balance; an absent end leaves it open. */
  predicate Within(t: int, from: Option<int>, to: Option<int>) {
    (from.Some? ==> from.value <= t) && (to.Some? ==> t <= to.value)
  }

  predicate Counts(e: Entry, currency: string, from: Option<int>, to: Option<int>) {
    e.currency == currency && Within(e.createdAt, from, to)
  }

  function Debits(es: seq<Entry>, account: Account, currency: string, from: Option<int>, to: Option<int>): int {
    if es == [] then 0
    else
      var e := es[|es| - 1];
      Debits(es[..|es| - 1], account, currency, from, to)
      + (if e.debit == account && Counts(e, currency, from, to) then e.amount else 0)
  }

  function Credits(es: seq<Entry>, account: Account, currency: string, from: Option<int>, to: Option<int>): int {
    if es == [] then 0
    else
      var e := es[|es| - 1];
      Credits(es[..|es| - 1], account, currency, from, to)
      + (if e.credit == account && Counts(e, currency, from, to) then e.amount else 0)
  }

  function Net(es: seq<Entry>, account: Account, currency: string, from: Option<int>, to: Option<int>): int {
    Debits(es, account, currency, from, to) - Credits(es, account, currency, from, to)
  }

  /** The entries that touch the account, as the query selects them. */
  function Matching(es: seq<Entry>, account: Account, currency: string,
      from: Option<int>, to: Option<int>): (ms: seq<Entry>) {
    if es == [] then []
    else
      var e := es[|es| - 1];
      Matching(es[..|es| - 1], account, currency, from, to)
      + (if Counts(e, currency, from, to) && (e.debit == account || e.credit == account)
         then [e] else [])
  }

  class LedgerService {
    var entries: seq<Entry>

    constructor ()
      ensures entries == []
    {
      entries := [];
    }

    method RecordPayment(tenantId: string, transactionId: nat,
        amount: int, currency: string, tax: Option<int>, now: int)
      modifies this
      ensures entries == old(entries) + PaymentEntries(tenantId, transactionId, amount, currency, tax, now)
    {
      var base := amount;
      if tax.Some? && tax.value != 0 {
        base := amount - tax.value;
      }
      var rows := [Entry(tenantId, transactionId, Payment, AccountsReceivable, Revenue, base, currency, now)];
      if tax.Some? && tax.value > 0 {
        rows := rows + [Entry(tenantId, transactionId, Tax, AccountsReceivable, TaxPayable, tax.value, currency, now)];
      }
      entries := entries + rows;
    }

    method RecordRefund(tenantId: string, transactionId: nat, amount: int, currency: string, now: int)
      modifies this
      ensures entries == old(entries) + RefundEntries(tenantId, transactionId, amount, currency, now)
    {
      entries := entries + [
        Entry(tenantId, transactionId, Refund, Revenue, AccountsReceivable, amount, currency, now),
        Entry(tenantId, transactionId, Refund, RefundLiability, Cash, amount, currency, now)];
    }

    method GetAccountBalance(account: Account, currency: string, from: Option<int>, to: Option<int>)
      returns (debit: int, credit: int, net: int)
      ensures debit == Debits(entries, account, currency, from, to)
      ensures credit == Credits(entries, account, currency, from, to)
      ensures net == debit - credit
    {
      var rows := Matching(entries, account, currency, from, to);
      debit, credit := 0, 0;
      for i := 0 to |rows|
        invariant debit == DebitSum(rows[..i], account) && credit == CreditSum(rows[..i], account)
      {
        assert rows[..i + 1][..i] == rows[..i];
        if rows[i].debit == account {
          debit := debit + rows[i].amount;
        }
        if rows[i].credit == account {
          credit := credit + rows[i].amount;
        }
      }
      assert rows[..|rows|] == rows;
      MatchingSums(entries, account, currency, from, to);
      net := debit - credit;
    }
  }

  function DebitSum(es: seq<Entry>, account: Account): int {
    if es == [] then 0
    else DebitSum(es[..|es| - 1], account) + (if es[|es| - 1].debit == account then es[|es| - 1].amount else 0)
  }

  function CreditSum(es: seq<Entry>, account: Account): int {
    if es == [] then 0
    else CreditSum(es[..|es| - 1], account) + (if es[|es| - 1].credit == account then es[|es| - 1].amount else 0)
  }

  lemma SumsOfOneMore(es: seq<Entry>, e: Entry, account: Account)
    ensures DebitSum(es + [e], account) == DebitSum(es, account) + (if e.debit == account then e.amount else 0)
    ensures CreditSum(es + [e], account) == CreditSum(es, account) + (if e.credit == account then e.amount else 0)
  {
    assert (es + [e])[..|es|] == es;
  }

  /** The query's filter loses nothing that the balance counts. */
  lemma {:induction false} MatchingSums(es: seq<Entry>, account: Account,
      currency: string, from: Option<int>, to: Option<int>)
    ensures DebitSum(Matching(es, account, currency, from, to), account) == Debits(es, account, currency, from, to)
    ensures CreditSum(Matching(es, account, currency, from, to), account) == Credits(es, account, currency, from, to)
  {
    hide Counts, DebitSum, CreditSum;
    if es == [] {
      SumsOfNone(account);
    } else {
      var n := |es| - 1;
      MatchingSums(es[..n], account, currency, from, to);
      var before := Matching(es[..n], account, currency, from, to);
      SumsOfOneMore(before, es[n], account);
      assert before + [] == before;
    }
  }

  lemma SumsOfNone(account: Account)
    ensures DebitSum([], account) == 0 && CreditSum([], account) == 0
  {
  }

  /** Balances add up over adjacent date ranges: milliseconds up to `mid`, and those after it. */
  lemma {:induction false} BalanceAddsOverRanges(es: seq<Entry>, account: Account, currency: string,
                                                 from: Option<int>, mid: int, to: Option<int>)
    requires from.Some? ==> from.value <= mid + 1
    requires to.Some? ==> mid <= to.value
    ensures Debits(es, account, currency, from, to)
         == Debits(es, account, currency, from, Some(mid)) + Debits(es, account, currency, Some(mid + 1), to)
    ensures Credits(es, account, currency, from, to)
         == Credits(es, account, currency, from, Some(mid)) + Credits(es, account, currency, Some(mid + 1), to)
  {
    if es != [] {
      BalanceAddsOverRanges(es[..|es| - 1], account, currency, from, mid, to);
    }
  }

  lemma {:induction false} BalanceAddsOverLogs(es: seq<Entry>, fs: seq<Entry>, account: Account, currency: string,
                                               from: Option<int>, to: Option<int>)
    ensures Debits(es + fs, account, currency, from, to)
         == Debits(es, account, currency, from, to) + Debits(fs, account, currency, from, to)
    ensures Credits(es + fs, account, currency, from, to)
         == Credits(es, account, currency, from, to) + Credits(fs, account, currency, from, to)
  {
    if fs == [] {
      assert es + fs == es;
    } else {
      var n := |fs| - 1;
      BalanceAddsOverLogs(es, fs[..n], account, currency, from, to);
      assert (es + fs)[..|es + fs| - 1] == es + fs[..n];
    }
  }

  // ---- Conservation -----------------------------------------------------------------------------

  /** Debit and credit lie both among the earning accounts, or both among the refund accounts. */
  predicate Posted(e: Entry) {
    EarningAccount(e.debit) == EarningAccount(e.credit)
  }

  predicate EarningAccount(account: Account) {
    account.AccountsReceivable? || account.Revenue? || account.TaxPayable?
  }

  ghost predicate AllPosted(es: seq<Entry>) {
    forall i :: 0 <= i < |es| ==> Posted(es[i])
  }

  lemma {:induction false} ConservedStep(es: seq<Entry>,
      account: Account, currency: string, from: Option<int>, to: Option<int>)
    requires es != []
    ensures var e := es[|es| - 1];
            Net(es, account, currency, from, to) == Net(es[..|es| - 1], account, currency, from, to)
              + (if !Counts(e, currency, from, to) then 0
                 else (if e.debit == account then e.amount else 0) - (if e.credit == account then e.amount else 0))
  {
  }

  /** In every currency and date range the earning accounts balance, and so do the refund accounts. */
  lemma {:induction false} Conserved(es: seq<Entry>, currency: string, from: Option<int>, to: Option<int>)
    requires AllPosted(es)
    ensures Net(es, AccountsReceivable, currency, from, to) + Net(es, Revenue, currency, from, to)
            + Net(es, TaxPayable, currency, from, to) == 0
    ensures Net(es, RefundLiability, currency, from, to) + Net(es, Cash, currency, from, to) == 0
  {
    if es != [] {
      assert Posted(es[|es| - 1]);
      ConservedStep(es, AccountsReceivable, currency, from, to);
      ConservedStep(es, Revenue, currency, from, to);
      ConservedStep(es, TaxPayable, currency, from, to);
      ConservedStep(es, RefundLiability, currency, from, to);
      ConservedStep(es, Cash, currency, from, to);
      hide Net, Counts;
      Conserved(es[..|es| - 1], currency, from, to);
    }
  }

  /** A record is one call of recordPayment or recordRefund. */
  datatype Record =
    | PaymentRecord(tenantId: string, transactionId: nat, amount: int, currency: string, tax: Option<int>, now: int)
    | RefundRecord(tenantId: string, transactionId: nat, amount: int, currency: string, now: int)
  {
    function Entries(): seq<Entry> {
      match this
      case PaymentRecord(t, x, a, c, tax, now) => PaymentEntries(t, x, a, c, tax, now)
      case RefundRecord(t, x, a, c, now) => RefundEntries(t, x, a, c, now)
    }
  }

  function Log(rs: seq<Record>): seq<Entry> {
    if rs == [] then [] else Log(rs[..|rs| - 1]) + rs[|rs| - 1].Entries()
  }

  /** Conservation over every run: whatever was recorded, in any order, both account groups balance. */
  lemma RunsConserve(rs: seq<Record>, currency: string, from: Option<int>, to: Option<int>)
    ensures var es := Log(rs);
            && Net(es, AccountsReceivable, currency, from, to) + Net(es, Revenue, currency, from, to)
               + Net(es, TaxPayable, currency, from, to) == 0
            && Net(es, RefundLiability, currency, from, to) + Net(es, Cash, currency, from, to) == 0
  {
    LogPosted(rs);
    Conserved(Log(rs), currency, from, to);
  }

  lemma {:induction false} LogPosted(rs: seq<Record>)
    ensures AllPosted(Log(rs))
  {
    if rs != [] {
      LogPosted(rs[..|rs| - 1]);
    }
  }

  // ---- What the balances mean -------------------------------------------------------------------

  /** The tax that a payment splits off. */
  function TaxOf(r: Record): int {
    if r.PaymentRecord? && r.tax.Some? then r.tax.value else 0
  }

  function PaidIn(rs: seq<Record>, currency: string): int {
    if rs == [] then 0
    else
      var r := rs[|rs| - 1];
      PaidIn(rs[..|rs| - 1], currency) + (if r.PaymentRecord? && r.currency == currency then r.amount else 0)
  }

  function TaxIn(rs: seq<Record>, currency: string): int {
    if rs == [] then 0
    else TaxIn(rs[..|rs| - 1], currency) + (if rs[|rs| - 1].currency == currency then TaxOf(rs[|rs| - 1]) else 0)
  }

  function RefundedIn(rs: seq<Record>, currency: string): int {
    if rs == [] then 0
    else
      var r := rs[|rs| - 1];
      RefundedIn(rs[..|rs| - 1], currency) + (if r.RefundRecord? && r.currency == currency then r.amount else 0)
  }

  /** The balances that payments, their tax and refunds make. */
  predicate Balances(es: seq<Entry>, currency: string, paid: int, tax: int, refunded: int) {
    && Net(es, AccountsReceivable, currency, None, None) == paid - refunded
    && Net(es, Revenue, currency, None, None) == refunded - (paid - tax)
    && Net(es, TaxPayable, currency, None, None) == -tax
    && Net(es, RefundLiability, currency, None, None) == refunded
    && Net(es, Cash, currency, None, None) == -refunded
  }

  lemma NetOfOneMore(es: seq<Entry>, e: Entry, account: Account, currency: string)
    ensures Net(es + [e], account, currency, None, None) == Net(es, account, currency, None, None)
            + (if e.currency != currency then 0
               else (if e.debit == account then e.amount else 0) - (if e.credit == account then e.amount else 0))
  {
    assert (es + [e])[..|es|] == es;
  }

  lemma EntryBalances(es: seq<Entry>, e: Entry, currency: string, paid: int, tax: int, refunded: int)
    requires Balances(es, currency, paid, tax, refunded)
    ensures e.currency != currency ==> Balances(es + [e], currency, paid, tax, refunded)
    ensures e.currency == currency && e.debit == AccountsReceivable && e.credit == Revenue
            ==> Balances(es + [e], currency, paid + e.amount, tax, refunded)
    ensures e.currency == currency && e.debit == AccountsReceivable && e.credit == TaxPayable
            ==> Balances(es + [e], currency, paid + e.amount, tax + e.amount, refunded)
  {
    NetOfOneMore(es, e, AccountsReceivable, currency);
    NetOfOneMore(es, e, Revenue, currency);
    NetOfOneMore(es, e, TaxPayable, currency);
    NetOfOneMore(es, e, RefundLiability, currency);
    NetOfOneMore(es, e, Cash, currency);
    hide Net;
  }

  lemma RefundBalances(es: seq<Entry>, e: Entry, f: Entry, currency: string, paid: int, tax: int, refunded: int)
    requires Balances(es, currency, paid, tax, refunded)
    requires e.debit == Revenue && e.credit == AccountsReceivable && f.debit == RefundLiability && f.credit == Cash
    requires e.amount == f.amount && e.currency == f.currency
    ensures Balances(es + [e, f], currency, paid, tax, refunded + (if e.currency == currency then e.amount else 0))
  {
    assert es + [e, f] == es + [e] + [f];
    forall account
      ensures Net(es + [e, f], account, currency, None, None) == Net(es, account, currency, None, None)
              + (if e.currency != currency then 0
                 else (if e.debit == account then e.amount else 0) - (if e.credit == account then e.amount else 0)
                      + (if f.debit == account then f.amount else 0) - (if f.credit == account then f.amount else 0))
    {
      NetOfOneMore(es, e, account, currency);
      NetOfOneMore(es + [e], f, account, currency);
    }
    hide Net;
  }

  lemma RecordBalances(es: seq<Entry>, r: Record, currency: string, paid: int, tax: int, refunded: int)
    requires Balances(es, currency, paid, tax, refunded) && TaxOf(r) >= 0
    ensures var counted := r.currency == currency;
            Balances(es + r.Entries(), currency,
                     paid + (if r.PaymentRecord? && counted then r.amount else 0),
                     tax + (if counted then TaxOf(r) else 0),
                     refunded + (if r.RefundRecord? && counted then r.amount else 0))
  {
    var fs := r.Entries();
    hide Balances;
    if r.RefundRecord? {
      assert fs == [fs[0], fs[1]];
      RefundBalances(es, fs[0], fs[1], currency, paid, tax, refunded);
    } else {
      EntryBalances(es, fs[0], currency, paid, tax, refunded);
      if TaxOf(r) > 0 {
        assert es + fs == es + [fs[0]] + [fs[1]];
        EntryBalances(es + [fs[0]], fs[1], currency,
          if r.currency == currency then paid + fs[0].amount else paid, tax, refunded);
      } else {
        assert fs == [fs[0]];
      }
    }
  }

  /**
   Over every run of records without negative taxes each balance is what its account stands for: the
   receivable is paid less refunded, revenue what is earned without tax less refunds, the tax payable
   the tax, and cash has gone out for exactly the refunds.
   */
  lemma {:induction false} BalancesFollowRecords(rs: seq<Record>, currency: string)
    requires forall i :: 0 <= i < |rs| ==> TaxOf(rs[i]) >= 0
    ensures Balances(Log(rs), currency, PaidIn(rs, currency), TaxIn(rs, currency), RefundedIn(rs, currency))
  {
    hide *;
    if rs == [] {
      NoRecords(currency);
    } else {
      var n := |rs| - 1;
      BalancesFollowRecords(rs[..n], currency);
      LastRecord(rs, currency);
      RecordBalances(Log(rs[..n]), rs[n], currency, PaidIn(rs[..n], currency),
        TaxIn(rs[..n], currency), RefundedIn(rs[..n], currency));
    }
  }

  lemma NoRecords(currency: string)
    ensures Balances(Log([]), currency, PaidIn([], currency), TaxIn([], currency), RefundedIn([], currency))
  {
  }

  lemma LastRecord(rs: seq<Record>, currency: string)
    requires rs != []
    ensures var n, r := |rs| - 1, rs[|rs| - 1];
            && Log(rs) == Log(rs[..n]) + r.Entries()
            && PaidIn(rs, currency) == PaidIn(rs[..n], currency)
               + (if r.PaymentRecord? && r.currency == currency then r.amount else 0)
            && TaxIn(rs, currency) == TaxIn(rs[..n], currency) + (if r.currency == currency then TaxOf(r) else 0)
            && RefundedIn(rs, currency) == RefundedIn(rs[..n], currency)
               + (if r.RefundRecord? && r.currency == currency then r.amount else 0)
  {
  }

  /** The tax split leaves the receivable debit at the full amount exactly when the tax is not negative. */
  lemma SplitKeepsReceivableExactlyWhen(tenantId: string, transactionId: nat, amount: int, currency: string,
                                        tax: Option<int>, now: int)
    ensures Debits(PaymentEntries(tenantId, transactionId, amount, currency, tax, now),
        AccountsReceivable, currency, None, None)
         == amount
       <==> (tax.Some? ==> tax.value >= 0)
  {
    var es := PaymentEntries(tenantId, transactionId, amount, currency, tax, now);
    if |es| == 1 {
      assert es[..0] == [];
    } else {
      assert es[..1] == [es[0]] && [es[0]][..0] == [];
      assert Debits([es[0]], AccountsReceivable, currency, None, None) == es[0].amount;
    }
  }

  // ---- Entry by entry ---------------------------------------------------------------------------

  /** A payment posts receivable to revenue, net of any tax but 0, and a positive tax as an entry of its own. */
  lemma PaymentPostsExactly(tenantId: string, transactionId: nat, amount: int, currency: string,
                            tax: Option<int>, now: int)
    ensures var es := PaymentEntries(tenantId, transactionId, amount, currency, tax, now);
            var due := if tax.Some? then tax.value else 0;
            && |es| == (if due > 0 then 2 else 1)
            && (forall i :: 0 <= i < |es| ==>
                  && es[i].tenantId == tenantId && es[i].transactionId == transactionId
                  && es[i].currency == currency && es[i].createdAt == now && es[i].debit.AccountsReceivable?)
            && es[0].kind.Payment? && es[0].credit.Revenue? && es[0].amount + due == amount
            && (due > 0 ==> es[1].kind.Tax? && es[1].credit.TaxPayable? && es[1].amount == due)
  {
  }

  /** A refund posts revenue back to receivable, and the liability to cash, each with the whole amount. */
  lemma RefundPostsExactly(tenantId: string, transactionId: nat, amount: int, currency: string, now: int)
    ensures var es := RefundEntries(tenantId, transactionId, amount, currency, now);
            && |es| == 2
            && (forall i :: 0 <= i < |es| ==>
                  && es[i].tenantId == tenantId && es[i].transactionId == transactionId && es[i].kind.Refund?
                  && es[i].amount == amount && es[i].currency == currency && es[i].createdAt == now)
            && es[0].debit.Revenue? && es[0].credit.AccountsReceivable?
            && es[1].debit.RefundLiability? && es[1].credit.Cash?
  {
  }

  /** An entry counts for the account on its side, in its currency, from the first to the last millisecond. */
  lemma EntryCountsExactly(e: Entry, account: Account, currency: string, from: Option<int>, to: Option<int>)
    ensures var inRange := e.currency == currency
                           && (from.Some? ==> e.createdAt >= from.value) && (to.Some? ==> e.createdAt <= to.value);
            && Debits([e], account, currency, from, to) == (if inRange && e.debit == account then e.amount else 0)
            && Credits([e], account, currency, from, to) == (if inRange && e.credit == account then e.amount else 0)
  {
    assert [e][..0] == [];
  }
}
