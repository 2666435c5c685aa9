/**
 The database rows of the payment protocol. A row's id is its index in its table: ids are assigned at
 insertion, never reused, and rows are never deleted (prisma/schema.prisma).
 */
module PaymentRows {
  import opened Common
  import opened Ledger
  import opened Subscriptions

  datatype Provider = Stripe | Razorpay | CashDesk

  datatype TransactionStatus = Pending | Processing | Success | Failed | Refunded | PartiallyRefunded

  datatype AttemptStatus = Pending | Processing | Success | Failed | Expired | Cancelled

  datatype RefundStatus = Processing | Success | Failed

  /** What a transaction's metadata says about recurring billing; an absent plan id is empty. */
  datatype Billing = OneOff | Recurring(planId: string, trialDays: Option<int>)

  datatype Transaction = Transaction(
    tenantId: string, orderId: string, idempotencyKey: string, customerId: string,
    amount: int, currency: string, status: TransactionStatus, billing: Billing)

  datatype Attempt = Attempt(
    transactionId: nat, provider: Provider, providerOrderId: string,
    amount: int, currency: string, status: AttemptStatus, expiresAt: int)

  datatype RefundRow = RefundRow(
    tenantId: string, transactionId: nat, key: string, amount: int, currency: string, status: RefundStatus)

  datatype Rows = Rows(
    transactions: seq<Transaction>, attempts: seq<Attempt>, refunds: seq<RefundRow>,
    ledger: seq<Entry>, subscriptions: seq<Subscription>, plans: map<string, Plan>)

  /** The tables, updated in place by the services. */
  class Database {
    var transactions: seq<Transaction>
    var attempts: seq<Attempt>
    var refunds: seq<RefundRow>
    var ledger: seq<Entry>
    var subscriptions: seq<Subscription>
    const plans: map<string, Plan>

    constructor (plans: map<string, Plan>)
      ensures Contents() == Rows([], [], [], [], [], plans)
    {
      transactions, attempts, refunds, ledger, subscriptions := [], [], [], [], [];
      this.plans := plans;
    }

    function Contents(): Rows
      reads this
    {
      Rows(transactions, attempts, refunds, ledger, subscriptions, plans)
    }

    /** Rolls an atomic block back to the rows it began with. */
    method Restore(rows: Rows)
      requires rows.plans == plans
      modifies this
      ensures Contents() == rows
    {
      transactions, attempts, refunds, ledger, subscriptions :=
        rows.transactions, rows.attempts, rows.refunds, rows.ledger, rows.subscriptions;
    }
  }

  predicate Open(status: AttemptStatus) {
    status.Pending? || status.Processing?
  }

  predicate Succeeded(attempts: seq<Attempt>, a: nat, transactionId: nat) {
    a < |attempts| && attempts[a].transactionId == transactionId && attempts[a].status.Success?
  }

  predicate HasSuccess(attempts: seq<Attempt>, transactionId: nat) {
    exists a :: 0 <= a < |attempts| && Succeeded(attempts, a, transactionId)
  }

  /** The partial unique index: no transaction has two SUCCESS attempts. */
  ghost predicate UniqueSuccess(attempts: seq<Attempt>) {
    forall a, b | 0 <= a < |attempts| && 0 <= b < |attempts| ::
      (attempts[a].status.Success? && attempts[b].status.Success?
       && attempts[a].transactionId == attempts[b].transactionId)
      ==> a == b
  }

  /** Some attempt other than `a` holds the index entry of the transaction. */
  predicate IndexTaken(attempts: seq<Attempt>, a: nat, transactionId: nat) {
    exists b :: 0 <= b < |attempts| && b != a && Succeeded(attempts, b, transactionId)
  }
}
