/**
 Verification and settlement of payment attempts: the attempt service's status writes and the
 orchestrator's verifyPayment (src/modules/payment/attempt/payment-attempt.service.ts,
 src/modules/payment/orchestrator/payment-orchestrator.service.ts).

 The functions give the effect of each step on the rows; the methods make the same writes in place.
 The settling block reads the rows of an earlier snapshot and writes onto the rows at its commit; a
 call that runs alone reads and writes the same rows.
 */
module Settlement {
  import opened Common
  import opened Ledger
  import opened Subscriptions
  import opened PaymentRows

  // ---- Status writes ----------------------------------------------------------------------------

  function WithStatus(attempts: seq<Attempt>, a: nat, status: AttemptStatus): (r: seq<Attempt>)
    requires a < |attempts|
  {
    attempts[a := attempts[a].(status := status)]
  }

  /** markFailed and markExpired write their status whatever the row's status is. */
  function Overwrite(rows: Rows, a: nat, status: AttemptStatus): Rows {
    if a < |rows.attempts| then rows.(attempts := WithStatus(rows.attempts, a, status)) else rows
  }

  /** expireStalePendingAttempts. */
  function ExpireStale(attempts: seq<Attempt>, now: int): (r: seq<Attempt>)
    ensures |r| == |attempts|
  {
    seq(|attempts|, i requires 0 <= i < |attempts| =>
      if Open(attempts[i].status) && attempts[i].expiresAt < now then attempts[i].(status := AttemptStatus.Expired)
      else attempts[i])
  }

  function StaleCount(attempts: seq<Attempt>, now: int): nat {
    if attempts == [] then 0
    else
      var a := attempts[|attempts| - 1];
      StaleCount(attempts[..|attempts| - 1], now) + (if Open(a.status) && a.expiresAt < now then 1 else 0)
  }

  // ---- The provider's answer --------------------------------------------------------------------

  /** What a confirmed payment's merged metadata says about an external subscription. */
  datatype Confirmation = Confirmation(
    subscriptionId: string, periodStart: Option<int>, periodEnd: Option<int>,
    status: SubscriptionStatus, now: int)

  datatype Answer = Confirmed(confirmation: Confirmation) | Refused | AnswerThrows

  /** What verifyPayment has read when it asks the provider. */
  datatype Verification = Verification(
    tenantId: string, transactionId: nat, attemptId: nat, attempt: Attempt, transaction: Transaction)

  // ---- Recurring subscriptions ------------------------------------------------------------------

  function FindExternal(subscriptions: seq<Subscription>, tenantId: string, subscriptionId: Option<string>): (i: nat)
    ensures i <= |subscriptions|
    ensures i < |subscriptions| ==>
              subscriptions[i].tenantId == tenantId && subscriptions[i].providerSubscriptionId == subscriptionId
    ensures forall j :: 0 <= j < i ==>
              subscriptions[j].tenantId != tenantId || subscriptions[j].providerSubscriptionId != subscriptionId
  {
    if subscriptions == [] then 0
    else if subscriptions[0].tenantId == tenantId && subscriptions[0].providerSubscriptionId == subscriptionId then 0
    else
      assert forall j :: 0 < j < |subscriptions| ==> subscriptions[j] == subscriptions[1..][j - 1];
      1 + FindExternal(subscriptions[1..], tenantId, subscriptionId)
  }

  predicate PlanActive(plans: map<string, Plan>, planId: string) {
    planId in plans && plans[planId].isActive
  }

  /** syncExternalSubscription: update the row with the provider's id, or insert one. */
  function SyncExternal(seen: seq<Subscription>,
      subscriptions: seq<Subscription>, plans: map<string, Plan>, s: Subscription)
    : Result<seq<Subscription>>
  {
    if !PlanActive(plans, s.planId) then Thrown(PlanInactive)
    else
      var i := FindExternal(seen, s.tenantId, s.providerSubscriptionId);
      if i < |seen| && i < |subscriptions| then Ok(subscriptions[i := s]) else Ok(subscriptions + [s])
  }

  function ProviderSubscriptionId(v: Verification, c: Confirmation): string {
    if c.subscriptionId != "" then c.subscriptionId
    else if v.attempt.provider.Razorpay? && "sub_" <= v.attempt.providerOrderId then v.attempt.providerOrderId
    else ""
  }

  /** syncRecurringSubscriptionOnSuccess. */
  function SyncRecurring(seen: seq<Subscription>, subscriptions: seq<Subscription>, plans: map<string, Plan>,
                         v: Verification, c: Confirmation): Result<seq<Subscription>>
  {
    match v.transaction.billing
    case OneOff => Ok(subscriptions)
    case Recurring(planId, trialDays) =>
      if planId == "" then Ok(subscriptions)
      else if v.attempt.provider.CashDesk? then
        if !PlanActive(plans, planId) then Thrown(PlanInactive)
        else
          var override := if trialDays.Some? && trialDays.value > 0 then trialDays else None;
          Ok(subscriptions
            + [NewSubscription(v.tenantId, v.transaction.customerId, planId, plans[planId], override, c.now)])
      else
        var id := ProviderSubscriptionId(v, c);
        if id == "" || c.periodStart.None? || c.periodEnd.None? then Ok(subscriptions)
        else SyncExternal(seen, subscriptions, plans,
                          Subscription(v.tenantId, v.transaction.customerId, planId, c.status,
                                       c.periodStart.value, c.periodEnd.value, Some(id)))
  }

  // ---- The settling block -----------------------------------------------------------------------

  datatype Mark = WriteSuccess | AlreadySuccess | Refuse(error: Error)

  /** markSuccess's decision on the rows it reads. */
  function MarkDecision(attempts: seq<Attempt>, a: nat): Mark {
    if a >= |attempts| then Refuse(NotFound)
    else if attempts[a].status.Success? then AlreadySuccess
    else if HasSuccess(attempts, attempts[a].transactionId) then Refuse(Conflict)
    else WriteSuccess
  }

  /** The write of SUCCESS, checked against the partial unique index. */
  function MarkSuccess(seen: seq<Attempt>, attempts: seq<Attempt>, a: nat): Result<seq<Attempt>>
    requires a < |attempts|
  {
    match MarkDecision(seen, a)
    case Refuse(e) => Thrown(e)
    case AlreadySuccess => Ok(attempts)
    case WriteSuccess =>
      if IndexTaken(attempts, a, attempts[a].transactionId) then Thrown(UniqueViolation)
      else Ok(WithStatus(attempts, a, AttemptStatus.Success))
  }

  /**
   The block's updateMany: it finds open attempts of the transaction in the rows it sees, and checks
   each again on the current row before it writes CANCELLED.
   */
  function CancelOthers(seen: seq<Attempt>, attempts: seq<Attempt>, a: nat, transactionId: nat): (r: seq<Attempt>)
    ensures |r| == |attempts|
  {
    seq(|attempts|, i requires 0 <= i < |attempts| =>
      if i != a && i < |seen| && Open(seen[i].status)
         && attempts[i].transactionId == transactionId && Open(attempts[i].status)
      then attempts[i].(status := AttemptStatus.Cancelled)
      else attempts[i])
  }

  function WithTransactionStatus(transactions: seq<Transaction>, t: nat, status: TransactionStatus): seq<Transaction>
    requires t < |transactions|
  {
    transactions[t := transactions[t].(status := status)]
  }

  /** The whole block: seen rows decide, current rows are written, and any error leaves them as they were. */
  function SettleBlock(seen: Rows, rows: Rows, v: Verification, c: Confirmation): Result<Rows>
    requires v.attemptId < |rows.attempts|
  {
    if v.transactionId >= |rows.transactions| then Thrown(NotFound)
    else match MarkSuccess(seen.attempts, rows.attempts, v.attemptId)
      case Thrown(e) => Thrown(e)
      case Ok(marked) =>
        match SyncRecurring(seen.subscriptions, rows.subscriptions, rows.plans, v, c)
        case Thrown(e) => Thrown(e)
        case Ok(subscriptions) =>
          Ok(rows.(
            attempts := CancelOthers(seen.attempts, marked, v.attemptId, v.transactionId),
            transactions := WithTransactionStatus(rows.transactions, v.transactionId, TransactionStatus.Success),
            ledger := rows.ledger
                      + PaymentEntries(v.tenantId, v.transactionId, v.attempt.amount, v.attempt.currency, None, c.now),
            subscriptions := subscriptions))
  }

  // ---- A verification that runs alone -----------------------------------------------------------

  /** The rows verifyPayment reads first; an empty tenant id does not filter. */
  function ReadForVerification(rows: Rows, tenantId: string, transactionId: nat, attemptId: nat): Result<Verification> {
    if attemptId >= |rows.attempts| || transactionId >= |rows.transactions| then Thrown(NotFound)
    else if tenantId != "" && rows.transactions[transactionId].tenantId != tenantId then Thrown(NotFound)
    else Ok(Verification(tenantId, transactionId, attemptId,
      rows.attempts[attemptId], rows.transactions[transactionId]))
  }

  datatype Verified = Verified(rows: Rows, outcome: Result<bool>)

  /** verifyPayment with no other write in between. */
  function Verify(rows: Rows, tenantId: string, transactionId: nat, attemptId: nat, answer: Answer): (r: Verified)
  {
    match ReadForVerification(rows, tenantId, transactionId, attemptId)
    case Thrown(e) => Verified(rows, Thrown(e))
    case Ok(v) =>
      if v.attempt.status.Success? then Verified(rows, Ok(true))
      else if v.attempt.status.Failed? then Verified(rows, Ok(false))
      else match answer
        case AnswerThrows => Verified(rows, Thrown(ProviderError))
        case Refused => Verified(Overwrite(rows, attemptId, AttemptStatus.Failed), Ok(false))
        case Confirmed(c) =>
          match SettleBlock(rows, rows, v, c)
          case Thrown(e) => Verified(rows, Thrown(e))
          case Ok(settled) => Verified(settled, Ok(true))
  }

  // ---- The services, updating the tables in place -----------------------------------------------

  /** markFailed, and with EXPIRED markExpired; a missing row throws. */
  method OverwriteStatus(db: Database, a: nat, status: AttemptStatus) returns (r: Result<bool>)
    modifies db
    ensures db.Contents() == Overwrite(old(db.Contents()), a, status)
    ensures r.Ok? <==> a < |old(db.attempts)|
  {
    if a >= |db.attempts| {
      return Thrown(NotFound);
    }
    db.attempts := db.attempts[a := db.attempts[a].(status := status)];
    return Ok(true);
  }

  method ExpireStalePendingAttempts(db: Database, now: int) returns (count: nat)
    modifies db`attempts
    ensures db.attempts == ExpireStale(old(db.attempts), now)
    ensures count == StaleCount(old(db.attempts), now)
  {
    ghost var before := db.attempts;
    ghost var after := ExpireStale(before, now);
    count := 0;
    var n := |db.attempts|;
    for i := 0 to n
      invariant |db.attempts| == n == |before|
      invariant forall j :: 0 <= j < n ==> db.attempts[j] == if j < i then after[j] else before[j]
      invariant count == StaleCount(before[..i], now)
    {
      var a := db.attempts[i];
      assert before[..i + 1][..i] == before[..i];
      if Open(a.status) && a.expiresAt < now {
        db.attempts := db.attempts[i := a.(status := AttemptStatus.Expired)];
        count := count + 1;
      }
    }
    assert before[..n] == before;
  }

  method MarkSuccessInPlace(db: Database, a: nat) returns (r: Result<bool>)
    requires a < |db.attempts|
    modifies db`attempts
    ensures r.Ok? <==> MarkSuccess(old(db.attempts), old(db.attempts), a).Ok?
    ensures r.Ok? ==> db.attempts == MarkSuccess(old(db.attempts), old(db.attempts), a).value
    ensures r.Thrown? ==>
              r.error == MarkSuccess(old(db.attempts), old(db.attempts), a).error && db.attempts == old(db.attempts)
  {
    var attempt := db.attempts[a];
    if attempt.status.Success? {
      return Ok(true);
    }
    if HasSuccess(db.attempts, attempt.transactionId) {
      return Thrown(Conflict);
    }
    db.attempts := db.attempts[a := attempt.(status := AttemptStatus.Success)];
    return Ok(true);
  }

  method CancelOthersInPlace(db: Database, a: nat, transactionId: nat)
    modifies db`attempts
    ensures db.attempts == CancelOthers(old(db.attempts), old(db.attempts), a, transactionId)
  {
    ghost var before := db.attempts;
    ghost var after := CancelOthers(before, before, a, transactionId);
    for i := 0 to |db.attempts|
      invariant |db.attempts| == |before|
      invariant forall j :: 0 <= j < |before| ==> db.attempts[j] == if j < i then after[j] else before[j]
    {
      var row := db.attempts[i];
      if i != a && row.transactionId == transactionId && Open(row.status) {
        db.attempts := db.attempts[i := row.(status := AttemptStatus.Cancelled)];
      }
    }
  }

  /**
   verifyPayment. The block writes the tables one after the other and is rolled back if markSuccess
   or the subscription sync throws. updateMany runs before the sync and reads the attempt just
   marked, which its filter excludes.
   */
  method VerifyPayment(db: Database, tenantId: string, transactionId: nat, attemptId: nat, answer: Answer)
    returns (r: Result<bool>)
    modifies db
    ensures db.Contents() == Verify(old(db.Contents()), tenantId, transactionId, attemptId, answer).rows
    ensures r == Verify(old(db.Contents()), tenantId, transactionId, attemptId, answer).outcome
  {
    if attemptId >= |db.attempts| || transactionId >= |db.transactions| {
      return Thrown(NotFound);
    }
    var attempt, transaction := db.attempts[attemptId], db.transactions[transactionId];
    if tenantId != "" && transaction.tenantId != tenantId {
      return Thrown(NotFound);
    }
    if attempt.status.Success? {
      return Ok(true);
    }
    if attempt.status.Failed? {
      return Ok(false);
    }
    match answer {
      case AnswerThrows =>
        return Thrown(ProviderError);
      case Refused =>
        var _ := OverwriteStatus(db, attemptId, AttemptStatus.Failed);
        return Ok(false);
      case Confirmed(c) =>
        var begin := db.Contents();
        var marked := MarkSuccessInPlace(db, attemptId);
        if marked.Thrown? {
          return Thrown(marked.error);
        }
        CancelOthersInPlace(db, attemptId, transactionId);
        assert db.attempts == CancelOthers(begin.attempts, WithStatus(begin.attempts, attemptId, AttemptStatus.Success),
                                           attemptId, transactionId);
        db.transactions := WithTransactionStatus(db.transactions, transactionId, TransactionStatus.Success);
        db.ledger := db.ledger + PaymentEntries(tenantId, transactionId, attempt.amount, attempt.currency, None, c.now);
        var v := Verification(tenantId, transactionId, attemptId, attempt, transaction);
        var synced := SyncRecurring(db.subscriptions, db.subscriptions, db.plans, v, c);
        if synced.Thrown? {
          db.Restore(begin);
          return Thrown(synced.error);
        }
        db.subscriptions := synced.value;
        return Ok(true);
    }
  }
}
