/**
 What a settlement leaves in every row, stated on the rows alone: which attempts it cancels, alone, with
 an older snapshot, and over whole runs (src/modules/payment/orchestrator/payment-orchestrator.service.ts:261-374).
 */
module SettlementRows {
  import opened Common
  import opened Ledger
  import opened Subscriptions
  import opened PaymentRows
  import opened Settlement
  import opened SerialVerification
  import opened Protocol
  import E = ExactlyOnce

  /** PENDING or PROCESSING: the attempt can still be paid. */
  predicate Payable(attempts: seq<Attempt>, i: nat) {
    i < |attempts| && (attempts[i].status.Pending? || attempts[i].status.Processing?)
  }

  // ---- One block --------------------------------------------------------------------------------

  /**
   A committing block cancels another attempt exactly when it belongs to the call's transaction, can be
   paid at the commit and could be paid in the rows the block saw. It changes no other attempt but its
   own, which it leaves SUCCESS unless it saw it so already.
   */
  lemma BlockCancelsExactly(seen: Rows, rows: Rows, v: Verification, c: Confirmation)
    requires v.attemptId < |rows.attempts| && SettleBlock(seen, rows, v, c).Ok?
    ensures var after, a := SettleBlock(seen, rows, v, c).value.attempts, v.attemptId;
            && |after| == |rows.attempts|
            && (forall i :: 0 <= i < |after| && i != a ==>
                  var cancels := rows.attempts[i].transactionId == v.transactionId
                                 && Payable(rows.attempts, i) && Payable(seen.attempts, i);
                  && (cancels ==> after[i] == rows.attempts[i].(status := AttemptStatus.Cancelled))
                  && (!cancels ==> after[i] == rows.attempts[i]))
            && after[a] == rows.attempts[a].(status := after[a].status)
            && a < |seen.attempts|
            && after[a].status == (if seen.attempts[a].status.Success? then rows.attempts[a].status
                                   else AttemptStatus.Success)
  {
  }

  /** Another attempt of the transaction `t` is SUCCESS. */
  ghost predicate OtherPaid(attempts: seq<Attempt>, a: nat, t: nat) {
    exists b: nat :: b < |attempts| && b != a && attempts[b].status.Success? && attempts[b].transactionId == t
  }

  lemma OtherPaidExactlyWhen(attempts: seq<Attempt>, a: nat, t: nat)
    ensures IndexTaken(attempts, a, t) <==> OtherPaid(attempts, a, t)
    ensures a < |attempts| && !attempts[a].status.Success? ==> (HasSuccess(attempts, t) <==> OtherPaid(attempts, a, t))
  {
    if OtherPaid(attempts, a, t) {
      var b: nat :| b < |attempts| && b != a && attempts[b].status.Success? && attempts[b].transactionId == t;
      assert Succeeded(attempts, b, t);
    }
  }

  /**
   How a block ends whose snapshot may be old: its rows are missing; it sees another SUCCESS; it does not
   see one that is there at the commit, and the index refuses it; the plan is not active; or it commits.
   */
  lemma BlockEndsExactly(seen: Rows, rows: Rows, v: Verification, c: Confirmation)
    requires v.attemptId < |rows.attempts|
    ensures var r, a := SettleBlock(seen, rows, v, c), v.attemptId;
            var missing := v.transactionId >= |rows.transactions| || a >= |seen.attempts|;
            var marks := !missing && !seen.attempts[a].status.Success?;
            && (r == Thrown(NotFound) <==> missing)
            && (r == Thrown(Conflict) <==> marks && OtherPaid(seen.attempts, a, seen.attempts[a].transactionId))
            && (r == Thrown(UniqueViolation) <==>
                  marks && !OtherPaid(seen.attempts, a, seen.attempts[a].transactionId)
                  && OtherPaid(rows.attempts, a, rows.attempts[a].transactionId))
            && (r.Thrown? ==> r.error in {NotFound, Conflict, UniqueViolation, PlanInactive})
            && (r == Thrown(PlanInactive) ==>
                  SyncRecurring(seen.subscriptions, rows.subscriptions, rows.plans, v, c).Thrown?)
  {
    if v.attemptId < |seen.attempts| {
      OtherPaidExactlyWhen(seen.attempts, v.attemptId, seen.attempts[v.attemptId].transactionId);
    }
    OtherPaidExactlyWhen(rows.attempts, v.attemptId, rows.attempts[v.attemptId].transactionId);
    hide HasSuccess, IndexTaken, OtherPaid, FindExternal, ProviderSubscriptionId, NewSubscription;
  }

  /** The block's other writes: one transaction's status, and one PAYMENT entry at the end of the ledger. */
  lemma BlockWritesExactly(seen: Rows, rows: Rows, v: Verification, c: Confirmation)
    requires v.attemptId < |rows.attempts| && SettleBlock(seen, rows, v, c).Ok?
    ensures var after := SettleBlock(seen, rows, v, c).value;
            && v.transactionId < |rows.transactions| == |after.transactions|
            && (forall t: nat :: t < |rows.transactions| ==>
                  after.transactions[t] == if t == v.transactionId
                                           then rows.transactions[t].(status := TransactionStatus.Success)
                                           else rows.transactions[t])
            && after.refunds == rows.refunds && after.plans == rows.plans
            && |after.ledger| == |rows.ledger| + 1 && after.ledger[..|rows.ledger|] == rows.ledger
            && after.ledger[|rows.ledger|]
               == Entry(v.tenantId, v.transactionId, Payment, AccountsReceivable, Revenue,
                        v.attempt.amount, v.attempt.currency, c.now)
  {
    hide MarkSuccess, CancelOthers, SyncRecurring;
  }

  // ---- The subscription of a recurring payment --------------------------------------------------

  /** The provider's subscription id: the confirmed one, or a Razorpay order id that is one; empty if neither. */
  function SubscriptionIdOf(attempt: Attempt, confirmed: string): string {
    if |confirmed| > 0 then confirmed
    else if attempt.provider.Razorpay? && |attempt.providerOrderId| >= 4 && attempt.providerOrderId[..4] == "sub_"
    then attempt.providerOrderId else ""
  }

  /** The first row with the tenant and the provider's id is replaced; if there is none, the row is appended. */
  ghost predicate RowWritten(before: seq<Subscription>, after: seq<Subscription>, s: Subscription) {
    || (after == before + [s]
        && forall i :: 0 <= i < |before| ==>
             before[i].tenantId != s.tenantId || before[i].providerSubscriptionId != s.providerSubscriptionId)
    || (|after| == |before| && exists i :: 0 <= i < |before| && FirstReplaced(before, after, s, i))
  }

  ghost predicate FirstReplaced(before: seq<Subscription>, after: seq<Subscription>, s: Subscription, i: nat)
    requires i < |before| == |after|
  {
    && after[i] == s
    && before[i].tenantId == s.tenantId && before[i].providerSubscriptionId == s.providerSubscriptionId
    && (forall j :: 0 <= j < |before| && j != i ==> after[j] == before[j])
    && (forall j :: 0 <= j < i ==>
          before[j].tenantId != s.tenantId || before[j].providerSubscriptionId != s.providerSubscriptionId)
  }

  lemma ExternalWritten(subscriptions: seq<Subscription>, plans: map<string, Plan>, s: Subscription)
    ensures var r := SyncExternal(subscriptions, subscriptions, plans, s);
            && (r.Ok? <==> s.planId in plans && plans[s.planId].isActive)
            && (r.Thrown? ==> r == Thrown(PlanInactive))
            && (r.Ok? ==> RowWritten(subscriptions, r.value, s))
  {
    var r, i := SyncExternal(subscriptions, subscriptions, plans, s),
                FindExternal(subscriptions, s.tenantId, s.providerSubscriptionId);
    if r.Ok? && i < |subscriptions| {
      assert FirstReplaced(subscriptions, r.value, s, i);
    }
  }

  /**
   What a confirmed payment does to the subscriptions: nothing unless its transaction is recurring and
   names a plan; with cash a new subscription, with a trial if one is named; otherwise the row of the
   provider's subscription, if its id and period are known. An inactive plan refuses exactly the writes.
   */
  lemma SyncExactly(subscriptions: seq<Subscription>, plans: map<string, Plan>, v: Verification, c: Confirmation)
    ensures var r := SyncRecurring(subscriptions, subscriptions, plans, v, c);
            var b, id := v.transaction.billing, SubscriptionIdOf(v.attempt, c.subscriptionId);
            var cash := v.attempt.provider.CashDesk?;
            var writes := b.Recurring? && b.planId != ""
                          && (cash || (id != "" && c.periodStart.Some? && c.periodEnd.Some?));
            && (r.Thrown? <==> writes && !(b.planId in plans && plans[b.planId].isActive))
            && (r.Thrown? ==> r == Thrown(PlanInactive))
            && (!writes ==> r == Ok(subscriptions))
            && (writes && cash && r.Ok? ==>
                  var trial := if b.trialDays.Some? && b.trialDays.value > 0 then b.trialDays else None;
                  r.value == subscriptions + [NewSubscription(v.tenantId, v.transaction.customerId, b.planId,
                                                              plans[b.planId], trial, c.now)])
            && (writes && !cash && r.Ok? ==>
                  RowWritten(subscriptions, r.value,
                             Subscription(v.tenantId, v.transaction.customerId, b.planId, c.status,
                                          c.periodStart.value, c.periodEnd.value, Some(id))))
  {
    var b, id := v.transaction.billing, SubscriptionIdOf(v.attempt, c.subscriptionId);
    assert ProviderSubscriptionId(v, c) == id;
    hide SubscriptionIdOf, ProviderSubscriptionId, NewSubscription, FindExternal, RowWritten;
    if b.Recurring? && c.periodStart.Some? && c.periodEnd.Some? {
      ExternalWritten(subscriptions, plans,
                      Subscription(v.tenantId, v.transaction.customerId, b.planId, c.status,
                                   c.periodStart.value, c.periodEnd.value, Some(id)));
    }
    hide SyncExternal;
  }

  // ---- Expiry -----------------------------------------------------------------------------------

  /** The attempts that can be paid and are past their time. */
  function Overdue(attempts: seq<Attempt>, now: int): set<nat> {
    set i: nat | i < |attempts| && Payable(attempts, i) && now > attempts[i].expiresAt
  }

  /** Expiry writes EXPIRED to exactly these, and counts them. */
  lemma ExpiryExactly(attempts: seq<Attempt>, now: int)
    ensures var after := ExpireStale(attempts, now);
            && |after| == |attempts|
            && (forall i: nat :: i < |attempts| ==>
                  after[i] == if i in Overdue(attempts, now)
                              then attempts[i].(status := AttemptStatus.Expired) else attempts[i])
    ensures StaleCount(attempts, now) == |Overdue(attempts, now)|
  {
    CountIsOverdue(attempts, now);
  }

  lemma {:induction false} CountIsOverdue(attempts: seq<Attempt>, now: int)
    ensures StaleCount(attempts, now) == |Overdue(attempts, now)|
  {
    if attempts != [] {
      var n := |attempts| - 1;
      CountIsOverdue(attempts[..n], now);
      OneMoreOverdue(attempts, now);
      hide Overdue;
    }
  }

  lemma OneMoreOverdue(attempts: seq<Attempt>, now: int)
    requires attempts != []
    ensures var n := |attempts| - 1;
            var late := Open(attempts[n].status) && attempts[n].expiresAt < now;
            && Overdue(attempts, now) == Overdue(attempts[..n], now) + (if late then {n} else {})
            && n !in Overdue(attempts[..n], now)
  {
  }

  // ---- One call ---------------------------------------------------------------------------------

  /**
   A call that settles leaves no attempt of its transaction that can be paid. Each attempt but its own
   that belongs to another transaction, or could not be paid, is as it was.
   */
  lemma SettlingCancelsExactly(rows: Rows, tenantId: string, t: nat, a: nat, answer: Answer)
    requires Settles(rows, tenantId, t, a, answer)
    ensures var after := Verify(rows, tenantId, t, a, answer).rows.attempts;
            && |after| == |rows.attempts|
            && after[a] == rows.attempts[a].(status := AttemptStatus.Success)
            && (forall i: nat :: i < |after| && after[i].transactionId == t ==> !Payable(after, i))
            && (forall i: nat :: i < |after| && i != a ==>
                  after[i] == if rows.attempts[i].transactionId == t && Payable(rows.attempts, i)
                              then rows.attempts[i].(status := AttemptStatus.Cancelled)
                              else rows.attempts[i])
  {
    var v, c := SettlingIsABlock(rows, tenantId, t, a, answer);
    BlockCancelsExactly(rows, rows, v, c);
    assert !rows.attempts[a].status.Success?;
    hide SettleBlock, Verify;
  }

  /** A call that does not settle changes at most its own attempt, to FAILED, when the provider refuses. */
  lemma OtherwiseOnlyFails(rows: Rows, tenantId: string, t: nat, a: nat, answer: Answer)
    requires !Settles(rows, tenantId, t, a, answer)
    ensures var after := Verify(rows, tenantId, t, a, answer).rows;
            && after == rows.(attempts := after.attempts) && |after.attempts| == |rows.attempts|
            && (forall i :: 0 <= i < |rows.attempts| && i != a ==> after.attempts[i] == rows.attempts[i])
            && (a < |rows.attempts| ==>
                  after.attempts[a]
                  == if Verify(rows, tenantId, t, a, answer).outcome == Ok(false)
                     then rows.attempts[a].(status := AttemptStatus.Failed) else rows.attempts[a])
  {
    hide SettleBlock;
  }

  /** The rows that the call needs are there, and the tenant, if one is named, owns the transaction. */
  predicate Found(rows: Rows, tenantId: string, t: nat, a: nat) {
    && a < |rows.attempts| && t < |rows.transactions|
    && (tenantId == "" || tenantId == rows.transactions[t].tenantId)
  }

  /** Another attempt of the attempt's own transaction is SUCCESS. */
  ghost predicate PaidElsewhere(attempts: seq<Attempt>, a: nat)
    requires a < |attempts|
  {
    exists b: nat :: b < |attempts| && b != a && attempts[b].status.Success?
                     && attempts[b].transactionId == attempts[a].transactionId
  }

  /**
   How a call ends, for every answer: not found, decided already, refused, refused by a SUCCESS of
   another attempt, or settled unless the subscription's plan is not active.
   */
  lemma VerifyEndsExactly(rows: Rows, tenantId: string, t: nat, a: nat, answer: Answer)
    ensures var r := Verify(rows, tenantId, t, a, answer).outcome;
            && (r == Thrown(NotFound) <==> !Found(rows, tenantId, t, a))
            && (r == Ok(false) <==> Found(rows, tenantId, t, a)
                                    && (rows.attempts[a].status.Failed?
                                        || (!rows.attempts[a].status.Success? && answer.Refused?)))
            && (r == Thrown(ProviderError) <==> Found(rows, tenantId, t, a) && !rows.attempts[a].status.Failed?
                                                && !rows.attempts[a].status.Success? && answer.AnswerThrows?)
            && (r == Thrown(Conflict) <==> Found(rows, tenantId, t, a) && !rows.attempts[a].status.Failed?
                                           && !rows.attempts[a].status.Success? && answer.Confirmed?
                                           && PaidElsewhere(rows.attempts, a))
            && (r == Ok(true) ==> Found(rows, tenantId, t, a)
                                  && (rows.attempts[a].status.Success? || answer.Confirmed?))
            && (r.Thrown? && r.error.PlanInactive? ==> rows.transactions[t].billing.Recurring?)
            && (r.Ok? || r.error in {NotFound, ProviderError, Conflict, PlanInactive})
  {
    hide PaymentEntries, CancelOthers, NewSubscription, ProviderSubscriptionId, FindExternal;
    if Found(rows, tenantId, t, a) && !rows.attempts[a].status.Success? {
      ConflictExactlyWhen(rows.attempts, a);
    }
    hide HasSuccess, IndexTaken;
  }

  lemma ConflictExactlyWhen(attempts: seq<Attempt>, a: nat)
    requires a < |attempts| && !attempts[a].status.Success?
    ensures HasSuccess(attempts, attempts[a].transactionId) <==> PaidElsewhere(attempts, a)
    ensures IndexTaken(attempts, a, attempts[a].transactionId) <==> PaidElsewhere(attempts, a)
  {
    var t := attempts[a].transactionId;
    if PaidElsewhere(attempts, a) {
      var b: nat :| b < |attempts| && b != a && attempts[b].status.Success? && attempts[b].transactionId == t;
      assert Succeeded(attempts, b, t);
    }
  }

  // ---- Writes from elsewhere --------------------------------------------------------------------

  /** The protocol's writes from other services are those services' own: what each does to the rows. */
  lemma ElsewhereWritesExactly(rows: Rows, e: Event)
    ensures var after := StepRows(rows, e);
            && ((e.MarkFailed? || e.MarkExpired?) && e.attemptId < |rows.attempts| ==>
                  after == rows.(attempts := rows.attempts[e.attemptId := rows.attempts[e.attemptId].(
                                               status := if e.MarkFailed? then AttemptStatus.Failed
                                                         else AttemptStatus.Expired)]))
            && (e.ExpirePending? ==>
                  && after == rows.(attempts := after.attempts) && |after.attempts| == |rows.attempts|
                  && forall i: nat :: i < |rows.attempts| ==>
                       after.attempts[i] == if i in Overdue(rows.attempts, e.now)
                                            then rows.attempts[i].(status := AttemptStatus.Expired)
                                            else rows.attempts[i])
            && (e.NewAttempt? ==> after == rows.(attempts := after.attempts)
                                  && |after.attempts| == |rows.attempts| + 1 && rows.attempts <= after.attempts
                                  && Payable(after.attempts, |rows.attempts|)
                                  && after.attempts[|rows.attempts|].transactionId == e.attempt.transactionId
                                  && after.attempts[|rows.attempts|].amount == e.attempt.amount)
            && (e.NewTransaction? ==> after == rows.(transactions := rows.transactions + [e.transaction]))
            && (e.RefundBlock? && e.transactionId < |rows.transactions| ==>
                  && after == rows.(transactions := after.transactions, ledger := after.ledger)
                  && after.transactions[e.transactionId].status == e.status
                  && |after.ledger| == |rows.ledger| + 2 && rows.ledger <= after.ledger)
  {
    if e.ExpirePending? {
      ExpiryExactly(rows.attempts, e.now);
    }
    hide ExpireStale, Overdue;
  }

  // ---- Runs -------------------------------------------------------------------------------------

  /** Attempts keep their transaction, and one that cannot be paid stays so. */
  ghost predicate NoneReopens(before: seq<Attempt>, after: seq<Attempt>) {
    && |before| <= |after|
    && forall i :: 0 <= i < |before| ==>
         after[i].transactionId == before[i].transactionId && (Payable(after, i) ==> Payable(before, i))
  }

  /** Every open block saw an earlier state of the attempts. */
  ghost predicate BlocksSawEarlier(s: State) {
    forall c :: c in s.calls && s.calls[c].phase.InBlock? ==>
      NoneReopens(s.calls[c].phase.seen.attempts, s.rows.attempts)
  }

  /** The event commits a block of transaction `t`. */
  predicate CommitsOn(s: State, e: Event, t: nat) {
    e.EndBlock? && Step(s, e).commits != s.commits && s.calls[e.call].v.transactionId == t
  }

  /** How many attempts were there when the last committed block of `t` opened; 0 if none has committed. */
  function SeenAtSettlement(s: State, es: seq<Event>, t: nat): nat {
    if es == [] then 0
    else
      var n := |es| - 1;
      var b := Run(s, es[..n]);
      if CommitsOn(b, es[n], t) then |b.calls[es[n].call].phase.seen.attempts| else SeenAtSettlement(s, es[..n], t)
  }

  lemma CommitIsABlock(s: State, e: Event, t: nat)
    requires CommitsOn(s, e, t)
    ensures e.EndBlock? && e.call in s.calls && s.calls[e.call].phase.InBlock?
    ensures var call := s.calls[e.call];
            && call.v.transactionId == t && call.v.attemptId < |s.rows.attempts|
            && SettleBlock(call.phase.seen, s.rows, call.v, call.phase.confirmation) == Ok(Step(s, e).rows)
  {
    hide SettleBlock;
  }

  lemma StepReopensNone(s: State, e: Event)
    ensures NoneReopens(s.rows.attempts, Step(s, e).rows.attempts)
  {
    if e.EndBlock? && Step(s, e).rows != s.rows {
      var call := s.calls[e.call];
      BlockCancelsExactly(call.phase.seen, s.rows, call.v, call.phase.confirmation);
    }
    hide SettleBlock;
  }

  lemma ReopensNoneTwice(a: seq<Attempt>, b: seq<Attempt>, c: seq<Attempt>)
    requires NoneReopens(a, b) && NoneReopens(b, c)
    ensures NoneReopens(a, c)
  {
    forall i | 0 <= i < |a|
      ensures c[i].transactionId == a[i].transactionId && (Payable(c, i) ==> Payable(a, i))
    {
      assert Payable(c, i) ==> Payable(b, i);
    }
  }

  lemma StepBlocksSawEarlier(s: State, e: Event)
    requires BlocksSawEarlier(s)
    ensures BlocksSawEarlier(Step(s, e))
  {
    StepReopensNone(s, e);
    var after := Step(s, e);
    forall c | c in after.calls && after.calls[c].phase.InBlock?
      ensures NoneReopens(after.calls[c].phase.seen.attempts, after.rows.attempts)
    {
      NewOrOldBlock(s, e, c);
      hide NoneReopens, Step;
      ReopensNoneTwice(after.calls[c].phase.seen.attempts, s.rows.attempts, after.rows.attempts);
    }
  }

  /** An open block has just opened, or was open before. */
  lemma NewOrOldBlock(s: State, e: Event, c: nat)
    requires BlocksSawEarlier(s)
    requires c in Step(s, e).calls && Step(s, e).calls[c].phase.InBlock?
    ensures NoneReopens(Step(s, e).calls[c].phase.seen.attempts, s.rows.attempts)
  {
    hide SettleBlock;
  }

  /** No attempt of `t` among the first `n` can be paid. */
  ghost predicate NonePayable(attempts: seq<Attempt>, t: nat, n: nat) {
    n <= |attempts| && forall i: nat :: i < n && attempts[i].transactionId == t ==> !Payable(attempts, i)
  }

  lemma CommitCloses(s: State, e: Event, t: nat)
    requires BlocksSawEarlier(s) && CommitsOn(s, e, t)
    ensures NonePayable(Step(s, e).rows.attempts, t, |s.calls[e.call].phase.seen.attempts|)
  {
    CommitIsABlock(s, e, t);
    var call := s.calls[e.call];
    BlockCancelsExactly(call.phase.seen, s.rows, call.v, call.phase.confirmation);
    hide SettleBlock, Step;
    var after, seen := Step(s, e).rows.attempts, call.phase.seen.attempts;
    assert NoneReopens(seen, s.rows.attempts);
  }

  lemma StaysClosed(before: seq<Attempt>, after: seq<Attempt>, t: nat, n: nat)
    requires NonePayable(before, t, n) && NoneReopens(before, after)
    ensures NonePayable(after, t, n)
  {
  }

  /**
   Over every interleaving, unguarded writes included: once a block of a transaction has committed, an
   attempt of the transaction that can still be paid was created after that block opened.
   */
  lemma {:induction false} PayableIsLate(s: State, es: seq<Event>, t: nat)
    requires s.calls == map[]
    ensures BlocksSawEarlier(Run(s, es))
    ensures NonePayable(Run(s, es).rows.attempts, t, SeenAtSettlement(s, es, t))
  {
    hide Step, NoneReopens, BlocksSawEarlier, NonePayable, CommitsOn;
    if es == [] {
      NothingOpen(s, t);
    } else {
      var n := |es| - 1;
      PayableIsLate(s, es[..n], t);
      var b := Run(s, es[..n]);
      StepBlocksSawEarlier(b, es[n]);
      if CommitsOn(b, es[n], t) {
        CommitCloses(b, es[n], t);
        CommitIsABlock(b, es[n], t);
      } else {
        StepReopensNone(b, es[n]);
        StaysClosed(b.rows.attempts, Step(b, es[n]).rows.attempts, t, SeenAtSettlement(s, es[..n], t));
      }
    }
  }

  lemma NothingOpen(s: State, t: nat)
    requires s.calls == map[]
    ensures BlocksSawEarlier(s) && NonePayable(s.rows.attempts, t, 0)
  {
  }

  /** A verification during whose block another attempt of the transaction is created. */
  function LateAttempt(t: nat, a: nat, c: Confirmation, late: Attempt): seq<Event> {
    [Start(0, "", t, a), Answered(0, Confirmed(c)), OpenBlock(0), NewAttempt(late), EndBlock(0)]
  }

  /** Such an attempt stays payable on a settled transaction: the snapshot does not have it. */
  lemma LateAttemptStaysPayable(s: State, t: nat, a: nat, c: Confirmation, late: Attempt)
    requires E.ReadyToSettle(s, t, a) && s.calls == map[] && late.transactionId == t
    ensures var b := Run(s, LateAttempt(t, a, c, late));
            && |b.rows.attempts| == |s.rows.attempts| + 1 && Payable(b.rows.attempts, |s.rows.attempts|)
            && b.rows.attempts[|s.rows.attempts|].transactionId == t
            && Succeeded(b.rows.attempts, a, t)
            && t < |b.rows.transactions| && b.rows.transactions[t].status.Success?
  {
    var v := Verification("", t, a, s.rows.attempts[a], s.rows.transactions[t]);
    var more := s.rows.(attempts := s.rows.attempts + [late.(status := AttemptStatus.Pending)]);
    LateBlockPasses(s.rows, more, t, a, c, v);
    BlockCancelsExactly(s.rows, more, v, c);
    BlockWritesExactly(s.rows, more, v, c);
    hide SettleBlock;
    LateStates(s, t, a, c, late, v, more);
  }

  lemma LateBlockPasses(rows: Rows, more: Rows, t: nat, a: nat, c: Confirmation, v: Verification)
    requires t < |rows.transactions| && rows.transactions[t].billing.OneOff?
    requires a < |rows.attempts| && rows.attempts[a].transactionId == t && Payable(rows.attempts, a)
    requires !HasSuccess(rows.attempts, t)
    requires v == Verification("", t, a, rows.attempts[a], rows.transactions[t])
    requires more == rows.(attempts := more.attempts) && |more.attempts| == |rows.attempts| + 1
    requires more.attempts[..|rows.attempts|] == rows.attempts && more.attempts[|rows.attempts|].status.Pending?
    ensures SettleBlock(rows, more, v, c).Ok?
  {
    hide PaymentEntries;
    assert !HasSuccess(rows.attempts, t);
    forall b | 0 <= b < |more.attempts| && b != a
      ensures !Succeeded(more.attempts, b, t)
    {
      if b < |rows.attempts| {
        assert more.attempts[b] == more.attempts[..|rows.attempts|][b] == rows.attempts[b];
        assert !Succeeded(rows.attempts, b, t);
      }
    }
    assert more.attempts[a] == more.attempts[..|rows.attempts|][a];
    assert !IndexTaken(more.attempts, a, t);
  }

  lemma LateStates(s: State, t: nat, a: nat, c: Confirmation, late: Attempt, v: Verification, more: Rows)
    requires E.ReadyToSettle(s, t, a) && s.calls == map[]
    requires v == Verification("", t, a, s.rows.attempts[a], s.rows.transactions[t])
    requires more == s.rows.(attempts := s.rows.attempts + [late.(status := AttemptStatus.Pending)])
    requires SettleBlock(s.rows, more, v, c).Ok?
    ensures Run(s, LateAttempt(t, a, c, late)).rows == SettleBlock(s.rows, more, v, c).value
  {
    var es := LateAttempt(t, a, c, late);
    OpensBlock(s, t, a, c, v);
    var s3 := s.(calls := map[0 := Call(v, InBlock(c, s.rows))]);
    assert Step(s3, NewAttempt(late)) == s3.(rows := more);
    EndsBlock(s3.(rows := more), 0);
    hide *;
    RunOfFive(s, es);
  }

  lemma OpensBlock(s: State, t: nat, a: nat, c: Confirmation, v: Verification)
    requires E.ReadyToSettle(s, t, a) && s.calls == map[]
    requires v == Verification("", t, a, s.rows.attempts[a], s.rows.transactions[t])
    ensures Step(Step(Step(s, Start(0, "", t, a)), Answered(0, Confirmed(c))), OpenBlock(0))
         == s.(calls := map[0 := Call(v, InBlock(c, s.rows))])
  {
    hide SettleBlock, StepRows;
    assert Step(s, Start(0, "", t, a)) == s.(calls := map[0 := Call(v, Asking)]);
  }

  lemma EndsBlock(s: State, call: nat)
    requires call in s.calls && s.calls[call].phase.InBlock? && s.calls[call].v.attemptId < |s.rows.attempts|
    requires SettleBlock(s.calls[call].phase.seen, s.rows, s.calls[call].v, s.calls[call].phase.confirmation).Ok?
    ensures Ok(Step(s, EndBlock(call)).rows)
         == SettleBlock(s.calls[call].phase.seen, s.rows, s.calls[call].v, s.calls[call].phase.confirmation)
  {
    hide SettleBlock;
  }

  lemma RunOfFive(s: State, es: seq<Event>)
    requires |es| == 5
    ensures Run(s, es) == Step(Step(Step(Step(Step(s, es[0]), es[1]), es[2]), es[3]), es[4])
  {
    hide Step;
    assert es[..4][..3] == es[..3] && es[..3][..2] == es[..2] && es[..2][..1] == es[..1] && es[..1][..0] == [];
    assert Run(s, es[..1]) == Step(s, es[0]);
    assert Run(s, es[..2]) == Step(Step(s, es[0]), es[1]);
    assert Run(s, es[..3]) == Step(Step(Step(s, es[0]), es[1]), es[2]);
    assert Run(s, es[..4]) == Step(Step(Step(Step(s, es[0]), es[1]), es[2]), es[3]);
  }
}
