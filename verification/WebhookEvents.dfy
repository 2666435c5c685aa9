/**
 What each webhook event asks for, what it does to the rows, and what a delivery writes to the log
 (src/modules/payment/webhook/webhook.service.ts:55-510).
 */
module WebhookEvents {
  import opened Common
  import opened Ledger
  import opened Subscriptions
  import opened PaymentRows
  import opened Settlement
  import opened SerialVerification
  import opened SettlementRows
  import opened Webhooks

  // ---- Parsed events ----------------------------------------------------------------------------

  /** A time in seconds that fromUnixSeconds accepts: not 0, and a valid date of section 21.4.1.1 of ECMA-262. */
  predicate ValidSeconds(seconds: int) {
    seconds != 0 && -8_640_000_000_000 <= seconds <= 8_640_000_000_000
  }

  lemma SecondsExactly(seconds: int)
    ensures FromUnixSeconds(seconds) == if ValidSeconds(seconds) then Some(1000 * seconds) else None
  {
  }

  /** The statuses that both providers' mappings know, in the provider's words. */
  predicate StripeMeans(status: string, mapped: SubscriptionStatus) {
    match mapped
    case Trialing => status == "trialing"
    case Active => status == "active"
    case PastDue => status in {"past_due", "unpaid", "incomplete"}
    case Cancelled => status in {"canceled", "incomplete_expired"}
    case Expired => false
  }

  predicate RazorpayMeans(status: string, mapped: SubscriptionStatus) {
    match mapped
    case Trialing => status == "authenticated"
    case Active => status == "active"
    case PastDue => status in {"pending", "halted"}
    case Cancelled => status in {"cancelled", "completed"}
    case Expired => false
  }

  /** The sync writes this customer, plan, provider id and period, for the named tenant or the default one. */
  predicate Writes(s: Subscription, tenantId: Option<string>, customerId: string, planId: string, id: string,
                   start: int, end: int) {
    && s.tenantId == (if tenantId.Some? then tenantId.value else "easydev")
    && s.customerId == customerId && s.planId == planId && s.providerSubscriptionId == Some(id)
    && s.periodStart == 1000 * start && s.periodEnd == 1000 * end
  }

  predicate StripeSubscriptionEvent(eventType: string) {
    eventType in {"customer.subscription.created", "customer.subscription.updated", "customer.subscription.deleted"}
  }

  /** What a Stripe event asks for, by its type and the fields that are there. */
  lemma StripeActionExactly(e: StripeEvent)
    ensures var a, o := StripeAction(e), e.payload;
            var complete := o.customerId != "" && o.planId != ""
                            && ValidSeconds(o.periodStart) && ValidSeconds(o.periodEnd);
            var deleted := e.eventType == "customer.subscription.deleted";
            && (a.Settle? <==> e.eventType == "checkout.session.completed"
                               || (e.eventType == "payment_intent.succeeded" && o.transactionId != ""))
            && (a.Fail? <==> e.eventType == "payment_intent.payment_failed")
            && (a.Settle? || a.Fail? ==> a.orderId == Some(o.id))
            && (a.Sync? <==> StripeSubscriptionEvent(e.eventType) && complete
                             && (deleted || exists m :: StripeMeans(o.status, m)))
            && (a.Sync? ==> Writes(a.subscription, o.tenantId, o.customerId, o.planId, o.id, o.periodStart, o.periodEnd)
                            && (if deleted then a.subscription.status.Cancelled?
                                else StripeMeans(o.status, a.subscription.status)))
  {
    SecondsExactly(e.payload.periodStart);
    SecondsExactly(e.payload.periodEnd);
    hide FromUnixSeconds, ValidSeconds;
    var status := MapStripeStatus(e.payload.status);
    assert status.Some? ==> StripeMeans(e.payload.status, status.value);
    forall m | StripeMeans(e.payload.status, m)
      ensures status == Some(m)
    {
    }
    hide MapStripeStatus, StripeMeans;
  }

  predicate RazorpaySubscriptionType(event: string) {
    event in {"subscription.authenticated", "subscription.activated", "subscription.charged", "subscription.pending",
              "subscription.halted", "subscription.cancelled", "subscription.completed"}
  }

  /** The current bound if it is there, else the fallback; 0 if neither is. */
  function Bound(current: Option<int>, fallback: Option<int>): int {
    match (current, fallback)
    case (Some(t), _) => t
    case (None, Some(t)) => t
    case _ => 0
  }

  /** What a Razorpay event asks for. */
  lemma RazorpayActionExactly(body: RazorpayBody)
    ensures var a := RazorpayAction(body);
            var ends := body.event in {"subscription.cancelled", "subscription.completed"};
            && (a.Settle? <==> body.event == "payment.captured" && body.payment.Some?)
            && (a.Fail? <==> body.event == "payment.failed" && body.payment.Some?)
            && (a.Settle? || a.Fail? ==> a.orderId == body.payment.value.orderId)
            && (a.Sync? <==> RazorpaySubscriptionType(body.event) && body.subscription.Some?
                             && var s := body.subscription.value;
                                s.customerId != "" && s.planId != ""
                                && ValidSeconds(Bound(s.currentStart, s.startAt))
                                && ValidSeconds(Bound(s.currentEnd, s.chargeAt))
                                && (ends || exists m :: RazorpayMeans(s.status, m)))
            && (a.Sync? ==> var s := body.subscription.value;
                            && Writes(a.subscription, s.tenantId, s.customerId, s.planId, s.id,
                                      Bound(s.currentStart, s.startAt), Bound(s.currentEnd, s.chargeAt))
                            && (if ends then a.subscription.status.Cancelled?
                                else RazorpayMeans(s.status, a.subscription.status)))
  {
    if body.subscription.Some? {
      var s := body.subscription.value;
      SecondsExactly(Bound(s.currentStart, s.startAt));
      SecondsExactly(Bound(s.currentEnd, s.chargeAt));
      var status := MapRazorpayStatus(s.status, "");
      assert status.Some? ==> RazorpayMeans(s.status, status.value);
      forall m | RazorpayMeans(s.status, m)
        ensures status == Some(m)
      {
      }
      assert MapRazorpayStatus(s.status, body.event)
          == if body.event in {"subscription.cancelled", "subscription.completed"}
             then Some(SubscriptionStatus.Cancelled) else status;
    }
    hide FromUnixSeconds, ValidSeconds, MapRazorpayStatus, RazorpayMeans;
  }

  predicate NoUnderscore(s: string) {
    forall i :: 0 <= i < |s| ==> s[i] != '_'
  }

  /** The payment the body names, else its order. */
  function Named(body: RazorpayBody): Option<string> {
    match (body.payment, body.order)
    case (Some(p), _) => Some(p.id)
    case (None, o) => o
  }

  /** Two bodies of event types without an underscore share an id exactly if type and payment, or order, agree. */
  lemma RazorpayIdsAgreeExactlyWhen(a: RazorpayBody, b: RazorpayBody, first: nat, later: nat)
    requires Named(a).Some? && Named(b).Some? && NoUnderscore(a.event) && NoUnderscore(b.event)
    ensures RazorpayEventId(a, first) == RazorpayEventId(b, later) <==> a.event == b.event && Named(a) == Named(b)
  {
    var s, t := RazorpayEventId(a, first), RazorpayEventId(b, later);
    var x, y := Named(a).value, Named(b).value;
    assert s == "rz_" + a.event + "_" + x && t == "rz_" + b.event + "_" + y;
    if s == t {
      assert forall i :: 0 <= i < |a.event| ==> s[3 + i] == a.event[i];
      assert forall i :: 0 <= i < |b.event| ==> t[3 + i] == b.event[i];
      assert s[3 + |a.event|] == '_' && t[3 + |b.event|] == '_';
      assert |a.event| == |b.event|;
      assert a.event == s[3..3 + |a.event|] && x == s[4 + |a.event|..];
      assert b.event == t[3..3 + |b.event|] && y == t[4 + |b.event|..];
    }
  }

  // ---- What an event does -----------------------------------------------------------------------

  /** `a` is the first attempt with the order id. */
  predicate FirstWith(attempts: seq<Attempt>, orderId: string, a: nat) {
    && a < |attempts| && attempts[a].providerOrderId == orderId
    && forall j :: 0 <= j < a ==> attempts[j].providerOrderId != orderId
  }

  /** A failure event writes FAILED to the attempt with its order id, whatever its status; or there is none. */
  lemma FailExactly(rows: Rows, orderId: string, w: World)
    ensures var p := Process(rows, Fail(Some(orderId)), w);
            && p.thrown.None? && p.rows == rows.(attempts := p.rows.attempts) && |p.rows.attempts| == |rows.attempts|
            && forall i :: 0 <= i < |rows.attempts| ==>
                 p.rows.attempts[i] == if FirstWith(rows.attempts, orderId, i)
                                       then rows.attempts[i].(status := AttemptStatus.Failed) else rows.attempts[i]
  {
    var a := FindOrder(rows.attempts, orderId);
    assert forall i: nat :: FirstWith(rows.attempts, orderId, i) ==> i == a;
    hide FindOrder;
  }

  /** Without an order id the query has no filter: the attempt it returns, if there is any, is FAILED or verified. */
  lemma UnfilteredExactly(rows: Rows, w: World)
    requires w.unfiltered < |rows.attempts|
    ensures var a, x := w.unfiltered, rows.attempts[w.unfiltered];
            var v := Verify(rows, TenantOf(rows, x.transactionId), x.transactionId, a, w.answer);
            && Process(rows, Fail(None), w).rows
               == rows.(attempts := rows.attempts[a := x.(status := AttemptStatus.Failed)])
            && Process(rows, Settle(None), w).rows == v.rows
            && (Process(rows, Settle(None), w).thrown.None? <==> v.outcome.Ok?)
  {
    hide Verify;
  }

  /**
   A settlement event verifies the first attempt with its order id, under that attempt's own transaction
   and tenant. It throws exactly for a missing transaction, a provider's error, a SUCCESS of another
   attempt or an inactive plan; if it settles, the attempt is SUCCESS, its transaction SUCCESS, the
   transaction's other payable attempts CANCELLED, and the tenant's ledger has the one PAYMENT more.
   */
  lemma SettleExactly(rows: Rows, orderId: string, w: World, a: nat)
    requires FirstWith(rows.attempts, orderId, a)
    ensures var p, x := Process(rows, Settle(Some(orderId)), w), rows.attempts[a];
            var t := x.transactionId;
            var tries := t < |rows.transactions| && !x.status.Success? && !x.status.Failed?;
            && (p.thrown == Some(NotFound) <==> t >= |rows.transactions|)
            && (p.thrown == Some(ProviderError) <==> tries && w.answer.AnswerThrows?)
            && (p.thrown == Some(Conflict) <==> tries && w.answer.Confirmed? && PaidElsewhere(rows.attempts, a))
            && (p.thrown.Some? ==>
                  p.rows == rows && p.thrown.value in {NotFound, ProviderError, Conflict, PlanInactive})
            && (p.thrown.None? && !tries ==> p.rows == rows)
            && (p.thrown.None? && tries && w.answer.Refused? ==>
                  p.rows == rows.(attempts := rows.attempts[a := x.(status := AttemptStatus.Failed)]))
            && (p.thrown.None? && tries && w.answer.Confirmed? ==>
                  && |p.rows.attempts| == |rows.attempts|
                  && p.rows.attempts[a] == x.(status := AttemptStatus.Success)
                  && (forall i: nat :: i < |rows.attempts| && i != a ==>
                        p.rows.attempts[i] == if rows.attempts[i].transactionId == t && Payable(rows.attempts, i)
                                              then rows.attempts[i].(status := AttemptStatus.Cancelled)
                                              else rows.attempts[i])
                  && |p.rows.transactions| == |rows.transactions|
                  && (forall i: nat :: i < |rows.transactions| ==>
                        p.rows.transactions[i] == if i == t
                                                  then rows.transactions[i].(status := TransactionStatus.Success)
                                                  else rows.transactions[i])
                  && p.rows.ledger
                     == rows.ledger + [Entry(rows.transactions[t].tenantId, t, Payment, AccountsReceivable, Revenue,
                                             x.amount, x.currency, w.answer.confirmation.now)])
  {
    assert FindOrder(rows.attempts, orderId) == a;
    var t := rows.attempts[a].transactionId;
    var tenantId := if t < |rows.transactions| then rows.transactions[t].tenantId else "";
    var v := Verify(rows, tenantId, t, a, w.answer);
    assert Process(rows, Settle(Some(orderId)), w)
        == Processed(v.rows, if v.outcome.Thrown? then Some(v.outcome.error) else None);
    hide Process, FindOrder;
    VerifyEndsExactly(rows, tenantId, t, a, w.answer);
    if v.outcome.Thrown? {
      ThrowingChangesNothing(rows, tenantId, t, a, w.answer);
    }
    hide Verify, Payable;
    if Settles(rows, tenantId, t, a, w.answer) {
      SettlingCancelsExactly(rows, tenantId, t, a, w.answer);
      var k, c := SettlingIsABlock(rows, tenantId, t, a, w.answer);
      BlockWritesExactly(rows, rows, k, c);
      hide SettleBlock;
      assert v.rows.ledger == v.rows.ledger[..|rows.ledger|] + [v.rows.ledger[|rows.ledger|]];
    } else {
      OtherwiseOnlyFails(rows, tenantId, t, a, w.answer);
    }
  }

  // ---- The log ----------------------------------------------------------------------------------

  /**
   What a delivery writes to the log: the row of its own id only, marked exactly if the event was new, was
   processed and completes; an error exactly if the processing threw or the call was cut short, and the
   handler still wrote it.
   */
  lemma LogExactly(s: State, d: Delivery)
    ensures var before, after := s.log, Deliver(s, d).log;
            var was := if d.eventId in before then before[d.eventId] else LogRow(false, None);
            var thrown := Process(s.rows, d.action, d.world).thrown;
            && (forall id :: id != d.eventId ==>
                  (id in after <==> id in before) && (id in after ==> after[id] == before[id]))
            && d.eventId in after
            && (was.isProcessed ==> after[d.eventId] == was)
            && (!was.isProcessed ==>
                  && (after[d.eventId].isProcessed <==> thrown.None? && d.ending.Completes?)
                  && after[d.eventId].error
                     == if d.ending.Completes? then (if thrown.Some? then thrown else was.error)
                        else if d.ending.recorded
                        then (if d.ending.applied && thrown.Some? then thrown else Some(DatabaseError))
                        else was.error)
  {
    hide Process;
  }
}
