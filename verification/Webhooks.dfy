/**
 Webhook deliveries (src/modules/payment/webhook/webhook.service.ts): the parsed events of both
 providers, the log that deduplicates them, and the steps of the payment protocol they drive.
 */
module Webhooks {
  import opened Common
  import opened Ledger
  import opened Subscriptions
  import opened PaymentRows
  import opened Settlement
  import opened SerialVerification
  import opened InvoiceNumbers
  import P = Protocol

  // ---- Events -----------------------------------------------------------------------------------

  /** The fields of event.data.object that the handlers read; absent strings are empty, absent times 0. */
  datatype StripeObject = StripeObject(
    id: string, transactionId: string, status: string, tenantId: Option<string>,
    customerId: string, planId: string, periodStart: int, periodEnd: int)

  datatype StripeEvent = StripeEvent(id: string, eventType: string, payload: StripeObject)

  datatype RazorpaySubscription = RazorpaySubscription(
    id: string, status: string, tenantId: Option<string>, customerId: string, planId: string,
    currentStart: Option<int>, startAt: Option<int>, currentEnd: Option<int>, chargeAt: Option<int>)

  /** A payment made without an order carries no order id. */
  datatype RazorpayPayment = RazorpayPayment(id: string, orderId: Option<string>)

  datatype RazorpayBody = RazorpayBody(
    event: string, payment: Option<RazorpayPayment>, order: Option<string>, subscription: Option<RazorpaySubscription>)

  /** What an event asks of the services. */
  datatype Action =
    | Settle(orderId: Option<string>)
    | Fail(orderId: Option<string>)
    | Sync(subscription: Subscription)
    | Nothing

  const MAX_TIME: int := 8_640_000_000_000_000

  /** fromUnixSeconds, null for an absent, zero or invalid date. */
  function FromUnixSeconds(seconds: int): Option<int> {
    if seconds == 0 || seconds * 1000 > MAX_TIME || seconds * 1000 < -MAX_TIME then None else Some(seconds * 1000)
  }

  function MapStripeStatus(status: string): Option<SubscriptionStatus> {
    if status == "trialing" then Some(Trialing)
    else if status == "active" then Some(Active)
    else if status == "past_due" || status == "unpaid" || status == "incomplete" then Some(PastDue)
    else if status == "canceled" || status == "incomplete_expired" then Some(SubscriptionStatus.Cancelled)
    else None
  }

  function MapRazorpayStatus(status: string, eventType: string): Option<SubscriptionStatus> {
    if eventType == "subscription.cancelled" || eventType == "subscription.completed"
      then Some(SubscriptionStatus.Cancelled)
    else if status == "authenticated" then Some(Trialing)
    else if status == "active" then Some(Active)
    else if status == "pending" || status == "halted" then Some(PastDue)
    else if status == "cancelled" || status == "completed" then Some(SubscriptionStatus.Cancelled)
    else None
  }

  function TenantOr(tenantId: Option<string>): string {
    if tenantId.Some? then tenantId.value else "easydev"
  }

  /** The sync of an external subscription; skipped if a part of it is missing. */
  function SyncOf(tenantId: Option<string>, customerId: string, planId: string, id: string,
                  status: Option<SubscriptionStatus>, start: Option<int>, end: Option<int>): Action
  {
    if customerId == "" || planId == "" || status.None? || start.None? || end.None? then Nothing
    else Sync(Subscription(TenantOr(tenantId), customerId, planId, status.value, start.value, end.value, Some(id)))
  }

  function StripeAction(e: StripeEvent): Action {
    var o := e.payload;
    if e.eventType == "checkout.session.completed" then Settle(Some(o.id))
    else if e.eventType == "payment_intent.succeeded"
      then (if o.transactionId == "" then Nothing else Settle(Some(o.id)))
    else if e.eventType == "payment_intent.payment_failed" then Fail(Some(o.id))
    else if e.eventType == "customer.subscription.created" || e.eventType == "customer.subscription.updated"
            || e.eventType == "customer.subscription.deleted" then
      SyncOf(o.tenantId, o.customerId, o.planId, o.id,
             if e.eventType == "customer.subscription.deleted" then Some(SubscriptionStatus.Cancelled)
               else MapStripeStatus(o.status),
             FromUnixSeconds(o.periodStart), FromUnixSeconds(o.periodEnd))
    else Nothing
  }

  predicate RazorpaySubscriptionEvent(event: string) {
    || event == "subscription.authenticated" || event == "subscription.activated" || event == "subscription.charged"
    || event == "subscription.pending" || event == "subscription.halted" || event == "subscription.cancelled"
    || event == "subscription.completed"
  }

  /** `??`: the first time that is present, even if it is 0. */
  function FirstTime(a: Option<int>, b: Option<int>): int {
    if a.Some? then a.value else if b.Some? then b.value else 0
  }

  function RazorpayAction(body: RazorpayBody): Action {
    if RazorpaySubscriptionEvent(body.event) then
      match body.subscription
      case None => Nothing
      case Some(s) =>
        SyncOf(s.tenantId, s.customerId, s.planId, s.id, MapRazorpayStatus(s.status, body.event),
               FromUnixSeconds(FirstTime(s.currentStart, s.startAt)),
               FromUnixSeconds(FirstTime(s.currentEnd, s.chargeAt)))
    else if body.payment.None? then Nothing
    else if body.event == "payment.captured" then Settle(body.payment.value.orderId)
    else if body.event == "payment.failed" then Fail(body.payment.value.orderId)
    else Nothing
  }

  /** Razorpay sends no event id; the service builds one, from the clock if nothing else is there. */
  function RazorpayEventId(body: RazorpayBody, now: nat): string {
    "rz_" + body.event + "_"
    + (if body.payment.Some? then body.payment.value.id
       else if body.order.Some? then body.order.value
       else NatString(now))
  }

  /**
   A redelivery carries the id of its first delivery exactly when the body names a payment or an
   order; every other Razorpay event, so most subscription events, is new at each delivery.
   */
  lemma RazorpayIdStableExactlyWhen(body: RazorpayBody, first: nat, later: nat)
    requires first != later
    ensures RazorpayEventId(body, first) == RazorpayEventId(body, later) <==> body.payment.Some? || body.order.Some?
  {
    if body.payment.None? && body.order.None? {
      var p := "rz_" + body.event + "_";
      NatStringRoundTrip(first);
      NatStringRoundTrip(later);
      hide NatString;
      assert (p + NatString(first))[|p|..] == NatString(first) && (p + NatString(later))[|p|..] == NatString(later);
    }
  }

  // ---- Processing -------------------------------------------------------------------------------

  /** findByProviderOrderId: the first attempt with the order id, or the number of attempts if none. */
  function FindOrder(attempts: seq<Attempt>, orderId: string): (i: nat)
    ensures i <= |attempts|
    ensures i < |attempts| ==> attempts[i].providerOrderId == orderId
    ensures forall j :: 0 <= j < i ==> attempts[j].providerOrderId != orderId
  {
    if attempts == [] then 0
    else if attempts[0].providerOrderId == orderId then 0
    else
      assert forall j :: 0 < j < |attempts| ==> attempts[j] == attempts[1..][j - 1];
      1 + FindOrder(attempts[1..], orderId)
  }

  /**
   The attempt the event finds. Without an order id the query has no filter: any attempt may come
   back, the row `unfiltered` if there is one.
   */
  function FindAttempt(attempts: seq<Attempt>, orderId: Option<string>, unfiltered: nat): (i: nat)
    ensures i <= |attempts|
    ensures orderId.None? && attempts != [] ==> i < |attempts|
  {
    match orderId
    case Some(id) => FindOrder(attempts, id)
    case None => if unfiltered < |attempts| then unfiltered else 0
  }

  /** The tenant the handler passes on; empty if the transaction is missing. */
  function TenantOf(rows: Rows, t: nat): string {
    if t < |rows.transactions| then rows.transactions[t].tenantId else ""
  }

  datatype Processed = Processed(rows: Rows, thrown: Option<Error>)

  /** What a delivery meets outside: the provider's answer, and the row of an unfiltered query. */
  datatype World = World(answer: Answer, unfiltered: nat)

  /** processStripeEvent and processRazorpayEvent. */
  function Process(rows: Rows, action: Action, w: World): Processed {
    match action
    case Nothing => Processed(rows, None)
    case Settle(orderId) =>
      var a := FindAttempt(rows.attempts, orderId, w.unfiltered);
      if a == |rows.attempts| then Processed(rows, None)
      else
        var t := rows.attempts[a].transactionId;
        var v := Verify(rows, TenantOf(rows, t), t, a, w.answer);
        Processed(v.rows, if v.outcome.Thrown? then Some(v.outcome.error) else None)
    case Fail(orderId) =>
      Processed(Overwrite(rows, FindAttempt(rows.attempts, orderId, w.unfiltered), AttemptStatus.Failed), None)
    case Sync(s) =>
      match SyncExternal(rows.subscriptions, rows.subscriptions, rows.plans, s)
      case Thrown(e) => Processed(rows, Some(e))
      case Ok(subscriptions) => Processed(rows.(subscriptions := subscriptions), None)
  }

  /** A row of the webhook log. */
  datatype LogRow = LogRow(isProcessed: bool, error: Option<Error>)

  datatype State = State(rows: Rows, log: map<string, LogRow>)

  /**
   How a delivery ends. `Completes`: no write of the handler fails. `Ends`: the process dies or an
   await throws, after the log row is there and before the processing takes effect, or, if `applied`,
   after that and before the mark; `recorded` if the handler lives on to write the error.
   */
  datatype Ending = Completes | Ends(applied: bool, recorded: bool)

  /** A delivery that passed the signature check, what it will meet, and how it ends. */
  datatype Delivery = Delivery(eventId: string, action: Action, world: World, ending: Ending)

  predicate Done(log: map<string, LogRow>, eventId: string) {
    eventId in log && log[eventId].isProcessed
  }

  /** upsertWebhookLog keeps the row of an earlier delivery. */
  function Logged(log: map<string, LogRow>, eventId: string): LogRow {
    if eventId in log then log[eventId] else LogRow(false, None)
  }

  function Deliver(s: State, d: Delivery): State {
    if Done(s.log, d.eventId) then s
    else
      var p := Process(s.rows, d.action, d.world);
      var row := Logged(s.log, d.eventId);
      match d.ending
      case Completes =>
        State(p.rows, s.log[d.eventId := if p.thrown.Some? then row.(error := p.thrown) else row.(isProcessed := true)])
      case Ends(applied, recorded) =>
        var error := if applied && p.thrown.Some? then p.thrown else Some(DatabaseError);
        State(if applied then p.rows else s.rows, s.log[d.eventId := if recorded then row.(error := error) else row])
  }

  /** The delivery takes effect: it is new, its processing returns and is not cut short. */
  predicate Applies(s: State, d: Delivery) {
    && !Done(s.log, d.eventId)
    && Process(s.rows, d.action, d.world).thrown.None?
    && (d.ending.Completes? || d.ending.applied)
  }

  function DeliverAll(s: State, ds: seq<Delivery>): State {
    if ds == [] then s else Deliver(DeliverAll(s, ds[..|ds| - 1]), ds[|ds| - 1])
  }

  // ---- The service ------------------------------------------------------------------------------

  class WebhookService {
    const db: Database
    var log: map<string, LogRow>

    constructor (db: Database)
      ensures this.db == db && log == map[]
    {
      this.db := db;
      log := map[];
    }

    /** handleStripeWebhook. */
    method HandleStripeWebhook(signatureValid: bool, e: StripeEvent, world: World, ending: Ending)
        returns (r: Result<bool>)
      modifies this, db
      ensures var s := State(old(db.Contents()), old(log));
              var d := Delivery(e.id, StripeAction(e), world, ending);
              if !signatureValid then r == Thrown(Unauthorized) && State(db.Contents(), log) == s
              else State(db.Contents(), log) == Deliver(s, d)
                   && (r == Ok(true) <==> Done(s.log, e.id) || (Applies(s, d) && ending.Completes?))
    {
      if !signatureValid {
        return Thrown(Unauthorized);
      }
      r := HandleEvent(Delivery(e.id, StripeAction(e), world, ending));
    }

    /** handleRazorpayWebhook. */
    method HandleRazorpayWebhook(signatureValid: bool, body: RazorpayBody, world: World, ending: Ending, now: nat)
        returns (r: Result<bool>)
      modifies this, db
      ensures var s := State(old(db.Contents()), old(log));
              var d := Delivery(RazorpayEventId(body, now), RazorpayAction(body), world, ending);
              if !signatureValid then r == Thrown(Unauthorized) && State(db.Contents(), log) == s
              else State(db.Contents(), log) == Deliver(s, d)
                   && (r == Ok(true) <==> Done(s.log, d.eventId) || (Applies(s, d) && ending.Completes?))
    {
      if !signatureValid {
        return Thrown(Unauthorized);
      }
      r := HandleEvent(Delivery(RazorpayEventId(body, now), RazorpayAction(body), world, ending));
    }

    /**
     The steps both handlers share: look up, log first, process, then mark or record the error. A call
     whose process dies answers nothing, which reads as a throw.
     */
    method HandleEvent(d: Delivery) returns (r: Result<bool>)
      modifies this, db
      ensures var s := State(old(db.Contents()), old(log));
              && State(db.Contents(), log) == Deliver(s, d)
              && (r == Ok(true) <==> Done(s.log, d.eventId) || (Applies(s, d) && d.ending.Completes?))
    {
      hide Process;
      if d.eventId in log && log[d.eventId].isProcessed {
        return Ok(true);
      }
      log := log[d.eventId := Logged(log, d.eventId)];
      var thrown := Some(DatabaseError);
      if d.ending.Completes? || d.ending.applied {
        thrown := ProcessEvent(d.action, d.world);
      }
      if thrown.None? && d.ending.Completes? {
        log := log[d.eventId := log[d.eventId].(isProcessed := true)];
        return Ok(true);
      }
      var error := if thrown.Some? then thrown.value else DatabaseError;
      if d.ending.Completes? || d.ending.recorded {
        log := log[d.eventId := log[d.eventId].(error := Some(error))];
      }
      return Thrown(error);
    }

    method ProcessEvent(action: Action, world: World) returns (thrown: Option<Error>)
      modifies db
      ensures db.Contents() == Process(old(db.Contents()), action, world).rows
      ensures thrown == Process(old(db.Contents()), action, world).thrown
    {
      thrown := None;
      match action {
        case Nothing =>
        case Settle(orderId) =>
          var a := FindAttempt(db.attempts, orderId, world.unfiltered);
          if a < |db.attempts| {
            var t := db.attempts[a].transactionId;
            var tenantId := if t < |db.transactions| then db.transactions[t].tenantId else "";
            var verified := VerifyPayment(db, tenantId, t, a, world.answer);
            thrown := if verified.Thrown? then Some(verified.error) else None;
          }
        case Fail(orderId) =>
          var a := FindAttempt(db.attempts, orderId, world.unfiltered);
          if a < |db.attempts| {
            var _ := OverwriteStatus(db, a, AttemptStatus.Failed);
          }
        case Sync(s) =>
          match SyncExternal(db.subscriptions, db.subscriptions, db.plans, s) {
            case Thrown(e) => thrown := Some(e);
            case Ok(subscriptions) => db.subscriptions := subscriptions;
          }
      }
    }
  }

  /** A sync throws exactly for an inactive plan; else it writes one row, where the next sync finds it, and no
      other table. */
  lemma SyncWritesOneRow(rows: Rows, s: Subscription, world: World)
    ensures var p := Process(rows, Sync(s), world);
            && (p.thrown.None? <==> PlanActive(rows.plans, s.planId))
            && p.rows == rows.(subscriptions := p.rows.subscriptions)
    ensures PlanActive(rows.plans, s.planId) ==>
              var before, after := rows.subscriptions, Process(rows, Sync(s), world).rows.subscriptions;
              var i := FindExternal(after, s.tenantId, s.providerSubscriptionId);
              && i == FindExternal(before, s.tenantId, s.providerSubscriptionId)
              && |after| == (if i == |before| then |before| + 1 else |before|)
              && after[i] == s
              && forall j :: 0 <= j < |before| && j != i ==> after[j] == before[j]
  {
    if PlanActive(rows.plans, s.planId) {
      var before, after := rows.subscriptions, Process(rows, Sync(s), world).rows.subscriptions;
      var i := FindExternal(before, s.tenantId, s.providerSubscriptionId);
      assert after[i] == s && forall j :: 0 <= j < i ==> after[j] == before[j];
    }
  }
}
