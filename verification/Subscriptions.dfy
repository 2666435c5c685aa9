/**
 Subscription rows, renewal and plan changes (src/modules/subscription/subscription.service.ts).
 A renewal is written as the row updates it makes between its awaits; it may end at any of them.
 */
module Subscriptions {
  import opened Common
  import opened Calendar
  import opened Periods

  datatype SubscriptionStatus = Trialing | Active | PastDue | Cancelled | Expired

  datatype CycleStatus = Processing | Paid | Failed

  datatype Plan = Plan(interval: Interval, intervalCount: int, trialDays: int, isActive: bool)

  /** `providerSubscriptionId` is in the metadata of externally synced subscriptions only. */
  datatype Subscription = Subscription(
    tenantId: string, customerId: string, planId: string, status: SubscriptionStatus,
    periodStart: int, periodEnd: int, providerSubscriptionId: Option<string>)

  datatype Cycle = Cycle(periodStart: int, periodEnd: int, status: CycleStatus, attemptCount: nat)

  /** An invoice that a renewal created, for the period that starts at `periodStart`; a draft until it is issued. */
  datatype Invoice = Invoice(periodStart: int, issued: bool)

  /** One subscription with its cycles and its renewals' invoices, and the plans it can be on. */
  datatype Account = Account(
    subscription: Subscription, cycles: seq<Cycle>, invoices: seq<Invoice>, plans: map<string, Plan>)

  datatype Limits = Limits(gracePeriodDays: int, maxRetries: int)

  // ---- Creation ---------------------------------------------------------------------------------

  /** The row that createSubscription inserts at time `now` for an active plan. */
  function NewSubscription(tenantId: string, customerId: string,
      planId: string, plan: Plan, trialOverride: Option<int>, now: int)
    : (s: Subscription)
  {
    var trialDays := if trialOverride.Some? then trialOverride.value else plan.trialDays;
    var start := if trialDays > 0 then AddDays(now, trialDays) else now;
    Subscription(tenantId, customerId, planId, if trialDays > 0 then Trialing else Active,
                 start, NextPeriodEnd(start, plan.interval, plan.intervalCount), None)
  }

  // ---- Renewal ----------------------------------------------------------------------------------

  /**
   The awaited writes of processRenewal, in order; `Returned` comes after the last. The write that
   links the invoice to the cycle belongs to the step at `AdvancePeriod`.
   */
  datatype Point = CreateCycle | CountAttempt | CreateInvoice | IssueInvoice | AdvancePeriod | MarkPaid | Returned

  datatype HandlerEnd = Handled | StopsBeforeFailed | StopsBeforeStatus

  /**
   How a call ends. `Stops(p)`: the process dies, or an error outside the `try` leaves, with `p` not
   done. `Throws(p, h)`: the write at `p` inside the `try` throws with no effect, and the handler runs.
   */
  datatype Ending = Stops(before: Point) | Throws(at: Point, handler: HandlerEnd) {
    predicate Valid() {
      Throws? ==> at.CreateInvoice? || at.IssueInvoice? || at.AdvancePeriod? || at.MarkPaid?
    }

    function Reached(): Point {
      match this
      case Stops(p) => p
      case Throws(p, _) => p
    }
  }

  /** Writes done before `p`. */
  function Rank(p: Point): nat {
    match p
    case CreateCycle => 0
    case CountAttempt => 1
    case CreateInvoice => 2
    case IssueInvoice => 3
    case AdvancePeriod => 4
    case MarkPaid => 5
    case Returned => 6
  }

  predicate Renewable(status: SubscriptionStatus) {
    status.Active? || status.PastDue? || status.Trialing?
  }

  /** The first cycle of the given period start that has not FAILED, or the number of cycles. */
  function FindCycle(cycles: seq<Cycle>, start: int): (i: nat)
    ensures i <= |cycles|
    ensures i < |cycles| ==> cycles[i].periodStart == start && !cycles[i].status.Failed?
    ensures forall j :: 0 <= j < i ==> cycles[j].periodStart != start || cycles[j].status.Failed?
  {
    if cycles == [] then 0
    else if cycles[0].periodStart == start && !cycles[0].status.Failed? then 0
    else
      assert forall j :: 0 < j < |cycles| ==> cycles[j] == cycles[1..][j - 1];
      1 + FindCycle(cycles[1..], start)
  }

  predicate Starts(a: Account) {
    && Renewable(a.subscription.status)
    && a.subscription.planId in a.plans
    && var i := FindCycle(a.cycles, a.subscription.periodStart);
       (i < |a.cycles| ==> !a.cycles[i].status.Paid?)
  }

  function EnsureCycle(a: Account): (cycles: seq<Cycle>)
    ensures FindCycle(a.cycles, a.subscription.periodStart) < |cycles|
  {
    if FindCycle(a.cycles, a.subscription.periodStart) < |a.cycles| then a.cycles
    else a.cycles + [Cycle(a.subscription.periodStart, a.subscription.periodEnd, Processing, 0)]
  }

  function Advance(a: Account): Subscription
    requires a.subscription.planId in a.plans
  {
    var plan := a.plans[a.subscription.planId];
    a.subscription.(status := Active, periodStart := a.subscription.periodEnd,
                    periodEnd := NextPeriodEnd(a.subscription.periodEnd, plan.interval, plan.intervalCount))
  }

  /** The rows once every write before `p` is done. */
  function Progress(a: Account, p: Point): Account
    requires Starts(a)
  {
    var i := FindCycle(a.cycles, a.subscription.periodStart);
    var withCycle := EnsureCycle(a);
    var counted := withCycle[i := withCycle[i].(status := Processing, attemptCount := withCycle[i].attemptCount + 1)];
    var billed := a.invoices + [Invoice(a.subscription.periodStart, true)];
    match p
    case CreateCycle => a
    case CountAttempt => a.(cycles := withCycle)
    case CreateInvoice => a.(cycles := counted)
    case IssueInvoice => a.(cycles := counted, invoices := a.invoices + [Invoice(a.subscription.periodStart, false)])
    case AdvancePeriod => a.(cycles := counted, invoices := billed)
    case MarkPaid => a.(cycles := counted, invoices := billed, subscription := Advance(a))
    case Returned =>
      a.(cycles := counted[i := counted[i].(status := Paid)], invoices := billed, subscription := Advance(a))
  }

  predicate PastGrace(s: Subscription, limits: Limits, now: int) {
    now > AddDays(s.periodEnd, limits.gracePeriodDays)
  }

  /** The status the error handler writes, for the subscription `s` as the call first read it. */
  function StatusAfterFailure(s: Subscription, attemptCount: nat, limits: Limits, now: int): SubscriptionStatus {
    if PastGrace(s, limits, now) || attemptCount >= limits.maxRetries then Expired else PastDue
  }

  function Recover(a: Account, b: Account, h: HandlerEnd, limits: Limits, now: int): Account
    requires FindCycle(a.cycles, a.subscription.periodStart) < |b.cycles|
  {
    var i := FindCycle(a.cycles, a.subscription.periodStart);
    if h.StopsBeforeFailed? then b
    else
      var failed := b.(cycles := b.cycles[i := b.cycles[i].(status := Failed)]);
      if h.StopsBeforeStatus? then failed
      else failed.(subscription := failed.subscription.(
                     status := StatusAfterFailure(a.subscription, b.cycles[i].attemptCount, limits, now)))
  }

  /** The rows after one call of processRenewal; `now` is the clock the error handler reads. */
  function Renew(a: Account, ending: Ending, limits: Limits, now: int): Account
    requires ending.Valid()
  {
    if !Starts(a) then a
    else match ending
      case Stops(p) => Progress(a, p)
      case Throws(p, h) => Recover(a, Progress(a, p), h, limits, now)
  }

  // ---- Plan change and cancellation -------------------------------------------------------------

  /** A character that trim removes: white space and line terminators of section 12 of ECMA-262. */
  predicate White(c: char) {
    || '\t' <= c <= '\r' || c == ' ' || c == '\U{a0}' || c == '\U{1680}' || '\U{2000}' <= c <= '\U{200a}'
    || c == '\U{2028}' || c == '\U{2029}' || c == '\U{202f}' || c == '\U{205f}' || c == '\U{3000}'
    || c == '\U{feff}'
  }

  /** An external provider manages the subscription; an id that trims to nothing does not count. */
  predicate Managed(s: Subscription) {
    var id := s.providerSubscriptionId;
    id.Some? && exists i :: 0 <= i < |id.value| && !White(id.value[i])
  }

  predicate CanChangePlan(a: Account, planId: string) {
    && !a.subscription.status.Cancelled?
    && !a.subscription.status.Expired?
    && a.subscription.planId != planId
    && !Managed(a.subscription)
    && planId in a.plans && a.plans[planId].isActive
  }

  function ChangePlan(a: Account, planId: string): Account {
    if CanChangePlan(a, planId) then a.(subscription := a.subscription.(planId := planId)) else a
  }

  function Cancel(a: Account, immediate: bool, now: int): Account {
    if a.subscription.status.Cancelled? then a
    else a.(subscription := a.subscription.(
              status := Cancelled, periodEnd := if immediate then now else a.subscription.periodEnd))
  }

  // ---- The service, updating its rows in place --------------------------------------------------

  class SubscriptionService {
    var subscription: Subscription
    var cycles: seq<Cycle>
    var invoices: seq<Invoice>
    const plans: map<string, Plan>
    const limits: Limits

    constructor (subscription: Subscription, plans: map<string, Plan>, limits: Limits)
      ensures Rows() == Account(subscription, [], [], plans) && this.limits == limits
    {
      this.subscription := subscription;
      cycles, invoices := [], [];
      this.plans := plans;
      this.limits := limits;
    }

    function Rows(): Account
      reads this
    {
      Account(subscription, cycles, invoices, plans)
    }

    method ProcessRenewal(ending: Ending, now: int)
      requires ending.Valid()
      modifies this
      ensures Rows() == Renew(old(Rows()), ending, limits, now)
    {
      hide NextPeriodEnd, FindCycle, AddDays;
      ghost var begin := Rows();
      var read := subscription;
      if !Renewable(read.status) || read.planId !in plans {
        return;
      }
      var plan := plans[read.planId];
      var i := FindCycle(cycles, read.periodStart);
      if i < |cycles| && cycles[i].status.Paid? {
        return;
      }
      var reached := Rank(ending.Reached());
      if reached <= Rank(CreateCycle) {
        return;
      }
      if i == |cycles| {
        cycles := cycles + [Cycle(read.periodStart, read.periodEnd, Processing, 0)];
      }
      if reached <= Rank(CountAttempt) {
        return;
      }
      cycles := cycles[i := cycles[i].(status := Processing, attemptCount := cycles[i].attemptCount + 1)];
      assert Rows() == Progress(begin, CreateInvoice);
      hide EnsureCycle, Starts;
      if reached > Rank(CreateInvoice) {
        invoices := invoices + [Invoice(read.periodStart, false)];
      }
      if reached > Rank(IssueInvoice) {
        invoices := invoices[|invoices| - 1 := invoices[|invoices| - 1].(issued := true)];
      }
      if reached > Rank(AdvancePeriod) {
        var nextStart := read.periodEnd;
        var nextEnd := NextPeriodEnd(nextStart, plan.interval, plan.intervalCount);
        subscription := subscription.(status := Active, periodStart := nextStart, periodEnd := nextEnd);
      }
      if reached > Rank(MarkPaid) {
        cycles := cycles[i := cycles[i].(status := Paid)];
      }
      assert Rows() == Progress(begin, ending.Reached());
      hide Progress, Advance;
      if reached > Rank(MarkPaid) {
        return;
      }
      if ending.Throws? && !ending.handler.StopsBeforeFailed? {
        cycles := cycles[i := cycles[i].(status := Failed)];
        if ending.handler.Handled? {
          var graceEnd := AddDays(read.periodEnd, limits.gracePeriodDays);
          if now > graceEnd || cycles[i].attemptCount >= limits.maxRetries {
            subscription := subscription.(status := Expired);
          } else {
            subscription := subscription.(status := PastDue);
          }
        }
      }
    }

    method UpdateSubscriptionPlan(planId: string) returns (changed: bool)
      modifies this
      ensures Rows() == ChangePlan(old(Rows()), planId)
      ensures changed <==> CanChangePlan(old(Rows()), planId)
    {
      changed := false;
      if subscription.status.Cancelled? || subscription.status.Expired? || subscription.planId == planId {
        return;
      }
      if Managed(subscription) || planId !in plans || !plans[planId].isActive {
        return;
      }
      subscription := subscription.(planId := planId);
      changed := true;
    }

    method CancelSubscription(immediate: bool, now: int) returns (cancelled: bool)
      modifies this
      ensures Rows() == Cancel(old(Rows()), immediate, now)
      ensures cancelled <==> !old(subscription).status.Cancelled?
    {
      if subscription.status.Cancelled? {
        return false;
      }
      subscription := subscription.(status := Cancelled, periodEnd := if immediate then now
        else subscription.periodEnd);
      return true;
    }
  }
}
