/**
 What renewals, plan changes and cancellations leave in every field of the rows, and the status that a
 subscription has after a run (src/modules/subscription/subscription.service.ts:89-551).
 */
module RenewalRows {
  import opened Common
  import opened Calendar
  import opened Periods
  import opened Subscriptions
  import opened RenewalRuns
  import opened RenewalFailures

  // ---- One renewal ------------------------------------------------------------------------------

  /** The attempts that the cycle the call works on has had before. */
  function Tries(a: Account): nat {
    var i := FindCycle(a.cycles, a.subscription.periodStart);
    if i < |a.cycles| then a.cycles[i].attemptCount else 0
  }

  /** A renewal starts exactly for these statuses, with its plan there and the current period not paid. */
  lemma StartsExactlyWhen(a: Account)
    requires OneLiveCycle(a.cycles)
    ensures Starts(a) <==>
            && (a.subscription.status.Active? || a.subscription.status.PastDue? || a.subscription.status.Trialing?)
            && a.subscription.planId in a.plans
            && !HasPaidCycle(a.cycles, a.subscription.periodStart)
  {
    var i := FindCycle(a.cycles, a.subscription.periodStart);
    if HasPaidCycle(a.cycles, a.subscription.periodStart) {
      var j :| 0 <= j < |a.cycles| && a.cycles[j].periodStart == a.subscription.periodStart && a.cycles[j].status.Paid?;
      assert i == j;
    }
  }

  /** The handler's write runs, and finds the grace period over or the attempts used up. */
  predicate Beyond(a: Account, limits: Limits, now: int) {
    now > a.subscription.periodEnd + limits.gracePeriodDays * 24 * 60 * 60 * 1000 || Tries(a) + 1 >= limits.maxRetries
  }

  predicate PassesAdvance(ending: Ending) {
    match ending
    case Stops(p) => p.MarkPaid? || p.Returned?
    case Throws(p, _) => p.MarkPaid?
  }

  predicate HandlerWrites(ending: Ending) {
    ending.Throws? && ending.handler.Handled?
  }

  /**
   The subscription after a renewal, wherever it ends: the period moves on exactly past the advance; the
   status is the handler's if that writes, else ACTIVE past the advance, else as it was.
   */
  lemma RenewalWritesSubscription(a: Account, ending: Ending, limits: Limits, now: int)
    requires Starts(a) && ending.Valid()
    ensures var s, t := a.subscription, Renew(a, ending, limits, now).subscription;
            var plan := a.plans[s.planId];
            && t == s.(status := t.status, periodStart := t.periodStart, periodEnd := t.periodEnd)
            && t.periodStart == (if PassesAdvance(ending) then s.periodEnd else s.periodStart)
            && t.periodEnd == (if PassesAdvance(ending)
                               then NextPeriodEnd(s.periodEnd, plan.interval, plan.intervalCount) else s.periodEnd)
            && t.status == (if HandlerWrites(ending) then (if Beyond(a, limits, now) then Expired else PastDue)
                            else if PassesAdvance(ending) then Active else s.status)
  {
    hide NextPeriodEnd;
    var i := FindCycle(a.cycles, a.subscription.periodStart);
    assert EnsureCycle(a)[i].attemptCount == Tries(a);
  }

  predicate CycleOpened(ending: Ending) {
    !(ending.Stops? && ending.before.CreateCycle?)
  }

  predicate AttemptCounted(ending: Ending) {
    CycleOpened(ending) && !(ending.Stops? && ending.before.CountAttempt?)
  }

  /**
   The cycles after a renewal: the call works on the one cycle of the current period that has not FAILED,
   or on a new one with the period's bounds; it counts one attempt, and leaves it PAID exactly if it
   returns, FAILED exactly if the handler gets to that write, and PROCESSING otherwise.
   */
  lemma RenewalWritesCycles(a: Account, ending: Ending, limits: Limits, now: int)
    requires Starts(a) && ending.Valid()
    ensures var s, cs := a.subscription, Renew(a, ending, limits, now).cycles;
            var i := FindCycle(a.cycles, s.periodStart);
            && |cs| == (if i == |a.cycles| && CycleOpened(ending) then i + 1 else |a.cycles|)
            && (forall j :: 0 <= j < |a.cycles| && j != i ==> cs[j] == a.cycles[j])
            && (!CycleOpened(ending) ==> cs == a.cycles)
            && (CycleOpened(ending) ==>
                  && cs[i].periodStart == s.periodStart
                  && cs[i].periodEnd == (if i < |a.cycles| then a.cycles[i].periodEnd else s.periodEnd)
                  && cs[i].attemptCount == Tries(a) + (if AttemptCounted(ending) then 1 else 0)
                  && (cs[i].status.Paid? <==> ending == Stops(Returned))
                  && (cs[i].status.Failed? <==> ending.Throws? && !ending.handler.StopsBeforeFailed?))
  {
    ProgressWritesCycles(a, ending.Reached());
    hide Progress, FindCycle, StatusAfterFailure, Starts, Tries;
  }

  lemma ProgressWritesCycles(a: Account, p: Point)
    requires Starts(a)
    ensures var s, cs := a.subscription, Progress(a, p).cycles;
            var i := FindCycle(a.cycles, s.periodStart);
            && |cs| == (if i == |a.cycles| && !p.CreateCycle? then i + 1 else |a.cycles|)
            && (forall j :: 0 <= j < |a.cycles| && j != i ==> cs[j] == a.cycles[j])
            && (p.CreateCycle? ==> cs == a.cycles)
            && (!p.CreateCycle? ==>
                  && i < |cs|
                  && cs[i].periodStart == s.periodStart
                  && cs[i].periodEnd == (if i < |a.cycles| then a.cycles[i].periodEnd else s.periodEnd)
                  && cs[i].attemptCount == Tries(a) + (if p.CountAttempt? then 0 else 1)
                  && (cs[i].status.Paid? <==> p.Returned?) && !cs[i].status.Failed?)
  {
    hide Advance;
  }

  // ---- The other operations ---------------------------------------------------------------------

  /** A provider's id that is more than white space. */
  predicate ProviderManages(s: Subscription) {
    s.providerSubscriptionId.Some? && exists c :: c in s.providerSubscriptionId.value && !White(c)
  }

  /** By code point: the white space and line terminators of section 12 of ECMA-262. */
  lemma WhiteExactly(c: char)
    ensures White(c) <==> || 9 <= c as int <= 13 || 8192 <= c as int <= 8202
                          || c as int in {32, 160, 5760, 8232, 8233, 8239, 8287, 12288, 65279}
  {
  }

  /** A plan change writes the plan, and nothing else, exactly under the source's five conditions. */
  lemma PlanChangeExactly(a: Account, planId: string)
    ensures var s := a.subscription;
            var allowed := && (s.status.Active? || s.status.PastDue? || s.status.Trialing?) && planId != s.planId
                           && !ProviderManages(s) && planId in a.plans && a.plans[planId].isActive;
            ChangePlan(a, planId) == if allowed then a.(subscription := s.(planId := planId)) else a
  {
    var id := a.subscription.providerSubscriptionId;
    if ProviderManages(a.subscription) {
      var c :| c in id.value && !White(c);
      var i :| 0 <= i < |id.value| && id.value[i] == c;
    }
    hide White;
  }

  /** A cancellation leaves CANCELLED; only an immediate one ends the period, and a second one changes nothing. */
  lemma CancelExactly(a: Account, immediate: bool, now: int)
    ensures var s, t := a.subscription, Cancel(a, immediate, now).subscription;
            && Cancel(a, immediate, now) == a.(subscription := t)
            && t == s.(status := t.status, periodEnd := t.periodEnd) && t.status.Cancelled?
            && (t.periodEnd != s.periodEnd ==> immediate && !s.status.Cancelled?)
            && (immediate && !s.status.Cancelled? ==> t.periodEnd == now)
  {
  }

  /** A new subscription is TRIALING from the end of a positive trial, or ACTIVE from now; then one plan interval. */
  lemma NewSubscriptionExactly(tenantId: string, customerId: string, planId: string, plan: Plan,
                               trialOverride: Option<int>, now: int)
    ensures var s := NewSubscription(tenantId, customerId, planId, plan, trialOverride, now);
            var trial := if trialOverride.Some? then trialOverride.value else plan.trialDays;
            && s.tenantId == tenantId && s.customerId == customerId && s.planId == planId
            && s.providerSubscriptionId.None?
            && (trial > 0 ==> s.status.Trialing? && s.periodStart == now + trial * 24 * 60 * 60 * 1000)
            && (trial <= 0 ==> s.status.Active? && s.periodStart == now)
            && s.periodEnd == NextPeriodEnd(s.periodStart, plan.interval, plan.intervalCount)
  {
    hide NextPeriodEnd;
  }

  // ---- The status over runs ---------------------------------------------------------------------

  /** How an operation writes the status. */
  datatype StatusWrite = NoWrite | Activates | FailsWithin | FailsBeyond | Cancels

  function WriteOf(a: Account, op: Op, limits: Limits): StatusWrite
    requires op.Valid()
  {
    match op
    case PlanChange(_) => NoWrite
    case Cancellation(_, _) => if a.subscription.status.Cancelled? then NoWrite else Cancels
    case Renewal(ending, now) =>
      if !Starts(a) then NoWrite
      else if HandlerWrites(ending) then (if Beyond(a, limits, now) then FailsBeyond else FailsWithin)
      else if PassesAdvance(ending) then Activates
      else NoWrite
  }

  function LastStatusWrite(a: Account, ops: seq<Op>, limits: Limits): StatusWrite
    requires ValidOps(ops)
  {
    if ops == [] then NoWrite
    else
      var n := |ops| - 1;
      var w := WriteOf(Run(a, ops[..n], limits), ops[n], limits);
      if w.NoWrite? then LastStatusWrite(a, ops[..n], limits) else w
  }

  predicate StatusIs(status: SubscriptionStatus, w: StatusWrite, first: SubscriptionStatus) {
    match w
    case NoWrite => status == first
    case Activates => status.Active?
    case FailsWithin => status.PastDue?
    case FailsBeyond => status.Expired?
    case Cancels => status.Cancelled?
  }

  lemma OpWritesStatus(a: Account, op: Op, limits: Limits)
    requires op.Valid()
    ensures StatusIs(Apply(a, op, limits).subscription.status, WriteOf(a, op, limits), a.subscription.status)
  {
    match op {
      case Renewal(ending, now) =>
        if Starts(a) {
          RenewalWritesSubscription(a, ending, limits, now);
        }
        hide HandlerWrites, PassesAdvance, Beyond, Starts, Progress, Recover;
      case PlanChange(planId) =>
        PlanChangeExactly(a, planId);
        hide ChangePlan, ProviderManages;
      case Cancellation(immediate, now) =>
        CancelExactly(a, immediate, now);
    }
  }

  /** After every serial run, wherever each call ends, the status is that of the last status write. */
  lemma {:induction false} StatusFollowsLastWrite(a: Account, ops: seq<Op>, limits: Limits)
    requires ValidOps(ops)
    ensures StatusIs(Run(a, ops, limits).subscription.status, LastStatusWrite(a, ops, limits), a.subscription.status)
  {
    hide Apply, WriteOf;
    if ops != [] {
      var n := |ops| - 1;
      StatusFollowsLastWrite(a, ops[..n], limits);
      OpWritesStatus(Run(a, ops[..n], limits), ops[n], limits);
    }
  }

  /**
   In runs whose calls are not cut short, with a limit of 2 or more, a renewal's failure leaves PAST_DUE or
   EXPIRED by the grace period of the period end it read, and nothing else does.
   */
  lemma UncutFailureExactly(a: Account, ops: seq<Op>, limits: Limits, at: Point, now: int)
    requires Created(a) && ValidOps(ops) && (forall k :: 0 <= k < |ops| ==> Uncut(ops[k]))
    requires limits.maxRetries >= 2 && Throws(at, Handled).Valid() && Starts(Run(a, ops, limits))
    ensures var b := Run(a, ops, limits);
            var end := b.subscription.periodEnd + limits.gracePeriodDays * 24 * 60 * 60 * 1000;
            var status := Apply(b, Renewal(Throws(at, Handled), now), limits).subscription.status;
            && (status.Expired? <==> now > end) && (status.PastDue? <==> now <= end)
  {
    RetryLimitNeverDecides(a, ops, limits, limits);
    var b := Run(a, ops, limits);
    RenewalWritesSubscription(b, Throws(at, Handled), limits, now);
    NoTries(b);
    hide Renew, Run, Starts, Tries;
  }

  lemma NoTries(a: Account)
    requires SingleAttempts(a.cycles) && Starts(a)
    ensures Tries(a) == 0
  {
  }

  /** The renewal that returns leaves the subscription ACTIVE, from every status that it starts in. */
  lemma CompletedIsActive(a: Account, limits: Limits, now: int)
    requires Starts(a)
    ensures Renew(a, Stops(Returned), limits, now).subscription.status.Active?
    ensures var cs := Renew(a, Stops(Returned), limits, now).cycles;
            HasPaidCycle(cs, a.subscription.periodStart)
  {
    RenewalWritesSubscription(a, Stops(Returned), limits, now);
    RenewalWritesCycles(a, Stops(Returned), limits, now);
    hide Renew;
  }
}
