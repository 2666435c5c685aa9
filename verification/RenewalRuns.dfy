/**
 What every serial run of renewals, plan changes and cancellations keeps, when each call may end at
 any of its awaits.
 */
module RenewalRuns {
  import opened Calendar
  import opened Common
  import opened Periods
  import opened Subscriptions

  datatype Op =
    | Renewal(ending: Ending, now: int)
    | PlanChange(planId: string)
    | Cancellation(immediate: bool, now: int)
  {
    predicate Valid() {
      Renewal? ==> ending.Valid()
    }
  }

  predicate ValidOps(ops: seq<Op>) {
    forall k :: 0 <= k < |ops| ==> ops[k].Valid()
  }

  function Apply(a: Account, op: Op, limits: Limits): Account
    requires op.Valid()
  {
    match op
    case Renewal(ending, now) => Renew(a, ending, limits, now)
    case PlanChange(planId) => ChangePlan(a, planId)
    case Cancellation(immediate, now) => Cancel(a, immediate, now)
  }

  function Run(a: Account, ops: seq<Op>, limits: Limits): Account
    requires ValidOps(ops)
  {
    if ops == [] then a else Apply(Run(a, ops[..|ops| - 1], limits), ops[|ops| - 1], limits)
  }

  // ---- Periods tile time ------------------------------------------------------------------------

  ghost predicate Ascending(bounds: seq<int>) {
    forall i, j :: 0 <= i < j < |bounds| ==> bounds[i] < bounds[j]
  }

  /** The cycle covers exactly one interval between neighbouring bounds. */
  ghost predicate Fits(c: Cycle, bounds: seq<int>) {
    exists i :: FillsGap(c, bounds, i)
  }

  ghost predicate FillsGap(c: Cycle, bounds: seq<int>, i: int) {
    0 <= i < |bounds| - 1 && bounds[i] == c.periodStart && bounds[i + 1] == c.periodEnd
  }

  ghost predicate AllFit(cycles: seq<Cycle>, bounds: seq<int>) {
    forall j :: 0 <= j < |cycles| ==> Fits(cycles[j], bounds)
  }

  ghost predicate HasCycle(cycles: seq<Cycle>, start: int) {
    exists j :: 0 <= j < |cycles| && cycles[j].periodStart == start
  }

  ghost predicate HasPaidCycle(cycles: seq<Cycle>, start: int) {
    exists j :: 0 <= j < |cycles| && cycles[j].periodStart == start && cycles[j].status.Paid?
  }

  ghost predicate OneLiveCycle(cycles: seq<Cycle>) {
    forall j, k | 0 <= j < |cycles| && 0 <= k < |cycles| && cycles[j].periodStart == cycles[k].periodStart ::
      cycles[j].status.Failed? || cycles[k].status.Failed? || j == k
  }

  /**
   `bounds` cuts time into the subscription's periods: every cycle is one of them, every period before
   the current one has a cycle, each start has at most one cycle that has not FAILED, and the current
   period has no PAID cycle.
   */
  ghost predicate TiledBy(a: Account, bounds: seq<int>) {
    && |bounds| >= 2 && Ascending(bounds)
    && a.subscription.periodStart == bounds[|bounds| - 2]
    && (a.subscription.status.Cancelled? || a.subscription.periodEnd == bounds[|bounds| - 1])
    && AllFit(a.cycles, bounds)
    && (forall i :: 0 <= i < |bounds| - 2 ==> HasCycle(a.cycles, bounds[i]))
    && OneLiveCycle(a.cycles)
    && !HasPaidCycle(a.cycles, a.subscription.periodStart)
  }

  /** The PAID cycles alone cover every period before the current one. */
  ghost predicate PaidTile(a: Account, bounds: seq<int>)
    requires |bounds| >= 2
  {
    forall i :: 0 <= i < |bounds| - 2 ==> HasPaidCycle(a.cycles, bounds[i])
  }

  /** The call ends between the advance of the period and the write that marks its cycle PAID. */
  predicate Slips(a: Account, op: Op) {
    op.Renewal? && Starts(a) && op.ending.Reached().MarkPaid?
  }

  predicate NeverSlips(a: Account, ops: seq<Op>, limits: Limits)
    requires ValidOps(ops)
  {
    ops == []
    || (NeverSlips(a, ops[..|ops| - 1], limits) && !Slips(Run(a, ops[..|ops| - 1], limits), ops[|ops| - 1]))
  }

  lemma FitsLonger(c: Cycle, bounds: seq<int>, next: int)
    requires Fits(c, bounds)
    ensures Fits(c, bounds + [next])
  {
    var i :| FillsGap(c, bounds, i);
    assert FillsGap(c, bounds + [next], i);
  }

  lemma SameGap(c: Cycle, d: Cycle, bounds: seq<int>)
    requires Fits(c, bounds) && d == c.(status := d.status, attemptCount := d.attemptCount)
    ensures Fits(d, bounds)
  {
    var i :| FillsGap(c, bounds, i);
    assert FillsGap(d, bounds, i);
  }

  lemma FitAfterRewrite(cycles: seq<Cycle>, i: nat, c: Cycle, bounds: seq<int>)
    requires AllFit(cycles, bounds)
    requires i < |cycles| && c == cycles[i].(status := c.status, attemptCount := c.attemptCount)
    ensures AllFit(cycles[i := c], bounds)
  {
    SameGap(cycles[i], c, bounds);
    hide Fits;
  }

  lemma LiveAfterRewrite(cycles: seq<Cycle>, i: nat, c: Cycle)
    requires OneLiveCycle(cycles)
    requires i < |cycles| && c == cycles[i].(status := c.status, attemptCount := c.attemptCount)
    requires c.status.Failed? || !cycles[i].status.Failed?
    ensures OneLiveCycle(cycles[i := c])
  {
  }

  /** No start loses its cycle, gains a PAID one or loses it. */
  ghost predicate SameStarts(cycles: seq<Cycle>, after: seq<Cycle>) {
    forall start :: (HasCycle(cycles, start) ==> HasCycle(after, start))
      && (HasPaidCycle(after, start) <==> HasPaidCycle(cycles, start))
  }

  lemma TilingFollows(a: Account, after: seq<Cycle>, bounds: seq<int>)
    requires TiledBy(a, bounds) && SameStarts(a.cycles, after) && AllFit(after, bounds) && OneLiveCycle(after)
    ensures TiledBy(a.(cycles := after), bounds)
    ensures PaidTile(a.(cycles := after), bounds) <==> PaidTile(a, bounds)
  {
    hide Ascending, AllFit, HasCycle, HasPaidCycle, OneLiveCycle;
  }

  lemma StartsAfterRewrite(cycles: seq<Cycle>, i: nat, c: Cycle)
    requires i < |cycles| && c == cycles[i].(status := c.status, attemptCount := c.attemptCount)
    requires !cycles[i].status.Paid? && !c.status.Paid?
    ensures SameStarts(cycles, cycles[i := c])
  {
    assert forall j :: 0 <= j < |cycles| ==> cycles[i := c][j].periodStart == cycles[j].periodStart;
  }

  /** Writing a cycle's status and count keeps the tiling, as long as no second live cycle appears. */
  lemma RewriteKeepsTiling(a: Account, bounds: seq<int>, i: nat, c: Cycle)
    requires TiledBy(a, bounds)
    requires i < |a.cycles| && c == a.cycles[i].(status := c.status, attemptCount := c.attemptCount)
    requires c.status.Failed? || !a.cycles[i].status.Failed?
    requires !a.cycles[i].status.Paid? && !c.status.Paid?
    ensures TiledBy(a.(cycles := a.cycles[i := c]), bounds)
    ensures PaidTile(a.(cycles := a.cycles[i := c]), bounds) <==> PaidTile(a, bounds)
  {
    hide Ascending, AllFit, HasCycle, HasPaidCycle, OneLiveCycle, SameStarts;
    FitAfterRewrite(a.cycles, i, c, bounds);
    LiveAfterRewrite(a.cycles, i, c);
    StartsAfterRewrite(a.cycles, i, c);
    TilingFollows(a, a.cycles[i := c], bounds);
  }

  lemma StartsAfterAppend(cycles: seq<Cycle>, c: Cycle)
    requires !c.status.Paid?
    ensures SameStarts(cycles, cycles + [c])
  {
    assert forall j :: 0 <= j < |cycles| ==> (cycles + [c])[j] == cycles[j];
  }

  lemma LiveAfterAppend(cycles: seq<Cycle>, c: Cycle)
    requires OneLiveCycle(cycles)
    requires forall j :: 0 <= j < |cycles| ==> cycles[j].periodStart != c.periodStart || cycles[j].status.Failed?
    ensures OneLiveCycle(cycles + [c])
  {
  }

  lemma NewCycleKeepsTiling(a: Account, bounds: seq<int>, c: Cycle)
    requires TiledBy(a, bounds) && !a.subscription.status.Cancelled?
    requires c.periodStart == a.subscription.periodStart
        && c.periodEnd == a.subscription.periodEnd && c.status.Processing?
    requires forall j :: 0 <= j < |a.cycles| ==> a.cycles[j].periodStart != c.periodStart || a.cycles[j].status.Failed?
    ensures TiledBy(a.(cycles := a.cycles + [c]), bounds)
    ensures PaidTile(a.(cycles := a.cycles + [c]), bounds) <==> PaidTile(a, bounds)
  {
    assert FillsGap(c, bounds, |bounds| - 2);
    StartsAfterAppend(a.cycles, c);
    LiveAfterAppend(a.cycles, c);
    hide Ascending, Fits, HasCycle, HasPaidCycle, SameStarts, OneLiveCycle;
    TilingFollows(a, a.cycles + [c], bounds);
  }

  lemma EnsureCycleKeepsTiling(a: Account, bounds: seq<int>)
    requires TiledBy(a, bounds) && Starts(a)
    ensures TiledBy(a.(cycles := EnsureCycle(a)), bounds)
    ensures PaidTile(a.(cycles := EnsureCycle(a)), bounds) <==> PaidTile(a, bounds)
    ensures var i := FindCycle(a.cycles, a.subscription.periodStart);
            EnsureCycle(a)[i].periodStart == a.subscription.periodStart && EnsureCycle(a)[i].status.Processing?
  {
    hide Ascending, AllFit, HasCycle, HasPaidCycle, OneLiveCycle;
    var i := FindCycle(a.cycles, a.subscription.periodStart);
    if i == |a.cycles| {
      NewCycleKeepsTiling(a, bounds, EnsureCycle(a)[i]);
    } else {
      assert a.(cycles := EnsureCycle(a)) == a;
    }
  }

  lemma AscendingLonger(bounds: seq<int>, next: int)
    requires bounds != [] && Ascending(bounds) && bounds[|bounds| - 1] < next
    ensures Ascending(bounds + [next])
  {
  }

  lemma NothingStartsAtEnd(cycles: seq<Cycle>, bounds: seq<int>)
    requires bounds != [] && Ascending(bounds)
    requires AllFit(cycles, bounds)
    ensures !HasPaidCycle(cycles, bounds[|bounds| - 1])
  {
    forall j | 0 <= j < |cycles|
      ensures cycles[j].periodStart < bounds[|bounds| - 1]
    {
      var i :| FillsGap(cycles[j], bounds, i);
    }
  }

  /** The plan that the next advance uses has a positive interval count; its DTO does not demand one. */
  predicate PositivePlan(a: Account) {
    a.subscription.planId in a.plans && a.plans[a.subscription.planId].intervalCount >= 1
  }

  /** The advance turns the current period into a past one, not yet PAID, and opens the next. */
  lemma AdvanceKeepsTiling(a: Account, bounds: seq<int>, i: nat)
    requires TiledBy(a, bounds) && Renewable(a.subscription.status) && PositivePlan(a)
    requires i < |a.cycles| && a.cycles[i].periodStart == a.subscription.periodStart
    ensures var after := a.(subscription := Advance(a));
            var longer := bounds + [Advance(a).periodEnd];
            TiledBy(after, longer) && !PaidTile(after, longer)
  {
    var plan := a.plans[a.subscription.planId];
    var next := Advance(a);
    StepAdvancesExactlyWhen(a.subscription.periodEnd, plan.interval, plan.intervalCount);
    hide NextPeriodEnd, OneLiveCycle;
    var longer := bounds + [next.periodEnd];
    var n := |bounds|;
    AscendingLonger(bounds, next.periodEnd);
    NothingStartsAtEnd(a.cycles, bounds);
    hide Ascending;
    forall j | 0 <= j < |a.cycles|
      ensures Fits(a.cycles[j], longer)
    {
      FitsLonger(a.cycles[j], bounds, next.periodEnd);
    }
    hide Fits, HasPaidCycle;
    forall k | 0 <= k < n - 1
      ensures HasCycle(a.cycles, longer[k])
    {
      if k < n - 2 {
        assert longer[k] == bounds[k];
      } else {
        assert longer[k] == a.cycles[i].periodStart;
      }
    }
    assert longer[n - 2] == a.subscription.periodStart && !HasPaidCycle(a.cycles, longer[n - 2]);
  }

  /** An advance keeps the tiling exactly when its plan's interval count is positive. */
  lemma AdvanceTilesExactlyWhen(a: Account, bounds: seq<int>, i: nat)
    requires TiledBy(a, bounds) && Renewable(a.subscription.status) && a.subscription.planId in a.plans
    requires i < |a.cycles| && a.cycles[i].periodStart == a.subscription.periodStart
    ensures TiledBy(a.(subscription := Advance(a)), bounds + [Advance(a).periodEnd]) <==> PositivePlan(a)
  {
    if PositivePlan(a) {
      AdvanceKeepsTiling(a, bounds, i);
    } else {
      var plan, longer := a.plans[a.subscription.planId], bounds + [Advance(a).periodEnd];
      StepAdvancesExactlyWhen(a.subscription.periodEnd, plan.interval, plan.intervalCount);
      hide NextPeriodEnd, AllFit, OneLiveCycle, HasCycle, HasPaidCycle;
      assert longer[|bounds| - 1] == a.subscription.periodEnd >= longer[|bounds|];
    }
  }

  lemma StartsAfterPay(cycles: seq<Cycle>, i: nat, start: int)
    requires i < |cycles|
    ensures var paid := cycles[i := cycles[i].(status := Paid)];
            && (HasCycle(paid, start) <==> HasCycle(cycles, start))
            && (HasPaidCycle(paid, start) <==> start == cycles[i].periodStart || HasPaidCycle(cycles, start))
  {
    var paid := cycles[i := cycles[i].(status := Paid)];
    assert paid[i].status.Paid? && paid[i].periodStart == cycles[i].periodStart;
    assert forall j :: 0 <= j < |cycles| ==> paid[j].periodStart == cycles[j].periodStart;
  }

  /** Marking the cycle of the last past period PAID completes that period. */
  lemma PayKeepsTiling(a: Account, bounds: seq<int>, i: nat)
    requires TiledBy(a, bounds) && |bounds| >= 3
    requires i < |a.cycles| && a.cycles[i].periodStart == bounds[|bounds| - 3] && !a.cycles[i].status.Failed?
    ensures var paid := a.(cycles := a.cycles[i := a.cycles[i].(status := Paid)]);
            && TiledBy(paid, bounds)
            && (PaidTile(paid, bounds) <==> forall k :: 0 <= k < |bounds| - 3 ==> HasPaidCycle(a.cycles, bounds[k]))
  {
    var n := |bounds|;
    var paid := a.cycles[i := a.cycles[i].(status := Paid)];
    assert bounds[n - 3] < bounds[n - 2];
    assert forall k :: 0 <= k < n - 3 ==> bounds[k] < bounds[n - 3];
    FitAfterRewrite(a.cycles, i, paid[i], bounds);
    LiveAfterRewrite(a.cycles, i, paid[i]);
    hide Ascending, AllFit, HasCycle, HasPaidCycle, OneLiveCycle;
    StartsAfterPay(a.cycles, i, bounds[n - 2]);
    StartsAfterPay(a.cycles, i, bounds[n - 3]);
    forall k | 0 <= k < n - 3
      ensures HasCycle(paid, bounds[k])
      ensures HasPaidCycle(paid, bounds[k]) <==> HasPaidCycle(a.cycles, bounds[k])
    {
      StartsAfterPay(a.cycles, i, bounds[k]);
    }
  }

  /** The operation advances the period. */
  predicate Advances(a: Account, op: Op) {
    op.Renewal? && Starts(a) && Rank(op.ending.Reached()) > Rank(AdvancePeriod)
  }

  /** The periods after one more operation. */
  function Extend(a: Account, op: Op, bounds: seq<int>): seq<int> {
    if Advances(a, op) then bounds + [Advance(a).periodEnd] else bounds
  }

  lemma ProgressKeepsTiling(a: Account, p: Point, bounds: seq<int>)
    requires TiledBy(a, bounds) && Starts(a) && (Rank(p) > Rank(AdvancePeriod) ==> PositivePlan(a))
    ensures var b := Progress(a, p);
            var longer := if Rank(p) > Rank(AdvancePeriod) then bounds + [Advance(a).periodEnd] else bounds;
            && TiledBy(b, longer)
            && (PaidTile(b, longer) <==> PaidTile(a, bounds) && !p.MarkPaid?)
  {
    assert |bounds| >= 2 && Renewable(a.subscription.status);
    var i := FindCycle(a.cycles, a.subscription.periodStart);
    var b := Progress(a, p);
    ProgressParts(a, p);
    hide *;
    if !p.CreateCycle? {
      EnsureCycleKeepsTiling(a, bounds);
      if !p.CountAttempt? {
        var c := Tried(EnsureCycle(a)[i]);
        var counted := a.(cycles := EnsureCycle(a)[i := c]);
        TriedIs(EnsureCycle(a)[i]);
        RewriteKeepsTiling(a.(cycles := EnsureCycle(a)), bounds, i, c);
        InvoicesDoNotTile(counted, b.invoices, bounds);
        if Rank(p) > Rank(AdvancePeriod) {
          AdvanceOfCounted(a, counted.cycles, b.invoices);
          CompletionKeepsTiling(counted.(invoices := b.invoices), bounds, i);
        }
      }
    }
  }

  function Tried(c: Cycle): Cycle {
    c.(status := Processing, attemptCount := c.attemptCount + 1)
  }

  lemma TriedIs(c: Cycle)
    requires c.status.Processing?
    ensures var d := Tried(c);
            d == c.(status := d.status, attemptCount := d.attemptCount) && d.status.Processing?
  {
  }

  lemma AdvanceOfCounted(a: Account, cycles: seq<Cycle>, invoices: seq<Invoice>)
    requires Renewable(a.subscription.status) && a.subscription.planId in a.plans
    ensures var b := a.(cycles := cycles, invoices := invoices);
            Advance(b) == Advance(a) && (PositivePlan(b) <==> PositivePlan(a))
  {
    hide NextPeriodEnd;
  }

  /** Which writes of the call are done before `p`. */
  lemma ProgressParts(a: Account, p: Point)
    requires Starts(a)
    ensures var i, b := FindCycle(a.cycles, a.subscription.periodStart), Progress(a, p);
            var counted := a.(cycles := EnsureCycle(a)[i := Tried(EnsureCycle(a)[i])], invoices := b.invoices);
            var advanced := counted.(subscription := Advance(a));
            && (Rank(p) > Rank(AdvancePeriod) <==> p.MarkPaid? || p.Returned?)
            && b == match p
                    case CreateCycle => a
                    case CountAttempt => a.(cycles := EnsureCycle(a))
                    case MarkPaid => advanced
                    case Returned =>
                      advanced.(cycles := counted.cycles[i := counted.cycles[i].(status := Paid)])
                    case _ => counted
  {
    hide NextPeriodEnd, EnsureCycle;
  }

  lemma InvoicesDoNotTile(a: Account, invoices: seq<Invoice>, bounds: seq<int>)
    ensures var b := a.(invoices := invoices);
            && (TiledBy(b, bounds) <==> TiledBy(a, bounds))
            && (|bounds| >= 2 ==> (PaidTile(b, bounds) <==> PaidTile(a, bounds)))
  {
    hide Ascending, AllFit, HasCycle, HasPaidCycle, OneLiveCycle;
  }

  lemma CompletionKeepsTiling(a: Account, bounds: seq<int>, i: nat)
    requires TiledBy(a, bounds) && Renewable(a.subscription.status) && PositivePlan(a)
    requires i < |a.cycles| && a.cycles[i].periodStart == a.subscription.periodStart && !a.cycles[i].status.Failed?
    ensures var after := a.(subscription := Advance(a));
            var longer := bounds + [Advance(a).periodEnd];
            var paid := after.(cycles := a.cycles[i := a.cycles[i].(status := Paid)]);
            && TiledBy(after, longer) && !PaidTile(after, longer)
            && TiledBy(paid, longer) && (PaidTile(paid, longer) <==> PaidTile(a, bounds))
  {
    hide NextPeriodEnd, Fits, HasCycle, HasPaidCycle, OneLiveCycle;
    AdvanceKeepsTiling(a, bounds, i);
    var longer := bounds + [Advance(a).periodEnd];
    PayKeepsTiling(a.(subscription := Advance(a)), longer, i);
    assert forall k :: 0 <= k < |bounds| - 2 ==> longer[k] == bounds[k];
  }

  lemma RenewalKeepsTiling(a: Account, op: Op, limits: Limits, bounds: seq<int>)
    requires TiledBy(a, bounds) && op.Valid() && op.Renewal? && Starts(a) && (Advances(a, op) ==> PositivePlan(a))
    ensures TiledBy(Apply(a, op, limits), Extend(a, op, bounds))
    ensures PaidTile(Apply(a, op, limits), Extend(a, op, bounds)) <==> PaidTile(a, bounds) && !Slips(a, op)
    ensures Apply(a, op, limits).plans == a.plans
  {
    hide Ascending, Fits, HasCycle, HasPaidCycle, OneLiveCycle, PaidTile, NextPeriodEnd;
    var p := op.ending.Reached();
    var i := FindCycle(a.cycles, a.subscription.periodStart);
    ProgressKeepsTiling(a, p, bounds);
    if op.ending.Throws? && !op.ending.handler.StopsBeforeFailed? {
      var b, longer := Progress(a, p), Extend(a, op, bounds);
      assert i < |b.cycles| && b.cycles[i].status.Processing?;
      RewriteKeepsTiling(b, longer, i, b.cycles[i].(status := Failed));
      var failed := b.(cycles := b.cycles[i := b.cycles[i].(status := Failed)]);
      StatusKeepsTiling(failed, longer, StatusAfterFailure(a.subscription, b.cycles[i].attemptCount, limits, op.now));
    }
  }

  lemma StatusKeepsTiling(a: Account, bounds: seq<int>, status: SubscriptionStatus)
    requires TiledBy(a, bounds) && !a.subscription.status.Cancelled?
    ensures var after := a.(subscription := a.subscription.(status := status));
            TiledBy(after, bounds) && (PaidTile(after, bounds) <==> PaidTile(a, bounds))
  {
  }

  lemma OpKeepsTiling(a: Account, op: Op, limits: Limits, bounds: seq<int>)
    requires TiledBy(a, bounds) && op.Valid() && (Advances(a, op) ==> PositivePlan(a))
    ensures TiledBy(Apply(a, op, limits), Extend(a, op, bounds))
    ensures PaidTile(Apply(a, op, limits), Extend(a, op, bounds)) <==> PaidTile(a, bounds) && !Slips(a, op)
    ensures Apply(a, op, limits).plans == a.plans
  {
    hide Fits, HasCycle, OneLiveCycle, NextPeriodEnd, Progress, FindCycle, Recover;
    if op.Renewal? && Starts(a) {
      RenewalKeepsTiling(a, op, limits, bounds);
    }
  }

  // ---- Every run --------------------------------------------------------------------------------

  /** A subscription as it was created, with no cycle yet. */
  predicate Created(a: Account) {
    a.cycles == []
  }

  /** A new subscription, with or without a trial, has a first period of positive length exactly if its plan's
      count is positive. */
  lemma FirstPeriodExactlyWhen(tenantId: string, customerId: string, planId: string, trialOverride: Option<int>,
                               now: int, plans: map<string, Plan>)
    requires planId in plans
    ensures var s := NewSubscription(tenantId, customerId, planId, plans[planId], trialOverride, now);
            && (s.periodStart < s.periodEnd <==> plans[planId].intervalCount >= 1)
            && (s.periodStart == s.periodEnd <==> plans[planId].intervalCount == 0)
  {
    var s := NewSubscription(tenantId, customerId, planId, plans[planId], trialOverride, now);
    StepAdvancesExactlyWhen(s.periodStart, plans[planId].interval, plans[planId].intervalCount);
    StepStaysExactlyWhen(s.periodStart, plans[planId].interval, plans[planId].intervalCount);
    hide NextPeriodEnd;
  }

  /** The bounds that a run makes: the first period's, and one more at each advance. */
  function BoundsOf(a: Account, ops: seq<Op>, limits: Limits): (bounds: seq<int>)
    requires ValidOps(ops)
    ensures |bounds| >= 2 && bounds[0] == a.subscription.periodStart && bounds[1] == a.subscription.periodEnd
  {
    if ops == [] then [a.subscription.periodStart, a.subscription.periodEnd]
    else
      var n := |ops| - 1;
      Extend(Run(a, ops[..n], limits), ops[n], BoundsOf(a, ops[..n], limits))
  }

  /** The first period has positive length, and each advance used a plan of positive interval count. */
  predicate PositiveRun(a: Account, ops: seq<Op>, limits: Limits)
    requires ValidOps(ops)
  {
    if ops == [] then a.subscription.periodStart < a.subscription.periodEnd
    else
      var n := |ops| - 1;
      var b := Run(a, ops[..n], limits);
      PositiveRun(a, ops[..n], limits) && (Advances(b, ops[n]) ==> PositivePlan(b))
  }

  /** Every later period is one interval of some plan long. */
  ghost predicate PlanStep(bounds: seq<int>, i: nat, plans: map<string, Plan>) {
    i + 1 < |bounds|
    && exists id :: id in plans
         && bounds[i + 1] == NextPeriodEnd(bounds[i], plans[id].interval, plans[id].intervalCount)
  }

  ghost predicate PlanSteps(bounds: seq<int>, plans: map<string, Plan>) {
    forall i :: 1 <= i < |bounds| - 1 ==> PlanStep(bounds, i, plans)
  }

  /** The subscription's period ends at the last bound, unless an immediate cancellation cut it. */
  predicate EndsAtLast(a: Account, bounds: seq<int>) {
    bounds != [] && (a.subscription.status.Cancelled? || a.subscription.periodEnd == bounds[|bounds| - 1])
  }

  lemma OpEndsAtLast(a: Account, op: Op, limits: Limits, bounds: seq<int>)
    requires op.Valid() && EndsAtLast(a, bounds)
    ensures EndsAtLast(Apply(a, op, limits), Extend(a, op, bounds))
    ensures Apply(a, op, limits).plans == a.plans
  {
    hide NextPeriodEnd, FindCycle, EnsureCycle;
  }

  lemma ExtendIsAPlanStep(a: Account, op: Op, bounds: seq<int>)
    requires EndsAtLast(a, bounds) && PlanSteps(bounds, a.plans) && |bounds| >= 2
    ensures PlanSteps(Extend(a, op, bounds), a.plans)
  {
    var longer := Extend(a, op, bounds);
    hide NextPeriodEnd;
    forall i | 1 <= i < |longer| - 1
      ensures PlanStep(longer, i, a.plans)
    {
      if i < |bounds| - 1 {
        assert PlanStep(bounds, i, a.plans);
      } else {
        assert a.subscription.planId in a.plans && longer[i] == a.subscription.periodEnd;
      }
    }
  }

  lemma AscendingNeedsPositivePlan(a: Account, op: Op, bounds: seq<int>)
    requires EndsAtLast(a, bounds) && Ascending(Extend(a, op, bounds))
    ensures Ascending(bounds) && (Advances(a, op) ==> PositivePlan(a))
  {
    var longer := Extend(a, op, bounds);
    assert forall k :: 0 <= k < |bounds| ==> longer[k] == bounds[k];
    if Advances(a, op) {
      var plan := a.plans[a.subscription.planId];
      StepAdvancesExactlyWhen(a.subscription.periodEnd, plan.interval, plan.intervalCount);
      hide NextPeriodEnd;
      assert longer[|bounds| - 1] < longer[|bounds|];
    }
  }

  lemma {:induction false} BoundsArePlanSteps(a: Account, ops: seq<Op>, limits: Limits)
    requires ValidOps(ops)
    ensures EndsAtLast(Run(a, ops, limits), BoundsOf(a, ops, limits)) && Run(a, ops, limits).plans == a.plans
    ensures PlanSteps(BoundsOf(a, ops, limits), a.plans)
    ensures Ascending(BoundsOf(a, ops, limits)) ==> PositiveRun(a, ops, limits)
  {
    hide Ascending, Apply, Advances, Extend, PositivePlan, EndsAtLast, PlanSteps;
    if ops == [] {
      FirstBounds(a);
    } else {
      var n := |ops| - 1;
      BoundsArePlanSteps(a, ops[..n], limits);
      OpEndsAtLast(Run(a, ops[..n], limits), ops[n], limits, BoundsOf(a, ops[..n], limits));
      ExtendIsAPlanStep(Run(a, ops[..n], limits), ops[n], BoundsOf(a, ops[..n], limits));
      if Ascending(BoundsOf(a, ops, limits)) {
        AscendingNeedsPositivePlan(Run(a, ops[..n], limits), ops[n], BoundsOf(a, ops[..n], limits));
      }
    }
  }

  lemma FirstBounds(a: Account)
    ensures var bounds := [a.subscription.periodStart, a.subscription.periodEnd];
            && EndsAtLast(a, bounds) && PlanSteps(bounds, a.plans)
            && (Ascending(bounds) <==> a.subscription.periodStart < a.subscription.periodEnd)
            && (Ascending(bounds) && Created(a) ==> TiledBy(a, bounds) && PaidTile(a, bounds))
  {
    var bounds := [a.subscription.periodStart, a.subscription.periodEnd];
    if Ascending(bounds) {
      assert bounds[0] < bounds[1];
    }
  }

  lemma {:induction false} PositiveRunTiles(a: Account, ops: seq<Op>, limits: Limits)
    requires Created(a) && ValidOps(ops) && PositiveRun(a, ops, limits)
    ensures TiledBy(Run(a, ops, limits), BoundsOf(a, ops, limits))
    ensures PaidTile(Run(a, ops, limits), BoundsOf(a, ops, limits)) <==> NeverSlips(a, ops, limits)
  {
    hide Ascending, TiledBy, PaidTile, Apply, Slips, Advances, Extend, PositivePlan;
    if ops == [] {
      FirstBounds(a);
    } else {
      var n := |ops| - 1;
      PositiveRunTiles(a, ops[..n], limits);
      OpKeepsTiling(Run(a, ops[..n], limits), ops[n], limits, BoundsOf(a, ops[..n], limits));
    }
  }

  /**
   Over every serial run, whatever await each call ends at and whatever the plans, the bounds grow by
   one plan interval at each advance. They cut time into the subscription's periods, ascending and
   contiguous from the first period start, with at most one live cycle per start, exactly when every
   period so made used a positive interval count. Then the PAID cycles alone tile up to the current
   period exactly when no call slipped between the advance and its PAID mark.
   */
  lemma PeriodsTile(a: Account, ops: seq<Op>, limits: Limits)
    requires Created(a) && ValidOps(ops)
    ensures var bounds := BoundsOf(a, ops, limits);
            && PlanSteps(bounds, a.plans)
            && (TiledBy(Run(a, ops, limits), bounds) <==> PositiveRun(a, ops, limits))
            && (PositiveRun(a, ops, limits) ==> (PaidTile(Run(a, ops, limits), bounds) <==> NeverSlips(a, ops, limits)))
  {
    BoundsArePlanSteps(a, ops, limits);
    if PositiveRun(a, ops, limits) {
      PositiveRunTiles(a, ops, limits);
    }
    hide Run, BoundsOf, PositiveRun, NeverSlips, Ascending, PaidTile, PlanSteps;
  }

  /** The starts of the periods whose call marked its cycle PAID. */
  function PaidStarts(a: Account, ops: seq<Op>, limits: Limits): set<int>
    requires ValidOps(ops)
  {
    if ops == [] then {}
    else
      var n := |ops| - 1;
      var b := Run(a, ops[..n], limits);
      PaidStarts(a, ops[..n], limits)
      + (if Advances(b, ops[n]) && ops[n].ending.Reached().Returned? then {b.subscription.periodStart} else {})
  }

  /** At most one live cycle per start, and PAID cycles exactly at the given starts. */
  ghost predicate PaidAt(cycles: seq<Cycle>, starts: set<int>) {
    OneLiveCycle(cycles) && forall start :: HasPaidCycle(cycles, start) <==> start in starts
  }

  lemma PaidAtSame(cycles: seq<Cycle>, after: seq<Cycle>, starts: set<int>)
    requires PaidAt(cycles, starts) && SameStarts(cycles, after) && OneLiveCycle(after)
    ensures PaidAt(after, starts)
  {
    hide OneLiveCycle, HasPaidCycle, HasCycle;
  }

  lemma PaidAtPaid(cycles: seq<Cycle>, i: nat, starts: set<int>)
    requires PaidAt(cycles, starts) && i < |cycles| && !cycles[i].status.Failed?
    ensures PaidAt(cycles[i := cycles[i].(status := Paid)], starts + {cycles[i].periodStart})
  {
    LiveAfterRewrite(cycles, i, cycles[i].(status := Paid));
    hide OneLiveCycle, HasPaidCycle, HasCycle;
    forall start {
      StartsAfterPay(cycles, i, start);
    }
  }

  /** The cycles once the call has counted its attempt. */
  lemma PaidAtCounted(a: Account, starts: set<int>) returns (i: nat, counted: seq<Cycle>)
    requires PaidAt(a.cycles, starts) && Starts(a)
    ensures i == FindCycle(a.cycles, a.subscription.periodStart) < |EnsureCycle(a)| == |counted|
    ensures PaidAt(EnsureCycle(a), starts) && PaidAt(counted, starts)
    ensures counted == EnsureCycle(a)[i := counted[i]] && counted[i].status.Processing?
    ensures counted[i] == EnsureCycle(a)[i].(status := Processing, attemptCount := EnsureCycle(a)[i].attemptCount + 1)
    ensures counted[i].periodStart == a.subscription.periodStart
  {
    i := FindCycle(a.cycles, a.subscription.periodStart);
    var ensured := EnsureCycle(a);
    hide PaidAt, OneLiveCycle, HasPaidCycle, HasCycle, SameStarts;
    if i == |a.cycles| {
      StartsAfterAppend(a.cycles, ensured[i]);
      PaidAtLive(a.cycles, starts);
      LiveAfterAppend(a.cycles, ensured[i]);
      PaidAtSame(a.cycles, ensured, starts);
    }
    counted := ensured[i := ensured[i].(status := Processing, attemptCount := ensured[i].attemptCount + 1)];
    PaidAtRewritten(ensured, i, counted[i], starts);
  }

  lemma PaidAtLive(cycles: seq<Cycle>, starts: set<int>)
    requires PaidAt(cycles, starts)
    ensures OneLiveCycle(cycles)
  {
  }

  lemma PaidAtRewritten(cycles: seq<Cycle>, i: nat, c: Cycle, starts: set<int>)
    requires PaidAt(cycles, starts) && i < |cycles|
        && c == cycles[i].(status := c.status, attemptCount := c.attemptCount)
    requires c.status.Failed? || !cycles[i].status.Failed?
    requires !cycles[i].status.Paid? && !c.status.Paid?
    ensures PaidAt(cycles[i := c], starts)
  {
    LiveAfterRewrite(cycles, i, c);
    StartsAfterRewrite(cycles, i, c);
    hide OneLiveCycle, HasPaidCycle, HasCycle, SameStarts;
    PaidAtSame(cycles, cycles[i := c], starts);
  }

  lemma OpPaysStarts(a: Account, op: Op, limits: Limits, starts: set<int>)
    requires op.Valid() && PaidAt(a.cycles, starts)
    ensures PaidAt(Apply(a, op, limits).cycles,
                   starts + (if Advances(a, op) && op.ending.Reached().Returned?
                     then {a.subscription.periodStart} else {}))
  {
    hide PaidAt, NextPeriodEnd;
    if op.Renewal? && Starts(a) {
      var i, counted := PaidAtCounted(a, starts);
      PaidAtPaid(counted, i, starts);
      PaidAtRewritten(counted, i, counted[i].(status := Failed), starts);
    }
    assert starts + {} == starts;
  }

  lemma {:induction false} RunPaysStarts(a: Account, ops: seq<Op>, limits: Limits)
    requires Created(a) && ValidOps(ops)
    ensures PaidAt(Run(a, ops, limits).cycles, PaidStarts(a, ops, limits))
  {
    hide PaidAt, Apply, Advances;
    if ops == [] {
      NothingPaid();
    } else {
      var n := |ops| - 1;
      RunPaysStarts(a, ops[..n], limits);
      OpPaysStarts(Run(a, ops[..n], limits), ops[n], limits, PaidStarts(a, ops[..n], limits));
    }
  }

  lemma NothingPaid()
    ensures PaidAt([], {})
  {
  }

  lemma StartsUnlessPaid(a: Account, starts: set<int>)
    requires PaidAt(a.cycles, starts)
    ensures Starts(a) <==>
            Renewable(a.subscription.status) && a.subscription.planId in a.plans
              && a.subscription.periodStart !in starts
  {
    var i := FindCycle(a.cycles, a.subscription.periodStart);
    assert HasPaidCycle(a.cycles, a.subscription.periodStart) <==> a.subscription.periodStart in starts;
    assert i < |a.cycles| && a.cycles[i].status.Paid? ==> HasPaidCycle(a.cycles, a.subscription.periodStart);
  }

  /**
   In every serial run, whatever the plans, the early return on a PAID cycle is taken exactly when the
   period has come back to the start of one already paid.
   */
  lemma EarlyReturnExactlyWhen(a: Account, ops: seq<Op>, limits: Limits)
    requires Created(a) && ValidOps(ops)
    ensures var b := Run(a, ops, limits);
            Renewable(b.subscription.status) && b.subscription.planId in b.plans ==>
              (!Starts(b) <==> b.subscription.periodStart in PaidStarts(a, ops, limits))
  {
    RunPaysStarts(a, ops, limits);
    hide Run, PaidStarts, PaidAt, Starts;
    StartsUnlessPaid(Run(a, ops, limits), PaidStarts(a, ops, limits));
  }

  /** While every interval count is positive it never comes back, and the early return is never taken. */
  lemma RenewableAlwaysStarts(a: Account, ops: seq<Op>, limits: Limits)
    requires Created(a) && ValidOps(ops) && PositiveRun(a, ops, limits)
    ensures var b := Run(a, ops, limits);
            && (Starts(b) <==> Renewable(b.subscription.status) && b.subscription.planId in a.plans)
            && b.subscription.periodStart !in PaidStarts(a, ops, limits)
  {
    BoundsArePlanSteps(a, ops, limits);
    PositiveRunTiles(a, ops, limits);
    RunPaysStarts(a, ops, limits);
    hide Run, BoundsOf, PositiveRun, PaidStarts, Ascending, AllFit, OneLiveCycle, HasCycle;
  }

  /**
   A renewal that completes on a new subscription leaves it stuck exactly when the plan's interval
   count is 0: the period does not move, its cycle is PAID, and every later renewal takes the early
   return and changes nothing.
   */
  lemma ZeroCountSticksExactlyWhen(a: Account, now: int, limits: Limits)
    requires Created(a) && Starts(a)
    requires var plan := a.plans[a.subscription.planId];
             a.subscription.periodEnd == NextPeriodEnd(a.subscription.periodStart, plan.interval, plan.intervalCount)
    ensures var b := Renew(a, Stops(Returned), limits, now);
            && Renewable(b.subscription.status) && b.subscription.planId in b.plans
            && (!Starts(b) <==> a.plans[a.subscription.planId].intervalCount == 0)
            && (!Starts(b) ==> forall op: Op :: op.Renewal? && op.Valid() ==> Apply(b, op, limits) == b)
  {
    var plan := a.plans[a.subscription.planId];
    StepStaysExactlyWhen(a.subscription.periodStart, plan.interval, plan.intervalCount);
    hide NextPeriodEnd;
    var b := Renew(a, Stops(Returned), limits, now);
    assert FindCycle(a.cycles, a.subscription.periodStart) == 0;
    assert b.cycles == [Cycle(a.subscription.periodStart, a.subscription.periodEnd, Paid, 1)];
  }
}
