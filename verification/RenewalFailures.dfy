/** Failing renewals: the retry limit and the grace period over runs of failing calls. */
module RenewalFailures {
  import opened Calendar
  import opened Periods
  import opened Subscriptions
  import opened RenewalRuns

  // ---- Retries and the grace period -------------------------------------------------------------

  /** The call is not cut short: it returns, or throws and its handler finishes. */
  predicate Uncut(op: Op) {
    op.Renewal? ==> match op.ending
                    case Stops(p) => p.Returned?
                    case Throws(_, h) => h.Handled?
  }

  ghost predicate SingleAttempts(cycles: seq<Cycle>) {
    forall j :: 0 <= j < |cycles| ==> cycles[j].attemptCount == 1 && !cycles[j].status.Processing?
  }

  lemma UncutStep(a: Account, op: Op, limits: Limits, other: Limits)
    requires op.Valid() && Uncut(op) && SingleAttempts(a.cycles)
    ensures SingleAttempts(Apply(a, op, limits).cycles)
    ensures limits.gracePeriodDays == other.gracePeriodDays && limits.maxRetries >= 2 && other.maxRetries >= 2
        ==> Apply(a, op, limits) == Apply(a, op, other)
  {
    if op.Renewal? && Starts(a) {
      var i := FindCycle(a.cycles, a.subscription.periodStart);
      assert i == |a.cycles|;
      var withCycle := EnsureCycle(a);
      assert forall j :: 0 <= j < i ==> withCycle[j] == a.cycles[j];
    }
  }

  /**
   The retry limit: in runs whose calls are not cut short every cycle is attempted once, because a
   failure opens a new cycle. So any limit of 2 or more gives the same run.
   */
  lemma {:induction false} RetryLimitNeverDecides(a: Account, ops: seq<Op>, limits: Limits, other: Limits)
    requires Created(a) && ValidOps(ops)
    requires forall k :: 0 <= k < |ops| ==> Uncut(ops[k])
    requires limits.gracePeriodDays == other.gracePeriodDays && limits.maxRetries >= 2 && other.maxRetries >= 2
    ensures SingleAttempts(Run(a, ops, limits).cycles)
    ensures Run(a, ops, limits) == Run(a, ops, other)
  {
    if ops != [] {
      var n := |ops| - 1;
      RetryLimitNeverDecides(a, ops[..n], limits, other);
      UncutStep(Run(a, ops[..n], limits), ops[n], limits, other);
    }
  }

  /** A limit of 1 does decide: the first failure expires the subscription inside its grace period. */
  lemma LimitOfOneExpires(a: Account, now: int, graceDays: int)
    requires Created(a) && Starts(a) && !PastGrace(a.subscription, Limits(graceDays, 1), now)
    ensures var fails := Renewal(Throws(CreateInvoice, Handled), now);
            && Run(a, [fails], Limits(graceDays, 1)).subscription.status.Expired?
            && Run(a, [fails], Limits(graceDays, 2)).subscription.status.PastDue?
  {
    var fails := Renewal(Throws(CreateInvoice, Handled), now);
    assert [fails][..0] == [];
  }

  // ---- The grace period -------------------------------------------------------------------------

  /** A failing call: when it starts, when its handler reads the clock, and where it threw. */
  datatype Failure = Failure(start: int, handled: int, at: Point) {
    predicate Valid() {
      (at.CreateInvoice? || at.IssueInvoice? || at.AdvancePeriod? || at.MarkPaid?) && start <= handled
    }

    function AsOp(): (op: Op)
      requires Valid()
      ensures op.Valid() && Uncut(op)
    {
      Renewal(Throws(at, Handled), handled)
    }
  }

  /** Calls are a day or more apart, as the queue's retries are. */
  ghost predicate Daily(fs: seq<Failure>) {
    && (forall k :: 0 <= k < |fs| ==> fs[k].Valid())
    && (forall k {:trigger fs[k]} :: 0 < k < |fs| ==> fs[k - 1].start + MS_PER_DAY <= fs[k].start)
  }

  function Fail(a: Account, f: Failure, limits: Limits): Account
    requires f.Valid()
  {
    Apply(a, f.AsOp(), limits)
  }

  function RunFailures(a: Account, fs: seq<Failure>, limits: Limits): Account
    requires forall k :: 0 <= k < |fs| ==> fs[k].Valid()
  {
    if fs == [] then a else Fail(RunFailures(a, fs[..|fs| - 1], limits), fs[|fs| - 1], limits)
  }

  /** Each call starts at or after the end of the period as the calls before it left it. */
  ghost predicate Due(a: Account, fs: seq<Failure>, limits: Limits)
    requires forall k :: 0 <= k < |fs| ==> fs[k].Valid()
  {
    fs == []
    || (Due(a, fs[..|fs| - 1], limits)
        && RunFailures(a, fs[..|fs| - 1], limits).subscription.periodEnd <= fs[|fs| - 1].start)
  }

  /** The call leaves the subscription PAST_DUE. */
  predicate LeavesPastDue(a: Account, f: Failure, limits: Limits)
    requires f.Valid()
  {
    Starts(a) && Fail(a, f, limits).subscription.status.PastDue?
  }

  function PastDueWrites(a: Account, fs: seq<Failure>, limits: Limits): nat
    requires forall k :: 0 <= k < |fs| ==> fs[k].Valid()
  {
    if fs == [] then 0
    else
      var n := |fs| - 1;
      PastDueWrites(a, fs[..n], limits)
        + (if LeavesPastDue(RunFailures(a, fs[..n], limits), fs[n], limits) then 1 else 0)
  }

  /** The call throws at the PAID write, after it has advanced the period. */
  predicate FailsLate(a: Account, f: Failure)
  {
    Starts(a) && f.at.MarkPaid?
  }

  function LateFailures(a: Account, fs: seq<Failure>, limits: Limits): nat
    requires forall k :: 0 <= k < |fs| ==> fs[k].Valid()
  {
    if fs == [] then 0
    else
      var n := |fs| - 1;
      LateFailures(a, fs[..n], limits) + (if FailsLate(RunFailures(a, fs[..n], limits), fs[n]) then 1 else 0)
  }

  /** The PAST_DUE writes since the last advance. */
  function WritesSinceAdvance(a: Account, fs: seq<Failure>, limits: Limits): nat
    requires forall k :: 0 <= k < |fs| ==> fs[k].Valid()
  {
    if fs == [] then 0
    else
      var n := |fs| - 1;
      var b := RunFailures(a, fs[..n], limits);
      if FailsLate(b, fs[n]) then 0
      else WritesSinceAdvance(a, fs[..n], limits) + (if LeavesPastDue(b, fs[n], limits) then 1 else 0)
  }

  /** One failing call: PAST_DUE or EXPIRED, judged by the period end it read, which a late one has moved. */
  lemma FailureStep(a: Account, f: Failure, limits: Limits)
    requires f.Valid()
    ensures var b := Fail(a, f, limits);
            && b.plans == a.plans
            && (!Starts(a) ==> b == a)
            && (Starts(a) ==>
                  && (b.subscription.status.PastDue? || b.subscription.status.Expired?)
                  && b.subscription.planId == a.subscription.planId
                  && (PastGrace(a.subscription, limits, f.handled) ==> b.subscription.status.Expired?)
                  && b.subscription.periodStart
                     == (if f.at.MarkPaid? then Advance(a).periodStart else a.subscription.periodStart)
                  && b.subscription.periodEnd
                     == (if f.at.MarkPaid? then Advance(a).periodEnd else a.subscription.periodEnd))
  {
    hide NextPeriodEnd, PastGrace;
  }

  /** A failing call keeps the period exactly when it throws before the advance, or its plan has count 0. */
  lemma FailureKeepsPeriodExactlyWhen(a: Account, f: Failure, limits: Limits)
    requires f.Valid() && Starts(a)
    ensures Fail(a, f, limits).subscription.periodEnd == a.subscription.periodEnd
            <==> !f.at.MarkPaid? || a.plans[a.subscription.planId].intervalCount == 0
  {
    var plan := a.plans[a.subscription.planId];
    FailureStep(a, f, limits);
    StepStaysExactlyWhen(a.subscription.periodEnd, plan.interval, plan.intervalCount);
    hide Fail, NextPeriodEnd;
  }

  /** `m` PAST_DUE writes since the last advance, `writes` in all, after `late` late failures; the last call
      started at `last`. */
  predicate InSpan(periodEnd: int, last: int, m: nat, writes: nat, late: nat, days: int) {
    && m <= Span(days)
    && (m > 0 ==> periodEnd + (m - 1) * MS_PER_DAY <= last)
    && writes <= Spans(late, days) + m
  }

  /** What holds after each failing call. */
  ghost predicate Counted(a: Account, fs: seq<Failure>, limits: Limits)
    requires forall k :: 0 <= k < |fs| ==> fs[k].Valid()
  {
    && (fs == [] ==> WritesSinceAdvance(a, fs, limits) == 0)
    && InSpan(RunFailures(a, fs, limits).subscription.periodEnd, if fs == [] then 0 else fs[|fs| - 1].start,
              WritesSinceAdvance(a, fs, limits), PastDueWrites(a, fs, limits), LateFailures(a, fs, limits),
              limits.gracePeriodDays)
  }

  /** The days of a grace period on which a failure can still leave PAST_DUE; the setting may be negative. */
  function Span(days: int): int {
    Max(0, days + 1)
  }

  /** The PAST_DUE writes of so many full grace periods. */
  function Spans(count: nat, days: int): int {
    count * Span(days)
  }

  lemma OneMoreSpan(count: nat, days: int)
    ensures Spans(count + 1, days) == Spans(count, days) + Span(days)
  {
  }

  /** One call more, in numbers: it started a day or more after the last, and `wrote` counts its PAST_DUE write. */
  lemma InSpanAfter(periodEnd: int, last: int, m: nat, writes: nat,
      late: nat, days: int, f: Failure, wrote: nat, next: int)
    requires InSpan(periodEnd, last, m, writes, late, days)
    requires periodEnd <= f.start <= f.handled && (m > 0 ==> last + MS_PER_DAY <= f.start)
    requires wrote <= 1 && (wrote == 1 ==> f.handled <= AddDays(periodEnd, days))
    ensures InSpan(periodEnd, f.start, m + wrote, writes + wrote, late, days)
    ensures InSpan(next, f.start, 0, writes + wrote, late + 1, days)
  {
    OneMoreSpan(late, days);
    hide Spans;
  }

  lemma LastFailureCounts(a: Account, fs: seq<Failure>, limits: Limits)
    requires fs != [] && forall k :: 0 <= k < |fs| ==> fs[k].Valid()
    ensures var n := |fs| - 1;
            var b, m := RunFailures(a, fs[..n], limits), WritesSinceAdvance(a, fs[..n], limits);
            var wrote, late := if LeavesPastDue(b, fs[n], limits) then 1 else 0, FailsLate(b, fs[n]);
            && RunFailures(a, fs, limits) == Fail(b, fs[n], limits)
            && PastDueWrites(a, fs, limits) == PastDueWrites(a, fs[..n], limits) + wrote
            && LateFailures(a, fs, limits) == LateFailures(a, fs[..n], limits) + (if late then 1 else 0)
            && WritesSinceAdvance(a, fs, limits) == if late then 0 else m + wrote
  {
    hide LeavesPastDue, FailsLate, Fail;
  }

  lemma NextCounted(a: Account, fs: seq<Failure>, limits: Limits)
    requires fs != [] && Daily(fs) && Daily(fs[..|fs| - 1])
    requires Counted(a, fs[..|fs| - 1], limits)
    requires RunFailures(a, fs[..|fs| - 1], limits).subscription.periodEnd <= fs[|fs| - 1].start
    ensures Counted(a, fs, limits)
  {
    hide *;
    var n := |fs| - 1;
    DayApart(fs);
    var b, f := RunFailures(a, fs[..n], limits), fs[n];
    LastFailureCounts(a, fs, limits);
    CountedIs(a, fs, limits);
    CountedIs(a, fs[..n], limits);
    NotPastGrace(b, f, limits);
    InSpanAfter(b.subscription.periodEnd, if n == 0 then 0 else fs[n - 1].start, WritesSinceAdvance(a, fs[..n], limits),
                PastDueWrites(a, fs[..n], limits), LateFailures(a, fs[..n], limits), limits.gracePeriodDays, f,
                if LeavesPastDue(b, f, limits) then 1 else 0, RunFailures(a, fs, limits).subscription.periodEnd);
    PeriodMoves(b, f, limits);
  }

  lemma CountedIs(a: Account, fs: seq<Failure>, limits: Limits)
    requires forall k :: 0 <= k < |fs| ==> fs[k].Valid()
    ensures Counted(a, fs, limits) <==>
            && (fs == [] ==> WritesSinceAdvance(a, fs, limits) == 0)
            && InSpan(RunFailures(a, fs, limits).subscription.periodEnd, if fs == [] then 0 else fs[|fs| - 1].start,
                      WritesSinceAdvance(a, fs, limits), PastDueWrites(a, fs, limits), LateFailures(a, fs, limits),
                      limits.gracePeriodDays)
  {
  }

  lemma DayApart(fs: seq<Failure>)
    requires fs != [] && Daily(fs)
    ensures (forall k :: 0 <= k < |fs| ==> fs[k].Valid()) && fs[|fs| - 1].start <= fs[|fs| - 1].handled
    ensures |fs| > 1 ==> fs[|fs| - 2].start + MS_PER_DAY <= fs[|fs| - 1].start
  {
    var n := |fs| - 1;
    if n > 0 {
      assert fs[n - 1].start + MS_PER_DAY <= fs[n].start;
    }
  }

  lemma NotPastGrace(a: Account, f: Failure, limits: Limits)
    requires f.Valid()
    ensures LeavesPastDue(a, f, limits) ==> f.handled <= AddDays(a.subscription.periodEnd, limits.gracePeriodDays)
  {
    FailureStep(a, f, limits);
    hide Fail, Starts;
  }

  lemma PeriodMoves(a: Account, f: Failure, limits: Limits)
    requires f.Valid()
    ensures !FailsLate(a, f) ==> Fail(a, f, limits).subscription.periodEnd == a.subscription.periodEnd
  {
    FailureStep(a, f, limits);
    hide Fail, Starts;
  }

  /**
   Failing calls a day apart, each due and thrown at any of the three points, leave the subscription
   PAST_DUE at most `gracePeriodDays` + 1 times since the last advance, never if that is negative. Each
   call that fails late opens another such span, and no other call does.
   */
  lemma {:induction false} GraceBound(a: Account, fs: seq<Failure>, limits: Limits)
    requires Daily(fs) && Due(a, fs, limits)
    ensures Counted(a, fs, limits)
    ensures WritesSinceAdvance(a, fs, limits) <= Span(limits.gracePeriodDays)
    ensures PastDueWrites(a, fs, limits) <= Spans(LateFailures(a, fs, limits) + 1, limits.gracePeriodDays)
  {
    hide RunFailures, PastDueWrites, WritesSinceAdvance, LateFailures, Spans;
    if fs == [] {
      NoFailures(a, limits);
    } else {
      var n := |fs| - 1;
      assert Daily(fs[..n]);
      GraceBound(a, fs[..n], limits);
      NextCounted(a, fs, limits);
    }
    OneMoreSpan(LateFailures(a, fs, limits), limits.gracePeriodDays);
  }

  lemma NoFailures(a: Account, limits: Limits)
    ensures Counted(a, [], limits)
  {
  }

  // ---- Failures before the advance end ----------------------------------------------------------

  /** No call throws after the advance. */
  predicate Early(fs: seq<Failure>) {
    forall k :: 0 <= k < |fs| ==> !fs[k].at.MarkPaid?
  }

  lemma {:induction false} EarlyFailuresKeepPeriod(a: Account, fs: seq<Failure>, limits: Limits)
    requires (forall k :: 0 <= k < |fs| ==> fs[k].Valid()) && Early(fs)
    ensures var b := RunFailures(a, fs, limits);
            && b.subscription == a.subscription.(status := b.subscription.status) && b.plans == a.plans
            && LateFailures(a, fs, limits) == 0
  {
    if fs != [] {
      var n := |fs| - 1;
      EarlyFailuresKeepPeriod(a, fs[..n], limits);
      EarlyFailureKeepsRow(RunFailures(a, fs[..n], limits), fs[n], limits);
      hide Fail;
    }
  }

  lemma EarlyFailureKeepsRow(a: Account, f: Failure, limits: Limits)
    requires f.Valid() && !f.at.MarkPaid?
    ensures Fail(a, f, limits).subscription == a.subscription.(status := Fail(a, f, limits).subscription.status)
    ensures Fail(a, f, limits).plans == a.plans
  {
    hide NextPeriodEnd;
  }

  /** Early failures leave no PAID cycle and start again while the subscription is renewable. */
  lemma EarlyFailureStarts(a: Account, f: Failure, limits: Limits)
    requires f.Valid() && !f.at.MarkPaid?
    requires a.subscription.planId in a.plans && !HasPaidCycle(a.cycles, a.subscription.periodStart)
    ensures Starts(a) <==> Renewable(a.subscription.status)
    ensures !HasPaidCycle(Fail(a, f, limits).cycles, a.subscription.periodStart)
  {
    hide NextPeriodEnd;
    if Starts(a) {
      var i := FindCycle(a.cycles, a.subscription.periodStart);
      var b := Fail(a, f, limits);
      assert forall j :: 0 <= j < |b.cycles| && j != i ==> b.cycles[j] == a.cycles[j];
      assert b.cycles[i].status.Failed?;
    }
  }

  lemma {:induction false} StartsAscend(periodEnd: int, fs: seq<Failure>, k: nat)
    requires Daily(fs) && k < |fs| && periodEnd <= fs[0].start
    ensures periodEnd + k * MS_PER_DAY <= fs[k].start
  {
    if k > 0 {
      StartsAscend(periodEnd, fs, k - 1);
      assert fs[k - 1].start + MS_PER_DAY <= fs[k].start;
    }
  }

  lemma GraceIsOver(s: Subscription, limits: Limits, f: Failure, days: int)
    requires s.periodEnd + days * MS_PER_DAY <= f.start <= f.handled && days > limits.gracePeriodDays
    ensures PastGrace(s, limits, f.handled)
  {
  }

  /**
   A renewal that keeps failing before the advance terminates: daily failures leave it PAST_DUE at
   most `gracePeriodDays` + 1 times, never if that is negative, and the failure after that has expired it.
   */
  lemma {:induction false} GraceEnds(a: Account, fs: seq<Failure>, limits: Limits)
    requires Renewable(a.subscription.status) && a.subscription.planId in a.plans
    requires !HasPaidCycle(a.cycles, a.subscription.periodStart)
    requires Daily(fs) && Early(fs)
    requires fs != [] ==> a.subscription.periodEnd <= fs[0].start
    ensures var b := RunFailures(a, fs, limits);
            && b.subscription == a.subscription.(status := b.subscription.status) && b.plans == a.plans
            && !HasPaidCycle(b.cycles, b.subscription.periodStart)
            && (fs != [] ==> b.subscription.status.PastDue? || b.subscription.status.Expired?)
            && (|fs| > Span(limits.gracePeriodDays) ==> b.subscription.status.Expired?)
    ensures PastDueWrites(a, fs, limits) <= Span(limits.gracePeriodDays)
    ensures PastDueWrites(a, fs, limits) <= |fs|
  {
    EarlyFailuresKeepPeriod(a, fs, limits);
    if fs != [] {
      var n := |fs| - 1;
      assert Daily(fs[..n]) && Early(fs[..n]);
      GraceEnds(a, fs[..n], limits);
      StartsAscend(a.subscription.periodEnd, fs, n);
      var b := RunFailures(a, fs[..n], limits);
      FailureStep(b, fs[n], limits);
      EarlyFailureStarts(b, fs[n], limits);
      hide Daily, Early, HasPaidCycle, Starts, PastGrace, Fail, Advance;
      if n > limits.gracePeriodDays {
        GraceIsOver(b.subscription, limits, fs[n], n);
      }
    }
  }

  // ---- Failures after the advance do not end ----------------------------------------------------

  /** Every period of a positive interval count is a day or more long. */
  lemma StepIsADay(t: int, interval: Interval, count: int)
    requires count >= 1
    ensures NextPeriodEnd(t, interval, count) >= t + MS_PER_DAY
  {
    MonthsAreADay(t, count);
    MonthsAreADay(t, 12 * count);
    hide AddMonths;
  }

  lemma MonthsAreADay(t: int, months: int)
    requires months >= 1
    ensures AddMonths(t, months) >= t + MS_PER_DAY
  {
    hide AddMonths, DateOf, DayNumber, TimeWithinDay, ClampedDate;
    AddMonthsMoves(t, months);
    AddMonthsDate(t, months);
    WholeDaysApart(AddMonths(t, months), t);
    WholeDayOrMore(DayNumber(DateOf(AddMonths(t, months))) - DayNumber(DateOf(t)));
  }

  lemma WholeDayOrMore(days: int)
    ensures days * MS_PER_DAY > 0 ==> days * MS_PER_DAY >= MS_PER_DAY
  {
  }

  /** `n` calls, each at the end of the period the one before has moved on to, all thrown at the PAID write. */
  function LateCalls(periodEnd: int, plan: Plan, n: nat): (fs: seq<Failure>)
    ensures |fs| == n && forall k :: 0 <= k < n ==> fs[k].Valid() && fs[k].at.MarkPaid?
  {
    if n == 0 then [] else
      LateCalls(periodEnd, plan, n - 1)
      + [Failure(NthEnd(periodEnd, plan, n - 1), NthEnd(periodEnd, plan, n - 1), MarkPaid)]
  }

  function NthEnd(periodEnd: int, plan: Plan, n: nat): int {
    if n == 0 then periodEnd else NextPeriodEnd(NthEnd(periodEnd, plan, n - 1), plan.interval, plan.intervalCount)
  }

  /** No cycle is live: each has FAILED. */
  predicate AllFailed(cycles: seq<Cycle>) {
    forall j :: 0 <= j < |cycles| ==> cycles[j].status.Failed?
  }

  lemma LateCallStep(a: Account, limits: Limits)
    requires Renewable(a.subscription.status) && a.subscription.planId in a.plans && AllFailed(a.cycles)
    requires limits.gracePeriodDays >= 0 && limits.maxRetries >= 2
    ensures var f := Failure(a.subscription.periodEnd, a.subscription.periodEnd, MarkPaid);
            var b := Fail(a, f, limits);
            && LeavesPastDue(a, f, limits) && FailsLate(a, f) && AllFailed(b.cycles) && b.plans == a.plans
            && b.subscription == Advance(a).(status := PastDue) && Renewable(b.subscription.status)
            && b.subscription.planId == a.subscription.planId
            && (var plan := a.plans[a.subscription.planId];
                b.subscription.periodEnd == NextPeriodEnd(f.start, plan.interval, plan.intervalCount))
  {
    hide NextPeriodEnd;
    assert FindCycle(a.cycles, a.subscription.periodStart) == |a.cycles|;
  }

  /** What `n` late calls leave. */
  ghost predicate StillPastDue(a: Account, n: nat, limits: Limits)
    requires a.subscription.planId in a.plans
  {
    var plan := a.plans[a.subscription.planId];
    var fs := LateCalls(a.subscription.periodEnd, plan, n);
    var b := RunFailures(a, fs, limits);
    && PastDueWrites(a, fs, limits) == LateFailures(a, fs, limits) == n && Due(a, fs, limits)
    && AllFailed(b.cycles) && b.plans == a.plans && Renewable(b.subscription.status)
    && b.subscription.planId == a.subscription.planId
    && b.subscription.periodEnd == NthEnd(a.subscription.periodEnd, plan, n)
  }

  lemma NextLateCall(a: Account, n: nat, limits: Limits)
    requires a.subscription.planId in a.plans && n > 0 && StillPastDue(a, n - 1, limits)
    requires limits.gracePeriodDays >= 0 && limits.maxRetries >= 2
    ensures StillPastDue(a, n, limits)
  {
    var plan := a.plans[a.subscription.planId];
    var fs := LateCalls(a.subscription.periodEnd, plan, n);
    LastLateCall(a.subscription.periodEnd, plan, n);
    var b := RunFailures(a, fs[..n - 1], limits);
    hide RunFailures, PastDueWrites, LateFailures, Fail, LeavesPastDue, FailsLate, Starts, NextPeriodEnd, AllFailed;
    hide LateCalls, NthEnd, Apply, Advance, Renewable;
    LateCallStep(b, limits);
    LastFailureCounts(a, fs, limits);
  }

  lemma LastLateCall(periodEnd: int, plan: Plan, n: nat)
    requires n > 0
    ensures var fs, end := LateCalls(periodEnd, plan, n), NthEnd(periodEnd, plan, n - 1);
            && fs[..n - 1] == LateCalls(periodEnd, plan, n - 1) && fs[n - 1] == Failure(end, end, MarkPaid)
            && NthEnd(periodEnd, plan, n) == NextPeriodEnd(end, plan.interval, plan.intervalCount)
  {
    hide NextPeriodEnd;
  }

  lemma {:induction false} LateCallsDaily(periodEnd: int, plan: Plan, n: nat)
    requires plan.intervalCount >= 1
    ensures Daily(LateCalls(periodEnd, plan, n))
    ensures n > 0 ==> LateCalls(periodEnd, plan, n)[n - 1].start == NthEnd(periodEnd, plan, n - 1)
  {
    hide NextPeriodEnd;
    if n > 0 {
      LateCallsDaily(periodEnd, plan, n - 1);
      if n > 1 {
        StepIsADay(NthEnd(periodEnd, plan, n - 2), plan.interval, plan.intervalCount);
      }
    }
  }

  /**
   Late failures never expire the subscription: each advances the period and is judged by the one
   before. For every plan of positive interval count and every `n`, calls that are each due and a day
   or more apart leave it PAST_DUE `n` times, whatever the grace period.
   */
  lemma {:induction false} LateFailuresNeverEnd(a: Account, n: nat, limits: Limits)
    requires Renewable(a.subscription.status) && a.subscription.planId in a.plans && AllFailed(a.cycles)
    requires a.plans[a.subscription.planId].intervalCount >= 1
    requires limits.gracePeriodDays >= 0 && limits.maxRetries >= 2
    ensures var fs := LateCalls(a.subscription.periodEnd, a.plans[a.subscription.planId], n);
            Daily(fs) && Due(a, fs, limits) && PastDueWrites(a, fs, limits) == LateFailures(a, fs, limits) == n
    ensures StillPastDue(a, n, limits)
  {
    LateCallsDaily(a.subscription.periodEnd, a.plans[a.subscription.planId], n);
    if n > 0 {
      LateFailuresNeverEnd(a, n - 1, limits);
      NextLateCall(a, n, limits);
    }
    hide Daily, NextPeriodEnd, LateCalls;
  }

  /** Such calls leave it PAST_DUE every time exactly when neither limit ends the first of them. */
  lemma LateFailuresLastExactlyWhen(a: Account, n: nat, limits: Limits)
    requires Renewable(a.subscription.status) && a.subscription.planId in a.plans && AllFailed(a.cycles)
    requires a.plans[a.subscription.planId].intervalCount >= 1 && n > 0
    ensures PastDueWrites(a, LateCalls(a.subscription.periodEnd, a.plans[a.subscription.planId], n), limits) == n
       <==> limits.gracePeriodDays >= 0 && limits.maxRetries >= 2
  {
    if limits.gracePeriodDays >= 0 && limits.maxRetries >= 2 {
      LateFailuresNeverEnd(a, n, limits);
    } else {
      FirstLateCallExpires(a, limits);
      FewerWrites(a, n, limits);
    }
    hide LateCalls, PastDueWrites;
  }

  lemma FirstLateCallExpires(a: Account, limits: Limits)
    requires Renewable(a.subscription.status) && a.subscription.planId in a.plans && AllFailed(a.cycles)
    requires limits.gracePeriodDays < 0 || limits.maxRetries < 2
    ensures !LeavesPastDue(a, Failure(a.subscription.periodEnd, a.subscription.periodEnd, MarkPaid), limits)
  {
    hide NextPeriodEnd;
    assert FindCycle(a.cycles, a.subscription.periodStart) == |a.cycles|;
  }

  lemma {:induction false} FewerWrites(a: Account, n: nat, limits: Limits)
    requires n > 0 && a.subscription.planId in a.plans
    requires !LeavesPastDue(a, Failure(a.subscription.periodEnd, a.subscription.periodEnd, MarkPaid), limits)
    ensures PastDueWrites(a, LateCalls(a.subscription.periodEnd, a.plans[a.subscription.planId], n), limits) < n
  {
    var plan := a.plans[a.subscription.planId];
    var fs := LateCalls(a.subscription.periodEnd, plan, n);
    LastLateCall(a.subscription.periodEnd, plan, n);
    hide LateCalls, LeavesPastDue, NextPeriodEnd;
    LastFailureCounts(a, fs, limits);
    if n > 1 {
      FewerWrites(a, n - 1, limits);
    } else {
      assert fs[..0] == [];
    }
  }
}
