/**
 The money behind the refunds. The service counts SUCCESS refunds; what the ledger has reversed, and
 what the provider has taken on, also includes refunds that ended otherwise: a deferred answer, a
 failed commit, a failed read after the commit.
 */
module RefundLedger {
  import opened Common
  import opened Ledger
  import opened PaymentRows
  import opened Settlement
  import opened Refunds
  import opened RefundRuns
  import P = Protocol

  // ---- Serial runs ------------------------------------------------------------------------------

  /** The call's amount is reversed in the ledger; or, with `paid`, taken on by the provider. */
  predicate Takes(rows: Rows, c: Call, paid: bool) {
    if paid then ReachesProvider(CreateRefund(rows, c.q, c.fate, c.now).outcome) && !c.fate.answer.RefundThrows?
    else Commits(rows, c.q, c.fate)
  }

  /** The call's refund ends as SUCCESS, and so counts. */
  predicate CountsAsRefunded(rows: Rows, c: Call) {
    Commits(rows, c.q, c.fate) && c.fate.answer.Accepted? && c.fate.rereads
  }

  /** What calls on `t` have reversed or paid, after the refunds that were there before the run. */
  function Taken(rows: Rows, calls: seq<Call>, t: nat, paid: bool): int {
    if calls == [] then RefundedSum(rows.refunds, t)
    else
      var n := |calls| - 1;
      Taken(rows, calls[..n], t, paid)
      + (if calls[n].q.transactionId == t && Takes(RunRefunds(rows, calls[..n]), calls[n], paid)
         then calls[n].q.amount else 0)
  }

  /** The part of it that does not count as refunded. */
  function Missing(rows: Rows, calls: seq<Call>, t: nat, paid: bool): int {
    if calls == [] then 0
    else
      var n := |calls| - 1;
      var b, c := RunRefunds(rows, calls[..n]), calls[n];
      Missing(rows, calls[..n], t, paid)
      + (if c.q.transactionId == t && Takes(b, c, paid) && !CountsAsRefunded(b, c) then c.q.amount else 0)
  }

  lemma CallCounts(rows: Rows, c: Call, t: nat)
    requires t < |rows.transactions| && RefundedSum(rows.refunds, t) <= rows.transactions[t].amount
    ensures var after := CreateRefund(rows, c.q, c.fate, c.now).rows;
            && |after.transactions| == |rows.transactions|
            && after.transactions[t].amount == rows.transactions[t].amount
            && RefundedSum(after.refunds, t)
               == RefundedSum(rows.refunds, t)
                  + (if c.q.transactionId == t && CountsAsRefunded(rows, c) then c.q.amount else 0)
            && RefundedSum(after.refunds, t) <= rows.transactions[t].amount
            && RevenueReversed(after.ledger, t)
               == RevenueReversed(rows.ledger, t)
                  + (if c.q.transactionId == t && Takes(rows, c, false) then c.q.amount else 0)
    ensures CountsAsRefunded(rows, c) ==> Takes(rows, c, true) && Takes(rows, c, false)
  {
    CreateRefundSums(rows, c.q, c.fate, c.now, t);
    CreateRefundStatus(rows, c.q, c.fate, c.now);
    hide RefundedSum, RevenueReversed, FindRefund, HasTarget, CanRefund, RefundEntries;
    assert Commits(rows, c.q, c.fate) ==> c.q.amount <= Available(rows, c.q.transactionId);
    hide CreateRefund;
  }

  /**
   Over every serial run from rows whose ledger agrees: the ledger has reversed, and the provider has
   taken on, exactly what counts as refunded and what is missing from that count, so never more than
   the amount and the missing part.
   */
  lemma {:induction false} TakenExceedsByMissing(rows: Rows, calls: seq<Call>, t: nat, paid: bool)
    requires t < |rows.transactions| && LadderOn(rows, t)
    ensures var b, total := RunRefunds(rows, calls), rows.transactions[t].amount;
            && |b.transactions| == |rows.transactions| && b.transactions[t].amount == total
            && RevenueReversed(b.ledger, t) == Taken(rows, calls, t, false)
            && Taken(rows, calls, t, paid) == RefundedSum(b.refunds, t) + Missing(rows, calls, t, paid)
            && RefundedSum(b.refunds, t) <= total
            && Taken(rows, calls, t, paid) <= total + Missing(rows, calls, t, paid)
  {
    if calls != [] {
      var n := |calls| - 1;
      TakenExceedsByMissing(rows, calls[..n], t, paid);
      CallCounts(RunRefunds(rows, calls[..n]), calls[n], t);
      hide RefundedSum, RevenueReversed, CreateRefund, Takes, CountsAsRefunded;
    }
  }

  /** A refund of the transaction can still reach the provider. */
  predicate Refundable(rows: Rows, t: nat)
    requires t < |rows.transactions|
  {
    var status := rows.transactions[t].status;
    (status.Success? || status.PartiallyRefunded?) && HasTarget(rows.attempts, t)
  }

  function LongestKey(refunds: seq<RefundRow>): (n: nat)
    ensures forall i :: 0 <= i < |refunds| ==> |refunds[i].key| <= n
  {
    if refunds == [] then 0
    else
      var n, k := LongestKey(refunds[..|refunds| - 1]), |refunds[|refunds| - 1].key|;
      if n < k then k else n
  }

  /** A request for the amount that a call takes for available, under a key not used before. */
  function FullRequest(rows: Rows, t: nat): (q: Request)
    requires t < |rows.transactions|
    ensures !Known(rows.refunds, q)
  {
    var key := seq(LongestKey(rows.refunds) + 1, _ => 'k');
    Request(rows.transactions[t].tenantId, t, Available(rows, t), key)
  }

  lemma FullRequestTaken(rows: Rows, t: nat, now: int, paid: bool)
    requires t < |rows.transactions| && Refundable(rows, t)
    ensures Takes(rows, Refunds.Call(FullRequest(rows, t), Fate(Accepted, true, true), now), paid)
  {
    hide RefundedSum, HasTarget, FindRefund;
  }

  lemma TakesWithinAvailable(rows: Rows, c: Call, paid: bool)
    requires c.q.transactionId < |rows.transactions| && Takes(rows, c, paid)
    ensures c.q.amount <= Available(rows, c.q.transactionId) && Refundable(rows, c.q.transactionId)
  {
    hide RefundedSum, FindRefund, HasTarget, RefundCommit;
  }

  lemma OneMoreTaken(rows: Rows, calls: seq<Call>, c: Call, t: nat, paid: bool)
    ensures Taken(rows, calls + [c], t, paid)
         == Taken(rows, calls, t, paid)
            + (if c.q.transactionId == t && Takes(RunRefunds(rows, calls), c, paid) then c.q.amount else 0)
  {
    assert (calls + [c])[..|calls|] == calls;
    hide Takes, RunRefunds;
  }

  /**
   While no more than the amount is reversed, or paid: some next call, alone, can take it beyond the
   amount exactly when the transaction is still refundable and something is missing from the count.
   */
  lemma ExceedsExactlyWhen(rows: Rows, calls: seq<Call>, t: nat, paid: bool)
    requires t < |rows.transactions| && LadderOn(rows, t)
    requires Taken(rows, calls, t, paid) <= rows.transactions[t].amount
    ensures |RunRefunds(rows, calls).transactions| == |rows.transactions|
    ensures (exists c: Call :: c.q.amount > 0 && Taken(rows, calls + [c], t, paid) > rows.transactions[t].amount)
       <==> Refundable(RunRefunds(rows, calls), t) && Missing(rows, calls, t, paid) > 0
  {
    TakenExceedsByMissing(rows, calls, t, paid);
    var b, total := RunRefunds(rows, calls), rows.transactions[t].amount;
    hide RunRefunds, Taken, Missing, Refundable, Takes, RefundedSum, LadderOn;
    if Refundable(b, t) && Missing(rows, calls, t, paid) > 0 {
      var c := Refunds.Call(FullRequest(b, t), Fate(Accepted, true, true), 0);
      FullRequestTaken(b, t, 0, paid);
      OneMoreTaken(rows, calls, c, t, paid);
      assert c.q.amount > 0 && Taken(rows, calls + [c], t, paid) > total;
    }
    forall c: Call | c.q.amount > 0 && Taken(rows, calls + [c], t, paid) > total
      ensures Refundable(b, t) && Missing(rows, calls, t, paid) > 0
    {
      OneMoreTaken(rows, calls, c, t, paid);
      TakesWithinAvailable(b, c, paid);
    }
  }

  // ---- Under interleaving -----------------------------------------------------------------------

  /** The amount that the step reverses without counting it as refunded, or stops counting. */
  function Missed(s: State, e: Event, t: nat): int {
    var rows := s.payments.rows;
    match e
    case Commit(call, commits, _) =>
      if call < |s.calls| && commits && s.calls[call].phase.Answered? && s.calls[call].q.transactionId == t
         && s.calls[call].phase.refund < |rows.refunds| && t < |rows.transactions| && !s.calls[call].phase.accepted
      then s.calls[call].q.amount else 0
    case WriteFailed(call) =>
      if call < |s.calls| && s.calls[call].phase.Failing? && s.calls[call].phase.refund < |rows.refunds|
         && rows.refunds[s.calls[call].phase.refund].transactionId == t
         && rows.refunds[s.calls[call].phase.refund].status.Success?
      then rows.refunds[s.calls[call].phase.refund].amount else 0
    case _ => 0
  }

  function MissedIn(s: State, es: seq<Event>, t: nat): int {
    if es == [] then 0
    else MissedIn(s, es[..|es| - 1], t) + Missed(Run(s, es[..|es| - 1]), es[|es| - 1], t)
  }

  /** What the ledger has reversed beyond the refunds that count. */
  function Gap(s: State, t: nat): int {
    RevenueReversed(s.payments.rows.ledger, t) - RefundedSum(s.payments.rows.refunds, t)
  }

  predicate HasRow(p: Phase) {
    p.Asking? || p.Answered? || p.Rereading? || p.Failing?
  }

  /** A call's refund row is its own, and PROCESSING until the call commits. */
  ghost predicate OwnsRow(rows: Rows, c: RefundCall) {
    HasRow(c.phase) ==>
      && c.phase.refund < |rows.refunds|
      && (c.phase.Asking? || c.phase.Answered? ==>
            && rows.refunds[c.phase.refund].status.Processing?
            && rows.refunds[c.phase.refund].transactionId == c.q.transactionId
            && rows.refunds[c.phase.refund].amount == c.q.amount)
  }

  ghost predicate RowsOwned(s: State) {
    && (forall i :: 0 <= i < |s.calls| ==> OwnsRow(s.payments.rows, s.calls[i]))
    && (forall i, j ::
          0 <= i < j < |s.calls| && HasRow(s.calls[i].phase) && HasRow(s.calls[j].phase)
          ==> s.calls[i].phase.refund != s.calls[j].phase.refund)
  }

  /** One call moves on, writing at most its own row or a new one. */
  lemma OwnedAfter(s: State, i: nat, phase: Phase, rows: Rows)
    requires RowsOwned(s) && i < |s.calls|
    requires OwnsRow(rows, s.calls[i].(phase := phase))
    requires var before, was := s.payments.rows.refunds, s.calls[i].phase;
             && |before| <= |rows.refunds|
             && (forall r :: 0 <= r < |before| && !(HasRow(was) && r == was.refund) ==> rows.refunds[r] == before[r])
             && (HasRow(phase) ==> phase.refund == |before| || (HasRow(was) && phase.refund == was.refund))
    ensures RowsOwned(WithRows(Enter(s, i, phase), rows))
  {
    var after := WithRows(Enter(s, i, phase), rows);
    forall j | 0 <= j < |s.calls|
      ensures OwnsRow(rows, after.calls[j])
    {
      assert OwnsRow(s.payments.rows, s.calls[j]);
    }
  }

  lemma CallKeepsOwned(s: State, i: nat, e: Event)
    requires RowsOwned(s) && i < |s.calls|
    ensures RowsOwned(StepCall(s, i, e))
  {
    assert OwnsRow(s.payments.rows, s.calls[i]);
    var after := StepCall(s, i, e);
    hide CanRefund, HasTarget, RefundedSum, RefundEntries, RowsOwned;
    if after != s {
      assert after == WithRows(Enter(s, i, after.calls[i].phase), after.payments.rows);
      OwnedAfter(s, i, after.calls[i].phase, after.payments.rows);
    }
  }

  lemma StepKeepsOwned(s: State, e: Event)
    requires RowsOwned(s)
    ensures RowsOwned(Step(s, e))
  {
    hide P.Step, StepCall, Known;
    match e {
      case Lookup(q) =>
      case Elsewhere(p) =>
        if SettlementEvent(p) {
          SettlementKeepsRefunds(s.payments, p);
        }
      case _ =>
        if e.call < |s.calls| {
          CallKeepsOwned(s, e.call, e);
        }
    }
  }

  lemma ReversedAppend(es: seq<Entry>, e: Entry, t: nat)
    ensures RevenueReversed(es + [e], t)
         == RevenueReversed(es, t)
            + (if e.kind.Refund? && e.debit.Revenue? && e.transactionId == t then e.amount else 0)
  {
    assert (es + [e])[..|es|] == es;
  }

  lemma SettlementReversesNothing(s: P.State, e: P.Event, t: nat)
    requires SettlementEvent(e)
    ensures RevenueReversed(P.Step(s, e).rows.ledger, t) == RevenueReversed(s.rows.ledger, t)
  {
    var before, after := s.rows.ledger, P.Step(s, e).rows.ledger;
    LedgerAfterSettlement(s, e);
    hide P.Step, RevenueReversed;
    if after != before {
      ReversedAppend(before, after[|before|], t);
    }
  }

  /** A settlement step appends at most one entry, a PAYMENT. */
  lemma LedgerAfterSettlement(s: P.State, e: P.Event)
    requires SettlementEvent(e)
    ensures var before, after := s.rows.ledger, P.Step(s, e).rows.ledger;
            || after == before
            || (|after| > |before| && after == before + [after[|before|]] && after[|before|].kind.Payment?)
  {
    hide MarkSuccess, SyncRecurring, CancelOthers, ReadForVerification;
  }

  lemma CommitGap(s: State, i: nat, commits: bool, now: int, t: nat)
    requires RowsOwned(s) && i < |s.calls|
    ensures Gap(StepCall(s, i, Commit(i, commits, now)), t) == Gap(s, t) + Missed(s, Commit(i, commits, now), t)
  {
    var rows, q, phase := s.payments.rows, s.calls[i].q, s.calls[i].phase;
    assert OwnsRow(rows, s.calls[i]);
    hide RefundedSum, RevenueReversed, RefundEntries, RowsOwned;
    if phase.Answered? && commits && q.transactionId < |rows.transactions| {
      var status := if phase.accepted then RefundStatus.Success else RefundStatus.Processing;
      UpdateRefund(rows.refunds, phase.refund, status, t);
      ReversedByRefund(rows.ledger, q.tenantId, q.transactionId, q.amount,
        rows.transactions[q.transactionId].currency, now, t);
    }
  }

  lemma StepGap(s: State, e: Event, t: nat)
    requires RowsOwned(s)
    ensures Gap(Step(s, e), t) == Gap(s, t) + Missed(s, e, t)
  {
    hide P.Step, CanRefund, HasTarget, RefundedSum, RevenueReversed, Known, RefundEntries, RefundCommit, RowsOwned;
    match e {
      case Elsewhere(p) =>
        if SettlementEvent(p) {
          SettlementKeepsRefunds(s.payments, p);
          SettlementReversesNothing(s.payments, p, t);
        }
      case Commit(call, commits, now) =>
        if call < |s.calls| {
          CommitGap(s, call, commits, now, t);
        }
      case Insert(call) =>
        if call < |s.calls| && s.calls[call].q.transactionId < |s.payments.rows.transactions| {
          var refund := NewRefund(s.payments.rows, s.calls[call].q);
          RefundedOneMore(s.payments.rows.refunds, refund, t);
        }
      case WriteFailed(call) =>
        if call < |s.calls| && s.calls[call].phase.Failing? && s.calls[call].phase.refund < |s.payments.rows.refunds| {
          UpdateRefund(s.payments.rows.refunds, s.calls[call].phase.refund, RefundStatus.Failed, t);
        }
      case _ =>
    }
  }

  lemma {:induction false} RunGap(s: State, es: seq<Event>, t: nat)
    requires RowsOwned(s)
    ensures RowsOwned(Run(s, es)) && Gap(Run(s, es), t) == Gap(s, t) + MissedIn(s, es, t)
  {
    hide Step, Gap, Missed, RowsOwned;
    if es != [] {
      var n := |es| - 1;
      RunGap(s, es[..n], t);
      StepKeepsOwned(Run(s, es[..n]), es[n]);
      StepGap(Run(s, es[..n]), es[n], t);
    }
  }

  /**
   With at most `k` unfinished calls on the transaction at any time, reversed revenue and the amounts
   admitted but not yet committed never exceed `k` times the amount and what was missed in the run.
   */
  lemma ReversalNeverExceeds(s: State, es: seq<Event>, t: nat, total: int, k: nat)
    requires Bounded(s, t, total, k) && AtMost(s, es, t, k)
    requires RowsOwned(s) && Gap(s, t) == 0
    ensures var b := Run(s, es);
            && RevenueReversed(b.payments.rows.ledger, t)
               == RefundedSum(b.payments.rows.refunds, t) + MissedIn(s, es, t)
            && RevenueReversed(b.payments.rows.ledger, t) + HeldSum(b.calls, t) <= k * total + MissedIn(s, es, t)
  {
    RefundsNeverExceed(s, es, t, total, k);
    RunGap(s, es, t);
    hide Run, RevenueReversed, RefundedSum, HeldSum, MissedIn, Bounded, AtMost;
  }

  // ---- The rows under interleaving --------------------------------------------------------------

  /** The last write of a refund row, and the request it was made for. */
  datatype RowWrite = NoWrite | Inserted(q: Request) | Booked(q: Request, accepted: bool) | Threw(q: Request)

  /** The row that the step writes, if it writes one, and how. */
  function WriteOf(s: State, e: Event, r: nat): RowWrite {
    var n := |s.payments.rows.refunds|;
    match e
    case Insert(call) =>
      if call < |s.calls| && s.calls[call].phase.Targeted?
         && s.calls[call].q.transactionId < |s.payments.rows.transactions| && r == n
      then Inserted(s.calls[call].q) else NoWrite
    case Commit(call, commits, _) =>
      if call < |s.calls| && commits && s.calls[call].phase.Answered? && s.calls[call].phase.refund == r && r < n
         && s.calls[call].q.transactionId < |s.payments.rows.transactions|
      then Booked(s.calls[call].q, s.calls[call].phase.accepted) else NoWrite
    case WriteFailed(call) =>
      if call < |s.calls| && s.calls[call].phase.Failing? && s.calls[call].phase.refund == r && r < n
      then Threw(s.calls[call].q) else NoWrite
    case _ => NoWrite
  }

  function LastWrite(s: State, es: seq<Event>, r: nat): RowWrite {
    if es == [] then NoWrite
    else
      var w := WriteOf(Run(s, es[..|es| - 1]), es[|es| - 1], r);
      if w.NoWrite? then LastWrite(s, es[..|es| - 1], r) else w
  }

  /** The row is the request's, PROCESSING, SUCCESS or FAILED by its last write. */
  predicate RowIs(row: RefundRow, w: RowWrite) {
    && !w.NoWrite?
    && row.tenantId == w.q.tenantId && row.transactionId == w.q.transactionId
    && row.key == w.q.key && row.amount == w.q.amount
    && (row.status.Processing? <==> w.Inserted? || (w.Booked? && !w.accepted))
    && (row.status.Success? <==> w.Booked? && w.accepted)
    && (row.status.Failed? <==> w.Threw?)
  }

  ghost predicate RowsWritten(s: State, es: seq<Event>) {
    var b, n := Run(s, es), |s.payments.rows.refunds|;
    && n <= |b.payments.rows.refunds| && b.payments.rows.refunds[..n] == s.payments.rows.refunds
    && (forall r: nat :: n <= r < |b.payments.rows.refunds| ==> RowIs(b.payments.rows.refunds[r], LastWrite(s, es, r)))
    && (forall i :: 0 <= i < |b.calls| && HasRow(b.calls[i].phase) ==>
          n <= b.calls[i].phase.refund < |b.payments.rows.refunds|
          && !LastWrite(s, es, b.calls[i].phase.refund).NoWrite?
          && LastWrite(s, es, b.calls[i].phase.refund).q == b.calls[i].q)
  }

  /** The step writes the one row that `WriteOf` tells, and no other. */
  lemma StepWrites(s: State, e: Event, r: nat)
    ensures var before, after := s.payments.rows.refunds, Step(s, e).payments.rows.refunds;
            && |before| <= |after| <= |before| + 1
            && (r < |before| && WriteOf(s, e, r).NoWrite? ==> after[r] == before[r])
            && (r < |before| && WriteOf(s, e, r).Booked? ==>
                  after[r] == before[r].(status := if WriteOf(s, e, r).accepted then RefundStatus.Success
                                                   else RefundStatus.Processing))
            && (r < |before| && WriteOf(s, e, r).Threw? ==> after[r] == before[r].(status := RefundStatus.Failed))
            && (r < |before| ==> !WriteOf(s, e, r).Inserted?)
            && (r == |before| < |after| ==> WriteOf(s, e, r).Inserted? && RowIs(after[r], WriteOf(s, e, r)))
  {
    hide P.Step, CanRefund, HasTarget, RefundedSum, RefundEntries, Known;
    if e.Elsewhere? && SettlementEvent(e.e) {
      SettlementKeepsRefunds(s.payments, e.e);
    }
  }

  /** A call keeps its request and its row, or gets a new one. */
  lemma StepKeepsRequest(s: State, e: Event, i: nat)
    requires i < |Step(s, e).calls| && HasRow(Step(s, e).calls[i].phase)
    ensures var r := Step(s, e).calls[i].phase.refund;
            && i < |s.calls| && Step(s, e).calls[i].q == s.calls[i].q
            && ((HasRow(s.calls[i].phase) && s.calls[i].phase.refund == r)
                || (r == |s.payments.rows.refunds| < |Step(s, e).payments.rows.refunds|
                    && WriteOf(s, e, r) == Inserted(s.calls[i].q)))
  {
    hide P.Step, CanRefund, HasTarget, RefundedSum, RefundEntries, Known;
  }

  /** A write of a call's row is for the call's own request, or another call's with the same row. */
  lemma WriterOwns(s: State, e: Event, r: nat)
    requires !WriteOf(s, e, r).NoWrite? && !WriteOf(s, e, r).Inserted?
    ensures e.Commit? || e.WriteFailed?
    ensures e.call < |s.calls| && HasRow(s.calls[e.call].phase) && s.calls[e.call].phase.refund == r
    ensures WriteOf(s, e, r).q == s.calls[e.call].q
  {
  }

  lemma RowsWrittenStep(s: State, es: seq<Event>)
    requires es != [] && RowsWritten(s, es[..|es| - 1])
    ensures RowsWritten(s, es)
  {
    var b, e, n := Run(s, es[..|es| - 1]), es[|es| - 1], |s.payments.rows.refunds|;
    var before, after := b.payments.rows.refunds, Step(b, e).payments.rows.refunds;
    hide Step, RowIs, WriteOf, HasRow;
    forall r: nat
      ensures |before| <= |after|
      ensures r < n ==> after[r] == before[r]
      ensures n <= r < |after| ==> RowIs(after[r], LastWrite(s, es, r))
      ensures n <= r < |before| ==>
                !LastWrite(s, es, r).NoWrite? && LastWrite(s, es, r).q == LastWrite(s, es[..|es| - 1], r).q
    {
      StepWrites(b, e, r);
      if r < |before| && !WriteOf(b, e, r).NoWrite? {
        WriterOwns(b, e, r);
        Rewritten(before[r], LastWrite(s, es[..|es| - 1], r), after[r], WriteOf(b, e, r));
      } else if n <= r < |before| {
        RowIsWritten(before[r], LastWrite(s, es[..|es| - 1], r));
      }
    }
    forall i | 0 <= i < |Step(b, e).calls| && HasRow(Step(b, e).calls[i].phase)
      ensures n <= Step(b, e).calls[i].phase.refund < |after|
      ensures !LastWrite(s, es, Step(b, e).calls[i].phase.refund).NoWrite?
      ensures LastWrite(s, es, Step(b, e).calls[i].phase.refund).q == Step(b, e).calls[i].q
    {
      StepKeepsRequest(b, e, i);
    }
  }

  lemma RowIsWritten(row: RefundRow, w: RowWrite)
    requires RowIs(row, w)
    ensures !w.NoWrite?
  {
  }

  lemma Rewritten(before: RefundRow, was: RowWrite, after: RefundRow, w: RowWrite)
    requires RowIs(before, was) && !w.NoWrite? && !w.Inserted? && w.q == was.q
    requires w.Booked? ==>
               after == before.(status := if w.accepted then RefundStatus.Success else RefundStatus.Processing)
    requires w.Threw? ==> after == before.(status := RefundStatus.Failed)
    ensures RowIs(after, w)
  {
  }

  lemma NoRowsWritten(s: State)
    requires s.calls == []
    ensures RowsWritten(s, [])
  {
  }

  /**
   In every interleaving each refund row is its request's, PROCESSING while its call asks the provider or
   once a deferred answer is booked, SUCCESS once an accepted one is, and FAILED exactly if its call's
   handler wrote last. No other call writes it.
   */
  lemma {:induction false} RowsFollowCalls(s: State, es: seq<Event>)
    requires s.calls == []
    ensures RowsWritten(s, es)
  {
    if es == [] {
      NoRowsWritten(s);
    } else {
      RowsFollowCalls(s, es[..|es| - 1]);
      RowsWrittenStep(s, es);
    }
  }

  /** The handler is reached exactly when the provider throws, the block does not commit or the re-read fails. */
  lemma FailingExactlyWhen(s: State, e: Event, i: nat)
    requires i < |s.calls| && !s.calls[i].phase.Failing?
    ensures var after := Step(s, e).calls;
            && i < |after|
            && (after[i].phase.Failing?
                <==> || (e.ProviderAnswers? && e.call == i && s.calls[i].phase.Asking? && e.answer.RefundThrows?)
                     || (e.Commit? && e.call == i && s.calls[i].phase.Answered? && !e.commits)
                     || (e.Reread? && e.call == i && s.calls[i].phase.Rereading? && !e.found))
  {
    hide P.Step, CanRefund, HasTarget, RefundedSum, RefundEntries, Known;
  }
}
