/**
 Refunds under interleaving: createRefund split at its awaits, among any number of other refund calls
 and every step of the settlement protocol.
 */
module RefundRuns {
  import opened Common
  import opened Ledger
  import opened PaymentRows
  import opened Settlement
  import opened Refunds
  import P = Protocol

  /** Where a call stands; `total` is the amount it read, `already` the refunded sum it read. */
  datatype Phase =
    | KeyFree
    | Eligible(total: int)
    | Admitted(total: int, already: int)
    | Targeted(total: int, already: int)
    | Asking(refund: nat, total: int, already: int)
    | Answered(refund: nat, total: int, already: int, accepted: bool)
    | Rereading(refund: nat)
    | Failing(refund: nat)
    | Done

  datatype RefundCall = RefundCall(q: Request, phase: Phase)

  /** A call's id is its index in `calls`. */
  datatype State = State(payments: P.State, calls: seq<RefundCall>)

  datatype Event =
    | Lookup(q: Request)
    | CheckStatus(call: nat)
    | Admit(call: nat)
    | Target(call: nat)
    | Insert(call: nat)
    | ProviderAnswers(call: nat, answer: RefundAnswer)
    | Commit(call: nat, commits: bool, now: int)
    | Reread(call: nat, found: bool)
    | WriteFailed(call: nat)
    | Die(call: nat)
    | Elsewhere(e: P.Event)

  function Enter(s: State, call: nat, phase: Phase): State
    requires call < |s.calls|
  {
    s.(calls := s.calls[call := s.calls[call].(phase := phase)])
  }

  function WithRows(s: State, rows: Rows): State {
    s.(payments := s.payments.(rows := rows))
  }

  /** One step of call `call`; a step its phase does not allow changes nothing. */
  function StepCall(s: State, call: nat, e: Event): State
    requires call < |s.calls|
  {
    var rows, q, phase := s.payments.rows, s.calls[call].q, s.calls[call].phase;
    match (e, phase)
    case (CheckStatus(_), KeyFree) =>
      if CanRefund(rows, q) then Enter(s, call, Eligible(rows.transactions[q.transactionId].amount))
        else Enter(s, call, Done)
    case (Admit(_), Eligible(total)) =>
      var already := RefundedSum(rows.refunds, q.transactionId);
      if q.amount > total - already then Enter(s, call, Done) else Enter(s, call, Admitted(total, already))
    case (Target(_), Admitted(total, already)) =>
      if HasTarget(rows.attempts, q.transactionId) then Enter(s, call, Targeted(total, already))
        else Enter(s, call, Done)
    case (Insert(_), Targeted(total, already)) =>
      if q.transactionId < |rows.transactions|
      then WithRows(Enter(s, call, Asking(|rows.refunds|, total, already)),
        rows.(refunds := rows.refunds + [NewRefund(rows, q)]))
      else s
    case (ProviderAnswers(_, answer), Asking(r, total, already)) =>
      Enter(s, call, if answer.RefundThrows? then Failing(r) else Answered(r, total, already, answer.Accepted?))
    case (Commit(_, commits, now), Answered(r, total, already, accepted)) =>
      if !commits then Enter(s, call, Failing(r))
      else if r < |rows.refunds| && q.transactionId < |rows.transactions|
      then WithRows(Enter(s, call, Rereading(r)), RefundCommit(rows, q, r, total - already, accepted, now))
      else s
    case (Reread(_, found), Rereading(r)) => Enter(s, call, if found then Done else Failing(r))
    case (WriteFailed(_), Failing(r)) =>
      if r < |rows.refunds| then WithRows(Enter(s, call, Done), WithRefundStatus(rows, r, RefundStatus.Failed)) else s
    case (Die(_), _) => Enter(s, call, Done)
    case _ => s
  }

  /** Settlement steps leave the refunds table alone; only the refund calls write it. */
  predicate SettlementEvent(e: P.Event) {
    !e.RefundRows? && !e.RefundBlock?
  }

  function Step(s: State, e: Event): State {
    match e
    case Lookup(q) =>
      s.(calls := s.calls + [RefundCall(q, if Known(s.payments.rows.refunds, q) then Done else KeyFree)])
    case Elsewhere(p) => if SettlementEvent(p) then s.(payments := P.Step(s.payments, p)) else s
    case _ => if e.call < |s.calls| then StepCall(s, e.call, e) else s
  }

  function Run(s: State, es: seq<Event>): State {
    if es == [] then s else Step(Run(s, es[..|es| - 1]), es[|es| - 1])
  }

  // ---- Sums over the calls ----------------------------------------------------------------------

  predicate Holds(p: Phase) {
    p.Admitted? || p.Targeted? || p.Asking? || p.Answered?
  }

  /** The amount a call on `t` has been admitted for and has not yet committed. */
  function Held(c: RefundCall, t: nat): int {
    if c.q.transactionId == t && Holds(c.phase) then c.q.amount else 0
  }

  function HeldSum(calls: seq<RefundCall>, t: nat): int {
    if calls == [] then 0 else HeldSum(calls[..|calls| - 1], t) + Held(calls[|calls| - 1], t)
  }

  function Flying(c: RefundCall, t: nat): nat {
    if c.q.transactionId == t && !c.phase.Done? then 1 else 0
  }

  /** The number of unfinished calls on `t`. */
  function InFlight(calls: seq<RefundCall>, t: nat): nat {
    if calls == [] then 0 else InFlight(calls[..|calls| - 1], t) + Flying(calls[|calls| - 1], t)
  }

  lemma {:induction false} UpdateCall(calls: seq<RefundCall>, i: nat, c: RefundCall, t: nat)
    requires i < |calls|
    ensures HeldSum(calls[i := c], t) == HeldSum(calls, t) - Held(calls[i], t) + Held(c, t)
    ensures InFlight(calls[i := c], t) == InFlight(calls, t) - Flying(calls[i], t) + Flying(c, t)
  {
    var n := |calls| - 1;
    if i < n {
      UpdateCall(calls[..n], i, c, t);
      assert calls[i := c][..n] == calls[..n][i := c];
    } else {
      assert calls[i := c][..n] == calls[..n];
    }
  }

  lemma {:induction false} HeldAtMost(calls: seq<RefundCall>, t: nat, total: nat)
    requires forall i :: 0 <= i < |calls| ==> Held(calls[i], t) <= total
    ensures HeldSum(calls, t) <= InFlight(calls, t) * total
  {
    if calls != [] {
      HeldAtMost(calls[..|calls| - 1], t, total);
    }
  }

  lemma {:induction false} UpdateRefund(refunds: seq<RefundRow>, r: nat, status: RefundStatus, t: nat)
    requires r < |refunds|
    ensures RefundedSum(refunds[r := refunds[r].(status := status)], t)
         == RefundedSum(refunds, t)
            + (if refunds[r].transactionId != t then 0 else
                 (if status.Success? then refunds[r].amount else 0)
                 - (if refunds[r].status.Success? then refunds[r].amount else 0))
  {
    var n := |refunds| - 1;
    var after := refunds[r := refunds[r].(status := status)];
    if r < n {
      UpdateRefund(refunds[..n], r, status, t);
      assert after[..n] == refunds[..n][r := refunds[r].(status := status)];
    } else {
      assert after[..n] == refunds[..n];
    }
  }

  lemma {:induction false} RefundedNotNegative(refunds: seq<RefundRow>, t: nat)
    requires forall i :: 0 <= i < |refunds| && refunds[i].transactionId == t ==> refunds[i].amount >= 0
    ensures RefundedSum(refunds, t) >= 0
  {
    if refunds != [] {
      RefundedNotNegative(refunds[..|refunds| - 1], t);
    }
  }

  // ---- The bound --------------------------------------------------------------------------------

  /** The amount the call read for its transaction, once it has read it. */
  predicate TotalIs(p: Phase, total: int) {
    match p
    case Eligible(x) => x == total
    case Admitted(x, _) => x == total
    case Targeted(x, _) => x == total
    case Asking(_, x, _) => x == total
    case Answered(_, x, _, _) => x == total
    case _ => true
  }

  ghost predicate CallSound(rows: Rows, c: RefundCall, t: nat, total: int) {
    && (c.q.transactionId == t ==>
          c.q.amount > 0 && TotalIs(c.phase, total) && (Holds(c.phase) ==> c.q.amount <= total))
    && (c.phase.Asking? || c.phase.Answered? ==>
          && c.phase.refund < |rows.refunds|
          && rows.refunds[c.phase.refund].amount == c.q.amount
          && rows.refunds[c.phase.refund].transactionId == c.q.transactionId)
  }

  ghost predicate RefundsPositive(refunds: seq<RefundRow>, t: nat) {
    forall i :: 0 <= i < |refunds| && refunds[i].transactionId == t ==> refunds[i].amount > 0
  }

  ghost predicate Bounded(s: State, t: nat, total: int, k: nat) {
    var rows := s.payments.rows;
    && t < |rows.transactions| && rows.transactions[t].amount == total
    && RefundsPositive(rows.refunds, t)
    && (forall i :: 0 <= i < |s.calls| ==> CallSound(rows, s.calls[i], t, total))
    && RefundedSum(rows.refunds, t) + HeldSum(s.calls, t) <= k * total
  }

  /** Amounts are positive (refund.controller.ts demands at least 1), and at most `k` calls on `t` are unfinished. */
  ghost predicate AtMost(s: State, es: seq<Event>, t: nat, k: nat) {
    && InFlight(Run(s, es).calls, t) <= k
    && (es == [] || (AtMost(s, es[..|es| - 1], t, k) && (es[|es| - 1].Lookup? ==> es[|es| - 1].q.amount > 0)))
  }

  lemma SettlementKeepsRefunds(s: P.State, e: P.Event)
    requires SettlementEvent(e)
    ensures P.Step(s, e).rows.refunds == s.rows.refunds
    ensures |s.rows.transactions| <= |P.Step(s, e).rows.transactions|
    ensures forall t :: 0 <= t < |s.rows.transactions| ==>
              P.Step(s, e).rows.transactions[t].amount == s.rows.transactions[t].amount
  {
  }

  /** A change to one call that holds no more than before, with the refunds untouched. */
  lemma PhaseStep(s: State, i: nat, phase: Phase, t: nat, total: int, k: nat)
    requires Bounded(s, t, total, k) && i < |s.calls|
    requires CallSound(s.payments.rows, s.calls[i].(phase := phase), t, total)
    requires Held(s.calls[i].(phase := phase), t) <= Held(s.calls[i], t)
    ensures Bounded(Enter(s, i, phase), t, total, k)
  {
    UpdateCall(s.calls, i, s.calls[i].(phase := phase), t);
  }

  /** Beside a call that holds nothing yet, the others hold at most `k` - 1 times the amount. */
  lemma OthersHold(calls: seq<RefundCall>, i: nat, t: nat, total: nat, k: nat)
    requires i < |calls| && calls[i].phase.Eligible? && calls[i].q.transactionId == t
    requires InFlight(calls, t) <= k
    requires forall j :: 0 <= j < |calls| ==> Held(calls[j], t) <= total
    ensures HeldSum(calls, t) <= k * total - total
  {
    var done := calls[i].(phase := Done);
    var without := calls[i := done];
    UpdateCall(calls, i, done, t);
    HeldAtMost(without, t, total);
    FewerHoldLess(InFlight(without, t), k, total);
  }

  lemma FewerHoldLess(n: nat, k: nat, total: nat)
    requires n < k
    ensures n * total <= k * total - total
  {
    assert k * total - total == (k - 1) * total;
    assert (k - 1) * total == n * total + (k - 1 - n) * total;
  }

  lemma AdmitStep(s: State, i: nat, t: nat, total: int, k: nat)
    requires Bounded(s, t, total, k) && i < |s.calls| && s.calls[i].phase.Eligible? && s.calls[i].q.transactionId == t
    requires InFlight(s.calls, t) <= k
    requires s.calls[i].q.amount <= total - RefundedSum(s.payments.rows.refunds, t)
    ensures Bounded(Enter(s, i, Admitted(total, RefundedSum(s.payments.rows.refunds, t))), t, total, k)
  {
    var sum := RefundedSum(s.payments.rows.refunds, t);
    RefundedNotNegative(s.payments.rows.refunds, t);
    assert CallSound(s.payments.rows, s.calls[i], t, total);
    forall j | 0 <= j < |s.calls|
      ensures Held(s.calls[j], t) <= total
    {
      assert CallSound(s.payments.rows, s.calls[j], t, total);
    }
    OthersHold(s.calls, i, t, total, k);
    UpdateCall(s.calls, i, s.calls[i].(phase := Admitted(total, sum)), t);
    hide HeldSum, InFlight, RefundedSum;
  }

  lemma InsertStep(s: State, i: nat, t: nat, total: int, k: nat)
    requires Bounded(s, t, total, k) && i < |s.calls|
    ensures Bounded(StepCall(s, i, Insert(i)), t, total, k)
  {
    var rows, q := s.payments.rows, s.calls[i].q;
    if s.calls[i].phase.Targeted? && q.transactionId < |rows.transactions| {
      var after := rows.refunds + [NewRefund(rows, q)];
      var phase := Asking(|rows.refunds|, s.calls[i].phase.total, s.calls[i].phase.already);
      RefundedOneMore(rows.refunds, NewRefund(rows, q), t);
      UpdateCall(s.calls, i, s.calls[i].(phase := phase), t);
      assert CallSound(rows, s.calls[i], t, total);
      hide HeldSum, InFlight, RefundedSum;
      forall j | 0 <= j < |s.calls|
        ensures CallSound(rows.(refunds := after), StepCall(s, i, Insert(i)).calls[j], t, total)
      {
        assert CallSound(rows, s.calls[j], t, total);
      }
    }
  }

  lemma StatusStep(s: State, i: nat, phase: Phase, r: nat, status: RefundStatus, rows: Rows, t: nat, total: int, k: nat)
    requires Bounded(s, t, total, k) && i < |s.calls| && r < |s.payments.rows.refunds|
    requires rows.refunds == s.payments.rows.refunds[r := s.payments.rows.refunds[r].(status := status)]
    requires |rows.transactions| == |s.payments.rows.transactions|
    requires rows.transactions[t].amount == s.payments.rows.transactions[t].amount
    requires phase.Done? || phase.Rereading?
    requires status.Success? ==> Holds(s.calls[i].phase) && s.payments.rows.refunds[r].amount == s.calls[i].q.amount
    requires s.payments.rows.refunds[r].transactionId == s.calls[i].q.transactionId || !status.Success?
    ensures Bounded(WithRows(Enter(s, i, phase), rows), t, total, k)
  {
    UpdateCall(s.calls, i, s.calls[i].(phase := phase), t);
    UpdateRefund(s.payments.rows.refunds, r, status, t);
    assert CallSound(s.payments.rows, s.calls[i], t, total);
    forall j | 0 <= j < |s.calls|
      ensures CallSound(rows, Enter(s, i, phase).calls[j], t, total)
    {
      assert CallSound(s.payments.rows, s.calls[j], t, total);
    }
  }

  /** The steps that only move a call on, or end it. */
  lemma MoveStep(s: State, i: nat, e: Event, t: nat, total: int, k: nat)
    requires Bounded(s, t, total, k) && i < |s.calls|
    requires !e.Insert? && !e.Admit? && !e.Commit? && !e.WriteFailed?
    ensures Bounded(StepCall(s, i, e), t, total, k)
  {
    var after := StepCall(s, i, e);
    assert CallSound(s.payments.rows, s.calls[i], t, total);
    hide HeldSum, InFlight, RefundedSum, HasTarget, RefundsPositive;
    assert after == s || after == Enter(s, i, after.calls[i].phase);
    if after != s {
      PhaseStep(s, i, after.calls[i].phase, t, total, k);
    }
  }

  lemma AdmitOrEnd(s: State, i: nat, t: nat, total: int, k: nat)
    requires Bounded(s, t, total, k) && i < |s.calls| && InFlight(s.calls, t) <= k
    ensures Bounded(StepCall(s, i, Admit(i)), t, total, k)
  {
    var rows, q, phase := s.payments.rows, s.calls[i].q, s.calls[i].phase;
    assert CallSound(rows, s.calls[i], t, total);
    hide HeldSum, InFlight, RefundedSum, RefundsPositive;
    if phase.Eligible? {
      var sum := RefundedSum(rows.refunds, q.transactionId);
      if q.amount <= phase.total - sum && q.transactionId == t {
        AdmitStep(s, i, t, total, k);
      } else {
        PhaseStep(s, i, if q.amount > phase.total - sum then Done else Admitted(phase.total, sum), t, total, k);
      }
    }
  }

  lemma CommitStep(s: State, i: nat, commits: bool, now: int, t: nat, total: int, k: nat)
    requires Bounded(s, t, total, k) && i < |s.calls|
    ensures Bounded(StepCall(s, i, Commit(i, commits, now)), t, total, k)
  {
    var rows, q, phase := s.payments.rows, s.calls[i].q, s.calls[i].phase;
    assert CallSound(rows, s.calls[i], t, total);
    var after := StepCall(s, i, Commit(i, commits, now));
    hide HeldSum, InFlight, RefundedSum, RefundsPositive, RefundEntries;
    if phase.Answered? {
      if !commits {
        PhaseStep(s, i, Failing(phase.refund), t, total, k);
      } else if q.transactionId < |rows.transactions| {
        StatusStep(s, i, Rereading(phase.refund), phase.refund,
                   if phase.accepted then RefundStatus.Success else RefundStatus.Processing,
                   after.payments.rows, t, total, k);
      }
    }
  }

  lemma FailStep(s: State, i: nat, t: nat, total: int, k: nat)
    requires Bounded(s, t, total, k) && i < |s.calls|
    ensures Bounded(StepCall(s, i, WriteFailed(i)), t, total, k)
  {
    var phase := s.calls[i].phase;
    hide HeldSum, InFlight, RefundedSum, RefundsPositive;
    if phase.Failing? && phase.refund < |s.payments.rows.refunds| {
      StatusStep(s, i, Done, phase.refund, RefundStatus.Failed,
                 WithRefundStatus(s.payments.rows, phase.refund, RefundStatus.Failed), t, total, k);
    }
  }

  lemma CallStep(s: State, i: nat, e: Event, t: nat, total: int, k: nat)
    requires Bounded(s, t, total, k) && i < |s.calls| && InFlight(s.calls, t) <= k
    ensures Bounded(StepCall(s, i, e), t, total, k)
  {
    hide Bounded, InFlight, Enter, WithRows, RefundCommit,
      WithRefundStatus, NewRefund, CanRefund, HasTarget, RefundedSum;
    match e {
      case Insert(_) => InsertStep(s, i, t, total, k);
      case Admit(_) => AdmitOrEnd(s, i, t, total, k);
      case Commit(_, commits, now) => CommitStep(s, i, commits, now, t, total, k);
      case WriteFailed(_) => FailStep(s, i, t, total, k);
      case _ => MoveStep(s, i, e, t, total, k);
    }
  }

  lemma ElsewhereStep(s: State, p: P.Event, t: nat, total: int, k: nat)
    requires Bounded(s, t, total, k)
    ensures Bounded(Step(s, Elsewhere(p)), t, total, k)
  {
    if SettlementEvent(p) {
      SettlementKeepsRefunds(s.payments, p);
      hide P.Step, HeldSum, RefundedSum;
      var after := P.Step(s.payments, p).rows;
      forall j | 0 <= j < |s.calls|
        ensures CallSound(after, s.calls[j], t, total)
      {
        assert CallSound(s.payments.rows, s.calls[j], t, total);
      }
    }
  }

  lemma LookupStep(s: State, q: Request, t: nat, total: int, k: nat)
    requires Bounded(s, t, total, k) && q.amount > 0
    ensures Bounded(Step(s, Lookup(q)), t, total, k)
  {
    hide RefundedSum, RefundsPositive;
    var after := Step(s, Lookup(q));
    assert after.calls[..|s.calls|] == s.calls;
    assert Held(after.calls[|s.calls|], t) == 0;
  }

  lemma OneStep(s: State, e: Event, t: nat, total: int, k: nat)
    requires Bounded(s, t, total, k) && InFlight(s.calls, t) <= k
    requires e.Lookup? ==> e.q.amount > 0
    ensures Bounded(Step(s, e), t, total, k)
  {
    hide P.Step, StepCall, Bounded, InFlight;
    match e {
      case Lookup(q) =>
        LookupStep(s, q, t, total, k);
      case Elsewhere(p) =>
        ElsewhereStep(s, p, t, total, k);
      case _ =>
        if e.call < |s.calls| {
          CallStep(s, e.call, e, t, total, k);
        }
    }
  }

  /**
   The refund bound: with at most `k` unfinished calls on a transaction at any time, its SUCCESS
   refunds and the amounts admitted but not yet committed never exceed `k` times its amount.
   */
  lemma {:induction false} RefundsNeverExceed(s: State, es: seq<Event>, t: nat, total: int, k: nat)
    requires Bounded(s, t, total, k) && AtMost(s, es, t, k)
    ensures Bounded(Run(s, es), t, total, k)
    ensures RefundedSum(Run(s, es).payments.rows.refunds, t) + HeldSum(Run(s, es).calls, t) <= k * total
  {
    if es != [] {
      hide Bounded, Step;
      var n := |es| - 1;
      assert AtMost(s, es[..n], t, k);
      RefundsNeverExceed(s, es[..n], t, total, k);
      OneStep(Run(s, es[..n]), es[n], t, total, k);
    }
    BoundedSum(Run(s, es), t, total, k);
  }

  lemma BoundedSum(s: State, t: nat, total: int, k: nat)
    requires Bounded(s, t, total, k)
    ensures RefundedSum(s.payments.rows.refunds, t) + HeldSum(s.calls, t) <= k * total
  {
  }

  lemma {:induction false} HeldNotNegative(s: State, t: nat, total: int, k: nat, n: nat)
    requires Bounded(s, t, total, k) && n <= |s.calls|
    ensures HeldSum(s.calls[..n], t) >= 0
  {
    if n > 0 {
      HeldNotNegative(s, t, total, k, n - 1);
      assert s.calls[..n][..n - 1] == s.calls[..n - 1];
      assert CallSound(s.payments.rows, s.calls[n - 1], t, total);
    }
  }

  /** One call at a time: the refunds of a transaction never exceed its amount, as the service promises. */
  lemma OneAtATimeNeverExceeds(s: State, es: seq<Event>, t: nat)
    requires t < |s.payments.rows.transactions| && s.calls == [] && RefundsPositive(s.payments.rows.refunds, t)
    requires RefundedSum(s.payments.rows.refunds, t) <= s.payments.rows.transactions[t].amount
    requires AtMost(s, es, t, 1)
    ensures RefundedSum(Run(s, es).payments.rows.refunds, t) <= s.payments.rows.transactions[t].amount
  {
    var total := s.payments.rows.transactions[t].amount;
    RefundsNeverExceed(s, es, t, total, 1);
    var after := Run(s, es);
    HeldNotNegative(after, t, total, 1, |after.calls|);
    assert after.calls[..|after.calls|] == after.calls;
  }
}
