/**
 The settlement protocol under interleaving. A verification is split at its awaits: the first reads,
 the provider's answer, the start of the atomic block and its commit. Between any two of them every
 other step of the service may happen. At its commit the block is checked against the partial unique
 index (prisma/seed.ts), and its writes fall on the rows of that moment.
 */
module Protocol {
  import opened Common
  import opened Ledger
  import opened Subscriptions
  import opened PaymentRows
  import opened Settlement

  datatype Phase =
    | Asking
    | ToFail
    | ToSettle(confirmation: Confirmation)
    | InBlock(confirmation: Confirmation, seen: Rows)

  datatype Call = Call(v: Verification, phase: Phase)

  /** `commits` records the transaction of every committed block; nothing reads it. */
  datatype State = State(rows: Rows, calls: map<nat, Call>, commits: seq<nat>)

  datatype Event =
    // verifyPayment, one call at a time through its awaits
    | Start(call: nat, tenantId: string, transactionId: nat, attemptId: nat)
    | Answered(call: nat, answer: Answer)
    | OpenBlock(call: nat)
    | EndBlock(call: nat)
    | WriteFailure(call: nat)
    | Die(call: nat)
    // writes from elsewhere, with the guards they have in the source
    | MarkFailed(attemptId: nat)
    | MarkExpired(attemptId: nat)
    | ExpirePending(now: int)
    | NewTransaction(transaction: Transaction)
    | NewAttempt(attempt: Attempt)
    | SetTransactionStatus(id: nat, status: TransactionStatus)
    | RefundBlock(tenantId: string, transactionId: nat, amount: int,
      currency: string, status: TransactionStatus, now: int)
    | RefundRows(refunds: seq<RefundRow>)
    | SubscriptionWrite(subscriptions: seq<Subscription>)
    | PlanWrite(planId: string, plan: Plan)

  function End(s: State, call: nat): State {
    s.(calls := s.calls - {call})
  }

  function Enter(s: State, call: nat, phase: Phase): State
    requires call in s.calls
  {
    s.(calls := s.calls[call := s.calls[call].(phase := phase)])
  }

  function StepCall(s: State, e: Event): State {
    match e
    case Start(call, tenantId, transactionId, attemptId) =>
      if call in s.calls then s
      else (match ReadForVerification(s.rows, tenantId, transactionId, attemptId)
            case Thrown(_) => s
            case Ok(v) =>
              if v.attempt.status.Success? || v.attempt.status.Failed? then s
              else s.(calls := s.calls[call := Call(v, Asking)]))
    case Answered(call, answer) =>
      if call !in s.calls || !s.calls[call].phase.Asking? then s
      else (match answer
            case AnswerThrows => End(s, call)
            case Refused => Enter(s, call, ToFail)
            case Confirmed(c) => Enter(s, call, ToSettle(c)))
    case OpenBlock(call) =>
      if call !in s.calls || !s.calls[call].phase.ToSettle? then s
      else Enter(s, call, InBlock(s.calls[call].phase.confirmation, s.rows))
    case EndBlock(call) =>
      if call !in s.calls || !s.calls[call].phase.InBlock? || s.calls[call].v.attemptId >= |s.rows.attempts| then s
      else
        var v := s.calls[call].v;
        (match SettleBlock(s.calls[call].phase.seen, s.rows, v, s.calls[call].phase.confirmation)
         case Thrown(_) => End(s, call)
         case Ok(rows) => End(s.(rows := rows, commits := s.commits + [v.transactionId]), call))
    case WriteFailure(call) =>
      if call !in s.calls || !s.calls[call].phase.ToFail? then s
      else End(s.(rows := Overwrite(s.rows, s.calls[call].v.attemptId, AttemptStatus.Failed)), call)
    case Die(call) => End(s, call)
    case _ => s
  }

  function StepRows(rows: Rows, e: Event): Rows {
    match e
    case MarkFailed(a) => Overwrite(rows, a, AttemptStatus.Failed)
    case MarkExpired(a) => Overwrite(rows, a, AttemptStatus.Expired)
    case ExpirePending(now) => rows.(attempts := ExpireStale(rows.attempts, now))
    case NewTransaction(t) => rows.(transactions := rows.transactions + [t])
    case NewAttempt(a) => rows.(attempts := rows.attempts + [a.(status := AttemptStatus.Pending)])
    case SetTransactionStatus(t, status) =>
      if t < |rows.transactions| then rows.(transactions := WithTransactionStatus(rows.transactions, t, status))
        else rows
    case RefundBlock(tenantId, t, amount, currency, status, now) =>
      if t < |rows.transactions|
      then rows.(transactions := WithTransactionStatus(rows.transactions, t, status),
                 ledger := rows.ledger + RefundEntries(tenantId, t, amount, currency, now))
      else rows
    case RefundRows(refunds) => rows.(refunds := refunds)
    case SubscriptionWrite(subscriptions) => rows.(subscriptions := subscriptions)
    case PlanWrite(planId, plan) => rows.(plans := rows.plans[planId := plan])
    case _ => rows
  }

  predicate CallEvent(e: Event) {
    e.Start? || e.Answered? || e.OpenBlock? || e.EndBlock? || e.WriteFailure? || e.Die?
  }

  function Step(s: State, e: Event): State {
    if CallEvent(e) then StepCall(s, e) else s.(rows := StepRows(s.rows, e))
  }

  function Run(s: State, es: seq<Event>): State {
    if es == [] then s else Step(Run(s, es[..|es| - 1]), es[|es| - 1])
  }

  // ---- Settlement -------------------------------------------------------------------------------

  /** The PAYMENT entries of a transaction. */
  function PaymentsOf(es: seq<Entry>, t: nat): seq<Entry> {
    if es == [] then []
    else
      var e := es[|es| - 1];
      PaymentsOf(es[..|es| - 1], t) + (if e.kind.Payment? && e.transactionId == t then [e] else [])
  }

  /** Exactly one PAYMENT entry, of the successful attempt's amount, or none if no attempt succeeded. */
  ghost predicate SettledOn(rows: Rows, t: nat) {
    && (!HasSuccess(rows.attempts, t) ==> PaymentsOf(rows.ledger, t) == [])
    && (forall a: nat :: Succeeded(rows.attempts, a, t) ==> PaidOnce(rows, a, t))
  }

  predicate PaidOnce(rows: Rows, a: nat, t: nat)
    requires a < |rows.attempts|
  {
    var ps := PaymentsOf(rows.ledger, t);
    |ps| == 1 && ps[0].amount == rows.attempts[a].amount && ps[0].currency == rows.attempts[a].currency
  }

  ghost predicate Settled(rows: Rows) {
    forall t: nat :: SettledOn(rows, t)
  }

  lemma {:induction false} PaymentsAppend(es: seq<Entry>, fs: seq<Entry>, t: nat)
    ensures PaymentsOf(es + fs, t) == PaymentsOf(es, t) + PaymentsOf(fs, t)
  {
    if fs == [] {
      assert es + fs == es;
    } else {
      PaymentsAppend(es, fs[..|fs| - 1], t);
      assert (es + fs)[..|es + fs| - 1] == es + fs[..|fs| - 1];
    }
  }

  lemma OnePayment(tenantId: string, x: nat, amount: int, currency: string, now: int, t: nat)
    ensures var es := PaymentEntries(tenantId, x, amount, currency, None, now);
            PaymentsOf(es, t) == if t == x then es else []
  {
    var es := PaymentEntries(tenantId, x, amount, currency, None, now);
    assert es[..0] == [] && PaymentsOf([], t) == [];
  }

  lemma NoPayments(tenantId: string, x: nat, amount: int, currency: string, now: int, t: nat)
    ensures PaymentsOf(RefundEntries(tenantId, x, amount, currency, now), t) == []
  {
    var es := RefundEntries(tenantId, x, amount, currency, now);
    assert es[..1] == [es[0]] && [es[0]][..0] == [];
    assert PaymentsOf([es[0]], t) == [];
  }

  // ---- What the attempt rows keep in every run --------------------------------------------------

  /** Attempts are never removed, and only their status changes. */
  ghost predicate Evolves(before: seq<Attempt>, after: seq<Attempt>) {
    && |before| <= |after|
    && forall i :: 0 <= i < |before| ==> after[i] == before[i].(status := after[i].status)
  }

  /** The same attempts are SUCCESS. */
  ghost predicate SameSuccesses(before: seq<Attempt>, after: seq<Attempt>) {
    && Evolves(before, after)
    && (forall i :: 0 <= i < |before| ==> (after[i].status.Success? <==> before[i].status.Success?))
    && (forall i :: |before| <= i < |after| ==> !after[i].status.Success?)
  }

  lemma SameSuccessesKeepUnique(before: seq<Attempt>, after: seq<Attempt>)
    requires SameSuccesses(before, after) && UniqueSuccess(before)
    ensures UniqueSuccess(after)
  {
  }

  lemma SameSuccessesSame(before: seq<Attempt>, after: seq<Attempt>, t: nat)
    requires SameSuccesses(before, after)
    ensures HasSuccess(after, t) <==> HasSuccess(before, t)
    ensures forall a: nat :: Succeeded(after, a, t) <==> Succeeded(before, a, t)
  {
    if HasSuccess(before, t) {
      var a :| 0 <= a < |before| && Succeeded(before, a, t);
      assert Succeeded(after, a, t);
    }
    if HasSuccess(after, t) {
      var a :| 0 <= a < |after| && Succeeded(after, a, t);
      assert Succeeded(before, a, t);
    }
  }

  /** A block that commits marks its attempt SUCCESS, or found it so, and no other. */
  lemma BlockAttempts(seen: Rows, rows: Rows, v: Verification, c: Confirmation)
    requires v.attemptId < |rows.attempts| && SettleBlock(seen, rows, v, c).Ok?
    ensures var after := SettleBlock(seen, rows, v, c).value.attempts;
            var a := v.attemptId;
            && Evolves(rows.attempts, after) && |after| == |rows.attempts|
            && (forall i :: 0 <= i < |after| && i != a
                 ==> (after[i].status.Success? <==> rows.attempts[i].status.Success?))
            && (MarkDecision(seen.attempts, a).WriteSuccess? ==>
                  after[a].status.Success? && !IndexTaken(rows.attempts, a, rows.attempts[a].transactionId))
            && (MarkDecision(seen.attempts, a).AlreadySuccess? ==>
                  (after[a].status.Success? <==> rows.attempts[a].status.Success?))
  {
  }

  lemma BlockKeepsUnique(seen: Rows, rows: Rows, v: Verification, c: Confirmation)
    requires v.attemptId < |rows.attempts| && SettleBlock(seen, rows, v, c).Ok? && UniqueSuccess(rows.attempts)
    ensures UniqueSuccess(SettleBlock(seen, rows, v, c).value.attempts)
  {
    BlockAttempts(seen, rows, v, c);
    hide SettleBlock;
    var after := SettleBlock(seen, rows, v, c).value.attempts;
    var a := v.attemptId;
    var t := rows.attempts[a].transactionId;
    assert forall k: nat :: k != a && Succeeded(rows.attempts, k, t) ==> IndexTaken(rows.attempts, a, t);
    hide IndexTaken, MarkDecision;
    OneMoreSuccess(rows.attempts, after, a);
  }

  /** At most attempt `a` becomes SUCCESS, and only if no other of its transaction is. */
  lemma OneMoreSuccess(before: seq<Attempt>, after: seq<Attempt>, a: nat)
    requires UniqueSuccess(before) && Evolves(before, after) && |after| == |before| && a < |before|
    requires forall i :: 0 <= i < |after| && i != a ==> (after[i].status.Success? <==> before[i].status.Success?)
    requires after[a].status.Success? && !before[a].status.Success? ==>
               forall k: nat :: k < |before| && k != a ==> !Succeeded(before, k, before[a].transactionId)
    ensures UniqueSuccess(after)
  {
    forall i: nat, j: nat | i < j < |after| && after[i].status.Success? && after[j].status.Success?
      ensures after[i].transactionId != after[j].transactionId
    {
      var other := if i == a then j else i;
      assert Succeeded(before, other, before[other].transactionId);
    }
  }

  function CountOf(xs: seq<nat>, t: nat): nat {
    if xs == [] then 0 else CountOf(xs[..|xs| - 1], t) + (if xs[|xs| - 1] == t then 1 else 0)
  }

  /** Holds in every run: no two SUCCESS attempts, and one PAYMENT entry per committed block. */
  ghost predicate AlwaysTrue(s: State) {
    && UniqueSuccess(s.rows.attempts)
    && (forall t: nat :: |PaymentsOf(s.rows.ledger, t)| == CountOf(s.commits, t))
    && AllPosted(s.rows.ledger)
  }

  lemma OverwriteKeepsUnique(rows: Rows, a: nat, status: AttemptStatus)
    requires UniqueSuccess(rows.attempts) && !status.Success?
    ensures UniqueSuccess(Overwrite(rows, a, status).attempts)
  {
  }

  lemma RowStepKeepsAttempts(rows: Rows, e: Event)
    requires !CallEvent(e)
    ensures Evolves(rows.attempts, StepRows(rows, e).attempts)
    ensures UniqueSuccess(rows.attempts) ==> UniqueSuccess(StepRows(rows, e).attempts)
  {
  }

  lemma RowStepKeepsPayments(rows: Rows, e: Event, t: nat)
    requires !CallEvent(e)
    ensures PaymentsOf(StepRows(rows, e).ledger, t) == PaymentsOf(rows.ledger, t)
    ensures AllPosted(rows.ledger) ==> AllPosted(StepRows(rows, e).ledger)
  {
    if e.RefundBlock? {
      var fs := RefundEntries(e.tenantId, e.transactionId, e.amount, e.currency, e.now);
      PaymentsAppend(rows.ledger, fs, t);
      NoPayments(e.tenantId, e.transactionId, e.amount, e.currency, e.now, t);
    }
  }

  lemma BlockLedger(seen: Rows, rows: Rows, v: Verification, c: Confirmation)
    requires v.attemptId < |rows.attempts| && SettleBlock(seen, rows, v, c).Ok?
    ensures SettleBlock(seen, rows, v, c).value.ledger ==
            rows.ledger + PaymentEntries(v.tenantId, v.transactionId, v.attempt.amount, v.attempt.currency, None, c.now)
  {
    hide PaymentEntries, MarkSuccess, CancelOthers;
  }

  lemma BlockPayments(seen: Rows, rows: Rows, v: Verification, c: Confirmation, t: nat)
    requires v.attemptId < |rows.attempts| && SettleBlock(seen, rows, v, c).Ok?
    ensures var after := SettleBlock(seen, rows, v, c).value;
            var es := PaymentEntries(v.tenantId, v.transactionId, v.attempt.amount, v.attempt.currency, None, c.now);
            && PaymentsOf(after.ledger, t) == PaymentsOf(rows.ledger, t) + (if t == v.transactionId then es else [])
            && (AllPosted(rows.ledger) ==> AllPosted(after.ledger))
  {
    var es := PaymentEntries(v.tenantId, v.transactionId, v.attempt.amount, v.attempt.currency, None, c.now);
    BlockLedger(seen, rows, v, c);
    hide SettleBlock, PaymentsOf;
    PaymentsAppend(rows.ledger, es, t);
    OnePayment(v.tenantId, v.transactionId, v.attempt.amount, v.attempt.currency, c.now, t);
  }

  lemma StepKeepsAlwaysTrue(s: State, e: Event)
    requires AlwaysTrue(s)
    ensures AlwaysTrue(Step(s, e))
  {
    hide SettleBlock, UniqueSuccess, PaymentsOf, StepRows;
    var s' := Step(s, e);
    if !CallEvent(e) {
      RowStepKeepsAttempts(s.rows, e);
      forall t: nat
        ensures |PaymentsOf(s'.rows.ledger, t)| == CountOf(s'.commits, t)
      {
        RowStepKeepsPayments(s.rows, e, t);
      }
      RowStepKeepsPayments(s.rows, e, 0);
    } else if e.WriteFailure? && s'.rows != s.rows {
      OverwriteKeepsUnique(s.rows, s.calls[e.call].v.attemptId, AttemptStatus.Failed);
    } else if e.EndBlock? && s'.commits != s.commits {
      var v, c, seen := s.calls[e.call].v, s.calls[e.call].phase.confirmation, s.calls[e.call].phase.seen;
      BlockKeepsUnique(seen, s.rows, v, c);
      forall t: nat
        ensures |PaymentsOf(s'.rows.ledger, t)| == CountOf(s'.commits, t)
      {
        BlockPayments(seen, s.rows, v, c, t);
        assert s'.commits[..|s.commits|] == s.commits;
      }
      BlockPayments(seen, s.rows, v, c, 0);
    }
  }

  /**
   Every run, with every write the source leaves unguarded: no reachable state has two SUCCESS
   attempts on one transaction, the PAYMENT entries of a transaction number its committed blocks, and
   the ledger stays postable to balanced accounts.
   */
  lemma {:induction false} EveryRunKeepsUniqueSuccess(s: State, es: seq<Event>)
    requires AlwaysTrue(s)
    ensures AlwaysTrue(Run(s, es))
  {
    if es != [] {
      EveryRunKeepsUniqueSuccess(s, es[..|es| - 1]);
      StepKeepsAlwaysTrue(Run(s, es[..|es| - 1]), es[|es| - 1]);
    }
  }

  /** The books balance after every run, in every currency and date range. */
  lemma EveryRunConserves(s: State, es: seq<Event>, currency: string, from: Option<int>, to: Option<int>)
    requires AlwaysTrue(s)
    ensures var log := Run(s, es).rows.ledger;
            && Net(log, AccountsReceivable, currency, from, to) + Net(log, Revenue, currency, from, to)
               + Net(log, TaxPayable, currency, from, to) == 0
            && Net(log, RefundLiability, currency, from, to) + Net(log, Cash, currency, from, to) == 0
  {
    EveryRunKeepsUniqueSuccess(s, es);
    Conserved(Run(s, es).rows.ledger, currency, from, to);
  }

  // ---- Exactly-once settlement ------------------------------------------------------------------

  lemma SameSuccessesKeepSettled(rows: Rows, after: Rows)
    requires Settled(rows) && SameSuccesses(rows.attempts, after.attempts)
    requires forall t: nat :: PaymentsOf(after.ledger, t) == PaymentsOf(rows.ledger, t)
    ensures Settled(after)
  {
    forall t: nat
      ensures SettledOn(after, t)
    {
      assert SettledOn(rows, t);
      SameSuccessesSame(rows.attempts, after.attempts, t);
      forall a: nat | Succeeded(after.attempts, a, t)
        ensures PaidOnce(after, a, t)
      {
        assert PaidOnce(rows, a, t);
      }
    }
  }

  /** An unguarded status write keeps every transaction settled exactly when its target is not SUCCESS. */
  lemma OverwriteSettlesExactlyWhen(rows: Rows, a: nat, status: AttemptStatus)
    requires Settled(rows) && UniqueSuccess(rows.attempts) && !status.Success?
    ensures Settled(Overwrite(rows, a, status)) <==> (a < |rows.attempts| ==> !rows.attempts[a].status.Success?)
  {
    var after := Overwrite(rows, a, status);
    if a < |rows.attempts| && rows.attempts[a].status.Success? {
      var t := rows.attempts[a].transactionId;
      assert SettledOn(rows, t) && PaidOnce(rows, a, t) by {
        assert Succeeded(rows.attempts, a, t);
      }
      forall b: nat
        ensures !Succeeded(after.attempts, b, t)
      {
      }
      assert !SettledOn(after, t);
    } else {
      SameSuccessesKeepSettled(rows, after);
    }
  }

  /** The call read the attempt's row; only the row's status can have changed since. */
  predicate ReadsRow(attempts: seq<Attempt>, v: Verification) {
    v.attemptId < |attempts| && attempts[v.attemptId] == v.attempt.(status := attempts[v.attemptId].status)
  }

  /**
   A committing block keeps every transaction settled exactly when the call names the attempt's own
   transaction, the attempt is not SUCCESS at the commit, and was not in the rows the block saw.
   verifyPayment checks none of the three.
   */
  lemma CommitSettlesExactlyWhen(seen: Rows, rows: Rows, v: Verification, c: Confirmation)
    requires Settled(rows) && UniqueSuccess(rows.attempts) && ReadsRow(rows.attempts, v)
    requires SettleBlock(seen, rows, v, c).Ok?
    ensures Settled(SettleBlock(seen, rows, v, c).value)
       <==> && v.attempt.transactionId == v.transactionId
            && !rows.attempts[v.attemptId].status.Success?
            && MarkDecision(seen.attempts, v.attemptId).WriteSuccess?
  {
    if v.attempt.transactionId == v.transactionId
       && !rows.attempts[v.attemptId].status.Success?
       && MarkDecision(seen.attempts, v.attemptId).WriteSuccess? {
      CommitSettles(seen, rows, v, c);
    } else {
      CommitUnsettles(seen, rows, v, c);
    }
  }

  lemma NoOtherSuccess(attempts: seq<Attempt>, a: nat, t: nat)
    requires a < |attempts| && !attempts[a].status.Success? && !IndexTaken(attempts, a, t)
    ensures !HasSuccess(attempts, t)
  {
    assert forall i: nat :: i != a && Succeeded(attempts, i, t) ==> IndexTaken(attempts, a, t);
  }

  lemma CommitSettles(seen: Rows, rows: Rows, v: Verification, c: Confirmation)
    requires Settled(rows) && UniqueSuccess(rows.attempts) && ReadsRow(rows.attempts, v)
    requires SettleBlock(seen, rows, v, c).Ok?
    requires v.attempt.transactionId == v.transactionId
    requires !rows.attempts[v.attemptId].status.Success?
    requires MarkDecision(seen.attempts, v.attemptId).WriteSuccess?
    ensures Settled(SettleBlock(seen, rows, v, c).value)
  {
    var after, a, x := SettleBlock(seen, rows, v, c).value, v.attemptId, v.transactionId;
    BlockAttempts(seen, rows, v, c);
    hide SettleBlock, MarkDecision;
    forall t: nat
      ensures SettledOn(after, t)
    {
      assert SettledOn(rows, t);
      BlockPayments(seen, rows, v, c, t);
      forall b: nat | Succeeded(after.attempts, b, t)
        ensures PaidOnce(after, b, t)
      {
        if b == a {
          NoOtherSuccess(rows.attempts, a, x);
        } else {
          assert Succeeded(rows.attempts, b, t) && PaidOnce(rows, b, t);
          assert t == x ==> IndexTaken(rows.attempts, a, x);
        }
      }
      if !HasSuccess(after.attempts, t) {
        assert t != x by {
          assert Succeeded(after.attempts, a, x);
        }
        forall i: nat
          ensures Succeeded(rows.attempts, i, t) ==> Succeeded(after.attempts, i, t)
        {
        }
      }
    }
  }

  lemma CommitUnsettles(seen: Rows, rows: Rows, v: Verification, c: Confirmation)
    requires Settled(rows) && UniqueSuccess(rows.attempts) && ReadsRow(rows.attempts, v)
    requires SettleBlock(seen, rows, v, c).Ok?
    requires || v.attempt.transactionId != v.transactionId
             || rows.attempts[v.attemptId].status.Success?
             || !MarkDecision(seen.attempts, v.attemptId).WriteSuccess?
    ensures !Settled(SettleBlock(seen, rows, v, c).value)
  {
    var after, a, x := SettleBlock(seen, rows, v, c).value, v.attemptId, v.transactionId;
    var own := v.attempt.transactionId;
    BlockAttempts(seen, rows, v, c);
    assert MarkDecision(seen.attempts, a).WriteSuccess? || MarkDecision(seen.attempts, a).AlreadySuccess?;
    hide SettleBlock, MarkDecision, UniqueSuccess;
    BlockPayments(seen, rows, v, c, x);
    assert SettledOn(rows, x);
    if HasSuccess(rows.attempts, x) {
      var i :| 0 <= i < |rows.attempts| && Succeeded(rows.attempts, i, x);
      assert PaidOnce(rows, i, x);
      assert Succeeded(after.attempts, i, x);
      assert !PaidOnce(after, i, x);
      assert !SettledOn(after, x);
    } else {
      // Only the call's own attempt can have become SUCCESS, and not on this transaction.
      assert forall i: nat :: Succeeded(after.attempts, i, x) ==> Succeeded(rows.attempts, i, x);
      assert !HasSuccess(after.attempts, x);
      assert !SettledOn(after, x);
    }
  }
}
