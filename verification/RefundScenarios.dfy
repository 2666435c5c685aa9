/**
 Refund runs beside the settlement protocol: exactly-once settlement survives them, a call that runs
 alone is one of them, and overlapping calls reach the bound.
 */
module RefundScenarios {
  import opened Common
  import opened Ledger
  import opened PaymentRows
  import opened Settlement
  import opened Refunds
  import opened RefundRuns
  import P = Protocol
  import E = ExactlyOnce

  // ---- Settlement among refunds -----------------------------------------------------------------

  ghost predicate DisciplinedRun(s: State, es: seq<Event>) {
    es == []
    || (DisciplinedRun(s, es[..|es| - 1])
        && (es[|es| - 1].Elsewhere? ==> E.Disciplined(Run(s, es[..|es| - 1]).payments, es[|es| - 1].e)))
  }

  predicate CommitsNow(s: State, e: Event) {
    && e.Commit? && e.commits && e.call < |s.calls| && s.calls[e.call].phase.Answered?
    && s.calls[e.call].phase.refund < |s.payments.rows.refunds|
    && s.calls[e.call].q.transactionId < |s.payments.rows.transactions|
  }

  lemma CommitIsTwoSteps(s: State, e: Event) returns (block: P.Event)
    requires CommitsNow(s, e)
    ensures block.RefundBlock?
    ensures Step(s, e).payments == P.Step(P.Step(s.payments, P.RefundRows(Step(s, e).payments.rows.refunds)), block)
  {
    hide RefundEntries;
    var rows, q := s.payments.rows, s.calls[e.call].q;
    block := P.RefundBlock(q.tenantId, q.transactionId, q.amount, rows.transactions[q.transactionId].currency,
                           Step(s, e).payments.rows.transactions[q.transactionId].status, e.now);
  }

  lemma OtherIsOneStep(s: State, e: Event)
    requires !e.Elsewhere? && !CommitsNow(s, e)
    ensures Step(s, e).payments == P.Step(s.payments, P.RefundRows(Step(s, e).payments.rows.refunds))
  {
    hide RefundedSum, HasTarget, CanRefund, RefundCommit;
  }

  /** Every refund step is a write of the refunds table, followed at the commit by the block's other writes. */
  lemma RefundStepIsProtocolSteps(s: State, e: Event)
    requires !e.Elsewhere?
    ensures var refunds := P.RefundRows(Step(s, e).payments.rows.refunds);
            || Step(s, e).payments == P.Step(s.payments, refunds)
            || exists block: P.Event :: block.RefundBlock?
                && Step(s, e).payments == P.Step(P.Step(s.payments, refunds), block)
  {
    hide Step, P.Step, CommitsNow;
    if CommitsNow(s, e) {
      var block := CommitIsTwoSteps(s, e);
    } else {
      OtherIsOneStep(s, e);
    }
  }

  lemma StepKeepsGood(s: State, e: Event)
    requires E.Good(s.payments) && P.AlwaysTrue(s.payments)
    requires e.Elsewhere? ==> E.Disciplined(s.payments, e.e)
    ensures E.Good(Step(s, e).payments) && P.AlwaysTrue(Step(s, e).payments)
  {
    hide E.Good, P.AlwaysTrue, P.Step;
    if e.Elsewhere? {
      E.GoodStep(s.payments, e.e);
      P.StepKeepsAlwaysTrue(s.payments, e.e);
    } else {
      RefundStepIsProtocolSteps(s, e);
      var refunds := P.RefundRows(Step(s, e).payments.rows.refunds);
      var written := P.Step(s.payments, refunds);
      E.GoodStep(s.payments, refunds);
      P.StepKeepsAlwaysTrue(s.payments, refunds);
      if Step(s, e).payments != written {
        var block: P.Event :| block.RefundBlock? && Step(s, e).payments == P.Step(written, block);
        E.GoodStep(written, block);
        P.StepKeepsAlwaysTrue(written, block);
      }
    }
  }

  /** Exactly-once settlement and balanced books hold with any refund calls interleaved. */
  lemma {:induction false} SettledAmongRefunds(s: State, es: seq<Event>)
    requires E.Good(s.payments) && P.AlwaysTrue(s.payments) && DisciplinedRun(s, es)
    ensures E.Good(Run(s, es).payments) && P.AlwaysTrue(Run(s, es).payments)
  {
    if es != [] {
      hide E.Good, P.AlwaysTrue, Step;
      SettledAmongRefunds(s, es[..|es| - 1]);
      StepKeepsGood(Run(s, es[..|es| - 1]), es[|es| - 1]);
    }
  }

  // ---- A call that runs alone -------------------------------------------------------------------

  function Reads(c: nat, q: Request): seq<Event> {
    [Lookup(q), CheckStatus(c), Admit(c), Target(c)]
  }

  function Writes(c: nat, fate: Fate, now: int): seq<Event> {
    [Insert(c), ProviderAnswers(c, fate.answer), Commit(c, fate.commits, now), Reread(c, fate.rereads), WriteFailed(c)]
  }

  /** The events of one call; those its phase does not allow change nothing. */
  function CallAlone(c: nat, q: Request, fate: Fate, now: int): seq<Event> {
    Reads(c, q) + Writes(c, fate, now)
  }

  lemma RunAppend(s: State, es: seq<Event>, e: Event)
    ensures Run(s, es + [e]) == Step(Run(s, es), e)
  {
    assert (es + [e])[..|es|] == es;
  }

  /** After the call is `Done`, the rest of its events change nothing. */
  lemma {:induction false} DoneStays(s: State, es: seq<Event>, c: nat)
    requires c < |s.calls| && s.calls[c].phase.Done?
    requires forall i :: 0 <= i < |es| ==> !es[i].Lookup? && !es[i].Elsewhere? && es[i].call == c
    ensures Run(s, es) == s
  {
    if es != [] {
      DoneStays(s, es[..|es| - 1], c);
      assert es[|es| - 1].call == c;
      assert s.calls[c := s.calls[c]] == s.calls;
    }
  }

  lemma {:induction false} RunSplit(s: State, es: seq<Event>, fs: seq<Event>)
    ensures Run(s, es + fs) == Run(Run(s, es), fs)
  {
    if fs == [] {
      assert es + fs == es;
    } else {
      RunSplit(s, es, fs[..|fs| - 1]);
      assert (es + fs)[..|es + fs| - 1] == es + fs[..|fs| - 1];
    }
  }

  /** The state in which a call that is alone stands, or has ended with nothing written. */
  ghost predicate Stands(s: State, t: State, q: Request, phase: Phase) {
    t == State(s.payments, s.calls + [RefundCall(q, phase)])
  }

  lemma RunFour(s: State, a: Event, b: Event, c: Event, d: Event)
    ensures Run(s, [a, b, c, d]) == Step(Step(Step(Step(s, a), b), c), d)
  {
    hide Step;
    RunAppend(s, [], a);
    RunAppend(s, [a], b);
    RunAppend(s, [a, b], c);
    RunAppend(s, [a, b, c], d);
    assert [] + [a] == [a] && [a] + [b] == [a, b] && [a, b] + [c] == [a, b, c] && [a, b, c] + [d] == [a, b, c, d];
  }

  lemma ReadStates(s: State, q: Request)
    ensures var c := |s.calls|;
            var s1 := Step(s, Lookup(q));
            var s2 := Step(s1, CheckStatus(c));
            var s3 := Step(s2, Admit(c));
            var s4 := Step(s3, Target(c));
            var rows := s.payments.rows;
            if Known(rows.refunds, q) || !CanRefund(rows, q) || q.amount > Available(rows, q.transactionId)
               || !HasTarget(rows.attempts, q.transactionId)
            then Stands(s, s4, q, Done)
            else Stands(s, s4, q,
              Targeted(rows.transactions[q.transactionId].amount, RefundedSum(rows.refunds, q.transactionId)))
  {
    hide FindRefund, RefundedSum, FindSuccess;
    var c := |s.calls|;
    var s1 := Step(s, Lookup(q));
    var s2 := Step(s1, CheckStatus(c));
    assert exists p :: Stands(s, s2, q, p) by {
      assert Stands(s, s2, q, s2.calls[c].phase);
    }
    var s3 := Step(s2, Admit(c));
    assert Stands(s, s3, q, s3.calls[c].phase);
    var s4 := Step(s3, Target(c));
    assert Stands(s, s4, q, s4.calls[c].phase);
  }

  /** The first four steps only read: they end the call, or reach the insert with the serial checks passed. */
  lemma ReadOutcome(s: State, q: Request, fate: Fate, now: int)
    ensures var c, t, whole := |s.calls|, Run(s, Reads(|s.calls|, q)), CreateRefund(s.payments.rows, q, fate, now);
            if ReachesProvider(whole.outcome) then Stands(s, t, q, ReadyToWrite(s, q))
            else Stands(s, t, q, Done) && whole.rows == s.payments.rows
  {
    RunFour(s, Lookup(q), CheckStatus(|s.calls|), Admit(|s.calls|), Target(|s.calls|));
    ReadStates(s, q);
    hide Step, Run, FindRefund, FindSuccess;
  }

  function ReadyToWrite(s: State, q: Request): Phase {
    if q.transactionId >= |s.payments.rows.transactions| then Done
    else Targeted(s.payments.rows.transactions[q.transactionId].amount,
                  RefundedSum(s.payments.rows.refunds, q.transactionId))
  }

  /** createRefund, run alone, has the effect of its events run one after the other. */
  lemma AloneIsARun(s: State, q: Request, fate: Fate, now: int)
    ensures Run(s, CallAlone(|s.calls|, q, fate, now)).payments
         == s.payments.(rows := CreateRefund(s.payments.rows, q, fate, now).rows)
  {
    hide Step, CreateRefund, ReachesProvider, Run, Reads;
    var c, t := |s.calls|, Run(s, Reads(|s.calls|, q));
    ReadOutcome(s, q, fate, now);
    RunSplit(s, Reads(c, q), Writes(c, fate, now));
    if ReachesProvider(CreateRefund(s.payments.rows, q, fate, now).outcome) {
      WriteStates(s, t, q, fate, now);
      RunWrites(t, c, fate, now);
    } else {
      DoneStays(t, Writes(c, fate, now), c);
    }
  }

  lemma RunWrites(t: State, c: nat, fate: Fate, now: int)
    ensures var asked := Step(Step(t, Insert(c)), ProviderAnswers(c, fate.answer));
            var committed := Step(asked, Commit(c, fate.commits, now));
            Run(t, Writes(c, fate, now)) == Step(Step(committed, Reread(c, fate.rereads)), WriteFailed(c))
  {
    hide Step, Run;
    var asking := [Insert(c), ProviderAnswers(c, fate.answer), Commit(c, fate.commits, now), Reread(c, fate.rereads)];
    RunFour(t, Insert(c), ProviderAnswers(c, fate.answer), Commit(c, fate.commits, now), Reread(c, fate.rereads));
    RunAppend(t, asking, WriteFailed(c));
    assert Writes(c, fate, now) == asking + [WriteFailed(c)];
  }

  /** The rows and phase once the provider has answered. */
  lemma AskStates(s: State, t: State, q: Request, fate: Fate)
    requires CanRefund(s.payments.rows, q) && HasTarget(s.payments.rows.attempts, q.transactionId)
    requires Stands(s, t, q, ReadyToWrite(s, q))
    ensures var c, r, rows := |s.calls|, |s.payments.rows.refunds|, s.payments.rows;
            var asked := Step(Step(t, Insert(c)), ProviderAnswers(c, fate.answer));
            && asked.payments == s.payments.(rows := rows.(refunds := rows.refunds + [NewRefund(rows, q)]))
            && asked.calls == s.calls + [RefundCall(q, if fate.answer.RefundThrows? then Failing(r)
                 else Answered(r, rows.transactions[q.transactionId].amount,
                   RefundedSum(rows.refunds, q.transactionId), fate.answer.Accepted?))]
  {
    hide RefundedSum, FindSuccess;
  }

  lemma WriteStates(s: State, t: State, q: Request, fate: Fate, now: int)
    requires ReachesProvider(CreateRefund(s.payments.rows, q, fate, now).outcome)
    requires Stands(s, t, q, ReadyToWrite(s, q))
    ensures var c := |s.calls|;
            var asked := Step(Step(t, Insert(c)), ProviderAnswers(c, fate.answer));
            var committed := Step(asked, Commit(c, fate.commits, now));
            var ended := Step(Step(committed, Reread(c, fate.rereads)), WriteFailed(c));
            ended.payments == s.payments.(rows := CreateRefund(s.payments.rows, q, fate, now).rows)
  {
    ReachedRows(s.payments.rows, q, fate, now);
    hide CreateRefund, ReachesProvider, CanRefund, HasTarget, RefundCommit, WithRefundStatus, NewRefund, RefundedSum;
    AskStates(s, t, q, fate);
    var asked := Step(Step(t, Insert(|s.calls|)), ProviderAnswers(|s.calls|, fate.answer));
    hide Step;
    EndStates(asked, |s.calls|, q, fate, now);
  }

  /** The rows of a call that reaches the provider. */
  lemma ReachedRows(rows: Rows, q: Request, fate: Fate, now: int)
    requires ReachesProvider(CreateRefund(rows, q, fate, now).outcome)
    ensures CanRefund(rows, q) && HasTarget(rows.attempts, q.transactionId)
    ensures var asked, r, total := rows.(refunds := rows.refunds + [NewRefund(rows, q)]), |rows.refunds|,
                                   rows.transactions[q.transactionId].amount;
            CreateRefund(rows, q, fate, now).rows
            == if fate.answer.RefundThrows? || !fate.commits then WithRefundStatus(asked, r, RefundStatus.Failed)
               else var done := RefundCommit(asked, q, r, total - RefundedSum(rows.refunds, q.transactionId),
                                             fate.answer.Accepted?, now);
                    if fate.rereads then done else WithRefundStatus(done, r, RefundStatus.Failed)
  {
    hide FindRefund, HasTarget, RefundedSum, WithRefundStatus, RefundEntries;
  }

  /** The last three steps from the provider's answer on. */
  lemma EndStates(b: State, c: nat, q: Request, fate: Fate, now: int)
    requires c < |b.calls| && b.calls[c].q == q && q.transactionId < |b.payments.rows.transactions|
    requires if fate.answer.RefundThrows? then b.calls[c].phase.Failing?
             else b.calls[c].phase.Answered? && b.calls[c].phase.accepted == fate.answer.Accepted?
    requires b.calls[c].phase.refund < |b.payments.rows.refunds|
    ensures var committed := Step(b, Commit(c, fate.commits, now));
            var ended := Step(Step(committed, Reread(c, fate.rereads)), WriteFailed(c));
            var phase, rows := b.calls[c].phase, b.payments.rows;
            ended.payments == b.payments.(rows :=
              if phase.Failing? || !fate.commits then WithRefundStatus(rows, phase.refund, RefundStatus.Failed)
              else var done := RefundCommit(rows, q, phase.refund,
                phase.total - phase.already, fate.answer.Accepted?, now);
                   if fate.rereads then done else WithRefundStatus(done, phase.refund, RefundStatus.Failed))
  {
    hide RefundEntries;
  }

  // ---- The bound is reached ---------------------------------------------------------------------

  /** A settled transaction that nothing has been refunded from. */
  ghost predicate Refundable(s: State, q: Request) {
    && CanRefund(s.payments.rows, q) && HasTarget(s.payments.rows.attempts, q.transactionId)
    && s.payments.rows.refunds == [] && s.calls == []
    && q.amount == s.payments.rows.transactions[q.transactionId].amount > 0
  }

  function Times(c: RefundCall, n: nat): (cs: seq<RefundCall>)
    ensures |cs| == n && forall i :: 0 <= i < n ==> cs[i] == c
  {
    seq(n, i requires 0 <= i < n => c)
  }

  lemma AppendStep(s: State, es: seq<Event>, e: Event, t: nat, k: nat)
    requires AtMost(s, es, t, k) && (e.Lookup? ==> e.q.amount > 0)
    requires |Step(Run(s, es), e).calls| <= k
    ensures AtMost(s, es + [e], t, k)
    ensures Run(s, es + [e]) == Step(Run(s, es), e)
  {
    hide Step, InFlight;
    assert (es + [e])[..|es|] == es;
    RunAppend(s, es, e);
    FlyingAtMostAll(Step(Run(s, es), e).calls, t);
  }

  lemma {:induction false} FlyingAtMostAll(calls: seq<RefundCall>, t: nat)
    ensures InFlight(calls, t) <= |calls|
  {
    if calls != [] {
      FlyingAtMostAll(calls[..|calls| - 1], t);
    }
  }

  /** One more call, up to its admission against a refunded sum of 0. */
  lemma AdmitOne(s: State, q: Request, i: nat)
    requires Refundable(s, q)
    ensures var c, b := RefundCall(q, Admitted(q.amount, 0)),
        s.(calls := Times(RefundCall(q, Admitted(q.amount, 0)), i));
            var s1 := Step(b, Lookup(q));
            var s2 := Step(s1, CheckStatus(i));
            && |s1.calls| == |s2.calls| == i + 1
            && Step(s2, Admit(i)) == s.(calls := Times(c, i + 1))
  {
    var c := RefundCall(q, Admitted(q.amount, 0));
    var s1 := Step(s.(calls := Times(c, i)), Lookup(q));
    assert s1 == s.(calls := Times(c, i) + [RefundCall(q, KeyFree)]);
    var s2 := Step(s1, CheckStatus(i));
    assert s2 == s.(calls := Times(c, i) + [RefundCall(q, Eligible(q.amount))]);
    assert Step(s2, Admit(i)).calls == Times(c, i + 1);
  }

  /** `n` calls for the full amount, all admitted before any commits. */
  lemma {:induction false} AdmitAll(s: State, q: Request, n: nat, k: nat) returns (es: seq<Event>)
    requires Refundable(s, q) && n <= k
    ensures Run(s, es) == s.(calls := Times(RefundCall(q, Admitted(q.amount, 0)), n))
    ensures AtMost(s, es, q.transactionId, k)
  {
    var c := RefundCall(q, Admitted(q.amount, 0));
    if n == 0 {
      es := [];
      assert s.calls == Times(c, 0);
    } else {
      var before := AdmitAll(s, q, n - 1, k);
      var i := n - 1;
      AdmitOne(s, q, i);
      assert q.amount > 0;
      hide Step, Run, AtMost, Refundable;
      AppendStep(s, before, Lookup(q), q.transactionId, k);
      AppendStep(s, before + [Lookup(q)], CheckStatus(i), q.transactionId, k);
      AppendStep(s, before + [Lookup(q)] + [CheckStatus(i)], Admit(i), q.transactionId, k);
      es := before + [Lookup(q)] + [CheckStatus(i)] + [Admit(i)];
    }
  }

  /** `n` of `k` admitted calls have committed. */
  ghost predicate HalfWay(s: State, q: Request, n: nat, k: nat) {
    && n <= k == |s.calls|
    && q.transactionId < |s.payments.rows.transactions| && HasTarget(s.payments.rows.attempts, q.transactionId)
    && (forall i :: 0 <= i < n ==> s.calls[i] == RefundCall(q, Done))
    && (forall i :: n <= i < k ==> s.calls[i] == RefundCall(q, Admitted(q.amount, 0)))
    && RefundedSum(s.payments.rows.refunds, q.transactionId) == n * q.amount
  }

  lemma CommitCalls(s: State, q: Request, n: nat, k: nat, now: int)
    requires HalfWay(s, q, n, k) && n < k
    ensures var s1 := Step(s, Target(n));
            var s2 := Step(s1, Insert(n));
            var s3 := Step(s2, ProviderAnswers(n, Accepted));
            var s4 := Step(s3, Commit(n, true, now));
            var s5 := Step(s4, Reread(n, true));
            var rows := s.payments.rows;
            && |s1.calls| == |s2.calls| == |s3.calls| == |s4.calls| == k
            && s5.calls == s.calls[n := RefundCall(q, Done)]
            && s5.payments.rows.refunds == rows.refunds + [NewRefund(rows, q).(status := RefundStatus.Success)]
            && s5.payments.rows.attempts == rows.attempts
            && |s5.payments.rows.transactions| == |rows.transactions|
  {
    hide HasTarget, RefundedSum, RefundEntries;
    var r := |s.payments.rows.refunds|;
    var s1 := Step(s, Target(n));
    assert s1 == s.(calls := s.calls[n := RefundCall(q, Targeted(q.amount, 0))]);
    var s2 := Step(s1, Insert(n));
    assert s2.calls == s.calls[n := RefundCall(q, Asking(r, q.amount, 0))];
    var s3 := Step(s2, ProviderAnswers(n, Accepted));
    assert s3.calls == s.calls[n := RefundCall(q, Answered(r, q.amount, 0, true))];
    var s4 := Step(s3, Commit(n, true, now));
    assert s4.calls == s.calls[n := RefundCall(q, Rereading(r))];
  }

  lemma OneMoreTime(n: nat, amount: int)
    ensures (n + 1) * amount == n * amount + amount
  {
  }

  lemma CommitNext(s: State, q: Request, n: nat, k: nat, now: int)
    requires HalfWay(s, q, n, k) && n < k
    ensures HalfWay(Step(Step(Step(Step(Step(s, Target(n)), Insert(n)), ProviderAnswers(n, Accepted)),
                              Commit(n, true, now)), Reread(n, true)),
                    q, n + 1, k)
  {
    CommitCalls(s, q, n, k, now);
    var rows := s.payments.rows;
    var row := NewRefund(rows, q).(status := RefundStatus.Success);
    RefundedOneMore(rows.refunds, row, q.transactionId);
    OneMoreTime(n, q.amount);
    hide Step, RefundedSum, HasTarget;
  }

  /** Commits the next admitted call, within the bound of `k` unfinished calls. */
  lemma CommitAppended(s: State, es: seq<Event>, q: Request, n: nat, k: nat, now: int) returns (longer: seq<Event>)
    requires HalfWay(Run(s, es), q, n, k) && n < k && AtMost(s, es, q.transactionId, k)
    ensures HalfWay(Run(s, longer), q, n + 1, k) && AtMost(s, longer, q.transactionId, k)
  {
    CommitCalls(Run(s, es), q, n, k, now);
    CommitNext(Run(s, es), q, n, k, now);
    assert |Run(s, es).calls| == k;
    hide Step, Run, AtMost, HalfWay;
    var t := q.transactionId;
    AppendStep(s, es, Target(n), t, k);
    var es1 := es + [Target(n)];
    AppendStep(s, es1, Insert(n), t, k);
    var es2 := es1 + [Insert(n)];
    AppendStep(s, es2, ProviderAnswers(n, Accepted), t, k);
    var es3 := es2 + [ProviderAnswers(n, Accepted)];
    AppendStep(s, es3, Commit(n, true, now), t, k);
    var es4 := es3 + [Commit(n, true, now)];
    AppendStep(s, es4, Reread(n, true), t, k);
    longer := es4 + [Reread(n, true)];
  }

  /**
   The bound is sharp for every `k`: that many overlapping full refunds are all admitted against a
   refunded sum of 0, and together refund `k` times the amount.
   */
  lemma {:induction false} OverlapReachesBound(s: State, q: Request, k: nat, now: int) returns (es: seq<Event>)
    requires Refundable(s, q)
    ensures AtMost(s, es, q.transactionId, k)
    ensures RefundedSum(Run(s, es).payments.rows.refunds, q.transactionId) == k * q.amount
  {
    hide *;
    es := AdmitAll(s, q, k, k);
    NoneCommitted(s, q, k);
    for n := 0 to k
      invariant HalfWay(Run(s, es), q, n, k)
      invariant AtMost(s, es, q.transactionId, k)
    {
      es := CommitAppended(s, es, q, n, k, now);
    }
    HalfWaySum(Run(s, es), q, k, k);
  }

  lemma NoneCommitted(s: State, q: Request, k: nat)
    requires Refundable(s, q)
    ensures HalfWay(s.(calls := Times(RefundCall(q, Admitted(q.amount, 0)), k)), q, 0, k)
  {
    hide HasTarget;
  }

  lemma HalfWaySum(s: State, q: Request, n: nat, k: nat)
    requires HalfWay(s, q, n, k)
    ensures RefundedSum(s.payments.rows.refunds, q.transactionId) == n * q.amount
  {
    hide HasTarget, RefundedSum;
  }
}
