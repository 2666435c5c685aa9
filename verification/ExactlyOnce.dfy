/**
 Exactly-once settlement over whole runs, the discipline it needs, and runs that break it without.
 */
module ExactlyOnce {
  import opened Common
  import opened Ledger
  import opened Subscriptions
  import opened PaymentRows
  import opened Settlement
  import opened Protocol

  /**
   What the runs of the theorem keep to: two verifications of one attempt do not overlap, a call names
   its attempt's own transaction, and no SUCCESS attempt is overwritten from outside. Verifications of
   different attempts overlap freely.
   */
  ghost predicate Disciplined(s: State, e: Event) {
    match e
    case Start(_, _, t, a) =>
      && (forall c :: c in s.calls ==> s.calls[c].v.attemptId != a)
      && (a < |s.rows.attempts| ==> s.rows.attempts[a].transactionId == t)
    case MarkFailed(a) => a < |s.rows.attempts| ==> !s.rows.attempts[a].status.Success?
    case MarkExpired(a) => a < |s.rows.attempts| ==> !s.rows.attempts[a].status.Success?
    case _ => true
  }

  ghost predicate DisciplinedRun(s: State, es: seq<Event>) {
    es == []
    || (DisciplinedRun(s, es[..|es| - 1]) && Disciplined(Run(s, es[..|es| - 1]), es[|es| - 1]))
  }

  ghost predicate CallInOrder(rows: Rows, c: Call) {
    && ReadsRow(rows.attempts, c.v)
    && c.v.attempt.transactionId == c.v.transactionId
    && !rows.attempts[c.v.attemptId].status.Success?
    && (c.phase.InBlock? ==>
          ReadsRow(c.phase.seen.attempts, c.v) && !c.phase.seen.attempts[c.v.attemptId].status.Success?)
  }

  ghost predicate CallsInOrder(s: State) {
    && (forall c :: c in s.calls ==> CallInOrder(s.rows, s.calls[c]))
    && (forall c, d :: c in s.calls && d in s.calls && s.calls[c].v.attemptId == s.calls[d].v.attemptId ==> c == d)
  }

  ghost predicate Good(s: State) {
    UniqueSuccess(s.rows.attempts) && Settled(s.rows) && CallsInOrder(s)
  }

  lemma CallKept(before: Rows, after: Rows, c: Call)
    requires CallInOrder(before, c) && Evolves(before.attempts, after.attempts)
    requires !after.attempts[c.v.attemptId].status.Success?
    ensures CallInOrder(after, c)
  {
  }

  lemma RowStepKeepsSuccesses(s: State, e: Event)
    requires !CallEvent(e) && Disciplined(s, e)
    ensures SameSuccesses(s.rows.attempts, StepRows(s.rows, e).attempts)
  {
  }

  lemma GoodRowStep(s: State, e: Event)
    requires Good(s) && !CallEvent(e) && Disciplined(s, e)
    ensures Good(Step(s, e))
  {
    var after := StepRows(s.rows, e);
    RowStepKeepsAttempts(s.rows, e);
    RowStepKeepsSuccesses(s, e);
    hide StepRows, Disciplined;
    forall t: nat
      ensures PaymentsOf(after.ledger, t) == PaymentsOf(s.rows.ledger, t)
    {
      RowStepKeepsPayments(s.rows, e, t);
    }
    hide PaymentsOf, Settled, UniqueSuccess;
    SameSuccessesKeepSettled(s.rows, after);
    forall c | c in s.calls
      ensures CallInOrder(after, s.calls[c])
    {
      CallKept(s.rows, after, s.calls[c]);
    }
  }

  lemma GoodWriteFailure(s: State, call: nat)
    requires Good(s) && call in s.calls && s.calls[call].phase.ToFail?
    ensures Good(Step(s, WriteFailure(call)))
  {
    var a := s.calls[call].v.attemptId;
    var after := Overwrite(s.rows, a, AttemptStatus.Failed);
    assert CallInOrder(s.rows, s.calls[call]);
    OverwriteSettlesExactlyWhen(s.rows, a, AttemptStatus.Failed);
    OverwriteKeepsUnique(s.rows, a, AttemptStatus.Failed);
    forall c | c in s.calls
      ensures CallInOrder(after, s.calls[c])
    {
      CallKept(s.rows, after, s.calls[c]);
    }
  }

  lemma GoodEndBlock(s: State, call: nat)
    requires Good(s) && call in s.calls && s.calls[call].phase.InBlock?
    ensures Good(Step(s, EndBlock(call)))
  {
    var v, c, seen := s.calls[call].v, s.calls[call].phase.confirmation, s.calls[call].phase.seen;
    assert CallInOrder(s.rows, s.calls[call]);
    var result := SettleBlock(seen, s.rows, v, c);
    if result.Ok? {
      assert MarkDecision(seen.attempts, v.attemptId).WriteSuccess?;
      CommitSettles(seen, s.rows, v, c);
      BlockAttempts(seen, s.rows, v, c);
      BlockKeepsUnique(seen, s.rows, v, c);
      hide SettleBlock, MarkDecision, Settled, UniqueSuccess;
      forall d | d in s.calls && d != call
        ensures CallInOrder(result.value, s.calls[d])
      {
        CallKept(s.rows, result.value, s.calls[d]);
      }
    }
  }

  lemma GoodStep(s: State, e: Event)
    requires Good(s) && Disciplined(s, e)
    ensures Good(Step(s, e))
  {
    hide SettleBlock, Settled, UniqueSuccess, StepRows, Overwrite;
    if !CallEvent(e) {
      GoodRowStep(s, e);
    } else if e.EndBlock? && e.call in s.calls && s.calls[e.call].phase.InBlock? {
      GoodEndBlock(s, e.call);
    } else if e.WriteFailure? && e.call in s.calls && s.calls[e.call].phase.ToFail? {
      GoodWriteFailure(s, e.call);
    }
  }

  /**
   Exactly-once settlement: after every disciplined run, a transaction with a successful attempt has
   exactly one PAYMENT entry, of that attempt's amount, and any other transaction has none.
   */
  lemma {:induction false} SettledExactlyOnce(s: State, es: seq<Event>)
    requires UniqueSuccess(s.rows.attempts) && Settled(s.rows) && s.calls == map[]
    requires DisciplinedRun(s, es)
    ensures Settled(Run(s, es).rows) && UniqueSuccess(Run(s, es).rows.attempts)
    ensures CallsInOrder(Run(s, es))
  {
    if es != [] {
      hide Settled, UniqueSuccess, Step;
      SettledExactlyOnce(s, es[..|es| - 1]);
      GoodStep(Run(s, es[..|es| - 1]), es[|es| - 1]);
    }
  }

  /** An empty database is settled, so the theorem covers every run from the beginning. */
  lemma EmptyIsSettled(plans: map<string, Plan>)
    ensures var s := State(Rows([], [], [], [], [], plans), map[], []);
            Settled(s.rows) && AlwaysTrue(s)
  {
  }

  // ---- A call that runs alone is a run of the protocol ------------------------------------------

  function CallAlone(call: nat, tenantId: string, t: nat, a: nat, answer: Answer): seq<Event> {
    [Start(call, tenantId, t, a), Answered(call, answer)]
    + (match answer
       case AnswerThrows => []
       case Refused => [WriteFailure(call)]
       case Confirmed(_) => [OpenBlock(call), EndBlock(call)])
  }

  function RunFrom(s: State, es: seq<Event>): State
    decreases |es|
  {
    if es == [] then s else RunFrom(Step(s, es[0]), es[1..])
  }

  lemma {:induction false} RunFromIsRun(s: State, es: seq<Event>)
    ensures RunFrom(s, es) == Run(s, es)
    decreases |es|
  {
    hide Step;
    if es != [] {
      var n := |es| - 1;
      if n == 0 {
        assert es[1..] == [] && es[..0] == [];
      } else {
        RunFromIsRun(Step(s, es[0]), es[1..]);
        RunFromIsRun(s, es[..n]);
        RunFromIsRun(Step(s, es[0]), es[1..][..n - 1]);
        assert es[..n][1..] == es[1..][..n - 1];
      }
    }
  }

  lemma RunFromNext(s: State, es: seq<Event>, k: nat)
    requires k < |es|
    ensures RunFrom(s, es[k..]) == RunFrom(Step(s, es[k]), es[k + 1..])
  {
    assert es[k..][1..] == es[k + 1..];
  }

  lemma RunFromTwo(s: State, es: seq<Event>)
    requires |es| >= 2
    ensures RunFrom(s, es) == RunFrom(Step(Step(s, es[0]), es[1]), es[2..])
  {
    hide Step;
    assert es[0..] == es;
    RunFromNext(s, es, 0);
    RunFromNext(Step(s, es[0]), es, 1);
  }

  lemma RunAlone(s: State, es: seq<Event>)
    requires 2 <= |es| <= 4
    ensures var s2 := Step(Step(s, es[0]), es[1]);
            Run(s, es) == if |es| == 2 then s2 else if |es| == 3 then Step(s2, es[2]) else Step(Step(s2, es[2]), es[3])
  {
    hide Step;
    RunFromIsRun(s, es);
    RunFromTwo(s, es);
    var s2 := Step(Step(s, es[0]), es[1]);
    if |es| == 2 {
      assert es[2..] == [];
    } else {
      RunFromNext(s2, es, 2);
      if |es| == 3 {
        assert es[3..] == [];
      } else {
        RunFromNext(Step(s2, es[2]), es, 3);
        assert es[4..] == [];
      }
    }
  }

  /** verifyPayment, run alone, has the effect of its events run one after the other. */
  lemma AloneIsARun(s: State, call: nat, tenantId: string, t: nat, a: nat, answer: Answer)
    requires call !in s.calls
    ensures var after := Run(s, CallAlone(call, tenantId, t, a, answer));
            after.rows == Verify(s.rows, tenantId, t, a, answer).rows && after.calls == s.calls
  {
    hide Run, SettleBlock, Overwrite;
    RunAlone(s, CallAlone(call, tenantId, t, a, answer));
  }

  // ---- The discipline is needed -----------------------------------------------------------------

  /** Two overlapping verifications of one open attempt, each confirmed, blocks one after the other. */
  function Overlap(t: nat, a: nat, c: Confirmation): seq<Event> {
    [Start(0, "", t, a), Start(1, "", t, a), Answered(0, Confirmed(c)), Answered(1, Confirmed(c)),
     OpenBlock(0), EndBlock(0), OpenBlock(1), EndBlock(1)]
  }

  /** An open attempt of a one-off transaction that nothing has settled yet. */
  ghost predicate ReadyToSettle(s: State, t: nat, a: nat) {
    && t < |s.rows.transactions| && s.rows.transactions[t].billing.OneOff?
    && a < |s.rows.attempts| && s.rows.attempts[a].transactionId == t && Open(s.rows.attempts[a].status)
    && !HasSuccess(s.rows.attempts, t)
  }

  /** Both calls open their blocks on the attempt as they first read it. */
  lemma OverlapStates(s: State, t: nat, a: nat, c: Confirmation, v: Verification, first: Rows)
    requires ReadyToSettle(s, t, a) && 0 !in s.calls && 1 !in s.calls
    requires v == Verification("", t, a, s.rows.attempts[a], s.rows.transactions[t])
    requires SettleBlock(s.rows, s.rows, v, c) == Ok(first)
    requires |first.attempts| == |s.rows.attempts| && SettleBlock(first, first, v, c).Ok?
    ensures var es := Overlap(t, a, c);
            Step(Step(Step(Step(Step(Step(Step(Step(s, es[0]), es[1]), es[2]), es[3]), es[4]), es[5]), es[6]),
                 es[7]).rows
            == SettleBlock(first, first, v, c).value
  {
    hide SettleBlock;
    var es := Overlap(t, a, c);
    var s2 := Step(Step(s, es[0]), es[1]);
    assert s2 == s.(calls := s.calls[0 := s2.calls[0]][1 := s2.calls[1]]) && s2.calls[0].v == v && s2.calls[1].v == v;
    var s5 := Step(Step(Step(s2, es[2]), es[3]), es[4]);
    assert s5.rows == s.rows && s5.calls[0] == Call(v, InBlock(c, s.rows)) && s5.calls[1] == Call(v, ToSettle(c));
    var s7 := Step(Step(s5, es[5]), es[6]);
    assert s7.rows == first && s7.calls[1] == Call(v, InBlock(c, first));
  }

  /** The second block passes too: the attempt is already marked, and nothing else checks. */
  lemma BothBlocksPass(rows: Rows, t: nat, a: nat, c: Confirmation, v: Verification)
    requires t < |rows.transactions| && rows.transactions[t].billing.OneOff?
    requires a < |rows.attempts| && rows.attempts[a].transactionId == t && Open(rows.attempts[a].status)
    requires !HasSuccess(rows.attempts, t)
    requires v == Verification("", t, a, rows.attempts[a], rows.transactions[t])
    ensures SettleBlock(rows, rows, v, c).Ok?
    ensures var first := SettleBlock(rows, rows, v, c).value;
            |first.attempts| == |rows.attempts| && SettleBlock(first, first, v, c).Ok?
  {
    hide PaymentEntries;
    assert !IndexTaken(rows.attempts, a, t);
    var first := SettleBlock(rows, rows, v, c).value;
    BlockAttempts(rows, rows, v, c);
    assert first.attempts[a].status.Success?;
  }

  /**
   markSuccess returns quietly on the attempt the first block has marked, and the second block goes on
   to the ledger: every open attempt can be paid twice by overlapping verifications.
   */
  lemma OverlapPaysTwice(s: State, t: nat, a: nat, c: Confirmation)
    requires ReadyToSettle(s, t, a) && 0 !in s.calls && 1 !in s.calls
    ensures |PaymentsOf(Run(s, Overlap(t, a, c)).rows.ledger, t)| == |PaymentsOf(s.rows.ledger, t)| + 2
  {
    var v := Verification("", t, a, s.rows.attempts[a], s.rows.transactions[t]);
    BothBlocksPass(s.rows, t, a, c, v);
    hide SettleBlock, Step, Run, RunFrom, PaymentsOf;
    var first := SettleBlock(s.rows, s.rows, v, c).value;
    OverlapStates(s, t, a, c, v, first);
    RunFromIsRun(s, Overlap(t, a, c));
    RunFromEight(s, Overlap(t, a, c));
    BlockPayments(s.rows, s.rows, v, c, t);
    BlockPayments(first, first, v, c, t);
  }

  lemma RunFromEight(s: State, es: seq<Event>)
    requires |es| == 8
    ensures RunFrom(s, es)
        == Step(Step(Step(Step(Step(Step(Step(Step(s, es[0]), es[1]), es[2]), es[3]), es[4]), es[5]), es[6]), es[7])
  {
    hide Step;
    assert es[0..] == es && es[8..] == [];
    RunFromNext(s, es, 0);
    var s1 := Step(s, es[0]);
    RunFromNext(s1, es, 1);
    var s2 := Step(s1, es[1]);
    RunFromNext(s2, es, 2);
    var s3 := Step(s2, es[2]);
    RunFromNext(s3, es, 3);
    var s4 := Step(s3, es[3]);
    RunFromNext(s4, es, 4);
    var s5 := Step(s4, es[4]);
    RunFromNext(s5, es, 5);
    var s6 := Step(s5, es[5]);
    RunFromNext(s6, es, 6);
    var s7 := Step(s6, es[6]);
    RunFromNext(s7, es, 7);
  }

  /** A verification that names another transaction pays a transaction none of whose attempts succeeded. */
  lemma ForeignTransactionUnsettles(rows: Rows, t: nat, a: nat, c: Confirmation)
    requires Settled(rows) && UniqueSuccess(rows.attempts)
    requires a < |rows.attempts| && Open(rows.attempts[a].status)
        && !HasSuccess(rows.attempts, rows.attempts[a].transactionId)
    requires t < |rows.transactions| && rows.transactions[t].billing.OneOff? && rows.attempts[a].transactionId != t
    ensures Verify(rows, "", t, a, Confirmed(c)).outcome == Ok(true)
    ensures !Settled(Verify(rows, "", t, a, Confirmed(c)).rows)
  {
    var v := Verification("", t, a, rows.attempts[a], rows.transactions[t]);
    assert !IndexTaken(rows.attempts, a, rows.attempts[a].transactionId);
    CommitSettlesExactlyWhen(rows, rows, v, c);
  }
}
