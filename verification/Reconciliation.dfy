/**
 The reconciliation worker (src/modules/payment/reconciliation/reconciliation.service.ts): one batch of
 stale transactions, verified one attempt after the other. The query's result and the provider's
 answers are inputs; the worker holds a lock of five minutes and deletes it at the end.
 */
module Reconciliation {
  import opened Common
  import opened Ledger
  import opened Subscriptions
  import opened PaymentRows
  import opened Settlement
  import opened Protocol
  import opened SerialVerification

  const LOCK_MS: int := 300_000

  /** One verification of the batch, with the transaction as it was loaded. */
  datatype Work = Work(tenantId: string, t: nat, a: nat)

  /** The open attempts of a loaded transaction. */
  function WorkOf(rows: Rows, t: nat, n: nat): seq<Work>
    requires n <= |rows.attempts| && t < |rows.transactions|
  {
    if n == 0 then []
    else WorkOf(rows, t, n - 1)
         + (if rows.attempts[n - 1].transactionId == t && Open(rows.attempts[n - 1].status)
            then [Work(rows.transactions[t].tenantId, t, n - 1)] else [])
  }

  predicate Known(rows: Rows, stale: seq<nat>) {
    forall i :: 0 <= i < |stale| ==> stale[i] < |rows.transactions|
  }

  function AllWork(rows: Rows, stale: seq<nat>): seq<Work>
    requires Known(rows, stale)
  {
    if stale == [] then []
    else AllWork(rows, stale[..|stale| - 1]) + WorkOf(rows, stale[|stale| - 1], |rows.attempts|)
  }

  /** The rows, the transactions recovered in order, and the failures. */
  datatype Batch = Batch(rows: Rows, recovered: seq<nat>, failed: nat)

  function RunBatch(rows: Rows, works: seq<Work>, answers: nat -> Answer): Batch {
    if works == [] then Batch(rows, [], 0)
    else
      var b, w := RunBatch(rows, works[..|works| - 1], answers), works[|works| - 1];
      var v := Verify(b.rows, w.tenantId, w.t, w.a, answers(w.a));
      if v.outcome == Ok(true) then Batch(v.rows, b.recovered + [w.t], b.failed)
      else Batch(v.rows, b.recovered, b.failed + 1)
  }

  datatype Summary = Summary(checked: nat, recovered: nat, failed: nat)

  class ReconciliationService {
    var lockedUntil: Option<int>

    constructor ()
      ensures lockedUntil == None
    {
      lockedUntil := None;
    }

    /** reconcileStaleTransactions. The batch was loaded before the loop: later writes do not change its work. */
    method ReconcileStaleTransactions(db: Database, stale: seq<nat>, answers: nat -> Answer, now: int)
        returns (r: Summary)
      requires Known(db.Contents(), stale)
      modifies this, db
      ensures old(lockedUntil).Some? && now < old(lockedUntil).value ==>
                r == Summary(0, 0, 0) && db.Contents() == old(db.Contents()) && lockedUntil == old(lockedUntil)
      ensures !(old(lockedUntil).Some? && now < old(lockedUntil).value) ==>
                && var b := RunBatch(old(db.Contents()), AllWork(old(db.Contents()), stale), answers);
                && db.Contents() == b.rows.(attempts := ExpireStale(b.rows.attempts, now))
                && r == Summary(|stale|, |b.recovered|, b.failed)
                && lockedUntil == None
    {
      hide Verify, WorkOf, ExpireStale;
      if lockedUntil.Some? && now < lockedUntil.value {
        return Summary(0, 0, 0);
      }
      lockedUntil := Some(now + LOCK_MS);
      var rows := db.Contents();
      ghost var done: seq<Work> := [];
      var recovered, failed := 0, 0;
      for i := 0 to |stale|
        invariant done == AllWork(rows, stale[..i])
        invariant db.Contents() == RunBatch(rows, done, answers).rows
        invariant recovered == |RunBatch(rows, done, answers).recovered|
        invariant failed == RunBatch(rows, done, answers).failed
      {
        assert stale[..i + 1][..i] == stale[..i];
        var works := WorkOf(rows, stale[i], |rows.attempts|);
        for j := 0 to |works|
          invariant done == AllWork(rows, stale[..i]) + works[..j]
          invariant db.Contents() == RunBatch(rows, done, answers).rows
          invariant recovered == |RunBatch(rows, done, answers).recovered|
          invariant failed == RunBatch(rows, done, answers).failed
        {
          var w := works[j];
          assert (done + [w])[..|done|] == done;
          done := done + [w];
          var result := VerifyPayment(db, w.tenantId, w.t, w.a, answers(w.a));
          if result == Ok(true) {
            recovered := recovered + 1;
          } else {
            failed := failed + 1;
          }
        }
        assert works[..|works|] == works;
      }
      assert stale[..|stale|] == stale;
      var _ := ExpireStalePendingAttempts(db, now);
      lockedUntil := None;
      r := Summary(|stale|, recovered, failed);
    }
  }

  // ---- The batch's work -------------------------------------------------------------------------

  /** Each attempt is one of its transaction's, open, and verified once. */
  ghost predicate Fits(rows: Rows, w: Work) {
    && w.t < |rows.transactions| && w.tenantId == rows.transactions[w.t].tenantId
    && w.a < |rows.attempts| && rows.attempts[w.a].transactionId == w.t && Open(rows.attempts[w.a].status)
  }

  ghost predicate Proper(rows: Rows, works: seq<Work>) {
    && (forall i :: 0 <= i < |works| ==> Fits(rows, works[i]))
    && (forall i, j :: 0 <= i < j < |works| ==> works[i].a != works[j].a)
  }

  lemma {:induction false} WorkOfProper(rows: Rows, t: nat, n: nat)
    requires n <= |rows.attempts| && t < |rows.transactions|
    ensures Proper(rows, WorkOf(rows, t, n))
    ensures forall w :: w in WorkOf(rows, t, n) ==> w.t == t && w.a < n
  {
    if n > 0 {
      WorkOfProper(rows, t, n - 1);
    }
  }

  ghost predicate Distinct(xs: seq<nat>) {
    forall i, j :: 0 <= i < j < |xs| ==> xs[i] != xs[j]
  }

  lemma {:induction false} AllWorkProper(rows: Rows, stale: seq<nat>)
    requires Known(rows, stale) && Distinct(stale)
    ensures Proper(rows, AllWork(rows, stale))
    ensures forall w :: w in AllWork(rows, stale) ==> w.t in stale
  {
    if stale != [] {
      var n := |stale| - 1;
      AllWorkProper(rows, stale[..n]);
      WorkOfProper(rows, stale[n], |rows.attempts|);
    }
  }

  // ---- What a batch keeps -----------------------------------------------------------------------

  /** A transaction that the batch recovered is SUCCESS and has a SUCCESS attempt. */
  ghost predicate Recovered(rows: Rows, t: nat) {
    t < |rows.transactions| && rows.transactions[t].status.Success? && HasSuccess(rows.attempts, t)
  }

  ghost predicate Sound(rows: Rows, works: seq<Work>, b: Batch) {
    && Evolves(rows.attempts, b.rows.attempts) && |b.rows.attempts| == |rows.attempts|
    && |b.rows.transactions| == |rows.transactions|
    && UniqueSuccess(b.rows.attempts)
    && Distinct(b.recovered)
    && (forall i :: 0 <= i < |b.recovered| ==> Recovered(b.rows, b.recovered[i]))
    && (forall i :: 0 <= i < |b.recovered| ==> exists j :: 0 <= j < |works| && works[j].t == b.recovered[i])
    && (forall t :: 0 <= t < |rows.transactions| && t !in b.recovered
         ==> b.rows.transactions[t] == rows.transactions[t])
    && (forall a :: 0 <= a < |rows.attempts| && b.rows.attempts[a].status.Success? ==>
          rows.attempts[a].status.Success? || exists j :: 0 <= j < |works| && works[j].a == a)
  }

  /** An attempt of the batch is not SUCCESS before its own turn. */
  lemma NotYet(rows: Rows, works: seq<Work>, b: Batch)
    requires works != [] && Proper(rows, works) && Sound(rows, works[..|works| - 1], b)
    ensures var w := works[|works| - 1];
            && w.a < |b.rows.attempts| && !b.rows.attempts[w.a].status.Success?
            && b.rows.attempts[w.a].transactionId == w.t < |b.rows.transactions|
  {
    assert Fits(rows, works[|works| - 1]);
  }

  lemma SuccessKept(before: seq<Attempt>, after: seq<Attempt>, t: nat)
    requires Evolves(before, after) && HasSuccess(before, t)
    requires forall i :: 0 <= i < |before| && before[i].status.Success? ==> after[i].status.Success?
    ensures HasSuccess(after, t)
  {
    var a :| 0 <= a < |before| && Succeeded(before, a, t);
    assert Succeeded(after, a, t);
  }

  lemma SettlingStaysSound(rows: Rows, works: seq<Work>, b: Batch, answer: Answer)
    requires works != [] && Proper(rows, works) && Sound(rows, works[..|works| - 1], b)
    requires var w := works[|works| - 1]; Settles(b.rows, w.tenantId, w.t, w.a, answer)
    ensures var w := works[|works| - 1];
            Sound(rows, works, Batch(Verify(b.rows, w.tenantId, w.t, w.a, answer).rows, b.recovered + [w.t], b.failed))
  {
    var w := works[|works| - 1];
    NotYet(rows, works, b);
    SettlingEffect(b.rows, w.tenantId, w.t, w.a, answer);
    hide Verify, Settles, UniqueSuccess, HasSuccess;
    var after := Verify(b.rows, w.tenantId, w.t, w.a, answer).rows;
    assert Succeeded(after.attempts, w.a, w.t);
    NowSucceeded(after.attempts, w.a, w.t);
    assert w.t !in b.recovered;
    var recovered := b.recovered + [w.t];
    forall i | 0 <= i < |recovered|
      ensures Recovered(after, recovered[i])
      ensures exists j :: 0 <= j < |works| && works[j].t == recovered[i]
    {
      if i < |b.recovered| {
        assert Recovered(b.rows, b.recovered[i]);
        SuccessKept(b.rows.attempts, after.attempts, recovered[i]);
        var j :| 0 <= j < |works| - 1 && works[..|works| - 1][j].t == recovered[i];
        assert works[j].t == recovered[i];
      }
    }
    SuccessesHaveWork(rows, works, b, after.attempts);
  }

  lemma NowSucceeded(attempts: seq<Attempt>, a: nat, t: nat)
    requires Succeeded(attempts, a, t)
    ensures HasSuccess(attempts, t)
  {
  }

  /** New successes are attempts of the batch. */
  lemma SuccessesHaveWork(rows: Rows, works: seq<Work>, b: Batch, after: seq<Attempt>)
    requires works != [] && Sound(rows, works[..|works| - 1], b) && |after| == |rows.attempts|
    requires forall i :: 0 <= i < |after| && i != works[|works| - 1].a && after[i].status.Success?
              ==> b.rows.attempts[i].status.Success?
    ensures forall a :: 0 <= a < |after| && after[a].status.Success? ==>
              rows.attempts[a].status.Success? || exists j :: 0 <= j < |works| && works[j].a == a
  {
    var n := |works| - 1;
    forall a | 0 <= a < |after| && after[a].status.Success? && !rows.attempts[a].status.Success?
      ensures exists j :: 0 <= j < |works| && works[j].a == a
    {
      if a == works[n].a {
      } else {
        var j :| 0 <= j < n && works[..n][j].a == a;
        assert works[j].a == a;
      }
    }
  }

  lemma FailingStaysSound(rows: Rows, works: seq<Work>, b: Batch, answer: Answer)
    requires works != [] && Proper(rows, works) && Sound(rows, works[..|works| - 1], b)
    requires var w := works[|works| - 1]; !Settles(b.rows, w.tenantId, w.t, w.a, answer)
    ensures var w := works[|works| - 1];
            Sound(rows, works, Batch(Verify(b.rows, w.tenantId, w.t, w.a, answer).rows, b.recovered, b.failed + 1))
  {
    var w := works[|works| - 1];
    OtherEffect(b.rows, w.tenantId, w.t, w.a, answer);
    var after := Verify(b.rows, w.tenantId, w.t, w.a, answer).rows;
    SameSuccessesKeepUnique(b.rows.attempts, after.attempts);
    hide Verify, Settles, UniqueSuccess, HasSuccess;
    forall i | 0 <= i < |b.recovered|
      ensures Recovered(after, b.recovered[i])
      ensures exists j :: 0 <= j < |works| && works[j].t == b.recovered[i]
    {
      assert Recovered(b.rows, b.recovered[i]);
      SuccessKept(b.rows.attempts, after.attempts, b.recovered[i]);
      var j :| 0 <= j < |works| - 1 && works[..|works| - 1][j].t == b.recovered[i];
      assert works[j].t == b.recovered[i];
    }
    SuccessesHaveWork(rows, works, b, after.attempts);
  }

  lemma {:induction false} BatchStaysSound(rows: Rows, works: seq<Work>, answers: nat -> Answer)
    requires UniqueSuccess(rows.attempts) && Proper(rows, works)
    ensures Sound(rows, works, RunBatch(rows, works, answers))
    ensures |RunBatch(rows, works, answers).recovered| + RunBatch(rows, works, answers).failed == |works|
  {
    hide Verify, Sound, UniqueSuccess, Fits;
    if works == [] {
      NothingDone(rows);
    } else {
      var n := |works| - 1;
      BatchStaysSound(rows, works[..n], answers);
      var b, w := RunBatch(rows, works[..n], answers), works[n];
      NotYet(rows, works, b);
      if Settles(b.rows, w.tenantId, w.t, w.a, answers(w.a)) {
        SettlingStaysSound(rows, works, b, answers(w.a));
      } else {
        FailingStaysSound(rows, works, b, answers(w.a));
      }
    }
  }

  lemma NothingDone(rows: Rows)
    requires UniqueSuccess(rows.attempts)
    ensures Sound(rows, [], Batch(rows, [], 0))
  {
  }

  function Elements(xs: seq<nat>): set<nat> {
    set x | x in xs
  }

  lemma LastElement(xs: seq<nat>)
    requires xs != []
    ensures Elements(xs) == Elements(xs[..|xs| - 1]) + {xs[|xs| - 1]}
  {
    var n := |xs| - 1;
    forall x
      ensures x in xs <==> x in xs[..n] || x == xs[n]
    {
      if x in xs {
        var i :| 0 <= i < |xs| && xs[i] == x;
        assert i < n ==> xs[..n][i] == x;
      }
    }
  }

  lemma {:induction false} ElementsAtMost(xs: seq<nat>)
    ensures |Elements(xs)| <= |xs|
    ensures Distinct(xs) ==> |Elements(xs)| == |xs|
  {
    if xs == [] {
      assert Elements(xs) == {};
    } else {
      var n := |xs| - 1;
      ElementsAtMost(xs[..n]);
      LastElement(xs);
      if Distinct(xs) {
        assert xs[n] !in Elements(xs[..n]);
      }
    }
  }

  lemma DistinctAtMost(xs: seq<nat>, s: seq<nat>)
    requires Distinct(xs) && forall i :: 0 <= i < |xs| ==> xs[i] in s
    ensures |xs| <= |s|
  {
    ElementsAtMost(xs);
    ElementsAtMost(s);
    assert Elements(xs) <= Elements(s);
    SubsetAtMost(Elements(xs), Elements(s));
  }

  lemma SubsetAtMost(a: set<nat>, b: set<nat>)
    requires a <= b
    ensures |a| <= |b|
  {
    assert b == a + (b - a);
  }

  /**
   Reconciliation accounts for its batch: each loaded attempt counts once, as recovered or as failed;
   each checked transaction is recovered at most once, so recovered <= checked; and a recovered
   transaction ends SUCCESS with exactly one SUCCESS attempt.
   */
  lemma ReconciliationAccounts(rows: Rows, stale: seq<nat>, answers: nat -> Answer, now: int)
    requires UniqueSuccess(rows.attempts) && Known(rows, stale) && Distinct(stale)
    ensures var works := AllWork(rows, stale);
            var b := RunBatch(rows, works, answers);
            var end := b.rows.(attempts := ExpireStale(b.rows.attempts, now));
            && |b.recovered| + b.failed == |works|
            && Distinct(b.recovered) && |b.recovered| <= |stale|
            && (forall i :: 0 <= i < |b.recovered| ==> b.recovered[i] in stale && Recovered(end, b.recovered[i]))
            && |end.transactions| == |rows.transactions|
            && (forall t :: 0 <= t < |rows.transactions| && t !in b.recovered
                 ==> end.transactions[t] == rows.transactions[t])
            && UniqueSuccess(end.attempts)
  {
    var works := AllWork(rows, stale);
    AllWorkProper(rows, stale);
    BatchStaysSound(rows, works, answers);
    hide RunBatch, AllWork, UniqueSuccess, Proper;
    var b := RunBatch(rows, works, answers);
    var expired := ExpireStale(b.rows.attempts, now);
    ExpiryKeepsSuccesses(b.rows.attempts, now);
    SameSuccessesKeepUnique(b.rows.attempts, expired);
    forall i | 0 <= i < |b.recovered|
      ensures b.recovered[i] in stale && Recovered(b.rows.(attempts := expired), b.recovered[i])
    {
      var j :| 0 <= j < |works| && works[j].t == b.recovered[i];
      assert works[j] in works;
      assert Recovered(b.rows, b.recovered[i]);
      SuccessKept(b.rows.attempts, expired, b.recovered[i]);
    }
    DistinctAtMost(b.recovered, stale);
  }

  lemma ExpiryKeepsSuccesses(attempts: seq<Attempt>, now: int)
    ensures SameSuccesses(attempts, ExpireStale(attempts, now))
  {
  }

  /** A batch settles exactly once what it recovers, and nothing else. */
  lemma {:induction false} BatchKeepsSettled(rows: Rows, works: seq<Work>, answers: nat -> Answer)
    requires UniqueSuccess(rows.attempts) && Settled(rows) && Proper(rows, works)
    ensures Settled(RunBatch(rows, works, answers).rows)
  {
    hide Settled, UniqueSuccess, Verify, Fits, Evolves;
    if works != [] {
      var n := |works| - 1;
      assert Proper(rows, works[..n]);
      BatchKeepsSettled(rows, works[..n], answers);
      BatchStaysSound(rows, works[..n], answers);
      var b, w := RunBatch(rows, works[..n], answers), works[n];
      NotYet(rows, works, b);
      VerifyKeepsSettled(b.rows, w.tenantId, w.t, w.a, answers(w.a));
    }
  }

  // ---- Which attempts a batch verifies ----------------------------------------------------------

  /** The open attempts of one loaded transaction, in the order of the rows. */
  lemma {:induction false} WorkOfExactly(rows: Rows, t: nat, n: nat)
    requires n <= |rows.attempts| && t < |rows.transactions|
    ensures forall w :: w in WorkOf(rows, t, n) <==>
              && w.t == t && w.tenantId == rows.transactions[t].tenantId && w.a < n
              && rows.attempts[w.a].transactionId == t
              && (rows.attempts[w.a].status.Pending? || rows.attempts[w.a].status.Processing?)
    ensures forall i, j :: 0 <= i < j < |WorkOf(rows, t, n)| ==> WorkOf(rows, t, n)[i].a < WorkOf(rows, t, n)[j].a
  {
    if n > 0 {
      WorkOfExactly(rows, t, n - 1);
      var before := WorkOf(rows, t, n - 1);
      assert forall i :: 0 <= i < |before| ==> before[i] in before;
    }
  }

  /**
   A batch verifies exactly the attempts of the loaded transactions that were PENDING or PROCESSING when it
   loaded them, each once, under the attempt's own transaction and that transaction's tenant.
   */
  lemma {:induction false} BatchWorkExactly(rows: Rows, stale: seq<nat>)
    requires Known(rows, stale) && Distinct(stale)
    ensures forall w :: w in AllWork(rows, stale) <==>
              && w.t in stale && w.tenantId == rows.transactions[w.t].tenantId && w.a < |rows.attempts|
              && rows.attempts[w.a].transactionId == w.t
              && (rows.attempts[w.a].status.Pending? || rows.attempts[w.a].status.Processing?)
    ensures var works := AllWork(rows, stale);
            forall i, j :: 0 <= i < j < |works| ==> works[i].a != works[j].a
  {
    if stale != [] {
      var n := |stale| - 1;
      BatchWorkExactly(rows, stale[..n]);
      WorkOfExactly(rows, stale[n], |rows.attempts|);
      assert forall t :: t in stale <==> t in stale[..n] || t == stale[n];
    }
    AllWorkProper(rows, stale);
    hide WorkOf;
  }
}
