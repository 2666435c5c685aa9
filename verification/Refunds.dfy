/**
 Refunds (src/modules/payment/refund/refund.service.ts): createRefund as one call that runs alone.
 RefundRuns has the same call split at its awaits.
 */
module Refunds {
  import opened Common
  import opened Ledger
  import opened PaymentRows
  import opened Settlement

  /** What the provider answers: 'SUCCESS', any other status, or an exception. */
  datatype RefundAnswer = Accepted | Deferred | RefundThrows

  /** The answer, whether the atomic block commits, and whether the read after it returns. */
  datatype Fate = Fate(answer: RefundAnswer, commits: bool, rereads: bool)

  datatype Request = Request(tenantId: string, transactionId: nat, amount: int, key: string)

  predicate IsRefundOf(r: RefundRow, q: Request) {
    r.tenantId == q.tenantId && r.transactionId == q.transactionId && r.key == q.key
  }

  /** The first refund of the request's tenant, transaction and key, whatever its status. */
  function FindRefund(refunds: seq<RefundRow>, q: Request): (i: nat)
    ensures i <= |refunds|
    ensures i < |refunds| ==> IsRefundOf(refunds[i], q)
    ensures forall j :: 0 <= j < i ==> !IsRefundOf(refunds[j], q)
  {
    if refunds == [] then 0
    else if IsRefundOf(refunds[0], q) then 0
    else
      assert forall j :: 0 < j < |refunds| ==> refunds[j] == refunds[1..][j - 1];
      1 + FindRefund(refunds[1..], q)
  }

  /** The sum of a transaction's SUCCESS refunds. */
  function RefundedSum(refunds: seq<RefundRow>, t: nat): int {
    if refunds == [] then 0
    else
      var r := refunds[|refunds| - 1];
      RefundedSum(refunds[..|refunds| - 1], t) + (if r.transactionId == t && r.status.Success? then r.amount else 0)
  }

  /** findById: an empty tenant id does not filter. */
  predicate FindsTransaction(rows: Rows, q: Request) {
    && q.transactionId < |rows.transactions|
    && (q.tenantId == "" || rows.transactions[q.transactionId].tenantId == q.tenantId)
  }

  predicate CanRefund(rows: Rows, q: Request) {
    && FindsTransaction(rows, q)
    && var status := rows.transactions[q.transactionId].status;
       status.Success? || status.PartiallyRefunded?
  }

  function Available(rows: Rows, t: nat): int
    requires t < |rows.transactions|
  {
    rows.transactions[t].amount - RefundedSum(rows.refunds, t)
  }

  /** The successful attempt has a provider order to refund. */
  predicate HasTarget(attempts: seq<Attempt>, t: nat) {
    var a := FindSuccess(attempts, t);
    a < |attempts| && attempts[a].providerOrderId != ""
  }

  function FindSuccess(attempts: seq<Attempt>, t: nat): (a: nat)
    ensures a <= |attempts|
    ensures a < |attempts| ==> Succeeded(attempts, a, t)
    ensures forall j: nat :: j < a ==> !Succeeded(attempts, j, t)
  {
    if attempts == [] then 0
    else if Succeeded(attempts, 0, t) then 0
    else
      assert forall j: nat :: 0 < j < |attempts| ==> attempts[j] == attempts[1..][j - 1];
      var a := 1 + FindSuccess(attempts[1..], t);
      assert forall j: nat :: 0 < j < a ==> Succeeded(attempts, j, t) == Succeeded(attempts[1..], j - 1, t);
      a
  }

  function NewRefund(rows: Rows, q: Request): RefundRow
    requires q.transactionId < |rows.transactions|
  {
    RefundRow(q.tenantId, q.transactionId, q.key, q.amount,
      rows.transactions[q.transactionId].currency, RefundStatus.Processing)
  }

  function WithRefundStatus(rows: Rows, r: nat, status: RefundStatus): Rows
    requires r < |rows.refunds|
  {
    rows.(refunds := rows.refunds[r := rows.refunds[r].(status := status)])
  }

  /** The block after the provider's answer; `available` is what the call computed before it. */
  function RefundCommit(rows: Rows, q: Request, r: nat, available: int, accepted: bool, now: int): Rows
    requires r < |rows.refunds| && q.transactionId < |rows.transactions|
  {
    var t := q.transactionId;
    var status := if q.amount >= available then TransactionStatus.Refunded else TransactionStatus.PartiallyRefunded;
    WithRefundStatus(rows, r, if accepted then RefundStatus.Success else RefundStatus.Processing).(
      transactions := WithTransactionStatus(rows.transactions, t, status),
      ledger := rows.ledger + RefundEntries(q.tenantId, t, q.amount, rows.transactions[t].currency, now))
  }

  datatype Outcome = Existing(refund: nat) | Rejected(error: Error) | Fails(refund: nat) | Completes(refund: nat)

  datatype Created = Created(rows: Rows, outcome: Outcome)

  predicate ReachesProvider(o: Outcome) {
    o.Fails? || o.Completes?
  }

  /** createRefund with no other write in between. */
  function CreateRefund(rows: Rows, q: Request, fate: Fate, now: int): (c: Created)
  {
    var existing := FindRefund(rows.refunds, q);
    if existing < |rows.refunds| then Created(rows, Existing(existing))
    else if !FindsTransaction(rows, q) then Created(rows, Rejected(NotFound))
    else if !CanRefund(rows, q) then Created(rows, Rejected(NotEligible))
    else if q.amount > Available(rows, q.transactionId) then Created(rows, Rejected(ExceedsAmount))
    else if !HasTarget(rows.attempts, q.transactionId) then Created(rows, Rejected(NotEligible))
    else
      var r := |rows.refunds|;
      var asked := rows.(refunds := rows.refunds + [NewRefund(rows, q)]);
      if fate.answer.RefundThrows? || !fate.commits
        then Created(WithRefundStatus(asked, r, RefundStatus.Failed), Fails(r))
      else
        var done := RefundCommit(asked, q, r, Available(rows, q.transactionId), fate.answer.Accepted?, now);
        if fate.rereads then Created(done, Completes(r))
        else Created(WithRefundStatus(done, r, RefundStatus.Failed), Fails(r))
  }

  /** createRefund, updating the tables in place. */
  method CreateRefundInPlace(db: Database, q: Request, fate: Fate, now: int) returns (o: Outcome)
    modifies db
    ensures db.Contents() == CreateRefund(old(db.Contents()), q, fate, now).rows
    ensures o == CreateRefund(old(db.Contents()), q, fate, now).outcome
  {
    var existing := FindRefund(db.refunds, q);
    if existing < |db.refunds| {
      return Existing(existing);
    }
    if !FindsTransaction(db.Contents(), q) {
      return Rejected(NotFound);
    }
    if !CanRefund(db.Contents(), q) {
      return Rejected(NotEligible);
    }
    var transaction := db.transactions[q.transactionId];
    var alreadyRefunded := 0;
    for i := 0 to |db.refunds|
      invariant alreadyRefunded == RefundedSum(db.refunds[..i], q.transactionId)
    {
      assert db.refunds[..i + 1][..i] == db.refunds[..i];
      if db.refunds[i].transactionId == q.transactionId && db.refunds[i].status.Success? {
        alreadyRefunded := alreadyRefunded + db.refunds[i].amount;
      }
    }
    assert db.refunds[..|db.refunds|] == db.refunds;
    var available := transaction.amount - alreadyRefunded;
    if q.amount > available {
      return Rejected(ExceedsAmount);
    }
    if !HasTarget(db.attempts, q.transactionId) {
      return Rejected(NotEligible);
    }
    var r := |db.refunds|;
    db.refunds := db.refunds
      + [RefundRow(q.tenantId, q.transactionId, q.key, q.amount, transaction.currency, RefundStatus.Processing)];
    if !fate.answer.RefundThrows? && fate.commits {
      db.refunds :=
        db.refunds[r := db.refunds[r].(status := if fate.answer.Accepted?
          then RefundStatus.Success else RefundStatus.Processing)];
      var isFullRefund := q.amount >= transaction.amount - alreadyRefunded;
      var status := if isFullRefund then TransactionStatus.Refunded else TransactionStatus.PartiallyRefunded;
      db.transactions := db.transactions[q.transactionId := transaction.(status := status)];
      db.ledger := db.ledger + RefundEntries(q.tenantId, q.transactionId, q.amount, transaction.currency, now);
      if fate.rereads {
        return Completes(r);
      }
    }
    db.refunds := db.refunds[r := db.refunds[r].(status := RefundStatus.Failed)];
    return Fails(r);
  }

  // ---- The status ladder ------------------------------------------------------------------------

  /** REVENUE debited by the REFUND entries of a transaction. */
  function RevenueReversed(es: seq<Entry>, t: nat): int {
    if es == [] then 0
    else
      var e := es[|es| - 1];
      RevenueReversed(es[..|es| - 1], t)
      + (if e.kind.Refund? && e.debit.Revenue? && e.transactionId == t then e.amount else 0)
  }

  /** Status, refunded sum and ledger agree on transaction `t`. */
  predicate LadderOn(rows: Rows, t: nat)
    requires t < |rows.transactions|
  {
    var sum, transaction := RefundedSum(rows.refunds, t), rows.transactions[t];
    && 0 <= sum <= transaction.amount
    && (transaction.status.Refunded? <==> 0 < sum == transaction.amount)
    && (transaction.status.PartiallyRefunded? <==> 0 < sum < transaction.amount)
    && RevenueReversed(rows.ledger, t) == sum
  }

  ghost predicate Ladder(rows: Rows) {
    forall t: nat :: t < |rows.transactions| ==> LadderOn(rows, t)
  }

  lemma RefundedOneMore(refunds: seq<RefundRow>, r: RefundRow, t: nat)
    ensures RefundedSum(refunds + [r], t)
        == RefundedSum(refunds, t) + (if r.transactionId == t && r.status.Success? then r.amount else 0)
  {
    assert (refunds + [r])[..|refunds|] == refunds;
  }

  lemma ReversedByRefund(es: seq<Entry>, tenantId: string, x: nat, amount: int, currency: string, now: int, t: nat)
    ensures RevenueReversed(es + RefundEntries(tenantId, x, amount, currency, now), t)
         == RevenueReversed(es, t) + (if t == x then amount else 0)
  {
    var fs := RefundEntries(tenantId, x, amount, currency, now);
    assert (es + fs)[..|es| + 1] == es + [fs[0]];
    assert (es + [fs[0]])[..|es|] == es;
  }

  /** The call ran its atomic block to the commit. */
  predicate Commits(rows: Rows, q: Request, fate: Fate) {
    var o := CreateRefund(rows, q, fate, 0).outcome;
    ReachesProvider(o) && !fate.answer.RefundThrows? && fate.commits
  }

  function LadderStatus(rows: Rows, q: Request): TransactionStatus
    requires q.transactionId < |rows.transactions|
  {
    if q.amount >= Available(rows, q.transactionId) then TransactionStatus.Refunded
      else TransactionStatus.PartiallyRefunded
  }

  /** What a call adds: nothing, or one refund row, with the two entries of its reversal if it commits. */
  lemma CreateRefundAdds(rows: Rows, q: Request, fate: Fate, now: int)
    ensures var c := CreateRefund(rows, q, fate, now);
            if !ReachesProvider(c.outcome) then c.rows == rows && !Commits(rows, q, fate)
            else
              && |c.rows.refunds| == |rows.refunds| + 1
              && c.rows.refunds == rows.refunds + [c.rows.refunds[|rows.refunds|]]
              && c.rows.refunds[|rows.refunds|].transactionId == q.transactionId < |rows.transactions|
              && c.rows.refunds[|rows.refunds|].amount == q.amount
              && (c.rows.refunds[|rows.refunds|].status.Success?
                  <==> Commits(rows, q, fate) && fate.answer.Accepted? && fate.rereads)
              && c.rows.ledger == if !Commits(rows, q, fate) then rows.ledger
                                  else rows.ledger + RefundEntries(q.tenantId, q.transactionId, q.amount,
                                                                   rows.transactions[q.transactionId].currency, now)
  {
    hide FindRefund, FindSuccess, RefundedSum, RefundEntries, CanRefund, HasTarget;
  }

  lemma CreateRefundSums(rows: Rows, q: Request, fate: Fate, now: int, t: nat)
    ensures var c := CreateRefund(rows, q, fate, now);
            var counted := Commits(rows, q, fate) && t == q.transactionId;
            && RefundedSum(c.rows.refunds, t)
               == RefundedSum(rows.refunds, t)
                  + (if counted && fate.answer.Accepted? && fate.rereads then q.amount else 0)
            && RevenueReversed(c.rows.ledger, t)
               == RevenueReversed(rows.ledger, t) + (if counted then q.amount else 0)
  {
    CreateRefundAdds(rows, q, fate, now);
    hide CreateRefund, Commits, RefundedSum, RevenueReversed, RefundEntries;
    var c := CreateRefund(rows, q, fate, now);
    if ReachesProvider(c.outcome) {
      RefundedOneMore(rows.refunds, c.rows.refunds[|rows.refunds|], t);
      if Commits(rows, q, fate) {
        ReversedByRefund(rows.ledger, q.tenantId, q.transactionId,
          q.amount, rows.transactions[q.transactionId].currency, now, t);
      }
    }
  }

  lemma CreateRefundStatus(rows: Rows, q: Request, fate: Fate, now: int)
    ensures var after := CreateRefund(rows, q, fate, now).rows.transactions;
            after == if Commits(rows, q, fate)
                     then WithTransactionStatus(rows.transactions, q.transactionId, LadderStatus(rows, q))
                     else rows.transactions
  {
  }

  /**
   One call keeps status, refunded sum and ledger in agreement exactly when it does not commit, or
   the provider accepted it and the read after the commit returned. A deferred refund is booked and
   moves the status without counting as refunded.
   */
  lemma RefundKeepsLadderExactlyWhen(rows: Rows, q: Request, fate: Fate, now: int)
    requires Ladder(rows) && q.amount > 0
    ensures Ladder(CreateRefund(rows, q, fate, now).rows)
       <==> (Commits(rows, q, fate) ==> fate.answer.Accepted? && fate.rereads)
  {
    var after := CreateRefund(rows, q, fate, now).rows;
    var good := Commits(rows, q, fate) ==> fate.answer.Accepted? && fate.rereads;
    assert Commits(rows, q, fate) ==> CanRefund(rows, q) && q.amount <= Available(rows, q.transactionId);
    CreateRefundStatus(rows, q, fate, now);
    hide CreateRefund, Commits;
    forall t: nat | t < |rows.transactions|
      ensures |after.transactions| == |rows.transactions|
      ensures good ==> LadderOn(after, t)
      ensures !good && t == q.transactionId ==> !LadderOn(after, t)
    {
      assert LadderOn(rows, t);
      CreateRefundSums(rows, q, fate, now, t);
    }
    if !good {
      assert q.transactionId < |after.transactions| && !LadderOn(after, q.transactionId);
    }
  }

  // ---- How a call ends, and the row it leaves ---------------------------------------------------

  /** A refund of the request's tenant, transaction and key exists. */
  ghost predicate KeyUsed(refunds: seq<RefundRow>, q: Request) {
    exists i :: 0 <= i < |refunds| && refunds[i].tenantId == q.tenantId
                && refunds[i].transactionId == q.transactionId && refunds[i].key == q.key
  }

  lemma KnownExactlyWhen(refunds: seq<RefundRow>, q: Request)
    ensures FindRefund(refunds, q) < |refunds| <==> KeyUsed(refunds, q)
  {
    if KeyUsed(refunds, q) {
      var i :| 0 <= i < |refunds| && refunds[i].tenantId == q.tenantId
               && refunds[i].transactionId == q.transactionId && refunds[i].key == q.key;
      assert IsRefundOf(refunds[i], q);
    }
  }

  /** The transaction is there for the tenant, and SUCCESS or PARTIALLY_REFUNDED. */
  predicate StatusAllows(rows: Rows, q: Request) {
    && q.transactionId < |rows.transactions|
    && (q.tenantId == "" || q.tenantId == rows.transactions[q.transactionId].tenantId)
    && (rows.transactions[q.transactionId].status.Success?
        || rows.transactions[q.transactionId].status.PartiallyRefunded?)
  }

  /** Every way a call ends: by its key, by what it finds, or by the provider, the commit and the re-read. */
  lemma CreateRefundEndsExactly(rows: Rows, q: Request, fate: Fate, now: int)
    ensures var o, t := CreateRefund(rows, q, fate, now).outcome, q.transactionId;
            var unused := !KeyUsed(rows.refunds, q);
            var found := t < |rows.transactions| && (q.tenantId == "" || q.tenantId == rows.transactions[t].tenantId);
            var eligible := unused && StatusAllows(rows, q);
            var fits := eligible && q.amount + RefundedSum(rows.refunds, t) <= rows.transactions[t].amount;
            && (o.Existing? <==> !unused)
            && (o.Existing? ==> o.refund < |rows.refunds| && rows.refunds[o.refund].tenantId == q.tenantId
                                && rows.refunds[o.refund].transactionId == t && rows.refunds[o.refund].key == q.key)
            && (o == Rejected(NotFound) <==> unused && !found)
            && (o == Rejected(NotEligible)
                <==> unused && found && (!eligible || (fits && !HasTarget(rows.attempts, t))))
            && (o == Rejected(ExceedsAmount) <==> eligible && !fits)
            && (o == Completes(|rows.refunds|) <==> fits && HasTarget(rows.attempts, t)
                                                    && !fate.answer.RefundThrows? && fate.commits && fate.rereads)
            && (o == Fails(|rows.refunds|) <==> fits && HasTarget(rows.attempts, t)
                                                && (fate.answer.RefundThrows? || !fate.commits || !fate.rereads))
  {
    KnownExactlyWhen(rows.refunds, q);
    hide FindRefund, RefundedSum, HasTarget, KeyUsed, RefundCommit;
  }

  /** A successful attempt of the transaction, with a provider order to refund. */
  ghost predicate HasPaidOrder(attempts: seq<Attempt>, t: nat) {
    exists a: nat :: a < |attempts| && attempts[a].transactionId == t && attempts[a].status.Success?
                     && attempts[a].providerOrderId != ""
  }

  lemma TargetExactlyWhen(attempts: seq<Attempt>, t: nat)
    requires UniqueSuccess(attempts)
    ensures HasTarget(attempts, t) <==> HasPaidOrder(attempts, t)
  {
    if HasPaidOrder(attempts, t) {
      var a: nat :| a < |attempts| && attempts[a].transactionId == t && attempts[a].status.Success?
                    && attempts[a].providerOrderId != "";
      assert Succeeded(attempts, a, t);
      var b := FindSuccess(attempts, t);
      assert b <= a && Succeeded(attempts, b, t);
    }
  }

  /** The status that a refund row ends in, by what happened to its call. */
  predicate EndsAs(status: RefundStatus, fate: Fate) {
    && (status.Failed? <==> fate.answer.RefundThrows? || !fate.commits || !fate.rereads)
    && (status.Success? <==> fate.answer.Accepted? && fate.commits && fate.rereads)
    && (status.Processing? <==> fate.answer.Deferred? && fate.commits && fate.rereads)
  }

  /**
   The row of a call that reached the provider: the request's tenant, transaction, key and amount in the
   transaction's currency; FAILED exactly if the call threw after the insert, SUCCESS or PROCESSING by
   the answer otherwise. Every other row, and every attempt, is as it was.
   */
  lemma RefundRowExactly(rows: Rows, q: Request, fate: Fate, now: int)
    ensures var c := CreateRefund(rows, q, fate, now);
            && c.rows.attempts == rows.attempts && c.rows.subscriptions == rows.subscriptions
            && (!ReachesProvider(c.outcome) ==> c.rows == rows)
            && (ReachesProvider(c.outcome) ==>
                  && q.transactionId < |rows.transactions|
                  && |c.rows.refunds| == |rows.refunds| + 1 && c.rows.refunds[..|rows.refunds|] == rows.refunds
                  && var row := c.rows.refunds[|rows.refunds|];
                     && row.tenantId == q.tenantId && row.transactionId == q.transactionId && row.key == q.key
                     && row.amount == q.amount && row.currency == rows.transactions[q.transactionId].currency
                     && EndsAs(row.status, fate))
  {
    hide FindRefund, FindSuccess, RefundedSum, RefundEntries, CanRefund, HasTarget;
  }

  // ---- Serial runs ------------------------------------------------------------------------------

  datatype Call = Call(q: Request, fate: Fate, now: int)

  function RunRefunds(rows: Rows, calls: seq<Call>): Rows {
    if calls == [] then rows
    else
      var c := calls[|calls| - 1];
      CreateRefund(RunRefunds(rows, calls[..|calls| - 1]), c.q, c.fate, c.now).rows
  }

  /** The requests that reached the provider, in order. */
  function AskedProvider(rows: Rows, calls: seq<Call>): seq<Request> {
    if calls == [] then []
    else
      var c := calls[|calls| - 1];
      var before := calls[..|calls| - 1];
      AskedProvider(rows, before)
      + (if ReachesProvider(CreateRefund(RunRefunds(rows, before), c.q, c.fate, c.now).outcome) then [c.q] else [])
  }

  /** The calls that reached the provider, in order. */
  function AskedCalls(rows: Rows, calls: seq<Call>): seq<Call> {
    if calls == [] then []
    else
      var c := calls[|calls| - 1];
      var before := calls[..|calls| - 1];
      AskedCalls(rows, before)
      + (if ReachesProvider(CreateRefund(RunRefunds(rows, before), c.q, c.fate, c.now).outcome) then [c] else [])
  }

  /** The row of a call, from the request and what happened to it. */
  predicate RowOfCall(row: RefundRow, c: Call) {
    && row.tenantId == c.q.tenantId && row.transactionId == c.q.transactionId && row.key == c.q.key
    && row.amount == c.q.amount && EndsAs(row.status, c.fate)
  }

  /**
   Over every serial run the refunds table grows by one row for each call that reached the provider, in
   order, and each keeps the status its own call ended it in: no later call rewrites it.
   */
  lemma {:induction false} SerialRowsExactly(rows: Rows, calls: seq<Call>)
    ensures var after, asked := RunRefunds(rows, calls).refunds, AskedCalls(rows, calls);
            && |after| == |rows.refunds| + |asked| && after[..|rows.refunds|] == rows.refunds
            && forall k :: 0 <= k < |asked| ==> RowOfCall(after[|rows.refunds| + k], asked[k])
  {
    if calls != [] {
      var n, c := |calls| - 1, calls[|calls| - 1];
      SerialRowsExactly(rows, calls[..n]);
      var b := RunRefunds(rows, calls[..n]);
      RefundRowExactly(b, c.q, c.fate, c.now);
      hide CreateRefund, EndsAs;
      var after := RunRefunds(rows, calls).refunds;
      if ReachesProvider(CreateRefund(b, c.q, c.fate, c.now).outcome) {
        assert forall i :: 0 <= i < |b.refunds| ==> after[i] == after[..|b.refunds|][i];
      }
    }
  }

  /** The provider answers SUCCESS or throws, and the database does not fail. */
  predicate Decided(c: Call) {
    c.q.amount > 0 && !c.fate.answer.Deferred? && c.fate.commits && c.fate.rereads
  }

  /** After any serial run with decided answers, status, refunded sum and ledger agree everywhere. */
  lemma {:induction false} SerialRefundsKeepLadder(rows: Rows, calls: seq<Call>)
    requires Ladder(rows)
    requires forall i :: 0 <= i < |calls| ==> Decided(calls[i])
    ensures Ladder(RunRefunds(rows, calls))
  {
    if calls != [] {
      var n := |calls| - 1;
      SerialRefundsKeepLadder(rows, calls[..n]);
      RefundKeepsLadderExactlyWhen(RunRefunds(rows, calls[..n]), calls[n].q, calls[n].fate, calls[n].now);
    }
  }

  predicate SameKey(p: Request, q: Request) {
    p.tenantId == q.tenantId && p.transactionId == q.transactionId && p.key == q.key
  }

  predicate Known(refunds: seq<RefundRow>, q: Request) {
    FindRefund(refunds, q) < |refunds|
  }

  lemma KnownStays(rows: Rows, q: Request, fate: Fate, now: int, p: Request)
    ensures var c := CreateRefund(rows, q, fate, now);
            && (Known(rows.refunds, p) ==> Known(c.rows.refunds, p))
            && (ReachesProvider(c.outcome) && SameKey(p, q) ==> Known(c.rows.refunds, p) && !Known(rows.refunds, p))
  {
    var c := CreateRefund(rows, q, fate, now);
    var i := FindRefund(rows.refunds, p);
    assert forall j :: 0 <= j < |rows.refunds| ==> c.rows.refunds[j] == rows.refunds[j];
    if i < |rows.refunds| {
      assert IsRefundOf(c.rows.refunds[i], p);
    }
    if ReachesProvider(c.outcome) && SameKey(p, q) {
      assert IsRefundOf(c.rows.refunds[|rows.refunds|], p);
      assert forall j :: 0 <= j < |rows.refunds| ==> !IsRefundOf(rows.refunds[j], p);
    }
  }

  /** In a serial run no key of a transaction reaches the provider twice, whatever the answers. */
  lemma {:induction false} KeyReachesProviderOnce(rows: Rows, calls: seq<Call>)
    ensures forall i, j :: 0 <= i < j < |AskedProvider(rows, calls)|
              ==> !SameKey(AskedProvider(rows, calls)[i], AskedProvider(rows, calls)[j])
    ensures forall i :: 0 <= i < |AskedProvider(rows, calls)|
              ==> Known(RunRefunds(rows, calls).refunds, AskedProvider(rows, calls)[i])
  {
    if calls != [] {
      var n, c := |calls| - 1, calls[|calls| - 1];
      KeyReachesProviderOnce(rows, calls[..n]);
      var before, asked := RunRefunds(rows, calls[..n]), AskedProvider(rows, calls[..n]);
      hide CreateRefund, FindRefund, IsRefundOf;
      forall i | 0 <= i < |asked|
        ensures Known(RunRefunds(rows, calls).refunds, asked[i])
        ensures ReachesProvider(CreateRefund(before, c.q, c.fate, c.now).outcome) ==> !SameKey(asked[i], c.q)
      {
        KnownStays(before, c.q, c.fate, c.now, asked[i]);
      }
      KnownStays(before, c.q, c.fate, c.now, c.q);
    }
  }

  /** A key whose refund FAILED is not retried: the same key returns the FAILED row and changes nothing. */
  lemma FailedKeyIsNotRetried(rows: Rows, q: Request, fate: Fate, now: int, again: Fate, later: int)
    requires CreateRefund(rows, q, fate, now).outcome.Fails?
    ensures var c := CreateRefund(rows, q, fate, now);
            && c.rows.refunds[c.outcome.refund].status.Failed?
            && CreateRefund(c.rows, q, again, later) == Created(c.rows, Existing(c.outcome.refund))
  {
    var c := CreateRefund(rows, q, fate, now);
    assert forall j :: 0 <= j < |rows.refunds| ==> c.rows.refunds[j] == rows.refunds[j];
    assert IsRefundOf(c.rows.refunds[|rows.refunds|], q);
  }
}
