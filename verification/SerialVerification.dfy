/** What one verifyPayment call, with no other write in between, does to the rows. */
module SerialVerification {
  import opened Common
  import opened Subscriptions
  import opened PaymentRows
  import opened Settlement
  import opened Protocol

  /** The call recovered its attempt: it found it unsettled and settled it. */
  predicate Settles(rows: Rows, tenantId: string, t: nat, a: nat, answer: Answer) {
    a < |rows.attempts| && !rows.attempts[a].status.Success? && Verify(rows, tenantId, t, a, answer).outcome == Ok(true)
  }

  lemma ThrowingChangesNothing(rows: Rows, tenantId: string, t: nat, a: nat, answer: Answer)
    requires Verify(rows, tenantId, t, a, answer).outcome.Thrown?
    ensures Verify(rows, tenantId, t, a, answer).rows == rows
  {
    hide SettleBlock;
  }

  /** A call that settles has passed the whole block. */
  lemma SettlingIsABlock(rows: Rows, tenantId: string, t: nat, a: nat, answer: Answer)
      returns (v: Verification, c: Confirmation)
    requires Settles(rows, tenantId, t, a, answer)
    ensures answer == Confirmed(c)
    ensures t < |rows.transactions| && v == Verification(tenantId, t, a, rows.attempts[a], rows.transactions[t])
    ensures SettleBlock(rows, rows, v, c) == Ok(Verify(rows, tenantId, t, a, answer).rows)
    ensures MarkDecision(rows.attempts, a).WriteSuccess?
  {
    hide SettleBlock;
    v := Verification(tenantId, t, a, rows.attempts[a], rows.transactions[t]);
    c := answer.confirmation;
    BlockDecides(rows, v, c);
  }

  lemma BlockDecides(rows: Rows, v: Verification, c: Confirmation)
    requires v.attemptId < |rows.attempts| && SettleBlock(rows, rows, v, c).Ok?
    ensures MarkDecision(rows.attempts, v.attemptId).WriteSuccess?
        || MarkDecision(rows.attempts, v.attemptId).AlreadySuccess?
    ensures v.transactionId < |rows.transactions|
    ensures SettleBlock(rows, rows, v, c).value.transactions
         == WithTransactionStatus(rows.transactions, v.transactionId, TransactionStatus.Success)
  {
    hide SyncRecurring, CancelOthers;
  }

  lemma SettlingEffect(rows: Rows, tenantId: string, t: nat, a: nat, answer: Answer)
    requires UniqueSuccess(rows.attempts) && Settles(rows, tenantId, t, a, answer)
    ensures var after := Verify(rows, tenantId, t, a, answer).rows;
            && Evolves(rows.attempts, after.attempts) && |after.attempts| == |rows.attempts|
            && UniqueSuccess(after.attempts)
            && after.attempts[a].status.Success?
            && (forall i :: 0 <= i < |rows.attempts| && i != a
                 ==> (after.attempts[i].status.Success? <==> rows.attempts[i].status.Success?))
            && !HasSuccess(rows.attempts, rows.attempts[a].transactionId)
            && t < |rows.transactions|
            && after.transactions == WithTransactionStatus(rows.transactions, t, TransactionStatus.Success)
  {
    var v, c := SettlingIsABlock(rows, tenantId, t, a, answer);
    BlockAttempts(rows, rows, v, c);
    BlockKeepsUnique(rows, rows, v, c);
    BlockDecides(rows, v, c);
  }

  /** A call that does not settle changes no SUCCESS, no transaction and no ledger entry. */
  lemma OtherEffect(rows: Rows, tenantId: string, t: nat, a: nat, answer: Answer)
    requires !Settles(rows, tenantId, t, a, answer)
    ensures var after := Verify(rows, tenantId, t, a, answer).rows;
            && SameSuccesses(rows.attempts, after.attempts) && |after.attempts| == |rows.attempts|
            && after.transactions == rows.transactions && after.ledger == rows.ledger
  {
    hide SettleBlock;
  }

  /** Serial verifications under the attempt's own transaction keep every transaction settled exactly once. */
  lemma VerifyKeepsSettled(rows: Rows, tenantId: string, t: nat, a: nat, answer: Answer)
    requires UniqueSuccess(rows.attempts) && Settled(rows)
    requires a < |rows.attempts| ==> rows.attempts[a].transactionId == t
    ensures Settled(Verify(rows, tenantId, t, a, answer).rows)
  {
    hide Settled, UniqueSuccess, Verify, SettleBlock;
    if Settles(rows, tenantId, t, a, answer) {
      var v, c := SettlingIsABlock(rows, tenantId, t, a, answer);
      CommitSettles(rows, rows, v, c);
    } else {
      OtherEffect(rows, tenantId, t, a, answer);
      SameSuccessesKeepSettled(rows, Verify(rows, tenantId, t, a, answer).rows);
    }
  }
}
