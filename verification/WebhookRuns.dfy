/**
 Runs of webhook deliveries: duplicates, failures, and deliveries that end with the event applied and
 its mark lost, which the provider sends again (src/modules/payment/webhook/webhook.service.ts:55-95).
 */
module WebhookRuns {
  import opened Common
  import opened Subscriptions
  import opened PaymentRows
  import opened Settlement
  import opened SerialVerification
  import opened Webhooks
  import P = Protocol

  // ---- Replay -----------------------------------------------------------------------------------

  /** A delivery that does not take effect changes no payment and no subscription row, and marks nothing. */
  lemma FailingDeliveryChangesNoRow(s: State, d: Delivery)
    requires !Applies(s, d)
    ensures Deliver(s, d).rows == s.rows
    ensures forall id :: Done(Deliver(s, d).log, id) <==> Done(s.log, id)
  {
    if Process(s.rows, d.action, d.world).thrown.Some? {
      ProcessThrows(s.rows, d.action, d.world);
    }
    hide Process;
  }

  lemma ProcessThrows(rows: Rows, action: Action, world: World)
    requires Process(rows, action, world).thrown.Some?
    ensures Process(rows, action, world).rows == rows
  {
    hide Verify, SyncExternal;
    if action.Settle? {
      var a := FindAttempt(rows.attempts, action.orderId, world.unfiltered);
      var t := rows.attempts[a].transactionId;
      ThrowingChangesNothing(rows, TenantOf(rows, t), t, a, world.answer);
    }
  }

  /** The deliveries that take effect. */
  function Effective(s: State, ds: seq<Delivery>): seq<Delivery> {
    if ds == [] then []
    else
      var b, d := DeliverAll(s, ds[..|ds| - 1]), ds[|ds| - 1];
      Effective(s, ds[..|ds| - 1]) + (if Applies(b, d) then [d] else [])
  }

  /** The actions alone, one after the other, without a log. */
  function ProcessAll(rows: Rows, ds: seq<Delivery>): Rows {
    if ds == [] then rows
    else Process(ProcessAll(rows, ds[..|ds| - 1]), ds[|ds| - 1].action, ds[|ds| - 1].world).rows
  }

  ghost predicate DistinctIds(ds: seq<Delivery>) {
    forall i, j :: 0 <= i < j < |ds| ==> ds[i].eventId != ds[j].eventId
  }

  ghost predicate HasId(ds: seq<Delivery>, id: string) {
    exists i :: 0 <= i < |ds| && ds[i].eventId == id
  }

  lemma HasIdAppend(ds: seq<Delivery>, d: Delivery, id: string)
    ensures HasId(ds + [d], id) <==> HasId(ds, id) || d.eventId == id
  {
    assert forall i :: 0 <= i < |ds| ==> (ds + [d])[i] == ds[i];
    assert (ds + [d])[|ds|] == d;
  }

  lemma DistinctAppend(ds: seq<Delivery>, d: Delivery)
    requires DistinctIds(ds) && !HasId(ds, d.eventId)
    ensures DistinctIds(ds + [d])
  {
  }

  lemma ProcessAllAppend(rows: Rows, ds: seq<Delivery>, d: Delivery)
    ensures ProcessAll(rows, ds + [d]) == Process(ProcessAll(rows, ds), d.action, d.world).rows
  {
    assert (ds + [d])[..|ds|] == ds;
  }

  /** One delivery: it takes effect, and marks its id if it completes; or it changes neither rows nor marks. */
  lemma DeliverEffect(s: State, d: Delivery)
    ensures Deliver(s, d).rows == (if Applies(s, d) then Process(s.rows, d.action, d.world).rows else s.rows)
    ensures forall id :: Done(Deliver(s, d).log, id)
                    <==> Done(s.log, id) || (Applies(s, d) && d.ending.Completes? && id == d.eventId)
  {
    if !Applies(s, d) {
      FailingDeliveryChangesNoRow(s, d);
    }
    hide Process;
  }

  /** None of the deliveries has an id that is done already. */
  ghost predicate AllNew(log: map<string, LogRow>, ds: seq<Delivery>) {
    forall i :: 0 <= i < |ds| ==> !Done(log, ds[i].eventId)
  }

  /** Some delivery of the id completes. */
  ghost predicate Marks(ds: seq<Delivery>, id: string) {
    exists i :: 0 <= i < |ds| && ds[i].eventId == id && ds[i].ending.Completes?
  }

  /** An id comes again only after deliveries that did not complete. */
  ghost predicate RepeatsFollowLostMarks(ds: seq<Delivery>) {
    forall i, j :: 0 <= i < j < |ds| && ds[i].eventId == ds[j].eventId ==> !ds[i].ending.Completes?
  }

  lemma EffectiveAppend(ds: seq<Delivery>, d: Delivery)
    requires RepeatsFollowLostMarks(ds) && !Marks(ds, d.eventId)
    ensures RepeatsFollowLostMarks(ds + [d])
    ensures forall id :: Marks(ds + [d], id) <==> Marks(ds, id) || (d.eventId == id && d.ending.Completes?)
  {
    assert forall i :: 0 <= i < |ds| ==> (ds + [d])[i] == ds[i];
    assert (ds + [d])[|ds|] == d;
    forall id | Marks(ds, id)
      ensures Marks(ds + [d], id)
    {
      var i :| 0 <= i < |ds| && ds[i].eventId == id && ds[i].ending.Completes?;
      assert (ds + [d])[i] == ds[i];
    }
  }

  /**
   Any sequence of deliveries, with duplicates, failures and lost marks and whatever was processed
   before, reaches the rows that its effective deliveries reach without a log. None of them was done
   before, exactly the completed ones are done after, and an event is applied again only after a
   delivery that applied it and lost its mark.
   */
  lemma {:induction false} ReplayAppliesUntilMarked(s: State, ds: seq<Delivery>)
    ensures DeliverAll(s, ds).rows == ProcessAll(s.rows, Effective(s, ds))
    ensures RepeatsFollowLostMarks(Effective(s, ds)) && AllNew(s.log, Effective(s, ds))
    ensures forall id :: Done(DeliverAll(s, ds).log, id) <==> Done(s.log, id) || Marks(Effective(s, ds), id)
  {
    hide Process, Deliver, Done, Applies, RepeatsFollowLostMarks, Marks;
    if ds == [] {
      NoneEffective();
    } else {
      var n := |ds| - 1;
      ReplayAppliesUntilMarked(s, ds[..n]);
      var b, d, e := DeliverAll(s, ds[..n]), ds[n], Effective(s, ds[..n]);
      DeliverEffect(b, d);
      if Applies(b, d) {
        AppliedIsNew(b, d);
        EffectiveAppend(e, d);
        ProcessAllAppend(s.rows, e, d);
      } else {
        assert Effective(s, ds) == e;
      }
    }
  }

  lemma NoneEffective()
    ensures RepeatsFollowLostMarks([]) && DistinctIds([]) && forall id :: !Marks([], id) && !HasId([], id)
  {
  }

  lemma AppliedIsNew(s: State, d: Delivery)
    requires Applies(s, d)
    ensures !Done(s.log, d.eventId)
  {
  }

  /** Every delivery that takes effect completes. */
  ghost predicate NoMarkLost(s: State, ds: seq<Delivery>) {
    forall i :: 0 <= i < |Effective(s, ds)| ==> Effective(s, ds)[i].ending.Completes?
  }

  /** While no mark is lost each event is applied once. */
  lemma AppliedOnceUnlessMarkLost(s: State, ds: seq<Delivery>)
    requires NoMarkLost(s, ds)
    ensures DistinctIds(Effective(s, ds))
    ensures forall id :: Done(DeliverAll(s, ds).log, id) <==> Done(s.log, id) || HasId(Effective(s, ds), id)
  {
    ReplayAppliesUntilMarked(s, ds);
    hide Effective, DeliverAll;
  }

  // ---- What an applied event leaves -------------------------------------------------------------

  /**
   If the call stops after processing and before the mark, the redelivery processes again; right
   after, it changes nothing, whatever the provider answers the second time. An event that names no
   order must find the same attempt again.
   */
  lemma ReprocessingIsQuiet(rows: Rows, action: Action, world: World, again: World)
    requires Process(rows, action, world).thrown.None?
    requires (action.Settle? || action.Fail?) && action.orderId.None? ==> again.unfiltered == world.unfiltered
    ensures Process(Process(rows, action, world).rows, action, again) == Process(rows, action, world)
  {
    hide Verify, SyncExternal;
    match action {
      case Nothing =>
      case Settle(orderId) => SettleIsQuiet(rows, orderId, world, again);
      case Fail(orderId) => FailIsQuiet(rows, orderId, world, again);
      case Sync(s) => SyncIsQuiet(rows.subscriptions, rows.plans, s);
    }
  }

  /** Evolving attempts keep their order ids, so the same attempt is found again. */
  lemma SameAttemptFound(before: seq<Attempt>, after: seq<Attempt>, orderId: Option<string>, world: World, again: World)
    requires P.Evolves(before, after) && |before| == |after|
    requires orderId.None? ==> again.unfiltered == world.unfiltered
    ensures FindAttempt(after, orderId, again.unfiltered) == FindAttempt(before, orderId, world.unfiltered)
  {
    assert forall i :: 0 <= i < |before| ==> after[i].providerOrderId == before[i].providerOrderId;
  }

  lemma FailIsQuiet(rows: Rows, orderId: Option<string>, world: World, again: World)
    requires orderId.None? ==> again.unfiltered == world.unfiltered
    ensures var after := Overwrite(rows, FindAttempt(rows.attempts, orderId, world.unfiltered), AttemptStatus.Failed);
            Overwrite(after, FindAttempt(after.attempts, orderId, again.unfiltered), AttemptStatus.Failed) == after
  {
    var a := FindAttempt(rows.attempts, orderId, world.unfiltered);
    var after := Overwrite(rows, a, AttemptStatus.Failed);
    SameAttemptFound(rows.attempts, after.attempts, orderId, world, again);
    hide FindAttempt;
    if a < |rows.attempts| {
      assert after.attempts[a := after.attempts[a].(status := AttemptStatus.Failed)] == after.attempts;
    }
  }

  lemma SyncIsQuiet(subscriptions: seq<Subscription>, plans: map<string, Plan>, s: Subscription)
    requires SyncExternal(subscriptions, subscriptions, plans, s).Ok?
    ensures var after := SyncExternal(subscriptions, subscriptions, plans, s).value;
            SyncExternal(after, after, plans, s) == Ok(after)
  {
    var i := FindExternal(subscriptions, s.tenantId, s.providerSubscriptionId);
    var after := SyncExternal(subscriptions, subscriptions, plans, s).value;
    var j := FindExternal(after, s.tenantId, s.providerSubscriptionId);
    assert after[i] == s && forall k :: 0 <= k < i ==> after[k] == subscriptions[k];
    assert j == i;
    assert after[i := s] == after;
  }

  lemma SettleIsQuiet(rows: Rows, orderId: Option<string>, world: World, again: World)
    requires Process(rows, Settle(orderId), world).thrown.None?
    requires orderId.None? ==> again.unfiltered == world.unfiltered
    ensures Process(Process(rows, Settle(orderId), world).rows, Settle(orderId), again)
        == Process(rows, Settle(orderId), world)
  {
    var a := FindAttempt(rows.attempts, orderId, world.unfiltered);
    if a < |rows.attempts| {
      var t := rows.attempts[a].transactionId;
      var v := Verify(rows, TenantOf(rows, t), t, a, world.answer);
      VerifiedIsQuiet(rows, t, a, world.answer, again.answer);
      hide Verify;
      SameAttemptFound(rows.attempts, v.rows.attempts, orderId, world, again);
      hide FindAttempt;
      assert v.rows.attempts[a].transactionId == t;
    } else {
      SameAttemptFound(rows.attempts, rows.attempts, orderId, world, again);
    }
  }

  /** A verification that returned leaves its attempt SUCCESS or FAILED; the next one only reads it. */
  lemma VerifiedIsQuiet(rows: Rows, t: nat, a: nat, answer: Answer, again: Answer)
    requires a < |rows.attempts| && Verify(rows, TenantOf(rows, t), t, a, answer).outcome.Ok?
    ensures var v := Verify(rows, TenantOf(rows, t), t, a, answer);
            && P.Evolves(rows.attempts, v.rows.attempts) && |v.rows.attempts| == |rows.attempts|
            && TenantOf(v.rows, t) == TenantOf(rows, t)
            && Verify(v.rows, TenantOf(v.rows, t), t, a, again) == v
  {
    var v := Verify(rows, TenantOf(rows, t), t, a, answer);
    if Settles(rows, TenantOf(rows, t), t, a, answer) {
      var w, c := SettlingIsABlock(rows, TenantOf(rows, t), t, a, answer);
      P.BlockAttempts(rows, rows, w, c);
      BlockDecides(rows, w, c);
    } else {
      OtherEffect(rows, TenantOf(rows, t), t, a, answer);
    }
    hide SettleBlock;
  }

  predicate Terminal(attempts: seq<Attempt>, a: nat) {
    a < |attempts| && (attempts[a].status.Success? || attempts[a].status.Failed?)
  }

  /** The subscription row that the sync finds equals what it would write. */
  predicate RowEquals(subscriptions: seq<Subscription>, s: Subscription) {
    var i := FindExternal(subscriptions, s.tenantId, s.providerSubscriptionId);
    i < |subscriptions| && subscriptions[i] == s
  }

  /** The rows already are as the action would leave them. */
  predicate Quiet(rows: Rows, action: Action, w: World) {
    match action
    case Nothing => true
    case Sync(s) => RowEquals(rows.subscriptions, s)
    case Settle(orderId) =>
      var a := FindAttempt(rows.attempts, orderId, w.unfiltered);
      a == |rows.attempts| || Terminal(rows.attempts, a)
    case Fail(orderId) =>
      var a := FindAttempt(rows.attempts, orderId, w.unfiltered);
      a == |rows.attempts| || rows.attempts[a].status.Failed?
  }

  /** For all rows: a processing that returns changes nothing exactly when they are so. */
  lemma ProcessChangesNothingExactlyWhen(rows: Rows, action: Action, w: World)
    requires Process(rows, action, w).thrown.None?
    ensures Process(rows, action, w).rows == rows <==> Quiet(rows, action, w)
  {
    match action {
      case Nothing =>
      case Sync(s) =>
        hide FindExternal;
      case Fail(orderId) =>
        hide FindAttempt;
      case Settle(orderId) =>
        var a := FindAttempt(rows.attempts, orderId, w.unfiltered);
        if a < |rows.attempts| {
          var t := rows.attempts[a].transactionId;
          VerifyChangesNothingExactlyWhen(rows, TenantOf(rows, t), t, a, w.answer);
        }
        hide Verify, FindAttempt;
    }
  }

  lemma VerifyChangesNothingExactlyWhen(rows: Rows, tenantId: string, t: nat, a: nat, answer: Answer)
    requires a < |rows.attempts| && Verify(rows, tenantId, t, a, answer).outcome.Ok?
    ensures Verify(rows, tenantId, t, a, answer).rows == rows <==> Terminal(rows.attempts, a)
  {
    if Settles(rows, tenantId, t, a, answer) {
      var v, c := SettlingIsABlock(rows, tenantId, t, a, answer);
      P.BlockAttempts(rows, rows, v, c);
    }
    hide SettleBlock;
  }

  // ---- What deliveries in between keep ----------------------------------------------------------

  /** The attempt keeps its order and its transaction; FAILED stays FAILED, and a settled one stays settled. */
  predicate AttemptKept(before: Attempt, after: Attempt) {
    && after == before.(status := after.status)
    && (before.status.Failed? ==> after.status.Failed?)
    && (before.status.Success? ==> after.status.Success? || after.status.Failed?)
  }

  ghost predicate AttemptsKept(before: seq<Attempt>, after: seq<Attempt>) {
    |after| == |before| && forall i :: 0 <= i < |before| ==> AttemptKept(before[i], after[i])
  }

  ghost predicate SubscriptionsKept(before: seq<Subscription>, after: seq<Subscription>) {
    && |before| <= |after|
    && forall i :: 0 <= i < |before| ==>
         after[i].tenantId == before[i].tenantId && after[i].providerSubscriptionId == before[i].providerSubscriptionId
  }

  /** No delivery adds or reopens an attempt, and no synced subscription row is lost. */
  ghost predicate Kept(before: Rows, after: Rows) {
    && after.plans == before.plans
    && |after.transactions| == |before.transactions|
    && (forall t: nat :: TenantOf(after, t) == TenantOf(before, t))
    && AttemptsKept(before.attempts, after.attempts)
    && SubscriptionsKept(before.subscriptions, after.subscriptions)
  }

  lemma BlockKeeps(rows: Rows, v: Verification, c: Confirmation)
    requires v.attemptId < |rows.attempts| && !rows.attempts[v.attemptId].status.Failed?
    requires SettleBlock(rows, rows, v, c).Ok?
    ensures Kept(rows, SettleBlock(rows, rows, v, c).value)
  {
    BlockDecides(rows, v, c);
    SyncKeeps(rows.subscriptions, rows.plans, v, c);
    hide SyncRecurring, SubscriptionsKept;
  }

  lemma SyncKeeps(subscriptions: seq<Subscription>, plans: map<string, Plan>, v: Verification, c: Confirmation)
    requires SyncRecurring(subscriptions, subscriptions, plans, v, c).Ok?
    ensures SubscriptionsKept(subscriptions, SyncRecurring(subscriptions, subscriptions, plans, v, c).value)
  {
    hide FindExternal, NewSubscription, ProviderSubscriptionId;
  }

  lemma ProcessKeeps(rows: Rows, action: Action, w: World)
    ensures Kept(rows, Process(rows, action, w).rows)
  {
    match action {
      case Nothing =>
      case Sync(s) =>
        hide FindExternal;
      case Fail(orderId) =>
        hide FindAttempt;
      case Settle(orderId) =>
        var a := FindAttempt(rows.attempts, orderId, w.unfiltered);
        if a < |rows.attempts| {
          var t := rows.attempts[a].transactionId;
          VerifyKeeps(rows, TenantOf(rows, t), t, a, w.answer);
        }
        hide Verify, FindAttempt;
    }
  }

  lemma VerifyKeeps(rows: Rows, tenantId: string, t: nat, a: nat, answer: Answer)
    ensures Kept(rows, Verify(rows, tenantId, t, a, answer).rows)
  {
    if Settles(rows, tenantId, t, a, answer) {
      var v, c := SettlingIsABlock(rows, tenantId, t, a, answer);
      if rows.attempts[a].status.Failed? {
      } else {
        BlockKeeps(rows, v, c);
      }
    }
    hide SettleBlock;
  }

  // ---- A redelivery after a lost mark -----------------------------------------------------------

  /** A payment event without an order id. */
  predicate Unfiltered(action: Action) {
    (action.Settle? || action.Fail?) && action.orderId.None?
  }

  /** What an applied event leaves, whatever is delivered after it. */
  predicate Stands(rows: Rows, action: Action) {
    match action
    case Nothing => true
    case Sync(s) =>
      PlanActive(rows.plans, s.planId)
      && FindExternal(rows.subscriptions, s.tenantId, s.providerSubscriptionId) < |rows.subscriptions|
    case Settle(orderId) =>
      orderId.None?
      || (var a := FindOrder(rows.attempts, orderId.value);
          a == |rows.attempts|
          || (Terminal(rows.attempts, a) && rows.attempts[a].transactionId < |rows.transactions|))
    case Fail(orderId) =>
      orderId.None?
      || (var a := FindOrder(rows.attempts, orderId.value);
          a == |rows.attempts| || rows.attempts[a].status.Failed?)
  }

  lemma AppliedStands(rows: Rows, action: Action, w: World)
    requires Process(rows, action, w).thrown.None?
    ensures Stands(Process(rows, action, w).rows, action)
  {
    match action {
      case Nothing =>
      case Sync(s) =>
        SyncWritesOneRow(rows, s, w);
        hide FindExternal;
      case Fail(orderId) =>
        if orderId.Some? {
          var a := FindOrder(rows.attempts, orderId.value);
          SameAttemptFound(rows.attempts, Overwrite(rows, a, AttemptStatus.Failed).attempts, orderId, w, w);
        }
        hide FindOrder;
      case Settle(orderId) =>
        if orderId.Some? {
          var a := FindOrder(rows.attempts, orderId.value);
          if a < |rows.attempts| {
            var t := rows.attempts[a].transactionId;
            VerifiedIsTerminal(rows, t, a, w.answer);
            var after := Verify(rows, TenantOf(rows, t), t, a, w.answer).rows.attempts;
            SameAttemptFound(rows.attempts, after, orderId, w, w);
          }
        }
        hide Verify, FindOrder;
    }
  }

  lemma VerifiedIsTerminal(rows: Rows, t: nat, a: nat, answer: Answer)
    requires a < |rows.attempts| && Verify(rows, TenantOf(rows, t), t, a, answer).outcome.Ok?
    ensures var after := Verify(rows, TenantOf(rows, t), t, a, answer).rows;
            && P.Evolves(rows.attempts, after.attempts) && |after.attempts| == |rows.attempts|
            && Terminal(after.attempts, a) && t < |after.transactions| == |rows.transactions|
  {
    if Settles(rows, TenantOf(rows, t), t, a, answer) {
      var v, c := SettlingIsABlock(rows, TenantOf(rows, t), t, a, answer);
      P.BlockAttempts(rows, rows, v, c);
      BlockDecides(rows, v, c);
    }
    hide SettleBlock;
  }

  lemma StandsStays(before: Rows, after: Rows, action: Action)
    requires Stands(before, action) && Kept(before, after)
    ensures Stands(after, action)
  {
    match action {
      case Nothing =>
      case Sync(s) =>
        hide TenantOf, AttemptsKept;
        var i := FindExternal(before.subscriptions, s.tenantId, s.providerSubscriptionId);
        assert after.subscriptions[i].tenantId == s.tenantId;
      case Settle(orderId) =>
        hide TenantOf, SubscriptionsKept;
        if orderId.Some? {
          SameOrderFound(before.attempts, after.attempts, orderId.value);
          var a := FindOrder(before.attempts, orderId.value);
          assert a < |before.attempts| ==> AttemptKept(before.attempts[a], after.attempts[a]);
        }
      case Fail(orderId) =>
        hide TenantOf, SubscriptionsKept;
        if orderId.Some? {
          SameOrderFound(before.attempts, after.attempts, orderId.value);
          var a := FindOrder(before.attempts, orderId.value);
          assert a < |before.attempts| ==> AttemptKept(before.attempts[a], after.attempts[a]);
        }
    }
  }

  lemma SameOrderFound(before: seq<Attempt>, after: seq<Attempt>, orderId: string)
    requires AttemptsKept(before, after)
    ensures FindOrder(after, orderId) == FindOrder(before, orderId)
  {
    assert forall i :: 0 <= i < |before| ==> AttemptKept(before[i], after[i]);
  }

  /** Processed again, the event returns, and nothing but a sync can change a row. */
  lemma StandingReturns(rows: Rows, action: Action, w: World)
    requires Stands(rows, action) && !Unfiltered(action)
    ensures Process(rows, action, w).thrown.None?
    ensures Quiet(rows, action, w) <==> (action.Sync? ==> RowEquals(rows.subscriptions, action.subscription))
  {
    hide SettleBlock;
  }

  /** The one thing that a redelivery may find changed: the subscription row, or the row of an unfiltered query. */
  predicate Current(rows: Rows, action: Action, w: World) {
    && (action.Sync? ==> RowEquals(rows.subscriptions, action.subscription))
    && (Unfiltered(action) ==> Quiet(rows, action, w))
  }

  ghost predicate AllStand(rows: Rows, ds: seq<Delivery>) {
    forall i :: 0 <= i < |ds| ==> Stands(rows, ds[i].action)
  }

  /** By induction over the run: what each applied event left still stands. */
  lemma {:induction false} EffectiveStand(s: State, ds: seq<Delivery>)
    ensures AllStand(DeliverAll(s, ds).rows, Effective(s, ds))
  {
    hide Process, Deliver, Applies, Stands, Kept;
    if ds != [] {
      var n := |ds| - 1;
      EffectiveStand(s, ds[..n]);
      var b, d, e := DeliverAll(s, ds[..n]), ds[n], Effective(s, ds[..n]);
      DeliverEffect(b, d);
      if Applies(b, d) {
        AppliedReturns(b, d);
        ProcessKeeps(b.rows, d.action, d.world);
        AppliedStands(b.rows, d.action, d.world);
        forall i | 0 <= i < |e|
          ensures Stands(DeliverAll(s, ds).rows, e[i].action)
        {
          StandsStays(b.rows, DeliverAll(s, ds).rows, e[i].action);
        }
      }
    }
  }

  lemma AppliedReturns(s: State, d: Delivery)
    ensures Applies(s, d) <==> !Done(s.log, d.eventId) && Process(s.rows, d.action, d.world).thrown.None?
                               && (d.ending.Completes? || d.ending.applied)
  {
    hide Process;
  }

  /** A delivery of an action that has been applied before. */
  lemma AgainChangesNothingExactlyWhen(s: State, d: Delivery)
    requires Stands(s.rows, d.action)
    ensures !Unfiltered(d.action) ==> Process(s.rows, d.action, d.world).thrown.None?
    ensures Deliver(s, d).rows == s.rows <==> !Applies(s, d) || Current(s.rows, d.action, d.world)
  {
    hide *;
    DeliverEffect(s, d);
    AppliedReturns(s, d);
    CurrentIs(s.rows, d.action, d.world);
    if !Unfiltered(d.action) {
      StandingReturns(s.rows, d.action, d.world);
    }
    if Applies(s, d) {
      ProcessChangesNothingExactlyWhen(s.rows, d.action, d.world);
    }
  }

  lemma CurrentIs(rows: Rows, action: Action, w: World)
    ensures Current(rows, action, w)
       <==> (action.Sync? ==> RowEquals(rows.subscriptions, action.subscription))
            && (Unfiltered(action) ==> Quiet(rows, action, w))
    ensures Unfiltered(action) ==> !action.Sync?
  {
    hide Quiet, RowEquals;
  }

  /**
   A redelivery after the event was applied, its mark lost or not, with any deliveries in between,
   changes nothing exactly when it does not process again, or the subscription row that it finds still
   equals what it writes. A payment event with an order id never changes anything: no delivery in
   between adds or reopens an attempt. Without an order id the row found must be terminal.
   */
  lemma RedeliveryChangesNothingExactlyWhen(s: State, first: Delivery, between: seq<Delivery>, again: Delivery)
    requires Applies(s, first) && again.eventId == first.eventId && again.action == first.action
    ensures var b := DeliverAll(Deliver(s, first), between);
            && (Done(b.log, first.eventId) <==>
                  first.ending.Completes? || Marks(Effective(Deliver(s, first), between), first.eventId))
            && (!Unfiltered(first.action) ==> Process(b.rows, again.action, again.world).thrown.None?)
            && (Deliver(b, again).rows == b.rows
                <==> !Applies(b, again) || Current(b.rows, again.action, again.world))
  {
    var after := Deliver(s, first);
    AppliedReturns(s, first);
    hide *;
    DeliverEffect(s, first);
    AppliedStands(s.rows, first.action, first.world);
    RunKeeps(after, between);
    var b := DeliverAll(after, between);
    StandsStays(after.rows, b.rows, first.action);
    ReplayAppliesUntilMarked(after, between);
    AgainChangesNothingExactlyWhen(b, again);
  }

  lemma KeptTwice(a: Rows, b: Rows, c: Rows)
    requires Kept(a, b) && Kept(b, c)
    ensures Kept(a, c)
  {
    hide TenantOf;
    forall i | 0 <= i < |a.attempts|
      ensures AttemptKept(a.attempts[i], c.attempts[i])
    {
      assert AttemptKept(a.attempts[i], b.attempts[i]) && AttemptKept(b.attempts[i], c.attempts[i]);
    }
  }

  lemma KeptSame(a: Rows)
    ensures Kept(a, a)
  {
  }

  lemma {:induction false} RunKeeps(s: State, ds: seq<Delivery>)
    ensures Kept(s.rows, DeliverAll(s, ds).rows)
  {
    hide Process, Deliver, Applies, Kept;
    KeptSame(s.rows);
    if ds != [] {
      var n := |ds| - 1;
      RunKeeps(s, ds[..n]);
      var b := DeliverAll(s, ds[..n]);
      DeliverEffect(b, ds[n]);
      ProcessKeeps(b.rows, ds[n].action, ds[n].world);
      if Applies(b, ds[n]) {
        KeptTwice(s.rows, b.rows, Deliver(b, ds[n]).rows);
      }
    }
  }

  // ---- Whole runs with lost marks ---------------------------------------------------------------

  /** An event id names one event. */
  ghost predicate OneActionPerId(ds: seq<Delivery>) {
    forall i, j :: 0 <= i < j < |ds| && ds[i].eventId == ds[j].eventId ==> ds[i].action == ds[j].action
  }

  /** The last delivery applies an event that the run has applied before. */
  ghost predicate Repeats(s: State, ds: seq<Delivery>)
    requires ds != []
  {
    var n := |ds| - 1;
    Applies(DeliverAll(s, ds[..n]), ds[n]) && HasId(Effective(s, ds[..n]), ds[n].eventId)
  }

  ghost predicate RepeatsChangeNothing(s: State, ds: seq<Delivery>) {
    ds == []
    || (&& RepeatsChangeNothing(s, ds[..|ds| - 1])
        && (Repeats(s, ds) ==> DeliverAll(s, ds).rows == DeliverAll(s, ds[..|ds| - 1]).rows))
  }

  /** Each repeated sync finds its row as it would write it. */
  ghost predicate RepeatsCurrent(s: State, ds: seq<Delivery>) {
    ds == []
    || (var n := |ds| - 1;
        && RepeatsCurrent(s, ds[..n])
        && (Repeats(s, ds) ==> Current(DeliverAll(s, ds[..n]).rows, ds[n].action, ds[n].world)))
  }

  /** The deliveries that apply their event for the first time. */
  ghost function FirstApplied(s: State, ds: seq<Delivery>): seq<Delivery> {
    if ds == [] then []
    else
      var n := |ds| - 1;
      FirstApplied(s, ds[..n])
      + (if Applies(DeliverAll(s, ds[..n]), ds[n]) && !Repeats(s, ds) then [ds[n]] else [])
  }

  lemma {:induction false} FirstAppliedIds(s: State, ds: seq<Delivery>)
    ensures DistinctIds(FirstApplied(s, ds))
    ensures forall id :: HasId(FirstApplied(s, ds), id) <==> HasId(Effective(s, ds), id)
  {
    hide Applies, DistinctIds, HasId;
    if ds == [] {
      NoneEffective();
    } else {
      var n := |ds| - 1;
      FirstAppliedIds(s, ds[..n]);
      LastApplied(s, ds);
      forall id
        ensures HasId(FirstApplied(s, ds), id) <==> HasId(Effective(s, ds), id)
      {
        HasIdAppend(FirstApplied(s, ds[..n]), ds[n], id);
        HasIdAppend(Effective(s, ds[..n]), ds[n], id);
      }
      if Applies(DeliverAll(s, ds[..n]), ds[n]) && !Repeats(s, ds) {
        DistinctAppend(FirstApplied(s, ds[..n]), ds[n]);
      }
    }
  }

  /** The last delivery in both lists. */
  lemma LastApplied(s: State, ds: seq<Delivery>)
    requires ds != []
    ensures var n := |ds| - 1;
            var applies, repeats := Applies(DeliverAll(s, ds[..n]), ds[n]), Repeats(s, ds);
            && (repeats ==> applies && HasId(Effective(s, ds[..n]), ds[n].eventId))
            && (applies && !repeats ==> !HasId(Effective(s, ds[..n]), ds[n].eventId))
            && Effective(s, ds) == (if applies then Effective(s, ds[..n]) + [ds[n]] else Effective(s, ds[..n]))
            && FirstApplied(s, ds)
               == (if applies && !repeats then FirstApplied(s, ds[..n]) + [ds[n]] else FirstApplied(s, ds[..n]))
  {
    hide Applies, DeliverAll, HasId;
  }

  /** Every effective delivery is one of the run's. */
  lemma {:induction false} EffectiveIsDelivered(s: State, ds: seq<Delivery>)
    ensures forall i :: 0 <= i < |Effective(s, ds)| ==> Effective(s, ds)[i] in ds
  {
    hide Applies, DeliverAll;
    if ds != [] {
      EffectiveIsDelivered(s, ds[..|ds| - 1]);
    }
  }

  /** A repeated event's action has been applied, so what it left still stands. */
  lemma RepeatStands(s: State, ds: seq<Delivery>)
    requires ds != [] && OneActionPerId(ds) && Repeats(s, ds)
    ensures Stands(DeliverAll(s, ds[..|ds| - 1]).rows, ds[|ds| - 1].action)
  {
    var n := |ds| - 1;
    EffectiveStand(s, ds[..n]);
    EffectiveIsDelivered(s, ds[..n]);
    hide Stands, Effective, DeliverAll, Applies;
    var e := Effective(s, ds[..n]);
    var i :| 0 <= i < |e| && e[i].eventId == ds[n].eventId;
    var j :| 0 <= j < n && ds[..n][j] == e[i];
    assert ds[j] == e[i];
  }

  /**
   Over every run with lost marks: the repeats change nothing exactly when each repeated sync finds
   its row unchanged; and then the run reaches the rows of applying each event once, when it was first
   applied.
   */
  lemma {:induction false} RepeatsChangeNothingExactlyWhen(s: State, ds: seq<Delivery>)
    requires OneActionPerId(ds)
    ensures RepeatsChangeNothing(s, ds) <==> RepeatsCurrent(s, ds)
    ensures RepeatsCurrent(s, ds) ==> DeliverAll(s, ds).rows == ProcessAll(s.rows, FirstApplied(s, ds))
    ensures DistinctIds(FirstApplied(s, ds))
  {
    hide Process, Deliver, Applies, DistinctIds, HasId, Current, Stands, OneActionPerId, Repeats;
    FirstAppliedIds(s, ds);
    if ds != [] {
      var n := |ds| - 1;
      OneActionBefore(ds);
      RepeatsChangeNothingExactlyWhen(s, ds[..n]);
      var b := DeliverAll(s, ds[..n]);
      DeliverEffect(b, ds[n]);
      LastApplied(s, ds);
      if Repeats(s, ds) {
        RepeatStands(s, ds);
        AgainChangesNothingExactlyWhen(b, ds[n]);
      }
    }
    if RepeatsChangeNothing(s, ds) {
      RepeatsAside(s, ds);
    }
  }

  lemma OneActionBefore(ds: seq<Delivery>)
    requires ds != [] && OneActionPerId(ds)
    ensures OneActionPerId(ds[..|ds| - 1])
  {
  }

  /** When the repeats change nothing, the run reaches the rows of applying each event once. */
  lemma {:induction false} RepeatsAside(s: State, ds: seq<Delivery>)
    requires RepeatsChangeNothing(s, ds)
    ensures DeliverAll(s, ds).rows == ProcessAll(s.rows, FirstApplied(s, ds))
  {
    hide Process, Deliver, Applies, HasId, Repeats;
    if ds != [] {
      var n := |ds| - 1;
      RepeatsAside(s, ds[..n]);
      DeliverEffect(DeliverAll(s, ds[..n]), ds[n]);
      LastApplied(s, ds);
      if Applies(DeliverAll(s, ds[..n]), ds[n]) && !Repeats(s, ds) {
        ProcessAllAppend(s.rows, FirstApplied(s, ds[..n]), ds[n]);
      }
    }
  }

  /** Without a lost mark nothing is applied again. */
  lemma {:induction false} NothingRepeats(s: State, ds: seq<Delivery>)
    requires NoMarkLost(s, ds)
    ensures RepeatsChangeNothing(s, ds)
  {
    hide Process, Deliver, Applies, HasId, Repeats, NoMarkLost;
    if ds != [] {
      var n := |ds| - 1;
      LastApplied(s, ds);
      NoMarkLostBefore(s, ds);
      NothingRepeats(s, ds[..n]);
      AppliedOnceUnlessMarkLost(s, ds[..n]);
      if Repeats(s, ds) {
        AppliedIsNew(DeliverAll(s, ds[..n]), ds[n]);
      }
    }
  }

  lemma NoMarkLostBefore(s: State, ds: seq<Delivery>)
    requires ds != [] && NoMarkLost(s, ds)
    ensures NoMarkLost(s, ds[..|ds| - 1])
  {
    LastApplied(s, ds);
    hide Effective;
    var e, all := Effective(s, ds[..|ds| - 1]), Effective(s, ds);
    assert forall i :: 0 <= i < |e| ==> all[i] == e[i];
  }

  /** The delivery is the first of its id, here and before. */
  ghost predicate FirstOf(log: map<string, LogRow>, ds: seq<Delivery>, i: nat)
    requires i < |ds|
  {
    !Done(log, ds[i].eventId) && !HasId(ds[..i], ds[i].eventId)
  }

  ghost function FirstOccurrences(log: map<string, LogRow>, ds: seq<Delivery>): seq<Delivery> {
    if ds == [] then []
    else
      var n := |ds| - 1;
      FirstOccurrences(log, ds[..n]) + (if FirstOf(log, ds, n) then [ds[n]] else [])
  }

  /** Each first delivery takes effect when its turn comes, its mark lost or not. */
  ghost predicate FirstsApply(s: State, ds: seq<Delivery>) {
    ds == []
    || (var n := |ds| - 1;
        && FirstsApply(s, ds[..n])
        && (FirstOf(s.log, ds, n) ==> Applies(DeliverAll(s, ds[..n]), ds[n])))
  }

  lemma {:induction false} IdsApplied(s: State, ds: seq<Delivery>, id: string)
    requires FirstsApply(s, ds)
    ensures HasId(Effective(s, ds), id) <==> !Done(s.log, id) && HasId(ds, id)
    decreases |ds|
  {
    hide Process, Deliver, Done, HasId, Applies, Repeats;
    if ds == [] {
      NoneEffective();
    } else {
      var n := |ds| - 1;
      IdsApplied(s, ds[..n], id);
      IdsApplied(s, ds[..n], ds[n].eventId);
      LastApplied(s, ds);
      ReplayAppliesUntilMarked(s, ds[..n]);
      HasIdAppend(ds[..n], ds[n], id);
      HasIdAppend(Effective(s, ds[..n]), ds[n], id);
      assert ds == ds[..n] + [ds[n]];
      AppliedReturns(DeliverAll(s, ds[..n]), ds[n]);
    }
  }

  /**
   When each first delivery takes effect and repeats change nothing, a sequence with duplicates and lost
   marks reaches the rows of its first occurrences. Without a lost mark repeats never change anything.
   */
  lemma {:induction false} DuplicatesChangeNothing(s: State, ds: seq<Delivery>)
    requires FirstsApply(s, ds)
    ensures FirstApplied(s, ds) == FirstOccurrences(s.log, ds)
    ensures RepeatsChangeNothing(s, ds) ==> DeliverAll(s, ds).rows == ProcessAll(s.rows, FirstOccurrences(s.log, ds))
    ensures NoMarkLost(s, ds) ==> RepeatsChangeNothing(s, ds)
  {
    hide Process, Deliver, Done, HasId, Applies, Repeats, NoMarkLost;
    if ds != [] {
      var n := |ds| - 1;
      DuplicatesChangeNothing(s, ds[..n]);
      IdsApplied(s, ds[..n], ds[n].eventId);
      LastApplied(s, ds);
      ReplayAppliesUntilMarked(s, ds[..n]);
      AppliedReturns(DeliverAll(s, ds[..n]), ds[n]);
    }
    if RepeatsChangeNothing(s, ds) {
      RepeatsAside(s, ds);
    }
    if NoMarkLost(s, ds) {
      NothingRepeats(s, ds);
    }
  }

  /**
   A stale row comes back: a sync loses its mark, a newer one of the same subscription is delivered,
   and the first is sent again. For all two different states of one subscription.
   */
  lemma StaleSyncReturns(s: State, x: Subscription, y: Subscription, first: string, second: string,
                         world: World, recorded: bool)
    requires first != second && !Done(s.log, first) && !Done(s.log, second)
    requires PlanActive(s.rows.plans, x.planId) && PlanActive(s.rows.plans, y.planId)
    requires x != y && x.tenantId == y.tenantId && x.providerSubscriptionId == y.providerSubscriptionId
    ensures var lost := Delivery(first, Sync(x), world, Ends(true, recorded));
            var newer := Delivery(second, Sync(y), world, Completes);
            var again := Delivery(first, Sync(x), world, Completes);
            var b := DeliverAll(s, [lost, newer, again]);
            && RowEquals(b.rows.subscriptions, x) && !RowEquals(b.rows.subscriptions, y)
            && RowEquals(ProcessAll(s.rows, [lost, newer]).subscriptions, y)
            && FirstApplied(s, [lost, newer, again]) == [lost, newer] && !RepeatsCurrent(s, [lost, newer, again])
  {
    var lost := Delivery(first, Sync(x), world, Ends(true, recorded));
    var newer := Delivery(second, Sync(y), world, Completes);
    var again := Delivery(first, Sync(x), world, Completes);
    var ds := [lost, newer, again];
    hide Process, Deliver, PlanActive, RowEquals, Quiet, Done, Repeats, DeliverAll, FirstApplied, RepeatsCurrent;
    SyncDelivered(s, lost, x);
    var s1 := Deliver(s, lost);
    SyncDelivered(s1, newer, y);
    var s2 := Deliver(s1, newer);
    SyncDelivered(s2, again, x);
    hide Applies, HasId;
    OtherRow(s2.rows.subscriptions, x, y);
    OtherRow(Deliver(s2, again).rows.subscriptions, y, x);
    ThreeDeliveries(s, lost, newer, again);
    assert !Current(s2.rows, Sync(x), world);
  }

  /** Three deliveries of which the last repeats the first. */
  lemma ThreeDeliveries(s: State, a: Delivery, b: Delivery, c: Delivery)
    requires a.eventId == c.eventId != b.eventId
    requires Applies(s, a) && Applies(Deliver(s, a), b) && Applies(Deliver(Deliver(s, a), b), c)
    ensures var s2 := Deliver(Deliver(s, a), b);
            && DeliverAll(s, [a, b]) == s2 && DeliverAll(s, [a, b, c]) == Deliver(s2, c)
            && ProcessAll(s.rows, [a, b]) == Process(Process(s.rows, a.action, a.world).rows, b.action, b.world).rows
            && FirstApplied(s, [a, b, c]) == [a, b]
            && (RepeatsCurrent(s, [a, b, c]) ==> Current(s2.rows, c.action, c.world))
  {
    hide Process, Deliver, Applies, HasId, Current;
    var ds := [a, b, c];
    assert ds[..2] == [a, b] && [a, b][..1] == [a] && [a][..0] == [];
    NoneEffective();
    LastApplied(s, [a]);
    HasIdAppend([], a, b.eventId);
    HasIdAppend([], a, c.eventId);
    assert [] + [a] == [a] && [a] + [b] == [a, b];
    LastApplied(s, [a, b]);
    HasIdAppend([a], b, c.eventId);
    LastApplied(s, ds);
    ProcessAllAppend(s.rows, [], a);
    ProcessAllAppend(s.rows, [a], b);
  }

  /** A sync that is new and applied leaves its row. */
  lemma SyncDelivered(s: State, d: Delivery, x: Subscription)
    requires d.action == Sync(x) && !Done(s.log, d.eventId) && PlanActive(s.rows.plans, x.planId)
    requires d.ending.Completes? || d.ending.applied
    ensures Applies(s, d) && Deliver(s, d).rows == Process(s.rows, d.action, d.world).rows
    ensures Deliver(s, d).rows.plans == s.rows.plans && RowEquals(Deliver(s, d).rows.subscriptions, x)
    ensures forall id :: Done(Deliver(s, d).log, id) <==> Done(s.log, id) || (d.ending.Completes? && id == d.eventId)
  {
    SyncWritesOneRow(s.rows, x, d.world);
    DeliverEffect(s, d);
    hide Process, Deliver, FindExternal;
  }

  /** One subscription has one row to find. */
  lemma OtherRow(subscriptions: seq<Subscription>, x: Subscription, y: Subscription)
    requires x != y && x.tenantId == y.tenantId && x.providerSubscriptionId == y.providerSubscriptionId
    ensures RowEquals(subscriptions, y) ==> !RowEquals(subscriptions, x)
  {
  }

  // ---- Redelivery of one event ------------------------------------------------------------------

  ghost predicate OneEvent(ds: seq<Delivery>, id: string, action: Action, unfiltered: nat) {
    forall i :: 0 <= i < |ds| ==>
      ds[i].eventId == id && ds[i].action == action && (Unfiltered(action) ==> ds[i].world.unfiltered == unfiltered)
  }

  /** The rows are those of the first application, if there is one. */
  predicate AppliedOnce(before: Rows, after: Rows, action: Action, e: seq<Delivery>) {
    if e == [] then after == before
    else Process(before, action, e[0].world).thrown.None? && after == Process(before, action, e[0].world).rows
  }

  /** However often one event fails or loses its mark, the rows are those of its first application. */
  lemma {:induction false} RedeliveredUntilMarked(s: State, ds: seq<Delivery>,
      id: string, action: Action, unfiltered: nat)
    requires OneEvent(ds, id, action, unfiltered)
    ensures OneEvent(Effective(s, ds), id, action, unfiltered)
    ensures AppliedOnce(s.rows, DeliverAll(s, ds).rows, action, Effective(s, ds))
    ensures Done(DeliverAll(s, ds).log, id) <==> Done(s.log, id) || Marks(Effective(s, ds), id)
  {
    hide Process, Deliver, Applies, Done, Unfiltered, OneEvent, AppliedOnce, Marks;
    ReplayAppliesUntilMarked(s, ds);
    if ds == [] {
      NoneOfOneEvent(s.rows, id, action, unfiltered);
    } else {
      var n := |ds| - 1;
      LastOfOneEvent(ds, id, action, unfiltered);
      RedeliveredUntilMarked(s, ds[..n], id, action, unfiltered);
      var b, d, e := DeliverAll(s, ds[..n]), ds[n], Effective(s, ds[..n]);
      DeliverEffect(b, d);
      AppliedReturns(b, d);
      if Applies(b, d) {
        MoreOfOneEvent(e, d, id, action, unfiltered);
        AppliedOnceMore(s.rows, b.rows, action, e, d, unfiltered, id);
      } else {
        assert Effective(s, ds) == e;
      }
    }
  }

  lemma NoneOfOneEvent(rows: Rows, id: string, action: Action, unfiltered: nat)
    ensures OneEvent([], id, action, unfiltered) && AppliedOnce(rows, rows, action, [])
  {
  }

  lemma LastOfOneEvent(ds: seq<Delivery>, id: string, action: Action, unfiltered: nat)
    requires ds != [] && OneEvent(ds, id, action, unfiltered)
    ensures OneEvent(ds[..|ds| - 1], id, action, unfiltered) && OneEvent([ds[|ds| - 1]], id, action, unfiltered)
    ensures ds[|ds| - 1].action == action
  {
  }

  lemma MoreOfOneEvent(e: seq<Delivery>, d: Delivery, id: string, action: Action, unfiltered: nat)
    requires OneEvent(e, id, action, unfiltered) && OneEvent([d], id, action, unfiltered)
    ensures OneEvent(e + [d], id, action, unfiltered)
  {
    assert [d][0] == d;
  }

  lemma AppliedOnceMore(before: Rows, after: Rows, action: Action, e: seq<Delivery>, d: Delivery,
                        unfiltered: nat, id: string)
    requires AppliedOnce(before, after, action, e) && OneEvent(e, id, action, unfiltered)
    requires OneEvent([d], id, action, unfiltered) && Process(after, action, d.world).thrown.None?
    ensures AppliedOnce(before, Process(after, action, d.world).rows, action, e + [d])
  {
    assert [d][0] == d;
    hide Process, Unfiltered;
    if e != [] {
      assert (e + [d])[0] == e[0];
      QuietAgain(before, action, e[0].world, d.world);
    }
  }

  lemma QuietAgain(rows: Rows, action: Action, world: World, again: World)
    requires Process(rows, action, world).thrown.None?
    requires Unfiltered(action) ==> again.unfiltered == world.unfiltered
    ensures Process(Process(rows, action, world).rows, action, again).rows == Process(rows, action, world).rows
  {
    UnfilteredIs(action);
    hide *;
    ReprocessingIsQuiet(rows, action, world, again);
  }

  lemma UnfilteredIs(action: Action)
    ensures Unfiltered(action) <==> (action.Settle? || action.Fail?) && action.orderId.None?
  {
  }
}
