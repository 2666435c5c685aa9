/**
 Payment initiation: keyed creation of transactions, one attempt per provider, and the result cache
 (src/modules/payment/orchestrator/payment-orchestrator.service.ts,
 src/modules/payment/transaction/transaction.service.ts).
 */
module Initiation {
  import opened Common
  import opened Ledger
  import opened Subscriptions
  import opened PaymentRows
  import opened Settlement
  import P = Protocol

  /** What a provider, and the insert of its attempt, comes to; the insert reads the clock for the expiry. */
  datatype ProviderAnswer = Creates(providerOrderId: string, expiresAt: int) | ProviderFails

  datatype Request = Request(
    tenantId: string, orderId: string, key: string, customerId: string, amount: int, currency: string,
    billing: Billing, providers: seq<Provider>)

  datatype PaymentOption = PaymentOption(provider: Provider, attemptId: nat)

  datatype Initiated = Initiated(transactionId: nat, options: seq<PaymentOption>)

  datatype CacheEntry = CacheEntry(result: Initiated, expiresAt: int)

  datatype State = State(rows: Rows, cache: map<string, CacheEntry>)

  // ---- Keyed creation ---------------------------------------------------------------------------

  function FindKey(ts: seq<Transaction>, tenantId: string, key: string): (i: nat)
    ensures i <= |ts|
    ensures i < |ts| ==> ts[i].tenantId == tenantId && ts[i].idempotencyKey == key
    ensures forall j :: 0 <= j < i ==> ts[j].tenantId != tenantId || ts[j].idempotencyKey != key
  {
    if ts == [] then 0
    else if ts[0].tenantId == tenantId && ts[0].idempotencyKey == key then 0
    else
      assert forall j :: 0 < j < |ts| ==> ts[j] == ts[1..][j - 1];
      1 + FindKey(ts[1..], tenantId, key)
  }

  predicate OrderTaken(ts: seq<Transaction>, tenantId: string, orderId: string) {
    exists i :: 0 <= i < |ts| && ts[i].tenantId == tenantId && ts[i].orderId == orderId
  }

  function NewTransaction(q: Request): Transaction {
    Transaction(q.tenantId, q.orderId, q.key, q.customerId, q.amount, q.currency, TransactionStatus.Pending, q.billing)
  }

  /** TransactionService.create: the transaction's id, and the table with it. */
  datatype Created = Created(transactions: seq<Transaction>, id: nat)

  function Create(ts: seq<Transaction>, q: Request): Result<Created> {
    var i := FindKey(ts, q.tenantId, q.key);
    if i < |ts| then Ok(Created(ts, i))
    else if OrderTaken(ts, q.tenantId, q.orderId) then Thrown(Conflict)
    else Ok(Created(ts + [NewTransaction(q)], |ts|))
  }

  // ---- One attempt per provider -----------------------------------------------------------------

  datatype Offer = Offer(attempts: seq<Attempt>, options: seq<PaymentOption>, failures: seq<Provider>)

  function AttemptFor(q: Request, t: nat, provider: Provider, providerOrderId: string, expiresAt: int): Attempt {
    Attempt(t, provider, providerOrderId, q.amount, q.currency, AttemptStatus.Pending, expiresAt)
  }

  /** The loop over the first `n` providers. */
  function Offered(q: Request, answers: seq<ProviderAnswer>, t: nat, attempts: seq<Attempt>, n: nat): Offer
    requires n <= |q.providers| == |answers|
  {
    if n == 0 then Offer(attempts, [], [])
    else
      var o, provider := Offered(q, answers, t, attempts, n - 1), q.providers[n - 1];
      match answers[n - 1]
      case Creates(orderId, expiresAt) =>
        Offer(o.attempts + [AttemptFor(q, t, provider, orderId, expiresAt)],
          o.options + [PaymentOption(provider, |o.attempts|)], o.failures)
      case ProviderFails => Offer(o.attempts, o.options, o.failures + [provider])
  }

  datatype Outcome = Outcome(state: State, reply: Result<Initiated>)

  predicate Live(cache: map<string, CacheEntry>, key: string, now: int) {
    key in cache && now < cache[key].expiresAt
  }

  function WithStatusOf(rows: Rows, t: nat, status: TransactionStatus): Rows {
    if t < |rows.transactions| then rows.(transactions := WithTransactionStatus(rows.transactions, t, status)) else rows
  }

  /** initiatePayment. The cache knows a key, not the tenant that used it. */
  function Initiate(s: State, q: Request, answers: seq<ProviderAnswer>, now: int, ttl: int): Outcome
    requires |q.providers| == |answers|
  {
    if Live(s.cache, q.key, now) then Outcome(s, Ok(s.cache[q.key].result))
    else match Create(s.rows.transactions, q)
      case Thrown(e) => Outcome(s, Thrown(e))
      case Ok(c) =>
        var o := Offered(q, answers, c.id, s.rows.attempts, |answers|);
        var rows := s.rows.(transactions := c.transactions, attempts := o.attempts);
        if o.options == []
        then Outcome(s.(rows := WithStatusOf(rows, c.id, TransactionStatus.Failed)), Thrown(ProvidersUnavailable))
        else
          var result := Initiated(c.id, o.options);
          Outcome(State(WithStatusOf(rows, c.id, TransactionStatus.Processing),
            s.cache[q.key := CacheEntry(result, now + ttl)]),
                  Ok(result))
  }

  // ---- The service ------------------------------------------------------------------------------

  class PaymentOrchestrator {
    const db: Database
    var cache: map<string, CacheEntry>

    constructor (db: Database)
      ensures this.db == db && cache == map[]
    {
      this.db := db;
      cache := map[];
    }

    method CreateTransaction(q: Request) returns (r: Result<nat>)
      modifies db`transactions
      ensures var c := Create(old(db.transactions), q);
              if c.Ok? then r == Ok(c.value.id) && db.transactions == c.value.transactions
              else r == Thrown(c.error) && db.transactions == old(db.transactions)
    {
      var i := FindKey(db.transactions, q.tenantId, q.key);
      if i < |db.transactions| {
        return Ok(i);
      }
      if OrderTaken(db.transactions, q.tenantId, q.orderId) {
        return Thrown(Conflict);
      }
      db.transactions := db.transactions + [NewTransaction(q)];
      return Ok(i);
    }

    method InitiatePayment(q: Request, answers: seq<ProviderAnswer>, now: int, ttl: int) returns (r: Result<Initiated>)
      requires |q.providers| == |answers|
      modifies this, db
      ensures Outcome(State(db.Contents(), cache), r)
          == Initiate(State(old(db.Contents()), old(cache)), q, answers, now, ttl)
    {
      hide FindKey, OrderTaken;
      if q.key in cache && now < cache[q.key].expiresAt {
        return Ok(cache[q.key].result);
      }
      var created := CreateTransaction(q);
      if created.Thrown? {
        return Thrown(created.error);
      }
      var t := created.value;
      var before := db.attempts;
      var options, failures := [], [];
      for i := 0 to |q.providers|
        invariant Offer(db.attempts, options, failures) == Offered(q, answers, t, before, i)
        invariant db.Contents() == old(db.Contents()).(transactions := db.transactions, attempts := db.attempts)
        invariant Create(old(db.transactions), q) == Ok(Created(db.transactions, t)) && t < |db.transactions|
        invariant cache == old(cache)
      {
        match answers[i] {
          case Creates(orderId, expiresAt) =>
            options := options + [PaymentOption(q.providers[i], |db.attempts|)];
            db.attempts := db.attempts + [AttemptFor(q, t, q.providers[i], orderId, expiresAt)];
          case ProviderFails =>
            failures := failures + [q.providers[i]];
        }
      }
      if options == [] {
        var failed := UpdateStatus(t, TransactionStatus.Failed);
        assert failed.Ok?;
        return Thrown(ProvidersUnavailable);
      }
      var processing := UpdateStatus(t, TransactionStatus.Processing);
      assert processing.Ok?;
      var result := Initiated(t, options);
      cache := cache[q.key := CacheEntry(result, now + ttl)];
      return Ok(result);
    }

    /** updateStatus; a missing row throws. */
    method UpdateStatus(t: nat, status: TransactionStatus) returns (r: Result<bool>)
      modifies db`transactions
      ensures db.Contents() == WithStatusOf(old(db.Contents()), t, status)
      ensures r == if t < |old(db.transactions)| then Ok(true) else Thrown(NotFound)
    {
      if t >= |db.transactions| {
        return Thrown(NotFound);
      }
      db.transactions := db.transactions[t := db.transactions[t].(status := status)];
      return Ok(true);
    }
  }

  // ---- Offers -----------------------------------------------------------------------------------

  predicate AllFail(answers: seq<ProviderAnswer>) {
    forall i :: 0 <= i < |answers| ==> answers[i].ProviderFails?
  }

  function OptionProviders(options: seq<PaymentOption>): multiset<Provider> {
    if options == [] then multiset{}
    else OptionProviders(options[..|options| - 1]) + multiset{options[|options| - 1].provider}
  }

  /** Each provider becomes one option or one failure. */
  lemma {:induction false} OffersPartitionProviders(q: Request,
      answers: seq<ProviderAnswer>, t: nat, attempts: seq<Attempt>, n: nat)
    requires n <= |q.providers| == |answers|
    ensures var o := Offered(q, answers, t, attempts, n);
            OptionProviders(o.options) + multiset(o.failures) == multiset(q.providers[..n])
  {
    hide *;
    if n == 0 {
      NoOffer(q, answers, t, attempts);
    } else {
      OffersPartitionProviders(q, answers, t, attempts, n - 1);
      LastOffer(q, answers, t, attempts, n);
      OneMoreElement(q.providers, n);
    }
  }

  lemma NoOffer(q: Request, answers: seq<ProviderAnswer>, t: nat, attempts: seq<Attempt>)
    requires |q.providers| == |answers|
    ensures Offered(q, answers, t, attempts, 0).failures == [] && q.providers[..0] == []
    ensures OptionProviders(Offered(q, answers, t, attempts, 0).options) == multiset{} == multiset(q.providers[..0])
  {
    assert q.providers[..0] == [];
  }

  lemma OneMoreElement(xs: seq<Provider>, n: nat)
    requires 0 < n <= |xs|
    ensures multiset(xs[..n]) == multiset(xs[..n - 1]) + multiset{xs[n - 1]}
  {
    assert xs[..n] == xs[..n - 1] + [xs[n - 1]];
  }

  /** Provider `n` - 1 joins the options or the failures. */
  lemma LastOffer(q: Request, answers: seq<ProviderAnswer>, t: nat, attempts: seq<Attempt>, n: nat)
    requires 0 < n <= |q.providers| == |answers|
    ensures var before, o := Offered(q, answers, t, attempts, n - 1), Offered(q, answers, t, attempts, n);
            OptionProviders(o.options) + multiset(o.failures)
            == OptionProviders(before.options) + multiset(before.failures) + multiset{q.providers[n - 1]}
  {
    var before, o := Offered(q, answers, t, attempts, n - 1), Offered(q, answers, t, attempts, n);
    var option := PaymentOption(q.providers[n - 1], |before.attempts|);
    if answers[n - 1].Creates? {
      assert o.options == before.options + [option] && o.failures == before.failures;
      OneMoreOption(before.options, option);
    } else {
      assert o.options == before.options && o.failures == before.failures + [q.providers[n - 1]];
    }
    hide *;
  }

  lemma OneMoreOption(options: seq<PaymentOption>, x: PaymentOption)
    ensures OptionProviders(options + [x]) == OptionProviders(options) + multiset{x.provider}
  {
    assert (options + [x])[..|options|] == options;
  }

  /** How many of the first `n` providers have made an order. */
  function Orders(answers: seq<ProviderAnswer>, n: nat): nat
    requires n <= |answers|
  {
    if n == 0 then 0 else Orders(answers, n - 1) + (if answers[n - 1].Creates? then 1 else 0)
  }

  /**
   Option `i` names the `i`-th new attempt, which belongs to the `i`-th provider that made an order: PENDING,
   of this transaction, with that provider, its order id and expiry, and the request's amount and currency.
   */
  ghost predicate OptionFits(q: Request, answers: seq<ProviderAnswer>, t: nat, attempts: seq<Attempt>,
      o: Offer, i: nat, k: nat)
    requires |q.providers| == |answers|
  {
    && i < |o.options| && |attempts| + i < |o.attempts| && k < |answers|
    && answers[k].Creates? && Orders(answers, k) == i
    && o.options[i].provider == q.providers[k] && o.options[i].attemptId == |attempts| + i
    && (var a := o.attempts[|attempts| + i];
        && a.transactionId == t && a.provider == q.providers[k] && a.status.Pending?
        && a.providerOrderId == answers[k].providerOrderId && a.expiresAt == answers[k].expiresAt
        && a.amount == q.amount && a.currency == q.currency)
  }

  ghost predicate Fits(q: Request, answers: seq<ProviderAnswer>, t: nat, attempts: seq<Attempt>,
      o: Offer, i: nat, n: nat)
    requires |q.providers| == |answers|
  {
    exists k: nat :: k < n && OptionFits(q, answers, t, attempts, o, i, k)
  }

  /** The options are the new attempts, in order, one for each provider that made an order. */
  lemma {:induction false} OptionsAreNewAttempts(q: Request,
      answers: seq<ProviderAnswer>, t: nat, attempts: seq<Attempt>, n: nat)
    requires n <= |q.providers| == |answers|
    ensures var o := Offered(q, answers, t, attempts, n);
            && |o.attempts| == |attempts| + |o.options| && attempts <= o.attempts
            && |o.options| == Orders(answers, n)
            && (forall i: nat :: i < |o.options| ==> Fits(q, answers, t, attempts, o, i, n))
            && (o.options == [] <==> AllFail(answers[..n]))
  {
    if n > 0 {
      OptionsAreNewAttempts(q, answers, t, attempts, n - 1);
      var before, o := Offered(q, answers, t, attempts, n - 1), Offered(q, answers, t, attempts, n);
      AllFailLast(answers, n);
      forall i: nat | i < |o.options|
        ensures Fits(q, answers, t, attempts, o, i, n)
      {
        if i < |before.options| {
          assert Fits(q, answers, t, attempts, before, i, n - 1);
          var k: nat :| k < n - 1 && OptionFits(q, answers, t, attempts, before, i, k);
          assert OptionFits(q, answers, t, attempts, o, i, k);
        } else {
          assert OptionFits(q, answers, t, attempts, o, i, n - 1);
        }
      }
    }
  }

  lemma AllFailLast(answers: seq<ProviderAnswer>, n: nat)
    requires 0 < n <= |answers|
    ensures AllFail(answers[..n]) <==> AllFail(answers[..n - 1]) && answers[n - 1].ProviderFails?
  {
    assert answers[..n] == answers[..n - 1] + [answers[n - 1]];
  }

  // ---- Keys and orders stay unique --------------------------------------------------------------

  /** The unique indexes on (tenantId, orderId) and (tenantId, idempotencyKey). */
  ghost predicate KeysUnique(ts: seq<Transaction>) {
    forall i, j :: 0 <= i < j < |ts| && ts[i].tenantId == ts[j].tenantId ==>
      ts[i].orderId != ts[j].orderId && ts[i].idempotencyKey != ts[j].idempotencyKey
  }

  lemma CreateKeepsUnique(ts: seq<Transaction>, q: Request)
    requires KeysUnique(ts) && Create(ts, q).Ok?
    ensures KeysUnique(Create(ts, q).value.transactions) && ts <= Create(ts, q).value.transactions
    ensures var c := Create(ts, q).value;
            && c.id < |c.transactions|
            && c.transactions[c.id].tenantId == q.tenantId && c.transactions[c.id].idempotencyKey == q.key
  {
  }

  lemma StatusKeepsUnique(rows: Rows, t: nat, status: TransactionStatus)
    requires KeysUnique(rows.transactions)
    ensures KeysUnique(WithStatusOf(rows, t, status).transactions)
  {
    assert forall i :: 0 <= i < |rows.transactions| ==>
        WithStatusOf(rows, t, status).transactions[i]
          == rows.transactions[i].(status := WithStatusOf(rows, t, status).transactions[i].status);
  }

  lemma InitiateKeepsUnique(s: State, q: Request, answers: seq<ProviderAnswer>, now: int, ttl: int)
    requires |q.providers| == |answers| && KeysUnique(s.rows.transactions)
    ensures KeysUnique(Initiate(s, q, answers, now, ttl).state.rows.transactions)
  {
    hide Create, Offered, WithStatusOf, KeysUnique;
    if Create(s.rows.transactions, q).Ok? {
      var c := Create(s.rows.transactions, q).value;
      CreateKeepsUnique(s.rows.transactions, q);
      var rows := s.rows.(transactions := c.transactions,
        attempts := Offered(q, answers, c.id, s.rows.attempts, |answers|).attempts);
      StatusKeepsUnique(rows, c.id, TransactionStatus.Failed);
      StatusKeepsUnique(rows, c.id, TransactionStatus.Processing);
    }
  }

  // ---- Retries ----------------------------------------------------------------------------------

  /** A retry while the result is cached returns the same result and changes nothing, whatever the providers
      would answer. */
  lemma CachedRetryReplays(s: State, q: Request, answers: seq<ProviderAnswer>,
      again: seq<ProviderAnswer>, now: int, later: int, ttl: int)
    requires |q.providers| == |answers| == |again|
    requires Initiate(s, q, answers, now, ttl).reply.Ok?
    requires later < Initiate(s, q, answers, now, ttl).state.cache[q.key].expiresAt
    ensures var first := Initiate(s, q, answers, now, ttl);
            Initiate(first.state, q, again, later, ttl) == first
  {
    hide Create, Offered, WithStatusOf;
  }

  /** The transaction of the request's key, if there is one. */
  function KeyedId(s: State, q: Request): nat {
    FindKey(s.rows.transactions, q.tenantId, q.key)
  }

  /**
   A retry that the cache no longer answers finds the transaction again: it adds no transaction and
   keeps the attempts, but adds one attempt per answering provider, and sets the status to PROCESSING
   or FAILED whatever it was before.
   */
  lemma UncachedRetryReopens(s: State, q: Request, answers: seq<ProviderAnswer>, now: int, ttl: int)
    requires |q.providers| == |answers| && !Live(s.cache, q.key, now) && KeyedId(s, q) < |s.rows.transactions|
    ensures var t, after := KeyedId(s, q), Initiate(s, q, answers, now, ttl);
            && after.state.rows.transactions
               == WithTransactionStatus(s.rows.transactions, t,
                                        if AllFail(answers) then TransactionStatus.Failed
                                          else TransactionStatus.Processing)
            && s.rows.attempts <= after.state.rows.attempts
            && after.state.rows.ledger == s.rows.ledger
            && (after.reply.Ok? <==> !AllFail(answers))
            && (after.reply.Ok? ==>
                  after.reply.value.transactionId == t
                  && |after.state.rows.attempts| == |s.rows.attempts| + |after.reply.value.options|)
  {
    var t := KeyedId(s, q);
    OptionsAreNewAttempts(q, answers, t, s.rows.attempts, |answers|);
    assert answers[..|answers|] == answers;
    hide FindKey, Offered, AllFail;
  }

  /** Another transaction of the tenant is for the order. */
  ghost predicate OrderUsed(ts: seq<Transaction>, q: Request) {
    exists i :: 0 <= i < |ts| && ts[i].tenantId == q.tenantId && ts[i].orderId == q.orderId
  }

  /**
   An initiation that the cache does not answer: refused, with nothing written, exactly when the key is new
   and the order is taken; else the key's transaction, or a new one with the request's fields, becomes
   PROCESSING or FAILED, every other transaction stays, and only a success is cached, for the lifetime.
   */
  lemma InitiateExactly(s: State, q: Request, answers: seq<ProviderAnswer>, now: int, ttl: int)
    requires |q.providers| == |answers| && !(q.key in s.cache && now < s.cache[q.key].expiresAt)
    ensures var ts, after, t := s.rows.transactions, Initiate(s, q, answers, now, ttl), KeyedId(s, q);
            var refused := t == |ts| && OrderUsed(ts, q);
            var rows := after.state.rows;
            && (after.reply == Thrown(Conflict) <==> refused)
            && (refused ==> after.state == s)
            && (!refused ==>
                  && after.reply == (if AllFail(answers) then Thrown(ProvidersUnavailable)
                                     else Ok(Initiated(t, Offered(q, answers, t, s.rows.attempts, |answers|).options)))
                  && rows == s.rows.(transactions := rows.transactions, attempts := rows.attempts)
                  && rows.attempts == Offered(q, answers, t, s.rows.attempts, |answers|).attempts
                  && |rows.transactions| == (if t == |ts| then |ts| + 1 else |ts|)
                  && (forall i :: 0 <= i < |ts| && i != t ==> rows.transactions[i] == ts[i])
                  && (var x := rows.transactions[t];
                      && (t < |ts| ==> x == ts[t].(status := x.status))
                      && (t == |ts| ==> x.tenantId == q.tenantId && x.orderId == q.orderId
                                        && x.idempotencyKey == q.key && x.customerId == q.customerId
                                        && x.amount == q.amount && x.currency == q.currency && x.billing == q.billing)
                      && (if AllFail(answers) then x.status.Failed? else x.status.Processing?))
                  && after.state.cache == if AllFail(answers) then s.cache
                                          else s.cache[q.key := CacheEntry(after.reply.value, now + ttl)])
  {
    OptionsAreNewAttempts(q, answers, KeyedId(s, q), s.rows.attempts, |answers|);
    assert answers[..|answers|] == answers;
    hide FindKey, Offered, AllFail;
  }

  /** A new transaction is PENDING; the unique order refuses it, and the key finds it again. */
  lemma CreateExactly(ts: seq<Transaction>, q: Request)
    ensures var r, t := Create(ts, q), FindKey(ts, q.tenantId, q.key);
            && (r == Thrown(Conflict) <==> t == |ts| && OrderUsed(ts, q))
            && (r.Ok? ==> r.value.id == t)
            && (t < |ts| ==> r.Ok? && r.value.transactions == ts)
            && (t == |ts| && r.Ok? ==>
                  |r.value.transactions| == |ts| + 1 && r.value.transactions[..|ts|] == ts
                  && r.value.transactions[t].status.Pending?
                  && FindKey(r.value.transactions, q.tenantId, q.key) == t)
  {
    var r, t := Create(ts, q), FindKey(ts, q.tenantId, q.key);
    if r.Ok? && t == |ts| {
      var after := r.value.transactions;
      var i := FindKey(after, q.tenantId, q.key);
      assert forall j :: 0 <= j < |ts| ==> after[j] == ts[j];
    }
  }

  /** A SUCCESS transaction keeps its status through a retry exactly when the result is still cached. */
  lemma RetryKeepsSuccessExactlyWhen(s: State, q: Request, answers: seq<ProviderAnswer>, now: int, ttl: int)
    requires |q.providers| == |answers| && KeyedId(s, q) < |s.rows.transactions|
    requires s.rows.transactions[KeyedId(s, q)].status.Success?
    ensures var after := Initiate(s, q, answers, now, ttl).state.rows.transactions;
            && |after| == |s.rows.transactions|
            && (after[KeyedId(s, q)].status.Success? <==> Live(s.cache, q.key, now))
  {
    if !Live(s.cache, q.key, now) {
      UncachedRetryReopens(s, q, answers, now, ttl);
      hide Initiate, FindKey;
    }
  }

  /** No initiation, first or repeated, disturbs settlement: SUCCESS attempts and PAYMENT entries stay as they are. */
  lemma InitiationKeepsSettled(s: State, q: Request, answers: seq<ProviderAnswer>, now: int, ttl: int)
    requires |q.providers| == |answers| && UniqueSuccess(s.rows.attempts) && P.Settled(s.rows)
    ensures var rows := Initiate(s, q, answers, now, ttl).state.rows;
            UniqueSuccess(rows.attempts) && P.Settled(rows)
  {
    var after := Initiate(s, q, answers, now, ttl).state.rows;
    if after != s.rows {
      var c := Create(s.rows.transactions, q).value;
      assert after.attempts == Offered(q, answers, c.id, s.rows.attempts, |answers|).attempts
        && after.ledger == s.rows.ledger;
      hide Initiate, Create, Offered, P.Settled, UniqueSuccess;
      NewAttemptsPending(q, answers, c.id, s.rows.attempts);
      P.SameSuccessesKeepUnique(s.rows.attempts, after.attempts);
      P.SameSuccessesKeepSettled(s.rows, after);
    }
  }

  lemma NewAttemptsPending(q: Request, answers: seq<ProviderAnswer>, t: nat, attempts: seq<Attempt>)
    requires |q.providers| == |answers|
    ensures P.SameSuccesses(attempts, Offered(q, answers, t, attempts, |answers|).attempts)
  {
    OptionsAreNewAttempts(q, answers, t, attempts, |answers|);
    var o := Offered(q, answers, t, attempts, |answers|);
    hide Offered;
    forall i | |attempts| <= i < |o.attempts|
      ensures !o.attempts[i].status.Success?
    {
      assert Fits(q, answers, t, attempts, o, i - |attempts|, |answers|);
    }
  }

  // ---- Runs -------------------------------------------------------------------------------------

  datatype Call = Call(q: Request, answers: seq<ProviderAnswer>, now: int, ttl: int)

  predicate ValidCalls(calls: seq<Call>) {
    forall i :: 0 <= i < |calls| ==> |calls[i].q.providers| == |calls[i].answers|
  }

  function RunCalls(s: State, calls: seq<Call>): State
    requires ValidCalls(calls)
  {
    if calls == [] then s
    else
      var c := calls[|calls| - 1];
      Initiate(RunCalls(s, calls[..|calls| - 1]), c.q, c.answers, c.now, c.ttl).state
  }

  lemma {:induction false} RunKeysUnique(s: State, calls: seq<Call>)
    requires ValidCalls(calls) && KeysUnique(s.rows.transactions)
    ensures KeysUnique(RunCalls(s, calls).rows.transactions)
  {
    hide Initiate, KeysUnique;
    if calls != [] {
      var n := |calls| - 1;
      RunKeysUnique(s, calls[..n]);
      InitiateKeepsUnique(RunCalls(s, calls[..n]), calls[n].q, calls[n].answers, calls[n].now, calls[n].ttl);
    }
  }

  /** Over any serial run of initiations, keys and orders stay unique per tenant and settlement is untouched. */
  lemma {:induction false} RunsKeepKeysUnique(s: State, calls: seq<Call>)
    requires ValidCalls(calls) && KeysUnique(s.rows.transactions)
    requires UniqueSuccess(s.rows.attempts) && P.Settled(s.rows)
    ensures KeysUnique(RunCalls(s, calls).rows.transactions)
    ensures UniqueSuccess(RunCalls(s, calls).rows.attempts) && P.Settled(RunCalls(s, calls).rows)
  {
    hide Initiate, KeysUnique, UniqueSuccess, P.Settled;
    RunKeysUnique(s, calls);
    if calls != [] {
      var n := |calls| - 1;
      RunsKeepKeysUnique(s, calls[..n]);
      var b, c := RunCalls(s, calls[..n]), calls[n];
      InitiationKeepsSettled(b, c.q, c.answers, c.now, c.ttl);
    }
  }

  // ---- Whose reply it is ------------------------------------------------------------------------

  /** The rows `before` with at most their status changed, and perhaps more rows. */
  ghost predicate SameOwners(before: seq<Transaction>, after: seq<Transaction>) {
    |before| <= |after|
    && forall i :: 0 <= i < |before| ==> after[i] == before[i].(status := after[i].status)
  }

  /** The call stores its own result. */
  predicate Stores(s: State, c: Call)
    requires |c.q.providers| == |c.answers|
  {
    !Live(s.cache, c.q.key, c.now) && Initiate(s, c.q, c.answers, c.now, c.ttl).reply.Ok?
  }

  /** The tenant of the last call that stored a result under the key. */
  function OwnerOf(s: State, calls: seq<Call>, key: string): Option<string>
    requires ValidCalls(calls)
  {
    if calls == [] then None
    else
      var n := |calls| - 1;
      if calls[n].q.key == key && Stores(RunCalls(s, calls[..n]), calls[n]) then Some(calls[n].q.tenantId)
      else OwnerOf(s, calls[..n], key)
  }

  /** The cached result under the key names a transaction that its owner created with the key. */
  predicate EntryOwned(s: State, key: string, owner: Option<string>) {
    && (key in s.cache <==> owner.Some?)
    && (key in s.cache ==>
          var t := s.cache[key].result.transactionId;
          t < |s.rows.transactions| && s.rows.transactions[t].tenantId == owner.value
          && s.rows.transactions[t].idempotencyKey == key)
  }

  /** A call that stores replies with the transaction of its own tenant and key, an old one or a new one. */
  lemma StoresOwn(s: State, c: Call)
    requires |c.q.providers| == |c.answers|
    ensures var after := Initiate(s, c.q, c.answers, c.now, c.ttl);
            var i := FindKey(s.rows.transactions, c.q.tenantId, c.q.key);
            && SameOwners(s.rows.transactions, after.state.rows.transactions)
            && (!Stores(s, c) ==> after.state.cache == s.cache)
            && (Stores(s, c) ==>
                  && i == after.reply.value.transactionId < |after.state.rows.transactions|
                  && after.state.cache == s.cache[c.q.key := CacheEntry(after.reply.value, c.now + c.ttl)]
                  && after.state.rows.transactions[i].tenantId == c.q.tenantId
                  && after.state.rows.transactions[i].idempotencyKey == c.q.key
                  && after.state.rows.transactions[i].orderId
                     == (if i < |s.rows.transactions| then s.rows.transactions[i].orderId else c.q.orderId))
  {
    hide FindKey, OrderTaken, Offered;
  }

  lemma EntryStep(s: State, c: Call, key: string, owner: Option<string>)
    requires |c.q.providers| == |c.answers| && EntryOwned(s, key, owner)
    ensures EntryOwned(Initiate(s, c.q, c.answers, c.now, c.ttl).state, key,
                       if c.q.key == key && Stores(s, c) then Some(c.q.tenantId) else owner)
  {
    StoresOwn(s, c);
    hide Initiate, FindKey, Stores;
  }

  lemma {:induction false} RunOwns(s: State, calls: seq<Call>, key: string)
    requires ValidCalls(calls) && s.cache == map[]
    ensures EntryOwned(RunCalls(s, calls), key, OwnerOf(s, calls, key))
  {
    if calls != [] {
      var n := |calls| - 1;
      RunOwns(s, calls[..n], key);
      EntryStep(RunCalls(s, calls[..n]), calls[n], key, OwnerOf(s, calls[..n], key));
    }
    hide Initiate, Stores;
  }

  /**
   After any serial run from an empty cache, a reply names a transaction of the caller's own tenant and
   order exactly when a live entry of the key, if there is one, was stored by that tenant, and the
   tenant's transaction of the key, if there is one, is for that order. The cache key has no tenant
   and keyed creation does not compare the order.
   */
  lemma ReplyIsOwnExactlyWhen(s: State, calls: seq<Call>, c: Call)
    requires ValidCalls(calls) && s.cache == map[] && KeysUnique(s.rows.transactions)
    requires |c.q.providers| == |c.answers|
    ensures var b := RunCalls(s, calls);
            var after := Initiate(b, c.q, c.answers, c.now, c.ttl);
            var mine, ts := KeyedId(b, c.q), after.state.rows.transactions;
            after.reply.Ok? ==>
              && after.reply.value.transactionId < |ts|
              && (ts[after.reply.value.transactionId].tenantId == c.q.tenantId
                  && ts[after.reply.value.transactionId].orderId == c.q.orderId
                  <==>
                  && (Live(b.cache, c.q.key, c.now) ==> OwnerOf(s, calls, c.q.key) == Some(c.q.tenantId))
                  && (mine < |b.rows.transactions| ==> b.rows.transactions[mine].orderId == c.q.orderId))
  {
    var b := RunCalls(s, calls);
    RunOwns(s, calls, c.q.key);
    RunKeysUnique(s, calls);
    StoresOwn(b, c);
    if Live(b.cache, c.q.key, c.now) {
      CachedReply(b, c);
      var t := b.cache[c.q.key].result.transactionId;
      if b.rows.transactions[t].tenantId == c.q.tenantId {
        KeyedIs(b.rows.transactions, c.q, t);
      }
    }
    hide Initiate, FindKey, RunCalls, OwnerOf, KeysUnique;
  }

  lemma CachedReply(s: State, c: Call)
    requires |c.q.providers| == |c.answers| && Live(s.cache, c.q.key, c.now)
    ensures Initiate(s, c.q, c.answers, c.now, c.ttl) == Outcome(s, Ok(s.cache[c.q.key].result))
  {
  }

  lemma KeyedIs(ts: seq<Transaction>, q: Request, t: nat)
    requires KeysUnique(ts) && t < |ts| && ts[t].tenantId == q.tenantId && ts[t].idempotencyKey == q.key
    ensures FindKey(ts, q.tenantId, q.key) == t
  {
    var i := FindKey(ts, q.tenantId, q.key);
    assert i <= t;
  }
}
