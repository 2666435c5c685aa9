/**
 The idempotency interceptor (src/common/interceptors/idempotency.interceptor.ts): a response cache and
 a timed lock per key, in Redis. Times are milliseconds. A key is the SHA-256 digest of the request's
 header, and digests are taken to be distinct for distinct headers.
 */
module Idempotency {
  import opened Common

  const LOCK_MS: int := 30_000
  const ERROR_MS: int := 300_000

  /** What the handler of a request comes to. */
  datatype Answer = Success(body: string) | HttpError(status: int, body: string) | OtherError

  /** The cached form of a response, as the interceptor serialises it. */
  datatype Cached = Cached(isError: bool, statusCode: int, body: string)

  datatype Entry = Entry(cached: Cached, expiresAt: int)

  predicate Cacheable(a: Answer) {
    a.Success? || (a.HttpError? && a.status < 500)
  }

  function CachedForm(a: Answer): Cached
    requires Cacheable(a)
  {
    if a.Success? then Cached(false, 200, a.body) else Cached(true, a.status, a.body)
  }

  function EntryOf(a: Answer, ttl: int, now: int): Entry
    requires Cacheable(a)
  {
    Entry(CachedForm(a), now + (if a.Success? then ttl else ERROR_MS))
  }

  /** The two Redis entries of one idempotency key. */
  datatype Key = Key(cache: Option<Entry>, lock: Option<int>)

  /** Redis forgets an entry when its expiry time comes. */
  predicate Hit(k: Key, now: int) {
    k.cache.Some? && now < k.cache.value.expiresAt
  }

  predicate Locked(k: Key, now: int) {
    k.lock.Some? && now < k.lock.value
  }

  // ---- Requests of one key, step by step --------------------------------------------------------

  datatype Phase =
    | Missed
    | Running(since: int)
    | Storing(since: int, answer: Answer)
    | Unlocking(since: int)
    | Replayed
    | Refused
    | Finished
    | Dead

  /** A request's id is its index; `ttl` is the configured lifetime of a success. */
  datatype State = State(ttl: int, now: int, key: Key, requests: seq<Phase>)

  datatype Event =
    | Tick(ms: nat)
    | Read
    | TryLock(r: nat)
    | HandlerEnds(r: nat, answer: Answer)
    | Store(r: nat)
    | Unlock(r: nat)
    | Die(r: nat)

  function Enter(s: State, r: nat, p: Phase): State
    requires r < |s.requests|
  {
    s.(requests := s.requests[r := p])
  }

  predicate Active(p: Phase) {
    p.Running? || p.Storing? || p.Unlocking?
  }

  /** One step; a step that its request's phase does not allow changes nothing. */
  function Step(s: State, e: Event): State {
    match e
    case Tick(ms) => s.(now := s.now + ms)
    case Read => s.(requests := s.requests + [if Hit(s.key, s.now) then Replayed else Missed])
    case TryLock(r) =>
      if r >= |s.requests| || !s.requests[r].Missed? then s
      else if Locked(s.key, s.now) then Enter(s, r, Refused)
      else Enter(s, r, Running(s.now)).(key := s.key.(lock := Some(s.now + LOCK_MS)))
    case HandlerEnds(r, answer) =>
      if r >= |s.requests| || !s.requests[r].Running? then s
      else Enter(s, r, if Cacheable(answer) then Storing(s.requests[r].since, answer)
        else Unlocking(s.requests[r].since))
    case Store(r) =>
      if r >= |s.requests| || !s.requests[r].Storing? || !Cacheable(s.requests[r].answer) then s
      else Enter(s, r, Unlocking(s.requests[r].since))
        .(key := s.key.(cache := Some(EntryOf(s.requests[r].answer, s.ttl, s.now))))
    case Unlock(r) =>
      if r >= |s.requests| || !s.requests[r].Unlocking? then s
      else Enter(s, r, Finished).(key := s.key.(lock := None))
    case Die(r) => if r < |s.requests| then Enter(s, r, Dead) else s
  }

  function Run(s: State, es: seq<Event>): State {
    if es == [] then s else Step(Run(s, es[..|es| - 1]), es[|es| - 1])
  }

  // ---- At most one request runs -----------------------------------------------------------------

  /** Every request that holds the lock is still within 30 seconds of taking it. */
  ghost predicate Prompt(s: State) {
    forall r :: 0 <= r < |s.requests| && Active(s.requests[r]) ==> s.now < s.requests[r].since + LOCK_MS
  }

  ghost predicate AlwaysPrompt(s: State, es: seq<Event>) {
    Prompt(Run(s, es)) && (es == [] || AlwaysPrompt(s, es[..|es| - 1]))
  }

  /** The one running request, if any, set the lock that stands. */
  ghost predicate Guarded(s: State) {
    && (forall r :: 0 <= r < |s.requests| && Active(s.requests[r])
         ==> s.key.lock == Some(s.requests[r].since + LOCK_MS))
    && (forall q, r ::
          0 <= q < |s.requests| && 0 <= r < |s.requests| && Active(s.requests[q]) && Active(s.requests[r]) ==> q == r)
  }

  lemma StepStaysGuarded(s: State, e: Event)
    requires Guarded(s) && Prompt(s)
    ensures Guarded(Step(s, e))
  {
  }

  /** If every handler finishes its Redis writes within 30 seconds of the lock, at most one request runs at any time. */
  lemma {:induction false} PromptRunsAlone(s: State, es: seq<Event>)
    requires Guarded(s) && AlwaysPrompt(s, es)
    ensures Guarded(Run(s, es))
  {
    if es != [] {
      var n := |es| - 1;
      PromptRunsAlone(s, es[..n]);
      assert AlwaysPrompt(s, es[..n]) && Prompt(Run(s, es[..n])) by {
        assert n == 0 ==> es[..n] == [];
      }
      StepStaysGuarded(Run(s, es[..n]), es[n]);
    }
  }

  /** Two requests run at once at the end of the run, `r` among them. */
  ghost predicate Overlap(s: State, es: seq<Event>, r: nat) {
    var b := Run(s, es);
    r < |b.requests| && Active(b.requests[r]) && exists q :: RunsToo(b, r, q)
  }

  ghost predicate RunsToo(s: State, r: nat, q: nat) {
    q != r && q < |s.requests| && Active(s.requests[q])
  }

  /** The request has held the lock, and may have ended since. */
  predicate Began(p: Phase) {
    Active(p) || p.Finished? || p.Dead?
  }

  lemma BeganStays(s: State, e: Event, r: nat)
    requires r < |s.requests| && Began(s.requests[r])
    ensures r < |Step(s, e).requests| && Began(Step(s, e).requests[r])
    ensures Active(Step(s, e).requests[r])
        ==> Active(s.requests[r]) && Step(s, e).requests[r].since == s.requests[r].since
  {
  }

  /** While a request runs within its 30 seconds it stays the only one, whatever the others do. */
  lemma {:induction false} AloneWithinLock(s: State, es: seq<Event>, r: nat)
    requires Guarded(s) && r < |s.requests| && Active(s.requests[r])
    ensures r < |Run(s, es).requests| && Began(Run(s, es).requests[r])
    ensures Active(Run(s, es).requests[r]) ==> Run(s, es).requests[r].since == s.requests[r].since
    ensures Active(Run(s, es).requests[r]) && Run(s, es).now < s.requests[r].since + LOCK_MS ==> Guarded(Run(s, es))
  {
    hide Guarded, Step;
    if es != [] {
      var n := |es| - 1;
      AloneWithinLock(s, es[..n], r);
      var b := Run(s, es[..n]);
      BeganStays(b, es[n], r);
      ClockSteps(b, es[n]);
      if Active(Run(s, es).requests[r]) && Run(s, es).now < s.requests[r].since + LOCK_MS {
        LoneRunnerIsPrompt(b, r);
        StepStaysGuarded(b, es[n]);
      }
    }
  }

  lemma LoneRunnerIsPrompt(s: State, r: nat)
    requires Guarded(s) && r < |s.requests| && Active(s.requests[r]) && s.now < s.requests[r].since + LOCK_MS
    ensures Prompt(s)
  {
  }

  lemma LoneRunner(s: State, r: nat, q: nat)
    requires Guarded(s) && r < |s.requests| && Active(s.requests[r])
    ensures !RunsToo(s, r, q)
  {
  }

  /**
   Beside a running request another can be running within the next `ms` milliseconds, in some run of
   all requests' steps, exactly when these reach 30 seconds after the first took the lock.
   */
  lemma OverlapPossibleExactlyWhen(s: State, r: nat, q: nat, ms: nat)
    requires Guarded(s) && r < |s.requests| && Active(s.requests[r])
    requires q < |s.requests| && s.requests[q].Missed?
    ensures (exists es :: Run(s, es).now <= s.now + ms && Overlap(s, es, r))
        <==> s.now + ms >= s.requests[r].since + 30 * 1000
  {
    if s.now + ms >= s.requests[r].since + LOCK_MS {
      var es := [Tick(ms)] + [TryLock(q)];
      RunOne(s, Tick(ms));
      RunAppend(s, [Tick(ms)], TryLock(q));
      assert RunsToo(Run(s, es), r, q);
    } else {
      forall es | Run(s, es).now <= s.now + ms
        ensures !Overlap(s, es, r)
      {
        AloneWithinLock(s, es, r);
        hide Run, Guarded, Active, RunsToo;
        if r < |Run(s, es).requests| && Active(Run(s, es).requests[r]) {
          forall q2: nat
            ensures !RunsToo(Run(s, es), r, q2)
          {
            LoneRunner(Run(s, es), r, q2);
          }
        }
      }
    }
  }

  /**
   DEL does not ask whose lock it removes: after one slow request, two prompt requests run together,
   each less than 30 seconds after taking the lock.
   */
  lemma SlowRequestUnlocksAnother(s: State)
    requires s.requests == [Missed, Missed, Missed] && s.key == Key(None, None)
    ensures var es := [TryLock(0), Tick(LOCK_MS), TryLock(1)] + [HandlerEnds(0, OtherError), Unlock(0), TryLock(2)];
            var b := Run(s, es);
            b.requests == [Finished, Running(b.now), Running(b.now)]
  {
    var first := [TryLock(0), Tick(LOCK_MS), TryLock(1)];
    RunThree(s, [], TryLock(0), Tick(LOCK_MS), TryLock(1));
    assert [] + first == first;
    RunThree(s, first, HandlerEnds(0, OtherError), Unlock(0), TryLock(2));
    ExpiredLockTaken(s);
    hide Run, Step;
    OwnerlessUnlock(Step(Step(Step(s, TryLock(0)), Tick(LOCK_MS)), TryLock(1)));
  }

  lemma ExpiredLockTaken(s: State)
    requires s.requests == [Missed, Missed, Missed] && s.key == Key(None, None)
    ensures var now := s.now + LOCK_MS;
            Step(Step(Step(s, TryLock(0)), Tick(LOCK_MS)), TryLock(1))
            == State(s.ttl, now, Key(None, Some(now + LOCK_MS)), [Running(s.now), Running(now), Missed])
  {
    var s2 := Step(Step(s, TryLock(0)), Tick(LOCK_MS));
    assert s2 == State(s.ttl, s.now + LOCK_MS, Key(None, Some(s.now + LOCK_MS)), [Running(s.now), Missed, Missed]);
  }

  lemma OwnerlessUnlock(s: State)
    requires |s.requests| == 3 && s.requests[0].Running? && s.requests[1] == Running(s.now) && s.requests[2].Missed?
    ensures Step(Step(Step(s, HandlerEnds(0, OtherError)), Unlock(0)), TryLock(2)).requests
         == [Finished, Running(s.now), Running(s.now)]
    ensures Step(Step(Step(s, HandlerEnds(0, OtherError)), Unlock(0)), TryLock(2)).now == s.now
  {
    var s2 := Step(Step(s, HandlerEnds(0, OtherError)), Unlock(0));
    assert s2 == State(s.ttl, s.now, s.key.(lock := None), [Finished, Running(s.now), Missed]);
  }

  lemma RunAppend(s: State, es: seq<Event>, e: Event)
    ensures Run(s, es + [e]) == Step(Run(s, es), e)
  {
    assert (es + [e])[..|es|] == es;
  }

  lemma RunThree(s: State, es: seq<Event>, a: Event, b: Event, c: Event)
    ensures Run(s, es + [a, b, c]) == Step(Step(Step(Run(s, es), a), b), c)
  {
    hide *;
    RunAppend(s, es, a);
    RunAppend(s, es + [a], b);
    RunAppend(s, es + [a] + [b], c);
    assert es + [a, b, c] == es + [a] + [b] + [c];
  }

  lemma RunThrice(s: State, a: Event, b: Event, c: Event, d: Event, e: Event, f: Event, g: Event, h: Event, i: Event)
    ensures Run(s, [a, b, c] + [d, e, f] + [g, h, i])
         == Step(Step(Step(Step(Step(Step(Step(Step(Step(s, a), b), c), d), e), f), g), h), i)
  {
    hide Step;
    RunThree(s, [], a, b, c);
    assert [] + [a, b, c] == [a, b, c];
    RunThree(s, [a, b, c], d, e, f);
    RunThree(s, [a, b, c] + [d, e, f], g, h, i);
  }

  // ---- After a stored response ------------------------------------------------------------------

  /** A store by one of the first `n` requests, those that had read the cache before. */
  predicate EarlyStore(s: State, e: Event, n: nat) {
    e.Store? && e.r < n && Step(s, e) != s
  }

  ghost predicate NoEarlyStore(s: State, es: seq<Event>, n: nat) {
    es == [] || (NoEarlyStore(s, es[..|es| - 1], n) && !EarlyStore(Run(s, es[..|es| - 1]), es[|es| - 1], n))
  }

  /** Requests from `n` on were answered from the cache (or died). */
  ghost predicate LaterReplayed(s: State, n: nat) {
    forall r :: n <= r < |s.requests| ==> s.requests[r].Replayed? || s.requests[r].Dead?
  }

  lemma {:induction false} ClockAdvances(s: State, es: seq<Event>)
    ensures s.now <= Run(s, es).now && |s.requests| <= |Run(s, es).requests| && Run(s, es).ttl == s.ttl
  {
    if es != [] {
      ClockAdvances(s, es[..|es| - 1]);
    }
  }

  /**
   While a stored response lives, every request that reads after it is replayed and never runs, until
   some request that had read the cache before the store overwrites the response.
   */
  lemma {:induction false} StoredResponseIsReplayed(s: State, es: seq<Event>)
    requires s.key.cache.Some? && Run(s, es).now < s.key.cache.value.expiresAt
    requires NoEarlyStore(s, es, |s.requests|)
    ensures Run(s, es).key.cache == s.key.cache
    ensures LaterReplayed(Run(s, es), |s.requests|)
  {
    if es != [] {
      var n := |es| - 1;
      var b := Run(s, es[..n]);
      assert b.now <= Step(b, es[n]).now;
      StoredResponseIsReplayed(s, es[..n]);
      ClockAdvances(s, es[..n]);
    }
  }

  // ---- Within the lifetime of a success ---------------------------------------------------------

  /** A success has just been stored, by a request that still holds the lock. */
  predicate JustStored(s: State, r: nat) {
    && r < |s.requests| && s.requests[r].Unlocking?
    && s.key.cache.Some? && !s.key.cache.value.cached.isError && s.key.cache.value.expiresAt == s.now + s.ttl
  }

  /** The request may yet store a client error. */
  predicate MayFail(p: Phase) {
    p.Missed? || p.Running? || (p.Storing? && p.answer.HttpError? && p.answer.status < 500)
  }

  ghost predicate NoneMayFail(s: State) {
    forall r :: 0 <= r < |s.requests| ==> !MayFail(s.requests[r])
  }

  /** In every run that ends within the lifetime of the stored response, every later reader is replayed. */
  ghost predicate LifetimeHeld(s: State)
    requires s.key.cache.Some?
  {
    forall es :: Run(s, es).now < s.key.cache.value.expiresAt ==> LaterReplayed(Run(s, es), |s.requests|)
  }

  /** The cache answers until the time `end`. */
  predicate AnswersUntil(s: State, end: int) {
    s.key.cache.Some? && s.key.cache.value.expiresAt >= end
  }

  /** Nobody can store an error, or errors live as long as the success does. */
  ghost predicate Safe(s: State, end: int, n: nat) {
    && n <= |s.requests| && AnswersUntil(s, end) && LaterReplayed(s, n)
    && (s.ttl <= ERROR_MS || NoneMayFail(s))
  }

  lemma SafeStep(s: State, e: Event, start: int, n: nat)
    requires start <= s.now && Safe(s, start + s.ttl, n) && Step(s, e).now < start + s.ttl
    ensures Safe(Step(s, e), start + s.ttl, n)
  {
  }

  lemma {:induction false} SafeRun(s: State, es: seq<Event>, start: int, n: nat)
    requires start <= s.now && Safe(s, start + s.ttl, n) && Run(s, es).now < start + s.ttl
    ensures Safe(Run(s, es), start + s.ttl, n)
  {
    hide Safe;
    if es != [] {
      var b := Run(s, es[..|es| - 1]);
      ClockAdvances(s, es[..|es| - 1]);
      ClockSteps(b, es[|es| - 1]);
      hide Step;
      SafeRun(s, es[..|es| - 1], start, n);
      SafeStep(b, es[|es| - 1], start, n);
    }
  }

  lemma ClockSteps(s: State, e: Event)
    ensures s.now <= Step(s, e).now
  {
  }

  /** A client error, stored now and left to expire, opens the key to the next reader. */
  lemma ErrorOpensKey(s: State, q: nat, a: Answer) returns (es: seq<Event>)
    requires q < |s.requests| && s.requests[q].Storing? && s.requests[q].answer == a && a.HttpError? && a.status < 500
    ensures Run(s, es).now == s.now + ERROR_MS && |Run(s, es).requests| == |s.requests| + 1
    ensures Run(s, es).requests[|s.requests|].Missed?
  {
    es := [Store(q), Tick(ERROR_MS), Read];
    RunThree(s, [], Store(q), Tick(ERROR_MS), Read);
    assert [] + [Store(q), Tick(ERROR_MS), Read] == es;
    hide Run;
    var stored := Step(s, Store(q));
    assert stored.key.cache == Some(EntryOf(a, s.ttl, s.now)) && |stored.requests| == |s.requests|;
  }

  /** A running request fails with a client error. */
  lemma RunningOpensKey(s: State, q: nat) returns (es: seq<Event>)
    requires q < |s.requests| && s.requests[q].Running?
    ensures Run(s, es).now == s.now + ERROR_MS && |Run(s, es).requests| == |s.requests| + 1
    ensures Run(s, es).requests[|s.requests|].Missed?
  {
    var error := HttpError(400, "");
    var ended := Step(s, HandlerEnds(q, error));
    var more := ErrorOpensKey(ended, q, error);
    es := [HandlerEnds(q, error)] + more;
    RunOne(s, HandlerEnds(q, error));
    RunSplit(s, [HandlerEnds(q, error)], more);
  }

  /** A request that missed the cache takes the lock once the storing one frees it. */
  lemma MissedOpensKey(s: State, r: nat, q: nat) returns (es: seq<Event>)
    requires r < |s.requests| && s.requests[r].Unlocking? && q < |s.requests| && s.requests[q].Missed?
    ensures Run(s, es).now == s.now + ERROR_MS && |Run(s, es).requests| == |s.requests| + 1
    ensures Run(s, es).requests[|s.requests|].Missed?
  {
    var locked := Step(Step(s, Unlock(r)), TryLock(q));
    assert locked.requests[q].Running? && |locked.requests| == |s.requests| && locked.now == s.now;
    var more := RunningOpensKey(locked, q);
    es := [Unlock(r)] + [TryLock(q)] + more;
    RunOne(s, Unlock(r));
    RunAppend(s, [Unlock(r)], TryLock(q));
    RunSplit(s, [Unlock(r)] + [TryLock(q)], more);
  }

  lemma RunOne(s: State, e: Event)
    ensures Run(s, [e]) == Step(s, e)
  {
    assert [e][..0] == [];
  }

  lemma {:induction false} RunSplit(s: State, es: seq<Event>, fs: seq<Event>)
    ensures Run(s, es + fs) == Run(Run(s, es), fs)
  {
    hide Step;
    if fs == [] {
      assert es + fs == es;
    } else {
      RunSplit(s, es, fs[..|fs| - 1]);
      assert (es + fs)[..|es + fs| - 1] == es + fs[..|fs| - 1];
    }
  }

  /**
   Just after a success is stored: in every run within its lifetime every later reader is replayed,
   exactly when no request has still to decide, or is about to store, a client error; or errors live
   as long as successes. Otherwise the 300 seconds of an error replace the lifetime of the success.
   */
  lemma LifetimeHeldExactlyWhen(s: State, r: nat)
    requires JustStored(s, r)
    ensures LifetimeHeld(s) <==> s.ttl <= ERROR_MS || NoneMayFail(s)
  {
    var n := |s.requests|;
    if s.ttl <= ERROR_MS || NoneMayFail(s) {
      assert Safe(s, s.now + s.ttl, n);
      forall es | Run(s, es).now < s.key.cache.value.expiresAt
        ensures LaterReplayed(Run(s, es), n)
      {
        SafeRun(s, es, s.now, n);
      }
    } else {
      var q :| 0 <= q < n && MayFail(s.requests[q]);
      hide Run, Step;
      var es := OpeningRun(s, r, q);
      assert !LaterReplayed(Run(s, es), n);
    }
  }

  lemma OpeningRun(s: State, r: nat, q: nat) returns (es: seq<Event>)
    requires r < |s.requests| && s.requests[r].Unlocking? && q < |s.requests| && MayFail(s.requests[q])
    ensures Run(s, es).now == s.now + ERROR_MS && |Run(s, es).requests| == |s.requests| + 1
    ensures Run(s, es).requests[|s.requests|].Missed?
  {
    hide Run, Step;
    if s.requests[q].Missed? {
      es := MissedOpensKey(s, r, q);
    } else if s.requests[q].Running? {
      es := RunningOpensKey(s, q);
    } else {
      es := ErrorOpensKey(s, q, s.requests[q].answer);
    }
  }

  lemma SuccessFrees(s: State, body: string)
    requires s.requests == [Storing(s.now, Success(body)), Missed]
    ensures Step(Step(s, Store(0)), Unlock(0))
         == State(s.ttl, s.now, Key(Some(EntryOf(Success(body), s.ttl, s.now)), None), [Finished, Missed])
  {
  }

  lemma ErrorReplaces(s: State, error: Answer)
    requires s.requests == [Finished, Missed] && s.key.lock == None && Cacheable(error)
    ensures Step(Step(Step(Step(s, TryLock(1)), HandlerEnds(1, error)), Store(1)), Unlock(1))
         == State(s.ttl, s.now, Key(Some(EntryOf(error, s.ttl, s.now)), None), [Finished, Finished])
  {
    var s2 := Step(Step(s, TryLock(1)), HandlerEnds(1, error));
    assert s2 == State(s.ttl, s.now, s2.key, [Finished, Storing(s.now, error)]);
  }

  /**
   For instance, a request that missed the cache before a success was stored takes the lock after
   it, fails with a client error, and 300 seconds later a new request with the same key runs again.
   */
  lemma ErrorStoreReopensKey(s: State, body: string)
    requires s.requests == [Storing(s.now, Success(body)), Missed] && s.key == Key(None, Some(s.now + LOCK_MS))
    ensures var es := [Store(0), Unlock(0), TryLock(1)] + [HandlerEnds(1, HttpError(400, body)), Store(1), Unlock(1)]
                      + [Tick(ERROR_MS), Read, TryLock(2)];
            var b := Run(s, es);
            b.requests == [Finished, Finished, Running(b.now)] && b.now == s.now + ERROR_MS
  {
    var error := HttpError(400, body);
    RunThrice(s, Store(0), Unlock(0), TryLock(1), HandlerEnds(1, error),
      Store(1), Unlock(1), Tick(ERROR_MS), Read, TryLock(2));
    hide Run;
    SuccessFrees(s, body);
    ErrorReplaces(Step(Step(s, Store(0)), Unlock(0)), error);
    var s6 := Step(Step(Step(Step(Step(Step(s, Store(0)), Unlock(0)), TryLock(1)), HandlerEnds(1, error)), Store(1)),
      Unlock(1));
    var s8 := Step(Step(s6, Tick(ERROR_MS)), Read);
    assert s8 == State(s.ttl, s.now + ERROR_MS, s6.key, [Finished, Finished, Missed]);
  }

  // ---- Reading and locking together -------------------------------------------------------------

  /** The run if the cache read and the lock took effect together: each Read is followed by its TryLock. */
  function Atomically(s: State, es: seq<Event>): State {
    if es == [] then s
    else
      var b := Atomically(s, es[..|es| - 1]);
      var e := es[|es| - 1];
      if e.Read? then Step(Step(b, Read), TryLock(|b.requests|)) else Step(b, e)
  }

  ghost predicate AtomicallyPrompt(s: State, es: seq<Event>) {
    Prompt(Atomically(s, es)) && (es == [] || AtomicallyPrompt(s, es[..|es| - 1]))
  }

  /** No request waits between its read and its lock. */
  ghost predicate NoneWaiting(s: State) {
    forall r :: 0 <= r < |s.requests| ==> !s.requests[r].Missed?
  }

  /** No running request is about to store. */
  ghost predicate NobodyStores(s: State) {
    forall r :: 0 <= r < |s.requests| ==> !s.requests[r].Running? && !s.requests[r].Storing? && !s.requests[r].Missed?
  }

  lemma AtomicStep(s: State, e: Event)
    requires Guarded(s) && Prompt(s) && NoneWaiting(s)
    ensures var b := if e.Read? then Step(Step(s, Read), TryLock(|s.requests|)) else Step(s, e);
            Guarded(b) && NoneWaiting(b)
  {
    if e.Read? {
      StepStaysGuarded(s, Read);
      var read := Step(s, Read);
      assert Prompt(read);
      StepStaysGuarded(read, TryLock(|s.requests|));
    } else {
      StepStaysGuarded(s, e);
    }
  }

  lemma {:induction false} AtomicRunsAlone(s: State, es: seq<Event>)
    requires Guarded(s) && NoneWaiting(s) && AtomicallyPrompt(s, es)
    ensures Guarded(Atomically(s, es)) && NoneWaiting(Atomically(s, es))
  {
    if es != [] {
      var n := |es| - 1;
      assert AtomicallyPrompt(s, es[..n]) && Prompt(Atomically(s, es[..n])) by {
        assert n == 0 ==> es[..n] == [];
      }
      AtomicRunsAlone(s, es[..n]);
      AtomicStep(Atomically(s, es[..n]), es[n]);
    }
  }

  /** While the response lives and nobody is about to store, nothing is stored and nobody starts to run. */
  lemma {:induction false} NothingElseStores(s: State, es: seq<Event>)
    requires NobodyStores(s) && s.key.cache.Some? && Atomically(s, es).now < s.key.cache.value.expiresAt
    ensures NobodyStores(Atomically(s, es)) && Atomically(s, es).key.cache == s.key.cache
  {
    if es != [] {
      var n := |es| - 1;
      var b := Atomically(s, es[..n]);
      assert b.now <= Atomically(s, es).now;
      NothingElseStores(s, es[..n]);
    }
  }

  /**
   With the read and the lock together, and every handler within its 30 seconds, a stored response is
   the only one of its key until it expires: at most one run per key succeeds per lifetime.
   */
  lemma AtMostOneStorePerLifetime(s: State, before: seq<Event>, r: nat, after: seq<Event>)
    requires Guarded(s) && NoneWaiting(s) && AtomicallyPrompt(s, before)
    requires var b := Atomically(s, before);
             r < |b.requests| && b.requests[r].Storing? && Cacheable(b.requests[r].answer)
    requires var stored := Step(Atomically(s, before), Store(r));
             Atomically(stored, after).now < stored.key.cache.value.expiresAt
    ensures var stored := Step(Atomically(s, before), Store(r));
            Atomically(stored, after).key.cache == stored.key.cache && NobodyStores(Atomically(stored, after))
  {
    AtomicRunsAlone(s, before);
    var b := Atomically(s, before);
    var stored := Step(b, Store(r));
    assert Active(b.requests[r]);
    NothingElseStores(stored, after);
  }

  // ---- The interceptor over the Redis store -----------------------------------------------------

  const PREFIX := "idempotency:"

  /** SHA-256 digests in hexadecimal have 64 characters. */
  predicate Digest(h: string) {
    |h| == 64
  }

  function CacheKey(h: string): string {
    PREFIX + h
  }

  function LockKey(h: string): string {
    PREFIX + "lock:" + h
  }

  datatype Stored = Stored(value: Option<Cached>, expiresAt: int)

  /** What the interceptor answers, and whether it came from the cache or from the handler. */
  datatype Reply = FromCache(cached: Cached) | InFlight | FromHandler(answer: Answer)

  function KeyIn(redis: map<string, Stored>, h: string): Key {
    Key(if CacheKey(h) in redis && redis[CacheKey(h)].value.Some?
        then Some(Entry(redis[CacheKey(h)].value.value, redis[CacheKey(h)].expiresAt)) else None,
        if LockKey(h) in redis then Some(redis[LockKey(h)].expiresAt) else None)
  }

  lemma KeysApart(g: string, h: string)
    requires Digest(g) && Digest(h)
    ensures CacheKey(g) != LockKey(h)
    ensures g != h ==> CacheKey(g) != CacheKey(h) && LockKey(g) != LockKey(h)
  {
    assert |CacheKey(g)| == 76 && |LockKey(h)| == 81;
    assert CacheKey(g)[12..] == g && CacheKey(h)[12..] == h;
    assert LockKey(g)[17..] == g && LockKey(h)[17..] == h;
  }

  /** The events of a request that meets no other, at the four times it touches Redis. */
  function Alone(a: Answer, lockDelay: nat, work: nat, storeDelay: nat): seq<Event> {
    [Read, Tick(lockDelay), TryLock(0)] + [Tick(work), HandlerEnds(0, a), Store(0)] + [Tick(storeDelay), Unlock(0)]
  }

  class IdempotencyInterceptor {
    var redis: map<string, Stored>
    const ttl: int

    constructor (ttlSeconds: int)
      ensures redis == map[] && ttl == 1000 * ttlSeconds
    {
      redis := map[];
      ttl := 1000 * ttlSeconds;
    }

    ghost predicate OthersKept(before: map<string, Stored>, h: string)
      reads this
    {
      forall g :: Digest(g) && g != h ==> KeyIn(redis, g) == KeyIn(before, g)
    }

    /** GET; an expired entry reads as none. */
    method Get(h: string, now: int) returns (hit: Option<Cached>)
      ensures hit.Some? <==> Hit(KeyIn(redis, h), now)
      ensures hit.Some? ==> hit.value == KeyIn(redis, h).cache.value.cached
    {
      var k := CacheKey(h);
      if k in redis && redis[k].value.Some? && now < redis[k].expiresAt {
        return redis[k].value;
      }
      return None;
    }

    /** SET NX EX 30. */
    method SetLock(h: string, now: int) returns (acquired: bool)
      requires Digest(h)
      modifies this
      ensures acquired <==> !Locked(KeyIn(old(redis), h), now)
      ensures KeyIn(redis, h) == if acquired then KeyIn(old(redis), h).(lock := Some(now + LOCK_MS))
          else KeyIn(old(redis), h)
      ensures OthersKept(old(redis), h)
    {
      var k := LockKey(h);
      KeysApart(h, h);
      if k in redis && now < redis[k].expiresAt {
        return false;
      }
      forall g | Digest(g) && g != h
        ensures CacheKey(g) != k && LockKey(g) != k
      {
        KeysApart(g, h);
      }
      redis := redis[k := Stored(None, now + LOCK_MS)];
      return true;
    }

    /** SET EX of a cacheable answer. */
    method SetCache(h: string, a: Answer, now: int)
      requires Digest(h) && Cacheable(a)
      modifies this
      ensures KeyIn(redis, h) == KeyIn(old(redis), h).(cache := Some(EntryOf(a, ttl, now)))
      ensures OthersKept(old(redis), h)
    {
      var k := CacheKey(h);
      KeysApart(h, h);
      forall g | Digest(g) && g != h
        ensures CacheKey(g) != k && LockKey(g) != k
      {
        KeysApart(g, h);
        KeysApart(h, g);
      }
      redis := redis[k := Stored(Some(CachedForm(a)), EntryOf(a, ttl, now).expiresAt)];
    }

    /** DEL, whoever set the lock. */
    method DeleteLock(h: string)
      requires Digest(h)
      modifies this
      ensures KeyIn(redis, h) == KeyIn(old(redis), h).(lock := None)
      ensures OthersKept(old(redis), h)
    {
      KeysApart(h, h);
      forall g | Digest(g) && g != h
        ensures CacheKey(g) != LockKey(h) && LockKey(g) != LockKey(h)
      {
        KeysApart(g, h);
      }
      redis := redis - {LockKey(h)};
    }

    /**
     intercept, for a mutating request with a key. Alone, it leaves its key as the events of one
     request do, and no other key changes.
     */
    method Intercept(h: string, a: Answer, now: int, lockDelay: nat, work: nat, storeDelay: nat) returns (reply: Reply)
      requires Digest(h)
      modifies this
      ensures KeyIn(redis, h)
          == Run(State(ttl, now, KeyIn(old(redis), h), []), Alone(a, lockDelay, work, storeDelay)).key
      ensures OthersKept(old(redis), h)
      ensures reply.FromCache? <==> Hit(KeyIn(old(redis), h), now)
      ensures reply.FromCache? ==> reply.cached == KeyIn(old(redis), h).cache.value.cached
      ensures reply.FromHandler? ==> reply.answer == a && !Locked(KeyIn(old(redis), h), now + lockDelay)
    {
      AloneEffect(State(ttl, now, KeyIn(redis, h), []), a, lockDelay, work, storeDelay);
      var cached := Get(h, now);
      if cached.Some? {
        return FromCache(cached.value);
      }
      var acquired := SetLock(h, now + lockDelay);
      if !acquired {
        return InFlight;
      }
      if Cacheable(a) {
        SetCache(h, a, now + lockDelay + work);
      }
      DeleteLock(h);
      return FromHandler(a);
    }
  }

  lemma AloneSteps(s: State, a: Answer, lockDelay: nat, work: nat, storeDelay: nat)
    ensures var locked := Step(Step(Step(s, Read), Tick(lockDelay)), TryLock(0));
            Run(s, Alone(a, lockDelay, work, storeDelay))
            == Step(Step(Step(Step(Step(locked, Tick(work)), HandlerEnds(0, a)), Store(0)), Tick(storeDelay)),
               Unlock(0))
  {
    hide Run, Step;
    var es := [Read, Tick(lockDelay), TryLock(0)];
    var fs := [Tick(work), HandlerEnds(0, a), Store(0)];
    RunNone(s);
    RunThree(s, [], Read, Tick(lockDelay), TryLock(0));
    assert [] + es == es;
    RunThree(s, es, Tick(work), HandlerEnds(0, a), Store(0));
    RunAppend(s, es + fs, Tick(storeDelay));
    RunAppend(s, es + fs + [Tick(storeDelay)], Unlock(0));
    assert Alone(a, lockDelay, work, storeDelay) == es + fs + [Tick(storeDelay)] + [Unlock(0)];
  }

  lemma RunNone(s: State)
    ensures Run(s, []) == s
  {
  }

  lemma AloneEffect(s: State, a: Answer, lockDelay: nat, work: nat, storeDelay: nat)
    requires s.requests == []
    ensures Run(s, Alone(a, lockDelay, work, storeDelay)).key
         == if Hit(s.key, s.now) || Locked(s.key, s.now + lockDelay) then s.key
            else Key(if Cacheable(a) then Some(EntryOf(a, s.ttl, s.now + lockDelay + work)) else s.key.cache, None)
  {
    hide *;
    AloneSteps(s, a, lockDelay, work, storeDelay);
    AloneReads(s, lockDelay);
    AloneWrites(Step(Step(Step(s, Read), Tick(lockDelay)), TryLock(0)), a, work, storeDelay);
  }

  lemma AloneReads(s: State, lockDelay: nat)
    requires s.requests == []
    ensures var b, now := Step(Step(Step(s, Read), Tick(lockDelay)), TryLock(0)), s.now + lockDelay;
            b == if Hit(s.key, s.now) then State(s.ttl, now, s.key, [Replayed])
                 else if Locked(s.key, now) then State(s.ttl, now, s.key, [Refused])
                 else State(s.ttl, now, s.key.(lock := Some(now + LOCK_MS)), [Running(now)])
  {
    var read := Step(s, Read);
    assert read == s.(requests := [if Hit(s.key, s.now) then Replayed else Missed]);
  }

  lemma AloneWrites(s: State, a: Answer, work: nat, storeDelay: nat)
    requires |s.requests| == 1 && (s.requests[0].Running? || s.requests[0].Replayed? || s.requests[0].Refused?)
    ensures Step(Step(Step(Step(Step(s, Tick(work)), HandlerEnds(0, a)), Store(0)), Tick(storeDelay)), Unlock(0)).key
         == if s.requests[0].Running?
            then Key(if Cacheable(a) then Some(EntryOf(a, s.ttl, s.now + work)) else s.key.cache, None)
            else s.key
  {
    var ended := Step(Step(s, Tick(work)), HandlerEnds(0, a));
    assert ended.key == s.key && ended.now == s.now + work && ended.ttl == s.ttl && |ended.requests| == 1;
  }

  // ---- What is replayed is what a handler answered ----------------------------------------------

  /** The cached response is the answer: its body, and the status of a client error. */
  predicate Replays(c: Cached, a: Answer) {
    match a
    case Success(body) => !c.isError && c.statusCode == 200 && c.body == body
    case HttpError(status, body) => status < 500 && c.isError && c.statusCode == status && c.body == body
    case OtherError => false
  }

  /** Some handler of the run ended with an answer that this replays. */
  ghost predicate Answered(es: seq<Event>, c: Cached) {
    exists k :: 0 <= k < |es| && es[k].HandlerEnds? && Replays(c, es[k].answer)
  }

  lemma AnsweredLonger(es: seq<Event>, e: Event, c: Cached)
    ensures Answered(es + [e], c) <==> Answered(es, c) || (e.HandlerEnds? && Replays(c, e.answer))
  {
    var more := es + [e];
    assert forall k :: 0 <= k < |es| ==> more[k] == es[k];
    assert more[|es|] == e;
  }

  /** Answers that wait for their store are the run's, and so is the entry, unless it was there before. */
  ghost predicate FromHandlers(first: Key, s: State, es: seq<Event>) {
    && (s.key.cache.Some? ==> s.key.cache == first.cache || Answered(es, s.key.cache.value.cached))
    && (forall r :: 0 <= r < |s.requests| && s.requests[r].Storing? ==>
          Cacheable(s.requests[r].answer) && Answered(es, CachedForm(s.requests[r].answer)))
  }

  lemma FromHandlersStep(first: Key, s: State, es: seq<Event>, e: Event)
    requires FromHandlers(first, s, es)
    ensures FromHandlers(first, Step(s, e), es + [e])
  {
    var b := Step(s, e);
    if b.key.cache.Some? {
      AnsweredLonger(es, e, b.key.cache.value.cached);
    }
    hide Answered;
    forall r | 0 <= r < |b.requests| && b.requests[r].Storing?
      ensures Cacheable(b.requests[r].answer) && Answered(es + [e], CachedForm(b.requests[r].answer))
    {
      AnsweredLonger(es, e, CachedForm(b.requests[r].answer));
    }
  }

  /**
   Over every interleaving, whatever the cache holds is a response that was there before or that a handler
   of the run ended with: status and body unchanged, no server error and no other exception.
   */
  lemma {:induction false} CacheFollowsHandlers(s: State, es: seq<Event>)
    requires forall r :: 0 <= r < |s.requests| ==> !s.requests[r].Storing?
    ensures FromHandlers(s.key, Run(s, es), es)
  {
    if es != [] {
      CacheFollowsHandlers(s, es[..|es| - 1]);
      FromHandlersStep(s.key, Run(s, es[..|es| - 1]), es[..|es| - 1], es[|es| - 1]);
      assert es == es[..|es| - 1] + [es[|es| - 1]];
    }
    hide Step, FromHandlers;
  }

  /**
   A request that meets no other, on a free key: a later read is replayed its very answer, for the
   configured lifetime after a success and for 300 seconds after a client error, and not at all after a
   server error or another exception, which leave the cache as it was. The lock is gone.
   */
  lemma FirstAnswerIsReplayed(s: State, a: Answer, lockDelay: nat, work: nat, storeDelay: nat, later: int)
    requires s.requests == [] && !Hit(s.key, s.now) && !Locked(s.key, s.now + lockDelay)
    ensures var k, stored := Run(s, Alone(a, lockDelay, work, storeDelay)).key, s.now + lockDelay + work;
            && !Locked(k, later)
            && (a.Success? ==>
                  k.cache.Some? && (Hit(k, later) <==> later < stored + s.ttl) && Replays(k.cache.value.cached, a))
            && (a.HttpError? && a.status < 500 ==>
                  k.cache.Some? && (Hit(k, later) <==> later < stored + 300 * 1000) && Replays(k.cache.value.cached, a))
            && (a.OtherError? || (a.HttpError? && a.status >= 500) ==> k.cache == s.key.cache)
  {
    AloneEffect(s, a, lockDelay, work, storeDelay);
    hide Run;
  }
}
