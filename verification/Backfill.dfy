/**
 The script that turns legacy checkout payments into subscriptions
 (scripts/backfill-legacy-subscriptions.mjs): the sweep that prepares or skips each candidate, the
 writes of --apply, which may stop at any row, and later sweeps.
 */
module Backfill {
  import opened Common
  import opened Periods

  datatype LegacyPlan = LegacyPlan(interval: Interval, intervalCount: int)

  /** A successful payment; `trialDays` is what parsePositiveInteger makes of its metadata. */
  datatype Payment = Payment(
    id: string, tenantId: string, customerId: string, planId: Option<string>, customerEmail: Option<string>,
    trialDays: nat, createdAt: int)

  datatype Status = Active | Trialing | Expired

  datatype Row = Row(
    tenantId: string, customerId: string, planId: string, status: Status, periodStart: int, periodEnd: int,
    trialEnd: Option<int>, sourceTransactionId: Option<string>)

  datatype Reason = NoUser | AlreadyBackfilled | NoPlan | PeriodExists

  datatype Prepared = Prepared(transactionId: string, row: Row)

  datatype Skipped = Skipped(transactionId: string, reason: Reason)

  /** Users by email, plans by id, and JavaScript's trim, trim-and-lower-case and toISOString. */
  datatype World = World(
    users: map<string, string>, plans: map<string, LegacyPlan>,
    trim: string -> string, normal: string -> string, iso: int -> string)

  predicate IsCandidate(p: Payment) {
    "checkout:" <= p.customerId && p.planId.Some? && p.customerEmail.Some?
  }

  predicate AllCandidates(ps: seq<Payment>) {
    forall i :: 0 <= i < |ps| ==> IsCandidate(ps[i])
  }

  function Candidates(ps: seq<Payment>): (r: seq<Payment>)
    ensures AllCandidates(r)
  {
    if ps == [] then []
    else Candidates(ps[..|ps| - 1]) + (if IsCandidate(ps[|ps| - 1]) then [ps[|ps| - 1]] else [])
  }

  /** buildFingerprint. */
  function Fingerprint(w: World, r: Row): string {
    r.tenantId + "|" + r.customerId + "|" + r.planId + "|" + w.iso(r.periodStart) + "|" + w.iso(r.periodEnd)
  }

  function Email(w: World, p: Payment): string
    requires IsCandidate(p)
  {
    w.normal(p.customerEmail.value)
  }

  function UserFor(w: World, email: string): Option<string> {
    if email != "" && email in w.users then Some(w.users[email]) else None
  }

  /** The subscription a payment becomes; only its status depends on the clock. */
  function Payload(p: Payment, userId: string, planId: string, plan: LegacyPlan, now: int): Row {
    var trialEnd := if p.trialDays > 0 then Some(AddDays(p.createdAt, p.trialDays)) else None;
    var start := if trialEnd.Some? then trialEnd.value else p.createdAt;
    var end := LegacyPeriodEnd(start, plan.interval, plan.intervalCount);
    var status := if trialEnd.Some? && trialEnd.value > now then Trialing else if end <= now then Expired else Active;
    Row(p.tenantId, userId, planId, status, start, end, trialEnd, Some(p.id))
  }

  function Prints(w: World, rows: seq<Row>): set<string> {
    set i | 0 <= i < |rows| :: Fingerprint(w, rows[i])
  }

  /** The transactions that existing subscriptions name as their source, trimmed. */
  function SourceIds(w: World, rows: seq<Row>): set<string> {
    set i | 0 <= i < |rows| && rows[i].sourceTransactionId.Some? && w.trim(rows[i].sourceTransactionId.value) != "" ::
      w.trim(rows[i].sourceTransactionId.value)
  }

  datatype Verdict = Skip(reason: Reason) | Prepare(row: Row)

  /** The loop's decision on one candidate, given the ids and fingerprints known so far. */
  function Judge(w: World, ids: set<string>, prints: set<string>, p: Payment, now: int): Verdict
    requires IsCandidate(p)
  {
    var user := UserFor(w, Email(w, p));
    if user.None? then Skip(NoUser)
    else if p.id in ids then Skip(AlreadyBackfilled)
    else if p.planId.value !in w.plans then Skip(NoPlan)
    else
      var row := Payload(p, user.value, p.planId.value, w.plans[p.planId.value], now);
      if Fingerprint(w, row) in prints then Skip(PeriodExists) else Prepare(row)
  }

  datatype Sweep = Sweep(prepared: seq<Prepared>, skipped: seq<Skipped>)

  function RowsOf(prepared: seq<Prepared>): (rows: seq<Row>)
    ensures |rows| == |prepared|
  {
    seq(|prepared|, i requires 0 <= i < |prepared| => prepared[i].row)
  }

  /** The sweep; the script reads the clock anew for each candidate, `clock(i)` for the one at index `i`. */
  function SweepAll(w: World, existing: seq<Row>, ps: seq<Payment>, clock: nat -> int): Sweep
    requires AllCandidates(ps)
  {
    if ps == [] then Sweep([], [])
    else
      var s, p := SweepAll(w, existing, ps[..|ps| - 1], clock), ps[|ps| - 1];
      match Judge(w, SourceIds(w, existing), Prints(w, existing) + Prints(w, RowsOf(s.prepared)), p, clock(|ps| - 1))
      case Skip(reason) => Sweep(s.prepared, s.skipped + [Skipped(p.id, reason)])
      case Prepare(row) => Sweep(s.prepared + [Prepared(p.id, row)], s.skipped)
  }

  // ---- The script -------------------------------------------------------------------------------

  class Script {
    var subscriptions: seq<Row>

    constructor (rows: seq<Row>)
      ensures subscriptions == rows
    {
      subscriptions := rows;
    }

    /** The script from start to end, with `creates` the number of rows that --apply writes before a create
        fails or the list ends. */
    method RunScript(w: World, payments: seq<Payment>, apply: bool, clock: nat -> int, creates: nat)
      returns (prepared: seq<Prepared>, skipped: seq<Skipped>)
      modifies this
      ensures Sweep(prepared, skipped) == SweepAll(w, old(subscriptions), Candidates(payments), clock)
      ensures subscriptions == old(subscriptions)
          + (if !apply then [] else RowsOf(prepared[..Min(creates, |prepared|)]))
    {
      var candidates := Filter(payments);
      var emailToUser := LoadUsers(w, candidates);
      prepared, skipped := Prepare(w, subscriptions, candidates, emailToUser, clock);
      if apply {
        Create(prepared, creates);
      }
    }

    method Filter(payments: seq<Payment>) returns (candidates: seq<Payment>)
      ensures candidates == Candidates(payments)
    {
      candidates := [];
      for i := 0 to |payments|
        invariant candidates == Candidates(payments[..i])
      {
        assert payments[..i + 1][..i] == payments[..i];
        if IsCandidate(payments[i]) {
          candidates := candidates + [payments[i]];
        }
      }
      assert payments[..|payments|] == payments;
    }

    method LoadUsers(w: World, candidates: seq<Payment>) returns (emailToUser: map<string, Option<string>>)
      requires AllCandidates(candidates)
      ensures forall i :: 0 <= i < |candidates|
               ==> Email(w, candidates[i]) == "" || Email(w, candidates[i]) in emailToUser
      ensures forall e :: e in emailToUser ==> emailToUser[e] == UserFor(w, e)
    {
      emailToUser := map[];
      for i := 0 to |candidates|
        invariant forall j :: 0 <= j < i ==> Email(w, candidates[j]) == "" || Email(w, candidates[j]) in emailToUser
        invariant forall e :: e in emailToUser ==> emailToUser[e] == UserFor(w, e)
      {
        var email := Email(w, candidates[i]);
        if email != "" && email !in emailToUser {
          emailToUser := emailToUser[email := UserFor(w, email)];
        }
      }
    }

    method Prepare(w: World, existing: seq<Row>, candidates: seq<Payment>,
        emailToUser: map<string, Option<string>>, clock: nat -> int)
      returns (prepared: seq<Prepared>, skipped: seq<Skipped>)
      requires AllCandidates(candidates)
      requires forall i :: 0 <= i < |candidates|
                ==> Email(w, candidates[i]) == "" || Email(w, candidates[i]) in emailToUser
      requires forall e :: e in emailToUser ==> emailToUser[e] == UserFor(w, e)
      ensures Sweep(prepared, skipped) == SweepAll(w, existing, candidates, clock)
    {
      hide Payload, Fingerprint, SourceIds, Prints, Email, AllCandidates;
      var sourceTransactionIds, fingerprints := ReadExisting(w, existing);
      var planCache: map<string, LegacyPlan> := map[];
      prepared, skipped := [], [];
      NoPrints(w);
      assert AllCandidates(candidates[..0]) by {
        NoCandidates();
        assert candidates[..0] == [];
      }
      for i := 0 to |candidates|
        invariant AllCandidates(candidates[..i])
        invariant Sweep(prepared, skipped) == SweepAll(w, existing, candidates[..i], clock)
        invariant fingerprints == Prints(w, existing) + Prints(w, RowsOf(prepared))
        invariant forall id :: id in planCache ==> id in w.plans && planCache[id] == w.plans[id]
      {
        var p := candidates[i];
        CandidateAt(candidates, i);
        assert candidates[..i + 1][..i] == candidates[..i];
        var email := Email(w, p);
        var user := if email in emailToUser then emailToUser[email] else None;
        assert user == UserFor(w, email);
        var planId := p.planId.value;
        if user.None? {
          skipped := skipped + [Skipped(p.id, NoUser)];
        } else if p.id in sourceTransactionIds {
          skipped := skipped + [Skipped(p.id, AlreadyBackfilled)];
        } else {
          if planId !in planCache && planId in w.plans {
            planCache := planCache[planId := w.plans[planId]];
          }
          if planId !in planCache {
            skipped := skipped + [Skipped(p.id, NoPlan)];
          } else {
            var row := Payload(p, user.value, planId, planCache[planId], clock(i));
            var fingerprint := Fingerprint(w, row);
            if fingerprint in fingerprints {
              skipped := skipped + [Skipped(p.id, PeriodExists)];
            } else {
              PrintsOneMore(w, prepared, Prepared(p.id, row));
              prepared := prepared + [Prepared(p.id, row)];
              fingerprints := fingerprints + {fingerprint};
            }
          }
        }
      }
      assert candidates[..|candidates|] == candidates;
    }

    method ReadExisting(w: World, rows: seq<Row>) returns (ids: set<string>, prints: set<string>)
      ensures ids == SourceIds(w, rows) && prints == Prints(w, rows)
    {
      ids, prints := {}, {};
      for i := 0 to |rows|
        invariant ids == SourceIds(w, rows[..i]) && prints == Prints(w, rows[..i])
      {
        ReadOneMore(w, rows[..i], rows[i]);
        assert rows[..i + 1] == rows[..i] + [rows[i]];
        prints := prints + {Fingerprint(w, rows[i])};
        var source := rows[i].sourceTransactionId;
        if source.Some? && w.trim(source.value) != "" {
          ids := ids + {w.trim(source.value)};
        }
      }
      assert rows[..|rows|] == rows;
    }

    method Create(prepared: seq<Prepared>, creates: nat)
      modifies this
      ensures subscriptions == old(subscriptions) + RowsOf(prepared[..Min(creates, |prepared|)])
    {
      var i := 0;
      while i < |prepared| && i < creates
        invariant 0 <= i <= Min(creates, |prepared|)
        invariant subscriptions == old(subscriptions) + RowsOf(prepared[..i])
      {
        assert RowsOf(prepared[..i + 1]) == RowsOf(prepared[..i]) + [prepared[i].row];
        subscriptions := subscriptions + [prepared[i].row];
        i := i + 1;
      }
    }
  }

  lemma CandidateAt(ps: seq<Payment>, i: nat)
    requires AllCandidates(ps) && i < |ps|
    ensures IsCandidate(ps[i]) && AllCandidates(ps[..i + 1]) && AllCandidates(ps[..i])
  {
    hide IsCandidate;
  }

  lemma NoCandidates()
    ensures AllCandidates([])
  {
  }

  lemma NoPrints(w: World)
    ensures Prints(w, RowsOf([])) == {}
  {
  }

  lemma ReadOneMore(w: World, rows: seq<Row>, r: Row)
    ensures Prints(w, rows + [r]) == Prints(w, rows) + {Fingerprint(w, r)}
    ensures SourceIds(w, rows + [r]) ==
            SourceIds(w, rows) + (if r.sourceTransactionId.Some? && w.trim(r.sourceTransactionId.value) != ""
                                  then {w.trim(r.sourceTransactionId.value)} else {})
  {
    var more := rows + [r];
    hide Fingerprint;
    assert forall i :: 0 <= i < |rows| ==> more[i] == rows[i];
    assert more[|rows|] == r;
  }

  lemma PrintsOneMore(w: World, prepared: seq<Prepared>, item: Prepared)
    ensures Prints(w, RowsOf(prepared + [item])) == Prints(w, RowsOf(prepared)) + {Fingerprint(w, item.row)}
  {
    assert RowsOf(prepared + [item]) == RowsOf(prepared) + [item.row];
    ReadOneMore(w, RowsOf(prepared), item.row);
  }

  // ---- Each candidate once ----------------------------------------------------------------------

  function PaymentIds(ps: seq<Payment>): multiset<string> {
    if ps == [] then multiset{} else PaymentIds(ps[..|ps| - 1]) + multiset{ps[|ps| - 1].id}
  }

  function PreparedIds(xs: seq<Prepared>): multiset<string> {
    if xs == [] then multiset{} else PreparedIds(xs[..|xs| - 1]) + multiset{xs[|xs| - 1].transactionId}
  }

  function SkippedIds(xs: seq<Skipped>): multiset<string> {
    if xs == [] then multiset{} else SkippedIds(xs[..|xs| - 1]) + multiset{xs[|xs| - 1].transactionId}
  }

  /** Every candidate lands in exactly one of the two lists. */
  lemma {:induction false} EachCandidateOnce(w: World, existing: seq<Row>, ps: seq<Payment>, clock: nat -> int)
    requires AllCandidates(ps)
    ensures var s := SweepAll(w, existing, ps, clock);
            PreparedIds(s.prepared) + SkippedIds(s.skipped) == PaymentIds(ps)
  {
    hide Judge, PreparedIds, SkippedIds;
    if ps == [] {
      NoIds();
    } else {
      var n := |ps| - 1;
      EachCandidateOnce(w, existing, ps[..n], clock);
      var before, s := SweepAll(w, existing, ps[..n], clock), SweepAll(w, existing, ps, clock);
      if |s.prepared| > |before.prepared| {
        PreparedIdsAppend(before.prepared, s.prepared[|before.prepared|]);
      } else {
        SkippedIdsAppend(before.skipped, s.skipped[|before.skipped|]);
      }
    }
  }

  lemma NoIds()
    ensures PreparedIds([]) == SkippedIds([]) == multiset{}
  {
  }

  lemma PreparedIdsAppend(xs: seq<Prepared>, x: Prepared)
    ensures PreparedIds(xs + [x]) == PreparedIds(xs) + multiset{x.transactionId}
  {
    assert (xs + [x])[..|xs|] == xs;
  }

  lemma SkippedIdsAppend(xs: seq<Skipped>, x: Skipped)
    ensures SkippedIds(xs + [x]) == SkippedIds(xs) + multiset{x.transactionId}
  {
    assert (xs + [x])[..|xs|] == xs;
  }

  ghost predicate NewAndDistinct(w: World, existing: seq<Row>, prepared: seq<Prepared>) {
    && (forall i :: 0 <= i < |prepared| ==> Fingerprint(w, prepared[i].row) !in Prints(w, existing))
    && (forall i, j :: 0 <= i < j < |prepared| ==> Fingerprint(w, prepared[i].row) != Fingerprint(w, prepared[j].row))
  }

  /** Prepared fingerprints differ from each other and from every existing one. */
  lemma {:induction false} PreparedAreNew(w: World, existing: seq<Row>, ps: seq<Payment>, clock: nat -> int)
    requires AllCandidates(ps)
    ensures NewAndDistinct(w, existing, SweepAll(w, existing, ps, clock).prepared)
  {
    hide Fingerprint, Payload, UserFor, SourceIds;
    if ps != [] {
      var n := |ps| - 1;
      PreparedAreNew(w, existing, ps[..n], clock);
      var before, s := SweepAll(w, existing, ps[..n], clock), SweepAll(w, existing, ps, clock);
      if |s.prepared| > |before.prepared| {
        PrintsHold(w, before.prepared);
      }
    }
  }

  lemma PrintsHold(w: World, prepared: seq<Prepared>)
    ensures forall i :: 0 <= i < |prepared| ==> Fingerprint(w, prepared[i].row) in Prints(w, RowsOf(prepared))
  {
    var rows := RowsOf(prepared);
    assert forall i :: 0 <= i < |prepared| ==> rows[i] == prepared[i].row;
  }

  // ---- Running again ----------------------------------------------------------------------------

  /** Two sweeps prepared the same: the same payments, with rows equal but for their status. */
  ghost predicate SameButStatus(xs: seq<Prepared>, ys: seq<Prepared>) {
    |xs| == |ys| && forall i :: 0 <= i < |xs| ==> ys[i] == xs[i].(row := xs[i].row.(status := ys[i].row.status))
  }

  ghost predicate IdsPlain(w: World, ps: seq<Payment>) {
    && (forall i :: 0 <= i < |ps| ==> w.trim(ps[i].id) == ps[i].id)
    && (forall i, j :: 0 <= i < j < |ps| ==> ps[i].id != ps[j].id)
  }

  function Rest(xs: seq<Prepared>, k: nat): seq<Prepared> {
    if k <= |xs| then xs[k..] else []
  }

  /** What the first `k` created rows add to the ids that the next sweep knows. */
  lemma SourceIdsAfter(w: World, existing: seq<Row>, applied: seq<Prepared>)
    requires forall i :: 0 <= i < |applied| ==> applied[i].row.sourceTransactionId == Some(applied[i].transactionId)
    requires forall i :: 0 <= i < |applied| ==> w.trim(applied[i].transactionId) == applied[i].transactionId
    ensures forall id :: id in SourceIds(w, existing + RowsOf(applied)) ==>
              id in SourceIds(w, existing) || exists i :: 0 <= i < |applied| && applied[i].transactionId == id
    ensures SourceIds(w, existing) <= SourceIds(w, existing + RowsOf(applied))
  {
    var all := existing + RowsOf(applied);
    assert forall i :: 0 <= i < |existing| ==> all[i] == existing[i];
    assert forall i :: 0 <= i < |applied| ==> all[|existing| + i] == applied[i].row;
    forall id | id in SourceIds(w, all)
      ensures id in SourceIds(w, existing) || exists i :: 0 <= i < |applied| && applied[i].transactionId == id
    {
      var i :| 0 <= i < |all| && all[i].sourceTransactionId.Some? && w.trim(all[i].sourceTransactionId.value) == id
               && id != "";
      if i >= |existing| {
        assert applied[i - |existing|].transactionId == id;
      }
    }
  }

  lemma PrintsAfter(w: World, existing: seq<Row>, more: seq<Row>)
    ensures Prints(w, existing + more) == Prints(w, existing) + Prints(w, more)
  {
    var all := existing + more;
    hide Fingerprint;
    assert forall i :: 0 <= i < |existing| ==> all[i] == existing[i];
    assert forall i :: 0 <= i < |more| ==> all[|existing| + i] == more[i];
    forall f | f in Prints(w, existing) + Prints(w, more)
      ensures f in Prints(w, all)
    {
      if f in Prints(w, existing) {
        var i :| 0 <= i < |existing| && Fingerprint(w, existing[i]) == f;
        assert all[i] == existing[i];
      } else {
        var i :| 0 <= i < |more| && Fingerprint(w, more[i]) == f;
        assert all[|existing| + i] == more[i];
      }
    }
  }

  /** Every prepared item comes from a payment of its sweep. */
  lemma {:induction false} PreparedFrom(w: World, existing: seq<Row>, ps: seq<Payment>, clock: nat -> int)
    requires AllCandidates(ps)
    ensures forall x :: x in SweepAll(w, existing, ps, clock).prepared ==>
              x.row.sourceTransactionId == Some(x.transactionId)
              && exists i :: 0 <= i < |ps| && ps[i].id == x.transactionId
  {
    hide Fingerprint, LegacyPeriodEnd, UserFor, SourceIds, Prints;
    if ps != [] {
      var n := |ps| - 1;
      PreparedFrom(w, existing, ps[..n], clock);
      forall x | x in SweepAll(w, existing, ps, clock).prepared
        ensures x.row.sourceTransactionId == Some(x.transactionId)
            && exists i :: 0 <= i < |ps| && ps[i].id == x.transactionId
      {
        if x in SweepAll(w, existing, ps[..n], clock).prepared {
          var i :| 0 <= i < n && ps[..n][i].id == x.transactionId;
          assert ps[i].id == x.transactionId;
        } else {
          assert ps[n].id == x.transactionId;
        }
      }
    }
  }

  /** A later sweep only adds to what it has prepared. */
  lemma {:induction false} PrefixPrepared(w: World, existing: seq<Row>, ps: seq<Payment>, n: nat, clock: nat -> int)
    requires AllCandidates(ps) && n <= |ps|
    ensures SweepAll(w, existing, ps[..n], clock).prepared <= SweepAll(w, existing, ps, clock).prepared
    decreases |ps|
  {
    hide Judge;
    if n < |ps| {
      PrefixPrepared(w, existing, ps[..|ps| - 1], n, clock);
      assert ps[..|ps| - 1][..n] == ps[..n];
    } else {
      assert ps[..n] == ps;
    }
  }

  /** The verdict on one payment in the first sweep, and in a later one that knows more ids and fingerprints. */
  lemma LaterVerdict(w: World, ids: set<string>, prints: set<string>, idsAfter: set<string>, printsAfter: set<string>,
                     p: Payment, now: int, later: int)
    requires IsCandidate(p) && ids <= idsAfter && prints <= printsAfter
    ensures var first, second := Judge(w, ids, prints, p, now), Judge(w, idsAfter, printsAfter, p, later);
            && (first.Skip? ==> second.Skip?)
            && (first.Prepare? && Fingerprint(w, first.row) in printsAfter ==> second.Skip?)
            && (first.Prepare? && Fingerprint(w, first.row) !in printsAfter && p.id !in idsAfter - ids ==>
                  second.Prepare? && second.row == first.row.(status := second.row.status))
  {
    hide UserFor, LegacyPeriodEnd;
  }

  lemma SamePrints(w: World, xs: seq<Prepared>, ys: seq<Prepared>)
    requires SameButStatus(xs, ys)
    ensures Prints(w, RowsOf(xs)) == Prints(w, RowsOf(ys))
  {
    forall i | 0 <= i < |xs|
      ensures Fingerprint(w, RowsOf(xs)[i]) == Fingerprint(w, RowsOf(ys)[i])
    {
    }
    hide Fingerprint;
    forall f
      ensures f in Prints(w, RowsOf(xs)) <==> f in Prints(w, RowsOf(ys))
    {
      if f in Prints(w, RowsOf(xs)) {
        var i :| 0 <= i < |xs| && Fingerprint(w, RowsOf(xs)[i]) == f;
        assert Fingerprint(w, RowsOf(ys)[i]) == f;
      }
      if f in Prints(w, RowsOf(ys)) {
        var i :| 0 <= i < |ys| && Fingerprint(w, RowsOf(ys)[i]) == f;
        assert Fingerprint(w, RowsOf(xs)[i]) == f;
      }
    }
  }

  lemma SplitPrints(w: World, xs: seq<Prepared>, applied: seq<Prepared>)
    requires applied <= xs || xs <= applied
    ensures Prints(w, RowsOf(xs)) <= Prints(w, RowsOf(applied)) + Prints(w, RowsOf(Rest(xs, |applied|)))
    ensures applied <= xs
        ==> Prints(w, RowsOf(xs)) == Prints(w, RowsOf(applied)) + Prints(w, RowsOf(Rest(xs, |applied|)))
  {
    if applied <= xs {
      assert RowsOf(xs) == RowsOf(applied) + RowsOf(Rest(xs, |applied|));
      PrintsAfter(w, RowsOf(applied), RowsOf(Rest(xs, |applied|)));
    } else {
      assert RowsOf(applied) == RowsOf(xs) + RowsOf(applied[|xs|..]);
      PrintsAfter(w, RowsOf(xs), RowsOf(applied[|xs|..]));
    }
  }

  /** The created rows come from earlier payments than one whose row was not created, so their ids differ. */
  lemma OtherIds(w: World, existing: seq<Row>, ps: seq<Payment>, n: nat, clock: nat -> int, applied: seq<Prepared>)
    requires AllCandidates(ps) && n < |ps| && IdsPlain(w, ps)
    requires applied <= SweepAll(w, existing, ps[..n], clock).prepared
    ensures ps[n].id !in SourceIds(w, existing + RowsOf(applied)) - SourceIds(w, existing)
  {
    hide SweepAll, SourceIds;
    PreparedFrom(w, existing, ps[..n], clock);
    var prepared := SweepAll(w, existing, ps[..n], clock).prepared;
    forall i | 0 <= i < |applied|
      ensures applied[i].row.sourceTransactionId == Some(applied[i].transactionId)
      ensures w.trim(applied[i].transactionId) == applied[i].transactionId && applied[i].transactionId != ps[n].id
    {
      assert applied[i] == prepared[i] && prepared[i] in prepared;
      var q :| 0 <= q < n && ps[..n][q].id == applied[i].transactionId;
      assert ps[q].id == applied[i].transactionId;
    }
    SourceIdsAfter(w, existing, applied);
  }

  lemma IdsGrow(w: World, existing: seq<Row>, more: seq<Row>)
    ensures SourceIds(w, existing) <= SourceIds(w, existing + more)
  {
    var all := existing + more;
    assert forall i :: 0 <= i < |existing| ==> all[i] == existing[i];
  }

  /**
   The later sweep over the first `n` payments, when `applied` of what the first sweep prepared has
   been created: it prepares the rest.
   */
  lemma {:induction false} LaterSweep(w: World, existing: seq<Row>,
      ps: seq<Payment>, n: nat, clock: nat -> int, later: nat -> int, applied: seq<Prepared>)
    requires AllCandidates(ps) && n <= |ps|
    requires applied <= SweepAll(w, existing, ps, clock).prepared
    requires IdsPlain(w, ps) || applied == SweepAll(w, existing, ps, clock).prepared
    ensures SameButStatus(Rest(SweepAll(w, existing, ps[..n], clock).prepared, |applied|),
                          SweepAll(w, existing + RowsOf(applied), ps[..n], later).prepared)
  {
    hide Judge, SourceIds, Prints, Fingerprint, IdsPlain;
    if n > 0 {
      LaterSweep(w, existing, ps, n - 1, clock, later, applied);
      assert ps[..n][..n - 1] == ps[..n - 1];
      LaterStep(w, existing, ps, n - 1, clock, later, applied);
    }
  }

  lemma LaterStep(w: World, existing: seq<Row>, ps: seq<Payment>,
      n: nat, clock: nat -> int, later: nat -> int, applied: seq<Prepared>)
    requires AllCandidates(ps) && n < |ps|
    requires applied <= SweepAll(w, existing, ps, clock).prepared
    requires IdsPlain(w, ps) || applied == SweepAll(w, existing, ps, clock).prepared
    requires SameButStatus(Rest(SweepAll(w, existing, ps[..n], clock).prepared, |applied|),
                           SweepAll(w, existing + RowsOf(applied), ps[..n], later).prepared)
    ensures SameButStatus(Rest(SweepAll(w, existing, ps[..n + 1], clock).prepared, |applied|),
                          SweepAll(w, existing + RowsOf(applied), ps[..n + 1], later).prepared)
  {
    CandidateAt(ps, n);
    hide *;
    var after := existing + RowsOf(applied);
    SweepOneMore(w, existing, ps, n, clock);
    SweepOneMore(w, after, ps, n, later);
    LaterVerdictOn(w, existing, ps, n, clock, later, applied);
    var first, second := SweepAll(w, existing, ps[..n], clock).prepared, SweepAll(w, after, ps[..n], later).prepared;
    RestGrows(first, second, |applied|, ps[n].id,
      VerdictOn(w, existing, ps, n, clock), VerdictOn(w, after, ps, n, later));
  }

  /** The verdict on payment `n` of a sweep. */
  function VerdictOn(w: World, existing: seq<Row>, ps: seq<Payment>, n: nat, clock: nat -> int): Verdict
    requires AllCandidates(ps) && n < |ps|
  {
    Judge(w, SourceIds(w, existing), Prints(w, existing)
      + Prints(w, RowsOf(SweepAll(w, existing, ps[..n], clock).prepared)), ps[n], clock(n))
  }

  function Added(id: string, v: Verdict): seq<Prepared> {
    if v.Prepare? then [Prepared(id, v.row)] else []
  }

  lemma SweepOneMore(w: World, existing: seq<Row>, ps: seq<Payment>, n: nat, clock: nat -> int)
    requires AllCandidates(ps) && n < |ps|
    ensures SweepAll(w, existing, ps[..n + 1], clock).prepared
         == SweepAll(w, existing, ps[..n], clock).prepared + Added(ps[n].id, VerdictOn(w, existing, ps, n, clock))
  {
    hide Judge, Prints, SourceIds, IsCandidate;
    assert ps[..n + 1][..n] == ps[..n];
  }

  lemma RestGrows(xs: seq<Prepared>, ys: seq<Prepared>, m: nat, id: string, v: Verdict, later: Verdict)
    requires SameButStatus(Rest(xs, m), ys)
    requires v.Skip? || |xs| < m ==> later.Skip?
    requires v.Prepare? && |xs| >= m ==> later.Prepare? && later.row == v.row.(status := later.row.status)
    ensures SameButStatus(Rest(xs + Added(id, v), m), ys + Added(id, later))
  {
    if |xs| >= m {
      assert Rest(xs + Added(id, v), m) == Rest(xs, m) + Added(id, v);
    } else {
      assert Rest(xs + Added(id, v), m) == [];
    }
  }

  lemma LaterVerdictOn(w: World, existing: seq<Row>, ps: seq<Payment>,
      n: nat, clock: nat -> int, later: nat -> int, applied: seq<Prepared>)
    requires AllCandidates(ps) && n < |ps|
    requires applied <= SweepAll(w, existing, ps, clock).prepared
    requires IdsPlain(w, ps) || applied == SweepAll(w, existing, ps, clock).prepared
    requires SameButStatus(Rest(SweepAll(w, existing, ps[..n], clock).prepared, |applied|),
                           SweepAll(w, existing + RowsOf(applied), ps[..n], later).prepared)
    ensures var v, l := VerdictOn(w, existing, ps, n, clock), VerdictOn(w, existing + RowsOf(applied), ps, n, later);
            var done := |SweepAll(w, existing, ps[..n], clock).prepared|;
            && (v.Skip? || done < |applied| ==> l.Skip?)
            && (v.Prepare? && done >= |applied| ==> l.Prepare? && l.row == v.row.(status := l.row.status))
  {
    CandidateIs(ps, n);
    CandidateAt(ps, n);
    hide *;
    PrefixPrepared(w, existing, ps, n + 1, clock);
    SweepOneMore(w, existing, ps, n, clock);
    var after := existing + RowsOf(applied);
    var first, second := SweepAll(w, existing, ps[..n], clock).prepared, SweepAll(w, after, ps[..n], later).prepared;
    var ids, prints := SourceIds(w, existing), Prints(w, existing) + Prints(w, RowsOf(first));
    var idsAfter, printsAfter := SourceIds(w, after), Prints(w, after) + Prints(w, RowsOf(second));
    LaterKnows(w, existing, ps, n, clock, applied, first, second);
    LaterVerdict(w, ids, prints, idsAfter, printsAfter, ps[n], clock(n), later(n));
    VerdictIs(w, existing, ps, n, clock);
    VerdictIs(w, after, ps, n, later);
    var v := VerdictOn(w, existing, ps, n, clock);
    if v.Prepare? {
      if |first| < |applied| {
        AddedLast(first, ps[n].id, v);
        assert applied[|first|].row == v.row;
        PrintsHold(w, applied);
      } else {
        OtherIds(w, existing, ps, n, clock, applied);
        JudgedNew(w, ids, prints, ps[n], clock(n));
      }
    }
  }

  /** What the later sweep knows when it comes to payment `n`: all that the first one knew, and what was created. */
  lemma LaterKnows(w: World, existing: seq<Row>, ps: seq<Payment>, n: nat, clock: nat -> int,
                   applied: seq<Prepared>, first: seq<Prepared>, second: seq<Prepared>)
    requires AllCandidates(ps) && n < |ps| && applied <= SweepAll(w, existing, ps, clock).prepared
    requires first == SweepAll(w, existing, ps[..n], clock).prepared && SameButStatus(Rest(first, |applied|), second)
    ensures var prints := Prints(w, existing) + Prints(w, RowsOf(first));
            var printsAfter := Prints(w, existing + RowsOf(applied)) + Prints(w, RowsOf(second));
            && SourceIds(w, existing) <= SourceIds(w, existing + RowsOf(applied)) && prints <= printsAfter
            && Prints(w, RowsOf(applied)) <= printsAfter && (|first| >= |applied| ==> applied <= first)
            && (applied <= first ==> printsAfter == prints)
  {
    hide *;
    PrefixPrepared(w, existing, ps, n, clock);
    IdsGrow(w, existing, RowsOf(applied));
    KnownPrints(w, existing, first, second, applied);
  }

  lemma VerdictIs(w: World, existing: seq<Row>, ps: seq<Payment>, n: nat, clock: nat -> int)
    requires AllCandidates(ps) && n < |ps|
    ensures IsCandidate(ps[n]) && AllCandidates(ps[..n])
    ensures VerdictOn(w, existing, ps, n, clock)
         == Judge(w, SourceIds(w, existing), Prints(w, existing)
            + Prints(w, RowsOf(SweepAll(w, existing, ps[..n], clock).prepared)), ps[n], clock(n))
  {
  }

  lemma AddedLast(xs: seq<Prepared>, id: string, v: Verdict)
    requires v.Prepare?
    ensures |xs + Added(id, v)| == |xs| + 1 && (xs + Added(id, v))[|xs|].row == v.row
  {
  }

  lemma KnownPrints(w: World, existing: seq<Row>, first: seq<Prepared>, second: seq<Prepared>, applied: seq<Prepared>)
    requires SameButStatus(Rest(first, |applied|), second)
    requires applied <= first || first <= applied
    ensures var printsAfter := Prints(w, existing + RowsOf(applied)) + Prints(w, RowsOf(second));
            && Prints(w, existing) + Prints(w, RowsOf(first)) <= printsAfter
            && Prints(w, RowsOf(applied)) <= printsAfter
            && (applied <= first ==> printsAfter == Prints(w, existing) + Prints(w, RowsOf(first)))
  {
    hide Prints, SameButStatus;
    PrintsAfter(w, existing, RowsOf(applied));
    SamePrints(w, Rest(first, |applied|), second);
    SplitPrints(w, first, applied);
  }

  lemma CandidateIs(ps: seq<Payment>, n: nat)
    requires AllCandidates(ps) && n < |ps|
    ensures IsCandidate(ps[n])
  {
  }

  lemma JudgedNew(w: World, ids: set<string>, prints: set<string>, p: Payment, now: int)
    requires IsCandidate(p) && Judge(w, ids, prints, p, now).Prepare?
    ensures Fingerprint(w, Judge(w, ids, prints, p, now).row) !in prints
  {
  }

  /**
   --apply may stop after any row: the next run, at any later time, prepares exactly the rows that
   were not created, in the same order, with only the status read off the later clock. Payment ids
   are distinct and carry no white space.
   */
  lemma BackfillResumes(w: World, existing: seq<Row>, ps: seq<Payment>,
      clock: nat -> int, later: nat -> int, creates: nat)
    requires AllCandidates(ps) && IdsPlain(w, ps)
    ensures var prepared := SweepAll(w, existing, ps, clock).prepared;
            var k := Min(creates, |prepared|);
            SameButStatus(prepared[k..], SweepAll(w, existing + RowsOf(prepared[..k]), ps, later).prepared)
  {
    var prepared := SweepAll(w, existing, ps, clock).prepared;
    var k := Min(creates, |prepared|);
    LaterSweep(w, existing, ps, |ps|, clock, later, prepared[..k]);
    assert ps[..|ps|] == ps;
  }

  /** The backfill is a fixpoint: after a full --apply, a run at any other time prepares nothing. */
  lemma BackfillIsFixpoint(w: World, existing: seq<Row>, ps: seq<Payment>, clock: nat -> int, later: nat -> int)
    requires AllCandidates(ps)
    ensures SweepAll(w, existing + RowsOf(SweepAll(w, existing, ps, clock).prepared), ps, later).prepared == []
  {
    var prepared := SweepAll(w, existing, ps, clock).prepared;
    LaterSweep(w, existing, ps, |ps|, clock, later, prepared);
    assert ps[..|ps|] == ps;
  }

  // ---- One candidate, field by field ------------------------------------------------------------

  /** The candidates are the payments of a checkout customer with a plan and an email, each as often as it comes. */
  lemma CandidatesExactly(ps: seq<Payment>, p: Payment)
    ensures multiset(Candidates(ps))[p]
         == if |p.customerId| >= 9 && p.customerId[..9] == "checkout:" && p.planId.Some? && p.customerEmail.Some?
            then multiset(ps)[p] else 0
  {
    assert "checkout:" <= p.customerId <==> |p.customerId| >= 9 && p.customerId[..9] == "checkout:";
    Filtered(ps, p);
  }

  lemma {:induction false} Filtered(ps: seq<Payment>, p: Payment)
    ensures multiset(Candidates(ps))[p] == if IsCandidate(p) then multiset(ps)[p] else 0
  {
    hide IsCandidate;
    if ps != [] {
      var n := |ps| - 1;
      Filtered(ps[..n], p);
      assert ps == ps[..n] + [ps[n]];
    }
  }

  /**
   The row a payment becomes: the user's subscription to the plan, from the payment or from the end of its
   trial, one period long by the script's arithmetic; TRIALING while the trial runs, EXPIRED once the
   period is over, else ACTIVE; and it names the payment as its source.
   */
  lemma PayloadExactly(p: Payment, userId: string, planId: string, plan: LegacyPlan, now: int)
    ensures var r := Payload(p, userId, planId, plan, now);
            var trialEnd := p.createdAt + p.trialDays * 24 * 60 * 60 * 1000;
            && r.tenantId == p.tenantId && r.customerId == userId && r.planId == planId
            && r.sourceTransactionId == Some(p.id)
            && r.periodStart == (if p.trialDays > 0 then trialEnd else p.createdAt)
            && r.trialEnd == (if p.trialDays > 0 then Some(trialEnd) else None)
            && r.periodEnd == LegacyPeriodEnd(r.periodStart, plan.interval, plan.intervalCount)
            && (r.status.Trialing? <==> p.trialDays > 0 && now < trialEnd)
            && (r.status.Expired? <==> !r.status.Trialing? && r.periodEnd <= now)
  {
    hide LegacyPeriodEnd;
  }

  /** The verdict on a candidate, by the first of four obstacles, or its row. */
  lemma JudgeExactly(w: World, ids: set<string>, prints: set<string>, p: Payment, now: int)
    requires IsCandidate(p)
    ensures var email, planId := w.normal(p.customerEmail.value), p.planId.value;
            var user := email != "" && email in w.users;
            var known, plan := p.id in ids, planId in w.plans;
            var v := Judge(w, ids, prints, p, now);
            && (v == Skip(NoUser) <==> !user)
            && (v == Skip(AlreadyBackfilled) <==> user && known)
            && (v == Skip(NoPlan) <==> user && !known && !plan)
            && (user && !known && plan ==>
                  var row := Payload(p, w.users[email], planId, w.plans[planId], now);
                  v == if Fingerprint(w, row) in prints then Skip(PeriodExists) else Prepare(row))
  {
    hide Payload, Fingerprint;
  }

  // ---- When two rows share a fingerprint --------------------------------------------------------

  predicate NoBar(s: string) {
    forall i :: 0 <= i < |s| ==> s[i] != '|'
  }

  lemma BarsAlign(a: string, x: string, b: string, y: string)
    requires NoBar(a) && NoBar(b)
    ensures a + "|" + x == b + "|" + y <==> a == b && x == y
  {
    var s, t := a + "|" + x, b + "|" + y;
    if s == t {
      assert forall i :: 0 <= i < |a| ==> s[i] == a[i];
      assert forall i :: 0 <= i < |b| ==> t[i] == b[i];
      assert s[|a|] == '|' && t[|b|] == '|';
      assert |a| == |b|;
      assert s[..|a|] == a && t[..|b|] == b && s[|a| + 1..] == x && t[|b| + 1..] == y;
    }
  }

  /** The parts of the fingerprint before the second time carry no separator; ISO dates never do. */
  ghost predicate Separable(w: World, r: Row) {
    NoBar(r.tenantId) && NoBar(r.customerId) && NoBar(r.planId) && NoBar(w.iso(r.periodStart))
  }

  /**
   Two rows share a fingerprint exactly when they agree on tenant, customer, plan and both period bounds,
   if no id contains the separator and toISOString tells times apart.
   */
  lemma FingerprintsAgreeExactlyWhen(w: World, r: Row, s: Row)
    requires Separable(w, r) && Separable(w, s)
    requires forall t, u :: w.iso(t) == w.iso(u) ==> t == u
    ensures Fingerprint(w, r) == Fingerprint(w, s)
       <==> && r.tenantId == s.tenantId && r.customerId == s.customerId && r.planId == s.planId
            && r.periodStart == s.periodStart && r.periodEnd == s.periodEnd
  {
    var end, end' := w.iso(r.periodEnd), w.iso(s.periodEnd);
    var times, times' := w.iso(r.periodStart) + "|" + end, w.iso(s.periodStart) + "|" + end';
    var plans, plans' := r.planId + "|" + times, s.planId + "|" + times';
    var users, users' := r.customerId + "|" + plans, s.customerId + "|" + plans';
    Joined(r.tenantId, r.customerId, r.planId, w.iso(r.periodStart), end);
    Joined(s.tenantId, s.customerId, s.planId, w.iso(s.periodStart), end');
    BarsAlign(r.tenantId, users, s.tenantId, users');
    BarsAlign(r.customerId, plans, s.customerId, plans');
    BarsAlign(r.planId, times, s.planId, times');
    BarsAlign(w.iso(r.periodStart), end, w.iso(s.periodStart), end');
    hide NoBar;
  }

  lemma Joined(a: string, b: string, c: string, d: string, e: string)
    ensures a + "|" + b + "|" + c + "|" + d + "|" + e == a + "|" + (b + "|" + (c + "|" + (d + "|" + e)))
  {
  }

  /** An id with the separator in it can share a fingerprint with another tenant's and customer's row. */
  lemma FingerprintsCollide(w: World, r: Row)
    ensures Fingerprint(w, r.(tenantId := "a|b", customerId := "c"))
         == Fingerprint(w, r.(tenantId := "a", customerId := "b|c"))
  {
    assert "a|b" + "|" + "c" == "a" + "|" + "b|c";
  }

  // ---- What the script knows beforehand ---------------------------------------------------------

  /** A payment counts as backfilled exactly if some subscription names its id, white space aside, as its source. */
  lemma SourcesExactly(w: World, rows: seq<Row>, id: string)
    ensures id in SourceIds(w, rows) <==>
            id != "" && exists i :: 0 <= i < |rows| && rows[i].sourceTransactionId.Some?
                                    && w.trim(rows[i].sourceTransactionId.value) == id
    ensures forall f :: f in Prints(w, rows) <==> exists i :: 0 <= i < |rows| && Fingerprint(w, rows[i]) == f
  {
    hide Fingerprint;
  }
}
