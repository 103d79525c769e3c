/** What the lease guarantees over whole runs: a fence number granted once each,
    and one holder at a time. */
module RunLeases {
  import opened Prelude
  import opened BeadModel
  import opened StepCascade
  import opened BeadStore
  import opened BeadRuns
  import opened RunGates

  /** This step is a claim that sticks on bead `i`. */
  ghost predicate Grants(env: Env, w: World, e: Event, i: nat) {
    Writes(env, w, e, i) && w.ops[e.op].call.CallClaim?
  }

  /** This step is a report that is accepted on bead `i`. */
  ghost predicate Reports(env: Env, w: World, e: Event, i: nat) {
    Writes(env, w, e, i) && w.ops[e.op].call.CallReport?
  }

  /** This step is the reaper's write on bead `i` landing while the bead is held
      under a live lease: its scan saw another one. */
  ghost predicate ReapsLive(env: Env, w: World, e: Event, i: nat) {
    Writes(env, w, e, i) && w.ops[e.op].call.CallReap? && LeaseActiveAt(w.tasks[i], w.clock)
  }

  predicate LeavesHolder(kw: Kwargs) { kw.leasedBy.Keep? && kw.leaseExpires.Keep? }

  /** This step is a plain update, fenced on nothing, that rewrites who holds
      bead `i` or until when, under a live lease. */
  ghost predicate Overwrites(env: Env, w: World, e: Event, i: nat) {
    && Writes(env, w, e, i) && w.ops[e.op].call.CallUpdate? && LeaseActiveAt(w.tasks[i], w.clock)
    && !LeavesHolder(w.ops[e.op].prepared.kwargs)
  }

  /** What an operation in flight will do to the lease of the bead it names. */
  ghost predicate LeaseShape(o: Op, now: int) {
    var p := o.prepared;
    && p.id == o.call.Target()
    && match o.call
       case CallUpdate(q) => p.precheck == NoCheck && SameButOutcome(q.kwargs, p.kwargs)
       case CallClaim(_, agent, held, ttl) =>
         p.precheck.ClaimCheck? && p.precheck.agent == agent && p.precheck.ttl == ttl && p.precheck.now <= now
         && p.kwargs.status == Set(InProgress)
       case CallReport(_, attempt, _, _, _) =>
         p.precheck == FenceCheck(attempt) && p.kwargs.leaseAttempt.Keep?
         && p.kwargs.leasedBy == Set(None) && p.kwargs.leaseExpires == Set(Never)
       case CallReap(_) =>
         p.precheck == NoCheck && p.kwargs.leaseAttempt.Keep? && p.kwargs.status == Set(Pending)
         && p.kwargs.leasedBy == Set(None) && p.kwargs.leaseExpires == Set(Never)
  }

  lemma FlightLease(env: Env, es: seq<Event>, n: nat, op: nat)
    requires n <= |es| && op in After(env, es, n).ops
    ensures LeaseShape(After(env, es, n).ops[op], After(env, es, n).clock)
  {
    var m := OperationOrigin(env, EMPTY, es, n, op);
    var v := After(env, es, m);
    PrepareFrame(env, v.tasks, RequestOf(es[m].call, v.clock), es[m].check);
    PositionsStay(env, EMPTY, es, m, n);
  }

  ghost predicate LeasesShaped(w: World) {
    forall op :: op in w.ops ==> LeaseShape(w.ops[op], w.clock)
  }

  lemma ReachableLeases(env: Env, es: seq<Event>, n: nat)
    requires n <= |es|
    ensures LeasesShaped(After(env, es, n))
  {
    forall op | op in After(env, es, n).ops ensures LeaseShape(After(env, es, n).ops[op], After(env, es, n).clock) {
      FlightLease(env, es, n, op);
    }
  }

  /** No update in the run writes an attempt counter: only the claim's hook does. */
  ghost predicate KeepsCounter(es: seq<Event>) {
    forall k :: 0 <= k < |es| && es[k].Begin? && es[k].call.CallUpdate? ==> es[k].call.q.kwargs.leaseAttempt.Keep?
  }

  ghost predicate CountersKept(w: World) {
    forall op :: op in w.ops && w.ops[op].call.CallUpdate? ==> w.ops[op].call.q.kwargs.leaseAttempt.Keep?
  }

  lemma ReachableCounters(env: Env, es: seq<Event>, n: nat)
    requires n <= |es| && KeepsCounter(es)
    ensures CountersKept(After(env, es, n))
  {
    var w := After(env, es, n);
    forall op | op in w.ops && w.ops[op].call.CallUpdate? ensures w.ops[op].call.q.kwargs.leaseAttempt.Keep? {
      var m := OperationOrigin(env, EMPTY, es, n, op);
    }
  }

  // --- the fence ---------------------------------------------------------------------

  /** A step raises the attempt counter of a bead by one when it grants its claim,
      and otherwise leaves it. */
  lemma StepAttempt(env: Env, w: World, e: Event, i: nat)
    requires LeasesShaped(w) && CountersKept(w) && i < |w.tasks|
    ensures Next(env, w, e).tasks[i].leaseAttempt == w.tasks[i].leaseAttempt + (if Grants(env, w, e, i) then 1 else 0)
  {
    StepFrame(env, w, e);
    if Writes(env, w, e, i) {
      assert LeaseShape(w.ops[e.op], w.clock);
    }
  }

  /** How many claims on bead `i` have stuck in the first `n` events. */
  ghost function GrantCount(env: Env, es: seq<Event>, n: nat, i: nat): nat
    requires n <= |es|
  {
    if n == 0 then 0
    else GrantCount(env, es, n - 1, i) + (if GrantedBy(env, es, n - 1, i) then 1 else 0)
  }

  /** Event `n` makes a claim on bead `i` stick. */
  ghost predicate GrantedBy(env: Env, es: seq<Event>, n: nat, i: nat)
    requires n < |es|
  {
    var w := After(env, es, n);
    i < |w.tasks| && Grants(env, w, es[n], i)
  }

  /** The attempt counter is the number of times the bead has been handed out, in
      every interleaving of claims, reports, updates and a reaper whose scan and
      write are apart. */
  lemma {:induction false} AttemptCountsGrants(env: Env, es: seq<Event>, n: nat, i: nat)
    requires KeepsCounter(es) && n <= |es| && i < |After(env, es, n).tasks|
    ensures After(env, es, n).tasks[i].leaseAttempt == GrantCount(env, es, n, i)
  {
    if n > 0 {
      AfterStep(env, es, n - 1);
      var w, e := After(env, es, n - 1), es[n - 1];
      ReachableLeases(env, es, n - 1);
      ReachableCounters(env, es, n - 1);
      if i < |w.tasks| {
        AttemptCountsGrants(env, es, n - 1, i);
        StepAttempt(env, w, e, i);
      } else {
        NoGrantsBefore(env, es, n - 1, i);
        NewBeadUnclaimed(env, w, e, i);
      }
    }
  }

  lemma NewBeadUnclaimed(env: Env, w: World, e: Event, i: nat)
    requires |w.tasks| <= i < |Next(env, w, e).tasks|
    ensures Next(env, w, e).tasks[i].leaseAttempt == 0
  {
  }

  lemma {:induction false} NoGrantsBefore(env: Env, es: seq<Event>, n: nat, i: nat)
    requires n <= |es| && |After(env, es, n).tasks| <= i
    ensures GrantCount(env, es, n, i) == 0
  {
    if n > 0 {
      PositionsStay(env, EMPTY, es, n - 1, n);
      NoGrantsBefore(env, es, n - 1, i);
    }
  }

  lemma {:induction false} GrantCountGrows(env: Env, es: seq<Event>, m: nat, n: nat, i: nat)
    requires m <= n <= |es|
    ensures GrantCount(env, es, m, i) <= GrantCount(env, es, n, i)
  {
    if m < n {
      GrantCountGrows(env, es, m, n - 1, i);
    }
  }

  /** No attempt number is granted twice on one bead: a later grant finds, and so
      hands out, a larger number. */
  lemma GrantedOnce(env: Env, es: seq<Event>, m: nat, n: nat, i: nat)
    requires KeepsCounter(es)
    requires m < n < |es| && i < |After(env, es, m).tasks| && i < |After(env, es, n).tasks|
    requires Grants(env, After(env, es, m), es[m], i)
    ensures After(env, es, m).tasks[i].leaseAttempt < After(env, es, n).tasks[i].leaseAttempt
  {
    AttemptCountsGrants(env, es, m, i);
    AttemptCountsGrants(env, es, n, i);
    assert GrantCount(env, es, m + 1, i) == GrantCount(env, es, m, i) + 1;
    GrantCountGrows(env, es, m + 1, n, i);
  }

  /** A report under any attempt but the latest grant leaves the store unchanged. */
  lemma StaleReportFenced(env: Env, es: seq<Event>, n: nat, op: nat, i: nat)
    requires KeepsCounter(es)
    requires n <= |es| && op in After(env, es, n).ops && After(env, es, n).ops[op].call.CallReport?
    requires i < |After(env, es, n).tasks| && After(env, es, n).tasks[i].id == After(env, es, n).ops[op].call.Target()
    requires After(env, es, n).ops[op].call.attempt != GrantCount(env, es, n, i)
    ensures Next(env, After(env, es, n), Finish(op)).tasks == After(env, es, n).tasks
  {
    AttemptCountsGrants(env, es, n, i);
    FlightLease(env, es, n, op);
    ReachableSound(env, es[..n]);
    StaleReportRefused(env, After(env, es, n), op, i);
  }

  lemma StaleReportRefused(env: Env, w: World, op: nat, i: nat)
    requires UniqueIds(w.tasks) && op in w.ops && i < |w.tasks| && w.tasks[i].id == w.ops[op].prepared.id
    requires w.ops[op].prepared.precheck.FenceCheck? && w.ops[op].prepared.precheck.attempt != w.tasks[i].leaseAttempt
    ensures Next(env, w, Finish(op)).tasks == w.tasks
  {
    FindUnique(w.tasks, i);
  }

  // --- one holder at a time ---------------------------------------------------------

  /** The three ways a lease ends before its time: an accepted report, a reaper's
      late write, and an update that rewrites the holder. */
  ghost predicate Releases(env: Env, w: World, e: Event, i: nat) {
    i < |w.tasks| && (Reports(env, w, e, i) || ReapsLive(env, w, e, i) || Overwrites(env, w, e, i))
  }

  /** Bead `i` is held by `agent` until `expiry`, or that moment has come. */
  ghost predicate HeldOrLapsed(w: World, i: nat, agent: string, expiry: int) {
    && i < |w.tasks|
    && (w.clock >= expiry || (w.tasks[i].leasedBy == Some(agent) && w.tasks[i].leaseExpires == At(expiry)))
  }

  lemma StepHolds(env: Env, w: World, e: Event, i: nat, agent: string, expiry: int)
    requires LeasesShaped(w) && HeldOrLapsed(w, i, agent, expiry) && agent != ""
    requires !Releases(env, w, e, i)
    ensures HeldOrLapsed(Next(env, w, e), i, agent, expiry)
    ensures Grants(env, w, e, i) ==> w.clock >= expiry
  {
    StepFrame(env, w, e);
    if Writes(env, w, e, i) {
      assert LeaseShape(w.ops[e.op], w.clock);
    }
  }

  lemma GrantTakes(env: Env, w: World, e: Event, i: nat)
    requires LeasesShaped(w) && i < |w.tasks| && Grants(env, w, e, i)
    ensures var c := w.ops[e.op].prepared.precheck;
      c.ClaimCheck? && HeldOrLapsed(Next(env, w, e), i, w.ops[e.op].call.agent, c.now + w.ops[e.op].call.ttl)
  {
    StepFrame(env, w, e);
    assert LeaseShape(w.ops[e.op], w.clock);
  }

  /** When the lease of the claim granted at event `m` lapses. */
  ghost function GrantExpiry(env: Env, es: seq<Event>, m: nat): int
    requires m < |es| && es[m].Finish? && es[m].op in After(env, es, m).ops
    requires After(env, es, m).ops[es[m].op].prepared.precheck.ClaimCheck?
  {
    var c := After(env, es, m).ops[es[m].op].prepared.precheck;
    c.now + c.ttl
  }

  ghost predicate Granted(env: Env, es: seq<Event>, m: nat, i: nat) {
    && m < |es| && i < |After(env, es, m).tasks| && Grants(env, After(env, es, m), es[m], i)
    && After(env, es, m).ops[es[m].op].prepared.precheck.ClaimCheck?
    && After(env, es, m).ops[es[m].op].call.agent != ""
  }

  /** Nothing released the lease between two events. */
  ghost predicate Unreleased(env: Env, es: seq<Event>, m: nat, n: nat, i: nat)
    requires n <= |es|
  {
    forall k: nat :: m < k < n ==> !Releases(env, After(env, es, k), es[k], i)
  }

  lemma {:induction false} HeldThrough(env: Env, es: seq<Event>, m: nat, n: nat, i: nat)
    requires Granted(env, es, m, i) && m < n <= |es|
    requires Unreleased(env, es, m, n, i)
    ensures HeldOrLapsed(After(env, es, n), i, After(env, es, m).ops[es[m].op].call.agent, GrantExpiry(env, es, m))
  {
    ReachableLeases(env, es, n - 1);
    AfterStep(env, es, n - 1);
    if m == n - 1 {
      GrantHolds(env, es, m, i);
    } else {
      assert !Releases(env, After(env, es, n - 1), es[n - 1], i);
      HeldThrough(env, es, m, n - 1, i);
      StepHolds(env, After(env, es, n - 1), es[n - 1], i, After(env, es, m).ops[es[m].op].call.agent, GrantExpiry(env, es, m));
    }
  }

  lemma GrantHolds(env: Env, es: seq<Event>, m: nat, i: nat)
    requires Granted(env, es, m, i)
    ensures HeldOrLapsed(After(env, es, m + 1), i, After(env, es, m).ops[es[m].op].call.agent, GrantExpiry(env, es, m))
  {
    ReachableLeases(env, es, m);
    AfterStep(env, es, m);
    assert LeaseShape(After(env, es, m).ops[es[m].op], After(env, es, m).clock);
    GrantTakes(env, After(env, es, m), es[m], i);
  }

  /** Exclusivity: after a claim sticks, no other sticks on that bead before the
      lease lapses, through failures, retries and reaps, unless something in
      between released it. */
  lemma SecondGrantAfterExpiry(env: Env, es: seq<Event>, m: nat, n: nat, i: nat)
    requires Granted(env, es, m, i) && m < n < |es| && Unreleased(env, es, m, n, i)
    requires i < |After(env, es, n).tasks| && Grants(env, After(env, es, n), es[n], i)
    ensures After(env, es, n).clock >= GrantExpiry(env, es, m)
  {
    HeldThrough(env, es, m, n, i);
    ReachableLeases(env, es, n);
    StepHolds(env, After(env, es, n), es[n], i, After(env, es, m).ops[es[m].op].call.agent, GrantExpiry(env, es, m));
  }

  // --- with each reap one step ------------------------------------------------------

  /** Every reaper's write follows its scan at once. */
  ghost predicate AtomicReaps(es: seq<Event>) {
    forall k: nat :: k + 1 < |es| && es[k].Begin? && es[k].call.CallReap? ==> es[k + 1] == Finish(es[k].op)
  }

  /** A reap in flight was begun by the event just before. */
  lemma {:induction false} ReapJustBegan(env: Env, es: seq<Event>, n: nat, op: nat)
    requires AtomicReaps(es) && n < |es|
    requires op in After(env, es, n).ops && After(env, es, n).ops[op].call.CallReap?
    ensures n > 0 && es[n - 1].Begin? && es[n - 1].op == op && es[n - 1].call == After(env, es, n).ops[op].call
    ensures MayBegin(After(env, es, n - 1).tasks, es[n - 1].call, After(env, es, n - 1).clock)
  {
    assert After(env, es, 0) == EMPTY;
    AfterStep(env, es, n - 1);
    var w := After(env, es, n - 1);
    if op in w.ops && w.ops[op].call.CallReap? {
      ReapJustBegan(env, es, n - 1, op);
      assert false;
    }
  }

  /** A reaper whose write follows its scan at once writes only what its scan saw:
      a bead in progress under a lapsed lease. */
  lemma AtomicReapAsScanned(env: Env, es: seq<Event>, n: nat, i: nat)
    requires AtomicReaps(es) && n < |es| && i < |After(env, es, n).tasks|
    requires Writes(env, After(env, es, n), es[n], i) && After(env, es, n).ops[es[n].op].call.CallReap?
    ensures Reapable(After(env, es, n).tasks[i], After(env, es, n).clock)
    ensures !ReapsLive(env, After(env, es, n), es[n], i)
  {
    var op := es[n].op;
    ReapJustBegan(env, es, n, op);
    AfterStep(env, es, n - 1);
    FlightLease(env, es, n, op);
  }

  /** Nothing but lapse and reaping touched the lease in between. */
  ghost predicate LeftToLapse(env: Env, es: seq<Event>, m: nat, n: nat, i: nat)
    requires n <= |es|
  {
    forall k: nat :: m < k < n && i < |After(env, es, k).tasks| ==>
      !Reports(env, After(env, es, k), es[k], i) && !Overwrites(env, After(env, es, k), es[k], i)
  }

  /** Exclusivity as it is meant: with each reap one step, no second claim sticks
      before the first one's expiry unless a report or an update released it. */
  lemma ExclusiveWithAtomicReaps(env: Env, es: seq<Event>, m: nat, n: nat, i: nat)
    requires AtomicReaps(es)
    requires Granted(env, es, m, i) && m < n < |es| && LeftToLapse(env, es, m, n, i)
    requires i < |After(env, es, n).tasks| && Grants(env, After(env, es, n), es[n], i)
    ensures After(env, es, n).clock >= GrantExpiry(env, es, m)
  {
    forall k: nat | m < k < n ensures !Releases(env, After(env, es, k), es[k], i) {
      NoLiveReap(env, es, k, i);
    }
    SecondGrantAfterExpiry(env, es, m, n, i);
  }

  lemma NoLiveReap(env: Env, es: seq<Event>, k: nat, i: nat)
    requires AtomicReaps(es) && k < |es|
    ensures i < |After(env, es, k).tasks| ==> !ReapsLive(env, After(env, es, k), es[k], i)
  {
    var w := After(env, es, k);
    if i < |w.tasks| && Writes(env, w, es[k], i) && w.ops[es[k].op].call.CallReap? {
      AtomicReapAsScanned(env, es, k, i);
    }
  }

  // --- exactly when exclusivity is lost ---------------------------------------------

  /** Nobody holds the bead: no holder, no readable expiry, or an expiry that has come. */
  predicate FreeAt(b: Bead, now: int) {
    b.leasedBy.None? || b.leasedBy.value == "" || !b.leaseExpires.At? || b.leaseExpires.time <= now
  }

  /** A claim begun now sticks exactly when the bead is pending, free and within
      the claimant's capabilities. */
  lemma ClaimSticksIff(env: Env, w: World, i: nat, op: nat, agent: string, held: set<string>, ttl: int, check: nat -> bool)
    requires UniqueIds(w.tasks) && i < |w.tasks|
    ensures var b := w.tasks[i]; var v := Next(env, w, Begin(op, CallClaim(b.id, agent, held, ttl), check));
      && v.tasks == w.tasks && v.clock == w.clock
      && (Grants(env, v, Finish(op), i) <==>
          b.status == Pending && FreeAt(b, w.clock) && forall r :: r in b.requirements ==> r in held)
  {
    FindUnique(w.tasks, i);
    ClaimCommitsIff(env, w.tasks, i, agent, held, w.clock, ttl);
  }

  lemma ClaimCommitsIff(env: Env, tasks: seq<Bead>, i: nat, agent: string, held: set<string>, now: int, ttl: int)
    requires i < |tasks| && Find(tasks, tasks[i].id) == Some(i)
    ensures var b := tasks[i]; var q := ClaimRequest(b.id, agent, held, now, ttl);
      Commit(env, tasks, Prepared(q.id, q.kwargs, None, q.precheck, false, false)).outcome == Written(i)
      <==> b.status == Pending && !LeaseActiveAt(b, now) && forall r :: r in b.requirements ==> r in held
  {
  }

  /** What an update would leave is pending and held by nobody. */
  predicate ReturnsBead(b: Bead, kw: Kwargs, now: int) {
    Apply(b, kw).status == Pending && !LeaseActiveAt(Apply(b, kw), now)
  }

  /** This step takes bead `i` from its holder and leaves it for anybody to claim. */
  ghost predicate Frees(env: Env, w: World, e: Event, i: nat)
    requires i < |w.tasks|
  {
    || ReapsLive(env, w, e, i)
    || (Overwrites(env, w, e, i) && ReturnsBead(w.tasks[i], w.ops[e.op].prepared.kwargs, w.clock))
  }

  lemma ReportNeverPends(env: Env, es: seq<Event>, n: nat, op: nat)
    requires n <= |es| && op in After(env, es, n).ops && After(env, es, n).ops[op].call.CallReport?
    ensures var kw := After(env, es, n).ops[op].prepared.kwargs; kw.status.Set? && kw.status.value != Pending
  {
    var m := OperationOrigin(env, EMPTY, es, n, op);
  }

  /** While a lease is live, one step leaves its bead claimable exactly when the
      step is a reaper's late write or an update that gives the bead back. */
  lemma FreesIff(env: Env, es: seq<Event>, n: nat, i: nat, agent: string, expiry: int)
    requires n < |es| && i < |After(env, es, n).tasks| && agent != ""
    requires HeldOrLapsed(After(env, es, n), i, agent, expiry) && Next(env, After(env, es, n), es[n]).clock < expiry
    ensures var w := After(env, es, n); var b := Next(env, w, es[n]).tasks[i];
      b.status == Pending && !LeaseActiveAt(b, Next(env, w, es[n]).clock) <==> Frees(env, w, es[n], i)
  {
    var w, e := After(env, es, n), es[n];
    StepFrame(env, w, e);
    ReachableLeases(env, es, n);
    if Writes(env, w, e, i) {
      assert LeaseShape(w.ops[e.op], w.clock);
      DirectWrite(env, w, e, i);
      if w.ops[e.op].call.CallReport? { ReportNeverPends(env, es, n, e.op); }
    }
  }

  lemma AfterPrefix(env: Env, es: seq<Event>, more: seq<Event>, n: nat)
    requires n <= |es|
    ensures After(env, es + more, n) == After(env, es, n)
  {
    assert (es + more)[..n] == es[..n];
  }

  /** The run `es` followed by one call with nobody between its halves. */
  function ThenCall(es: seq<Event>, op: nat, c: Call, check: nat -> bool): seq<Event> {
    es + [Begin(op, c, check), Finish(op)]
  }

  lemma ThenClaimSticksIff(env: Env, es: seq<Event>, i: nat, op: nat, agent: string, held: set<string>, ttl: int, check: nat -> bool)
    requires i < |After(env, es, |es|).tasks|
    ensures var w := After(env, es, |es|); var b := w.tasks[i];
      var run := ThenCall(es, op, CallClaim(b.id, agent, held, ttl), check);
      && After(env, run, |es| + 1).clock == w.clock && |After(env, run, |es| + 1).tasks| == |w.tasks|
      && (Grants(env, After(env, run, |es| + 1), run[|es| + 1], i) <==>
          b.status == Pending && !LeaseActiveAt(b, w.clock) && forall r :: r in b.requirements ==> r in held)
  {
    var w := After(env, es, |es|);
    var run := ThenCall(es, op, CallClaim(w.tasks[i].id, agent, held, ttl), check);
    AfterPrefix(env, es, run[|es|..], |es|);
    assert es + run[|es|..] == run;
    AfterStep(env, run, |es|);
    ReachableSound(env, es[..|es|]);
    ClaimSticksIff(env, w, i, op, agent, held, ttl, check);
  }

  /** Exactly when exclusivity is lost. In every run where nothing released a
      granted lease before the last event and it has not lapsed, a further claim
      by anybody capable sticks, early, if and only if that event was a reaper's
      late write or an update that gave the bead back. */
  lemma ExclusivityLostIff(env: Env, es: seq<Event>, m: nat, i: nat, op: nat, agent: string, held: set<string>, ttl: int, check: nat -> bool)
    requires m + 1 < |es| && Granted(env, es, m, i) && Unreleased(env, es, m, |es| - 1, i)
    requires After(env, es, |es|).clock < GrantExpiry(env, es, m)
    requires i < |After(env, es, |es|).tasks| && forall r :: r in After(env, es, |es|).tasks[i].requirements ==> r in held
    ensures i < |After(env, es, |es| - 1).tasks|
    ensures var n := |es|; var run := ThenCall(es, op, CallClaim(After(env, es, n).tasks[i].id, agent, held, ttl), check);
      && After(env, run, n + 1).clock < GrantExpiry(env, es, m)
      && i < |After(env, run, n + 1).tasks|
      && (Grants(env, After(env, run, n + 1), run[n + 1], i) <==> Frees(env, After(env, es, n - 1), es[n - 1], i))
  {
    var n := |es|;
    HeldThrough(env, es, m, n - 1, i);
    AfterStep(env, es, n - 1);
    FreesIff(env, es, n - 1, i, After(env, es, m).ops[es[m].op].call.agent, GrantExpiry(env, es, m));
    ThenClaimSticksIff(env, es, i, op, agent, held, ttl, check);
  }

  // --- finished work that comes back ------------------------------------------------

  /** A DONE bead is reopened by a step exactly when the step is a write to that
      very bead that says another status; no claim and no cascade does it. */
  lemma DoneReopenedIff(env: Env, es: seq<Event>, n: nat, i: nat)
    requires n < |es| && i < |After(env, es, n).tasks| && After(env, es, n).tasks[i].status == Done
    ensures var w := After(env, es, n); var e := es[n];
      Next(env, w, e).tasks[i].status != Done <==>
        && Writes(env, w, e, i) && !w.ops[e.op].call.CallClaim?
        && w.ops[e.op].prepared.kwargs.status.Or(Done) != Done
  {
    var w, e := After(env, es, n), es[n];
    StepFrame(env, w, e);
    ReachableLeases(env, es, n);
    if Writes(env, w, e, i) {
      assert LeaseShape(w.ops[e.op], w.clock);
      DirectWrite(env, w, e, i);
    }
  }

  /** A reaper's late write puts whatever it finds back to PENDING, finished work
      included; with each reap one step it only ever finds work in progress. */
  lemma ReapReopens(env: Env, es: seq<Event>, n: nat, i: nat)
    requires n < |es| && i < |After(env, es, n).tasks|
    requires Writes(env, After(env, es, n), es[n], i) && After(env, es, n).ops[es[n].op].call.CallReap?
    ensures Next(env, After(env, es, n), es[n]).tasks[i].status == Pending
    ensures AtomicReaps(es) ==> After(env, es, n).tasks[i].status == InProgress
  {
    var w, e := After(env, es, n), es[n];
    FlightLease(env, es, n, e.op);
    DirectWrite(env, w, e, i);
    if AtomicReaps(es) { AtomicReapAsScanned(env, es, n, i); }
  }
}
