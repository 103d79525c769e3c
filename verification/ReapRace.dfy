/** The ways exclusivity fails, as runs. Two reapers scan the same lapsed lease,
    one write returns the bead, somebody claims it, and the other write lands on
    the fresh lease. Or, with every reap one step, a child of a superseded attempt
    meets an authentication outage and gives back a bead that is no longer its
    own. And a late reap undoes finished work. */
module ReapRace {
  import opened Prelude
  import opened NaturalKey
  import opened BeadModel
  import opened StepCascade
  import opened BeadStore
  import opened BeadRuns
  import opened RunGates
  import opened RunLeases

  const RACED: Id := "ac-00000000"

  const PLAIN := CreateArgs(Pending, None, None, KeyInputs(None, None, None, None, None, None), None, [], [], NO_METADATA)

  /** One bead, two reapers and three claimants. `check` is never consulted:
      nothing in the run is bound for DONE. */
  ghost predicate IsRace(es: seq<Event>, check: nat -> bool) {
    && |es| == 12 && Opens(es, check)
    && es[4] == Begin(1, CallReap(RACED), check) && es[5] == Begin(2, CallReap(RACED), check) && es[6] == Finish(2)
    && es[7] == Begin(3, CallClaim(RACED, "b", {}, 100), check) && es[8] == Finish(3)
    && es[9] == Finish(1)
    && es[10] == Begin(4, CallClaim(RACED, "c", {}, 10), check) && es[11] == Finish(4)
  }

  /** What the orchestrator does when a child could not authenticate: an update
      fenced on no attempt. */
  const OUTAGE := CallUpdate(Request(
    RACED, NO_CHANGE.(status := Set(Pending), leasedBy := Set(None), leaseExpires := Set(Never), result := Set(None)),
    NoCheck, None, false, false))

  /** The raced bead after `attempt` grants, held by `holder` or by nobody. */
  function Raced(status: Status, agent: Option<string>, holder: Option<string>, attempt: nat, expires: Expiry): Bead {
    Bead(RACED, status, agent, None, None, None, [], holder, attempt, expires, [], None, NO_METADATA)
  }

  lemma FindRaced(b: Bead)
    ensures Find([b], b.id) == Some(0)
  {
  }

  lemma Filed(env: Env)
    ensures Create(env, [], RACED, PLAIN) == Created(Raced(Pending, None, None, 0, Never))
    ensures ValidId(RACED)
  {
    assert RACED[..3] == "ac-";
  }

  /** A call on the raced bead, as it waits for the lock. */
  function Waiting(c: Call, clock: int): Op {
    var q := RequestOf(c, clock);
    Op(c, Prepared(RACED, q.kwargs, None, q.precheck, false, false))
  }

  lemma Begins(env: Env, es: seq<Event>, n: nat, b: Bead, ops: map<nat, Op>, clock: int, op: nat, c: Call, check: nat -> bool)
    requires n < |es| && After(env, es, n) == World([b], ops, clock) && es[n] == Begin(op, c, check)
    requires b.id == RACED && c.Target() == RACED
    requires c.CallClaim? || (c.CallReap? && Reapable(b, clock)) || c == OUTAGE
    ensures After(env, es, n + 1) == World([b], ops[op := Waiting(c, clock)], clock)
  {
    FindRaced(b);
    AfterStep(env, es, n);
  }

  lemma ClaimLands(env: Env, es: seq<Event>, n: nat, b: Bead, ops: map<nat, Op>, clock: int, op: nat, agent: string, ttl: int)
    requires n < |es| && After(env, es, n) == World([b], ops, clock) && es[n] == Finish(op)
    requires b.id == RACED && b.status == Pending && !LeaseActiveAt(b, clock) && b.requirements == []
    requires op in ops && ops[op] == Waiting(CallClaim(RACED, agent, {}, ttl), clock)
    ensures Grants(env, After(env, es, n), es[n], 0)
    ensures After(env, es, n + 1) ==
      World([b.(status := InProgress, assignedAgent := Some(agent), leasedBy := Some(agent),
                leaseAttempt := b.leaseAttempt + 1, leaseExpires := At(clock + ttl))], ops - {op}, clock)
  {
    FindRaced(b);
    AfterStep(env, es, n);
  }

  /** A claim with nobody between its halves. */
  lemma ClaimInOne(env: Env, es: seq<Event>, n: nat, b: Bead, ops: map<nat, Op>, clock: int, op: nat, agent: string, ttl: int, check: nat -> bool)
    requires n + 1 < |es| && After(env, es, n) == World([b], ops, clock) && op !in ops
    requires es[n] == Begin(op, CallClaim(RACED, agent, {}, ttl), check) && es[n + 1] == Finish(op)
    requires b.id == RACED && b.status == Pending && !LeaseActiveAt(b, clock) && b.requirements == []
    ensures After(env, es, n + 2) ==
      World([b.(status := InProgress, assignedAgent := Some(agent), leasedBy := Some(agent),
                leaseAttempt := b.leaseAttempt + 1, leaseExpires := At(clock + ttl))], ops, clock)
  {
    var c := CallClaim(RACED, agent, {}, ttl);
    Begins(env, es, n, b, ops, clock, op, c, check);
    ClaimLands(env, es, n + 1, b, ops[op := Waiting(c, clock)], clock, op, agent, ttl);
    assert ops[op := Waiting(c, clock)] - {op} == ops;
  }

  /** And it is a grant, to that moment plus its time to live. */
  lemma ClaimInOneGrants(env: Env, es: seq<Event>, n: nat, b: Bead, ops: map<nat, Op>, clock: int, op: nat, agent: string, ttl: int, check: nat -> bool)
    requires n + 1 < |es| && After(env, es, n) == World([b], ops, clock) && agent != ""
    requires es[n] == Begin(op, CallClaim(RACED, agent, {}, ttl), check) && es[n + 1] == Finish(op)
    requires b.id == RACED && b.status == Pending && !LeaseActiveAt(b, clock) && b.requirements == []
    ensures Granted(env, es, n + 1, 0) && GrantExpiry(env, es, n + 1) == clock + ttl
    ensures After(env, es, n + 1).clock == clock
  {
    var c := CallClaim(RACED, agent, {}, ttl);
    Begins(env, es, n, b, ops, clock, op, c, check);
    ClaimLands(env, es, n + 1, b, ops[op := Waiting(c, clock)], clock, op, agent, ttl);
  }

  lemma ReapLands(env: Env, es: seq<Event>, n: nat, b: Bead, ops: map<nat, Op>, clock: int, op: nat, scanned: int)
    requires n < |es| && After(env, es, n) == World([b], ops, clock) && es[n] == Finish(op)
    requires b.id == RACED && op in ops && ops[op] == Waiting(CallReap(RACED), scanned)
    ensures Writes(env, After(env, es, n), es[n], 0) && After(env, es, n).ops[op].call.CallReap?
    ensures After(env, es, n + 1) == World([b.(status := Pending, leasedBy := None, leaseExpires := Never)], ops - {op}, clock)
  {
    FindRaced(b);
    AfterStep(env, es, n);
  }

  lemma RaceStarts(env: Env, es: seq<Event>)
    requires |es| >= 1 && es[0] == File(RACED, PLAIN)
    ensures After(env, es, 1) == World([Raced(Pending, None, None, 0, Never)], map[], 0)
  {
    Filed(env);
    assert After(env, es, 0) == EMPTY;
    AfterStep(env, es, 0);
    assert [] + [Raced(Pending, None, None, 0, Never)] == [Raced(Pending, None, None, 0, Never)];
  }

  /** How every run here opens: the first claim sticks and its lease lapses. */
  ghost predicate Opens(es: seq<Event>, check: nat -> bool) {
    && |es| >= 4
    && es[0] == File(RACED, PLAIN)
    && es[1] == Begin(0, CallClaim(RACED, "a", {}, 10), check) && es[2] == Finish(0)
    && es[3] == Tick(20)
  }

  /** The raced bead at its four standings. */
  const FILED := Raced(Pending, None, None, 0, Never)
  const LAPSED := Raced(InProgress, Some("a"), Some("a"), 1, At(10))
  const RETURNED := Raced(Pending, Some("a"), None, 1, Never)
  const RETAKEN := Raced(InProgress, Some("b"), Some("b"), 2, At(120))
  const CLEARED := Raced(Pending, Some("b"), None, 2, Never)

  lemma FirstClaimSticks(env: Env, es: seq<Event>, check: nat -> bool)
    requires Opens(es, check)
    ensures After(env, es, 3) == World([LAPSED], map[], 0)
  {
    RaceStarts(env, es);
    ClaimInOne(env, es, 1, FILED, map[], 0, 0, "a", 10, check);
  }

  lemma TickTo(env: Env, es: seq<Event>, n: nat, w: World, to: int)
    requires n < |es| && After(env, es, n) == w && es[n] == Tick(to) && w.clock <= to
    ensures After(env, es, n + 1) == w.(clock := to)
  {
    AfterStep(env, es, n);
  }

  lemma RaceLapses(env: Env, es: seq<Event>, check: nat -> bool)
    requires Opens(es, check)
    ensures After(env, es, 4) == World([LAPSED], map[], 20)
  {
    FirstClaimSticks(env, es, check);
    TickTo(env, es, 3, World([LAPSED], map[], 0), 20);
  }

  /** A reap that has scanned and waits for the lock. */
  const LATE := map[1 := Waiting(CallReap(RACED), 20)]

  /** One reaper has scanned the lapsed lease and waits for the lock. */
  lemma ReapScans(env: Env, es: seq<Event>, check: nat -> bool)
    requires Opens(es, check) && |es| > 4 && es[4] == Begin(1, CallReap(RACED), check)
    ensures After(env, es, 5) == World([LAPSED], LATE, 20)
  {
    RaceLapses(env, es, check);
    Begins(env, es, 4, LAPSED, map[], 20, 1, CallReap(RACED), check);
  }

  /** A reap with nobody between its halves. */
  lemma ReapInOne(env: Env, es: seq<Event>, n: nat, b: Bead, ops: map<nat, Op>, clock: int, op: nat, check: nat -> bool)
    requires n + 1 < |es| && After(env, es, n) == World([b], ops, clock) && op !in ops
    requires es[n] == Begin(op, CallReap(RACED), check) && es[n + 1] == Finish(op)
    requires b.id == RACED && Reapable(b, clock)
    ensures After(env, es, n + 2) == World([b.(status := Pending, leasedBy := None, leaseExpires := Never)], ops, clock)
  {
    Begins(env, es, n, b, ops, clock, op, CallReap(RACED), check);
    ReapLands(env, es, n + 1, b, ops[op := Waiting(CallReap(RACED), clock)], clock, op, clock);
    assert ops[op := Waiting(CallReap(RACED), clock)] - {op} == ops;
  }

  /** Both reapers have scanned the lapsed lease and one write has landed. */
  lemma RaceOpens(env: Env, es: seq<Event>, check: nat -> bool)
    requires IsRace(es, check)
    ensures After(env, es, 7) == World([RETURNED], LATE, 20)
  {
    ReapScans(env, es, check);
    ReapInOne(env, es, 5, LAPSED, LATE, 20, 2, check);
  }

  lemma RaceRetaken(env: Env, es: seq<Event>, check: nat -> bool)
    requires IsRace(es, check)
    ensures After(env, es, 9) == World([RETAKEN], LATE, 20)
  {
    RaceOpens(env, es, check);
    ClaimInOne(env, es, 7, RETURNED, LATE, 20, 3, "b", 100, check);
  }

  /** A second claim sticks, for a hundred. */
  lemma RaceGrants(env: Env, es: seq<Event>, check: nat -> bool)
    requires IsRace(es, check)
    ensures Granted(env, es, 8, 0) && GrantExpiry(env, es, 8) == 120
  {
    RaceOpens(env, es, check);
    ClaimInOneGrants(env, es, 7, RETURNED, LATE, 20, 3, "b", 100, check);
  }

  /** The other reaper's write clears the live lease. */
  lemma RaceClears(env: Env, es: seq<Event>, check: nat -> bool)
    requires IsRace(es, check)
    ensures After(env, es, 10) == World([CLEARED], map[], 20)
    ensures ReapsLive(env, After(env, es, 9), es[9], 0)
  {
    RaceRetaken(env, es, check);
    ReapLands(env, es, 9, RETAKEN, LATE, 20, 1, 20);
    assert LATE - {1} == map[];
  }

  /** A third claim sticks at once, though the second was granted for a hundred
      and the only thing between them is the late write. */
  lemma ReapRaceBreaksExclusivity(env: Env, es: seq<Event>, check: nat -> bool)
    requires IsRace(es, check)
    ensures Granted(env, es, 8, 0) && GrantExpiry(env, es, 8) == 120
    ensures ReapsLive(env, After(env, es, 9), es[9], 0)
    ensures Granted(env, es, 11, 0) && After(env, es, 11).clock == 20
  {
    RaceGrants(env, es, check);
    RaceClears(env, es, check);
    ClaimInOneGrants(env, es, 10, CLEARED, map[], 20, 4, "c", 10, check);
  }

  // --- an update fenced on nothing -----------------------------------------------------

  /** Each reap is one step; the outage comes from the first attempt's child. */
  ghost predicate IsOutage(es: seq<Event>, check: nat -> bool) {
    && |es| == 12 && Opens(es, check)
    && es[4] == Begin(1, CallReap(RACED), check) && es[5] == Finish(1)
    && es[6] == Begin(2, CallClaim(RACED, "b", {}, 100), check) && es[7] == Finish(2)
    && es[8] == Begin(3, OUTAGE, check) && es[9] == Finish(3)
    && es[10] == Begin(4, CallClaim(RACED, "c", {}, 10), check) && es[11] == Finish(4)
  }

  lemma OutageLands(env: Env, es: seq<Event>, n: nat, b: Bead, ops: map<nat, Op>, clock: int, op: nat, began: int)
    requires n < |es| && After(env, es, n) == World([b], ops, clock) && es[n] == Finish(op)
    requires b.id == RACED && LeaseActiveAt(b, clock) && op in ops && ops[op] == Waiting(OUTAGE, began)
    ensures Overwrites(env, After(env, es, n), es[n], 0)
    ensures After(env, es, n + 1) ==
      World([b.(status := Pending, leasedBy := None, leaseExpires := Never, result := None)], ops - {op}, clock)
  {
    FindRaced(b);
    AfterStep(env, es, n);
  }

  /** An outage with nobody between its halves. */
  lemma OutageInOne(env: Env, es: seq<Event>, n: nat, b: Bead, ops: map<nat, Op>, clock: int, op: nat, check: nat -> bool)
    requires n + 1 < |es| && After(env, es, n) == World([b], ops, clock) && op !in ops
    requires es[n] == Begin(op, OUTAGE, check) && es[n + 1] == Finish(op)
    requires b.id == RACED && LeaseActiveAt(b, clock)
    ensures Overwrites(env, After(env, es, n + 1), es[n + 1], 0)
    ensures After(env, es, n + 2) ==
      World([b.(status := Pending, leasedBy := None, leaseExpires := Never, result := None)], ops, clock)
  {
    Begins(env, es, n, b, ops, clock, op, OUTAGE, check);
    OutageLands(env, es, n + 1, b, ops[op := Waiting(OUTAGE, clock)], clock, op, clock);
    assert ops[op := Waiting(OUTAGE, clock)] - {op} == ops;
  }

  /** The lapsed bead is reaped in one step. */
  lemma OutageOpens(env: Env, es: seq<Event>, check: nat -> bool)
    requires IsOutage(es, check)
    ensures After(env, es, 6) == World([RETURNED], map[], 20)
  {
    RaceLapses(env, es, check);
    ReapInOne(env, es, 4, LAPSED, map[], 20, 1, check);
  }

  lemma OutageRetaken(env: Env, es: seq<Event>, check: nat -> bool)
    requires IsOutage(es, check)
    ensures After(env, es, 8) == World([RETAKEN], map[], 20)
  {
    OutageOpens(env, es, check);
    ClaimInOne(env, es, 6, RETURNED, map[], 20, 2, "b", 100, check);
  }

  lemma OutageGrants(env: Env, es: seq<Event>, check: nat -> bool)
    requires IsOutage(es, check)
    ensures Granted(env, es, 7, 0) && GrantExpiry(env, es, 7) == 120
  {
    OutageOpens(env, es, check);
    ClaimInOneGrants(env, es, 6, RETURNED, map[], 20, 2, "b", 100, check);
  }

  lemma OutageClears(env: Env, es: seq<Event>, check: nat -> bool)
    requires IsOutage(es, check)
    ensures After(env, es, 10) == World([CLEARED], map[], 20)
    ensures Overwrites(env, After(env, es, 9), es[9], 0)
  {
    OutageRetaken(env, es, check);
    OutageInOne(env, es, 8, RETAKEN, map[], 20, 3, check);
  }

  lemma OutageIsAtomic(es: seq<Event>, check: nat -> bool)
    requires IsOutage(es, check)
    ensures AtomicReaps(es)
  {
    forall k: nat | k + 1 < |es| && es[k].Begin? && es[k].call.CallReap? ensures k == 4 {
      assert k == 1 || k == 4 || k == 6 || k == 8 || k == 10;
    }
  }

  /** With every reap one step and no report, a third claim sticks at once though
      the second was granted for a hundred: the outage released a lease that was
      not its attempt's. */
  lemma OutageBreaksExclusivity(env: Env, es: seq<Event>, check: nat -> bool)
    requires IsOutage(es, check)
    ensures AtomicReaps(es)
    ensures Granted(env, es, 7, 0) && GrantExpiry(env, es, 7) == 120
    ensures Overwrites(env, After(env, es, 9), es[9], 0)
    ensures Granted(env, es, 11, 0) && After(env, es, 11).clock == 20
  {
    OutageIsAtomic(es, check);
    OutageGrants(env, es, check);
    OutageClears(env, es, check);
    ClaimInOneGrants(env, es, 10, CLEARED, map[], 20, 4, "c", 10, check);
  }

  // --- a late reap on finished work ---------------------------------------------------

  const DELIVERY := CallReport(RACED, 1, Done, None, NO_METADATA)
  const DELIVERED := Raced(Done, Some("a"), None, 1, Never)

  function Delivering(clock: int): Op {
    var q := RequestOf(DELIVERY, clock);
    Op(DELIVERY, Prepared(RACED, q.kwargs, Some(None), q.precheck, false, false))
  }

  /** The worker reports DONE between the reaper's scan and its write. */
  ghost predicate IsLateReap(es: seq<Event>, check: nat -> bool) {
    && |es| == 8 && Opens(es, check)
    && es[4] == Begin(1, CallReap(RACED), check)
    && es[5] == Begin(2, DELIVERY, check) && es[6] == Finish(2)
    && es[7] == Finish(1)
  }

  lemma DeliveryBegins(env: Env, es: seq<Event>, n: nat, ops: map<nat, Op>, clock: int, op: nat, check: nat -> bool)
    requires n < |es| && After(env, es, n) == World([LAPSED], ops, clock) && es[n] == Begin(op, DELIVERY, check)
    ensures After(env, es, n + 1) == World([LAPSED], ops[op := Delivering(clock)], clock)
  {
    FindRaced(LAPSED);
    AfterStep(env, es, n);
  }

  lemma DeliveryLands(env: Env, es: seq<Event>, n: nat, ops: map<nat, Op>, clock: int, op: nat)
    requires n < |es| && After(env, es, n) == World([LAPSED], ops, clock) && es[n] == Finish(op)
    requires op in ops && ops[op] == Delivering(clock)
    ensures After(env, es, n + 1) == World([DELIVERED], ops - {op}, clock)
  {
    FindRaced(LAPSED);
    AfterStep(env, es, n);
  }

  lemma DeliveryInOne(env: Env, es: seq<Event>, n: nat, ops: map<nat, Op>, clock: int, op: nat, check: nat -> bool)
    requires n + 1 < |es| && After(env, es, n) == World([LAPSED], ops, clock) && op !in ops
    requires es[n] == Begin(op, DELIVERY, check) && es[n + 1] == Finish(op)
    ensures After(env, es, n + 2) == World([DELIVERED], ops, clock)
  {
    DeliveryBegins(env, es, n, ops, clock, op, check);
    DeliveryLands(env, es, n + 1, ops[op := Delivering(clock)], clock, op);
    assert ops[op := Delivering(clock)] - {op} == ops;
  }

  lemma WorkerDelivers(env: Env, es: seq<Event>, check: nat -> bool)
    requires IsLateReap(es, check)
    ensures After(env, es, 7) == World([DELIVERED], LATE, 20)
  {
    ReapScans(env, es, check);
    DeliveryInOne(env, es, 5, LATE, 20, 2, check);
  }

  /** An accepted DONE is put back to PENDING by a reap that scanned before it. */
  lemma LateReapReopensDone(env: Env, es: seq<Event>, check: nat -> bool)
    requires IsLateReap(es, check)
    ensures After(env, es, 7).tasks == [DELIVERED]
    ensures After(env, es, 8).tasks == [RETURNED]
  {
    WorkerDelivers(env, es, check);
    ReapLands(env, es, 7, DELIVERED, LATE, 20, 1, 20);
  }
}
