/** A worker's poll: reconcile before replay. The ledger remembers each key's last
    answer, and that memory is the latch. */
module Pull {
  import opened Prelude
  import opened BeadModel
  import opened BeadStore
  import B = Beads

  /** Beads this worker may have half finished. */
  predicate MayBeHalfDone(b: Bead, agent: string) {
    && b.status !in {Done, Failed, Skipped}
    && b.leaseAttempt > 0
    && (b.leasedBy == Some(agent) || (b.leasedBy.None? && b.assignedAgent == Some(agent)))
  }

  function Unresolved(tasks: seq<Bead>, agent: string): (r: seq<Bead>)
    ensures forall b :: b in r <==> b in tasks && MayBeHalfDone(b, agent)
  {
    if tasks == [] then []
    else
      assert forall b :: b in tasks <==> b == tasks[0] || b in tasks[1..];
      (if MayBeHalfDone(tasks[0], agent) then [tasks[0]] else []) + Unresolved(tasks[1..], agent)
  }

  // --- the ledger -------------------------------------------------------------------

  datatype Mode = Reconcile | Claiming | Forced

  datatype Stamp = Stamp(
    agent: string, node: Option<string>, lastPullAt: int, lastMode: Mode,
    lastClaimed: nat, outstanding: nat, pulls: nat, lastReconcileAt: Option<int>)

  type Ledger = map<string, Stamp>

  function Entry(ledger: Ledger, key: string): Option<Stamp> {
    if key in ledger then Some(ledger[key]) else None
  }

  function Recorded(ledger: Ledger, key: string, agent: string, node: Option<string>, mode: Mode,
                    claimed: nat, outstanding: nat, now: int): Ledger
  {
    var prior := Entry(ledger, key);
    ledger[key := Stamp(agent, node, now, mode, claimed, outstanding,
                        (if prior.Some? then prior.value.pulls else 0) + 1,
                        if mode == Reconcile then Some(now)
                        else if prior.Some? then prior.value.lastReconcileAt else None)]
  }

  class PullLedger {
    var rows: Ledger

    constructor ()
      ensures rows == map[]
    {
      rows := map[];
    }

    method Record(key: string, agent: string, node: Option<string>, mode: Mode, claimed: nat, outstanding: nat, now: int)
      modifies this
      ensures rows == Recorded(old(rows), key, agent, node, mode, claimed, outstanding, now)
    {
      var pulls, reconciled := 1, None;
      if key in rows {
        pulls := rows[key].pulls + 1;
        reconciled := rows[key].lastReconcileAt;
      }
      if mode == Reconcile {
        reconciled := Some(now);
      }
      rows := rows[key := Stamp(agent, node, now, mode, claimed, outstanding, pulls, reconciled)];
    }
  }

  // --- one poll ---------------------------------------------------------------------

  /** `order` is how the listing sorts what it offers: by priority and age. */
  datatype Poll = Poll(
    agent: string, node: Option<string>, held: set<string>,
    reconcile: bool, force: bool, reconcileAfter: int, maxBeads: int, ttl: int, now: int,
    order: seq<Bead> -> seq<Bead>)

  /** Sorting only reorders. */
  ghost predicate OnlyReorders(order: seq<Bead> -> seq<Bead>) {
    forall s :: multiset(order(s)) == multiset(s)
  }

  /** The node when one is named, else the agent. */
  function KeyOf(p: Poll): string { if Truthy(p.node) then p.node.value else p.agent }

  predicate WasSilent(ledger: Ledger, p: Poll) {
    var prior := Entry(ledger, KeyOf(p));
    prior.None? || p.now - prior.value.lastPullAt > p.reconcileAfter
  }

  predicate StillReconciling(ledger: Ledger, key: string) {
    var prior := Entry(ledger, key);
    prior.Some? && prior.value.lastMode == Reconcile
  }

  predicate Armed(tasks: seq<Bead>, ledger: Ledger, p: Poll) {
    Unresolved(tasks, p.agent) != [] && (p.reconcile || WasSilent(ledger, p) || StillReconciling(ledger, KeyOf(p)))
  }

  /** The answer withholds work. */
  predicate Held(tasks: seq<Bead>, ledger: Ledger, p: Poll) { Armed(tasks, ledger, p) && !p.force }

  predicate Capable(b: Bead, held: set<string>) { forall r :: r in b.requirements ==> r in held }

  /** The first `room` beads this worker can take. */
  function Taken(ready: seq<Bead>, held: set<string>, room: int): seq<Id> {
    if ready == [] || room <= 0 then []
    else if Capable(ready[0], held) then [ready[0].id] + Taken(ready[1..], held, room - 1)
    else Taken(ready[1..], held, room)
  }

  /** The ready beads passed over on the way, for want of a capability. */
  function PassedOver(ready: seq<Bead>, held: set<string>, room: int): seq<Id> {
    if ready == [] || room <= 0 then []
    else if Capable(ready[0], held) then PassedOver(ready[1..], held, room - 1)
    else [ready[0].id] + PassedOver(ready[1..], held, room)
  }

  function Swept(tasks: seq<Bead>, now: int): (r: seq<Bead>)
    ensures |r| == |tasks| && forall k :: 0 <= k < |tasks| ==> r[k] == Reaped(tasks[k], now)
  {
    seq(|tasks|, k requires 0 <= k < |tasks| => Reaped(tasks[k], now))
  }

  function Granted(b: Bead, p: Poll): Bead {
    b.(status := InProgress, assignedAgent := Some(p.agent), leasedBy := Some(p.agent),
       leaseAttempt := b.leaseAttempt + 1, leaseExpires := At(p.now + p.ttl))
  }

  /** What the store offers this worker once lapsed leases are reaped. */
  function OfferedTo(tasks: seq<Bead>, p: Poll): seq<Bead> {
    p.order(Ready(Swept(tasks, p.now), Some(p.agent), p.now))
  }

  /** What the poll claims: nothing when it is held. */
  function Claims(tasks: seq<Bead>, ledger: Ledger, p: Poll): seq<Id> {
    if Held(tasks, ledger, p) then []
    else Taken(OfferedTo(tasks, p), p.held, p.maxBeads)
  }

  function ModeOf(tasks: seq<Bead>, ledger: Ledger, p: Poll): Mode {
    if !Armed(tasks, ledger, p) then Claiming else if p.force then Forced else Reconcile
  }

  function NextLedger(tasks: seq<Bead>, ledger: Ledger, p: Poll): Ledger {
    Recorded(ledger, KeyOf(p), p.agent, p.node, ModeOf(tasks, ledger, p),
             |Claims(tasks, ledger, p)|, |Unresolved(tasks, p.agent)|, p.now)
  }

  // --- what a poll decides ------------------------------------------------------------

  /** A live bead that was handed out, and is held by the agent or went back with
      the agent named on it. */
  predicate LeftWith(b: Bead, agent: string) {
    && b.status != Done && b.status != Failed && b.status != Skipped
    && b.leaseAttempt >= 1
    && (b.leasedBy == Some(agent) || (b.leasedBy == None && b.assignedAgent == Some(agent)))
  }

  ghost predicate Owes(tasks: seq<Bead>, agent: string) { exists b :: b in tasks && LeftWith(b, agent) }

  /** Work is withheld exactly from an unforced poll of an agent that owes something,
      when it asks to reconcile, or its key has never polled, or has been silent for
      longer than allowed, or was last told to reconcile. */
  lemma PollDecides(tasks: seq<Bead>, ledger: Ledger, p: Poll)
    ensures var key := if p.node.Some? && p.node.value != "" then p.node.value else p.agent;
      && KeyOf(p) == key
      && (Held(tasks, ledger, p) <==>
           && !p.force && Owes(tasks, p.agent)
           && (|| p.reconcile || key !in ledger
               || p.now - ledger[key].lastPullAt > p.reconcileAfter
               || ledger[key].lastMode == Reconcile))
  {
    OwesIff(tasks, p.agent);
  }

  lemma OwesIff(tasks: seq<Bead>, agent: string)
    ensures Owes(tasks, agent) <==> Unresolved(tasks, agent) != []
  {
    assert forall b :: LeftWith(b, agent) <==> MayBeHalfDone(b, agent);
    if b :| b in tasks && LeftWith(b, agent) { assert b in Unresolved(tasks, agent); }
    if Unresolved(tasks, agent) != [] {
      assert Unresolved(tasks, agent)[0] in Unresolved(tasks, agent);
    }
  }

  /** What the ledger says after a poll: of this key, when it polled and how it was
      answered; of every other key, what it said before. */
  lemma LedgerSays(tasks: seq<Bead>, ledger: Ledger, p: Poll)
    ensures var after := NextLedger(tasks, ledger, p); var key := KeyOf(p);
      && key in after && after.Keys == ledger.Keys + {key}
      && (forall k :: k in ledger && k != key ==> after[k] == ledger[k])
      && var row := after[key];
         && row.agent == p.agent && row.node == p.node && row.lastPullAt == p.now
         && row.lastClaimed == |Claims(tasks, ledger, p)| && row.outstanding == |Unresolved(tasks, p.agent)|
         && (row.lastMode == Reconcile <==> Held(tasks, ledger, p))
         && (row.lastMode == Forced <==> p.force && Held(tasks, ledger, p.(force := false)))
         && row.pulls == 1 + (if key in ledger then ledger[key].pulls else 0)
         && row.lastReconcileAt == (if Held(tasks, ledger, p) then Some(p.now)
                                    else if key in ledger then ledger[key].lastReconcileAt else None)
  {
  }

  /** The ids of those beads the worker can take, or of those it cannot, in order. */
  function IdsWhere(ready: seq<Bead>, held: set<string>, capable: bool): seq<Id> {
    if ready == [] then []
    else (if capable == (forall r :: r in ready[0].requirements ==> r in held) then [ready[0].id] else [])
         + IdsWhere(ready[1..], held, capable)
  }

  /** A poll goes through the first `n` beads offered: it claims all of them it can
      take and lists all it cannot. It stops short only when its limit is met, and
      had not met it before. */
  lemma {:induction false} TakenFirst(ready: seq<Bead>, held: set<string>, room: int) returns (n: nat)
    ensures n <= |ready|
    ensures Taken(ready, held, room) == IdsWhere(ready[..n], held, true)
    ensures PassedOver(ready, held, room) == IdsWhere(ready[..n], held, false)
    ensures n < |ready| ==> |Taken(ready, held, room)| >= room
    ensures forall m: nat :: m < n ==> |IdsWhere(ready[..m], held, true)| < room
  {
    n := 0;
    if ready != [] && room > 0 {
      var capable := Capable(ready[0], held);
      n := TakenFirst(ready[1..], held, if capable then room - 1 else room);
      forall m: nat | m <= n
        ensures forall b :: IdsWhere(ready[..m + 1], held, b) == (if b == capable then [ready[0].id] else []) + IdsWhere(ready[1..][..m], held, b)
      {
        assert ready[..m + 1][1..] == ready[1..][..m];
      }
      forall m: nat | m < n + 1 ensures |IdsWhere(ready[..m], held, true)| < room {
        if m > 0 { assert |IdsWhere(ready[1..][..m - 1], held, true)| < if capable then room - 1 else room; }
      }
      n := n + 1;
    }
  }

  ghost predicate DistinctIds(s: seq<Bead>) { forall i, j :: 0 <= i < j < |s| ==> s[i].id != s[j].id }

  lemma {:induction false} ReadyDraws(tasks: seq<Bead>, some: seq<Bead>, agent: Option<string>, now: int)
    requires DistinctIds(some)
    ensures var r := ReadyAmong(tasks, some, agent, now);
      DistinctIds(r) && forall b :: b in r ==> b in some && IsReady(tasks, b, agent, now)
  {
    if some != [] {
      ReadyDraws(tasks, some[1..], agent, now);
      var rest := ReadyAmong(tasks, some[1..], agent, now);
      forall b | b in rest ensures b.id != some[0].id {
        var k :| 0 <= k < |some[1..]| && some[1..][k] == b;
        assert some[k + 1] == b;
      }
    }
  }

  lemma {:induction false} OnceEach(s: seq<Bead>, b: Bead)
    requires DistinctIds(s) && b in s
    ensures multiset(s)[b] == 1
  {
    var front, last := s[..|s| - 1], s[|s| - 1];
    assert s == front + [last];
    if b == last {
      assert b !in front;
    } else {
      OnceEach(front, b);
    }
  }

  lemma TwiceMeansTwo(s: seq<Bead>, i: nat, j: nat)
    requires i < j < |s| && s[i] == s[j]
    ensures multiset(s)[s[i]] >= 2
  {
    assert s == s[..j] + [s[j]] + s[j + 1..];
    assert s[i] in s[..j];
  }

  /** A reordering of beads with distinct ids offers the same beads, once each. */
  lemma ReorderedDraws(s: seq<Bead>, t: seq<Bead>)
    requires DistinctIds(s) && multiset(t) == multiset(s)
    ensures DistinctIds(t) && forall b :: b in t <==> b in s
  {
    forall b ensures b in t <==> b in s {
      assert b in t <==> b in multiset(t);
      assert b in s <==> b in multiset(s);
    }
    forall i, j | 0 <= i < j < |t| ensures t[i].id != t[j].id {
      assert t[i] in s && t[j] in s;
      if t[i].id == t[j].id {
        OnceEach(s, t[i]);
        TwiceMeansTwo(t, i, j);
        assert false;
      }
    }
  }

  ghost predicate After(mid: seq<Bead>, tasks: seq<Bead>, claimed: seq<Id>, p: Poll) {
    && |tasks| == |mid|
    && forall k :: 0 <= k < |mid| ==> tasks[k] == if mid[k].id in claimed then Granted(mid[k], p) else mid[k]
  }

  /** One poll. Held: the outstanding beads come back and the store is untouched.
      Otherwise lapsed leases are reaped and the first capable ready beads are
      leased to the worker, up to its limit; every other bead stays as reaped. */
  method Answer(beads: B.Beads, ledger: PullLedger, p: Poll)
    returns (claimed: seq<Id>, refused: seq<Id>, outstanding: seq<Bead>)
    requires UniqueIds(beads.tasks) && OnlyReorders(p.order)
    modifies beads, ledger
    ensures claimed == Claims(old(beads.tasks), old(ledger.rows), p)
    ensures outstanding == Unresolved(old(beads.tasks), p.agent)
    ensures ledger.rows == NextLedger(old(beads.tasks), old(ledger.rows), p)
    ensures Held(old(beads.tasks), old(ledger.rows), p) ==> beads.tasks == old(beads.tasks) && refused == []
    ensures !Held(old(beads.tasks), old(ledger.rows), p) ==>
      && After(Swept(old(beads.tasks), p.now), beads.tasks, claimed, p)
      && refused == PassedOver(OfferedTo(old(beads.tasks), p), p.held, p.maxBeads)
  {
    var key := KeyOf(p);
    claimed, refused := [], [];
    outstanding := Unresolved(beads.tasks, p.agent);
    var silent := key !in ledger.rows || p.now - ledger.rows[key].lastPullAt > p.reconcileAfter;
    var latched := key in ledger.rows && ledger.rows[key].lastMode == Reconcile;
    var armed := outstanding != [] && (p.reconcile || silent || latched);
    if armed && !p.force {
      ledger.Record(key, p.agent, p.node, Reconcile, 0, |outstanding|, p.now);
      return;
    }
    claimed, refused := HandOut(beads, p);
    ledger.Record(key, p.agent, p.node, if armed then Forced else Claiming, |claimed|, |outstanding|, p.now);
  }

  method HandOut(beads: B.Beads, p: Poll) returns (claimed: seq<Id>, refused: seq<Id>)
    requires UniqueIds(beads.tasks) && OnlyReorders(p.order)
    modifies beads
    ensures claimed == Taken(OfferedTo(old(beads.tasks), p), p.held, p.maxBeads)
    ensures refused == PassedOver(OfferedTo(old(beads.tasks), p), p.held, p.maxBeads)
    ensures After(Swept(old(beads.tasks), p.now), beads.tasks, claimed, p)
  {
    var reaped := beads.ReapExpiredLeases(p.now);
    assert beads.tasks == Swept(old(beads.tasks), p.now);
    var ready := Ready(beads.tasks, Some(p.agent), p.now);
    ReadyDraws(beads.tasks, beads.tasks, Some(p.agent), p.now);
    ReorderedDraws(ready, p.order(ready));
    claimed, refused := ClaimInTurn(beads, p, p.order(ready), beads.tasks);
  }

  ghost predicate Offered(mid: seq<Bead>, b: Bead, p: Poll) { b in mid && IsReady(mid, b, Some(p.agent), p.now) }

  method ClaimInTurn(beads: B.Beads, p: Poll, ready: seq<Bead>, ghost mid: seq<Bead>)
    returns (claimed: seq<Id>, refused: seq<Id>)
    requires beads.tasks == mid && UniqueIds(mid)
    requires DistinctIds(ready) && forall b :: b in ready ==> Offered(mid, b, p)
    modifies beads
    ensures claimed == Taken(ready, p.held, p.maxBeads) && refused == PassedOver(ready, p.held, p.maxBeads)
    ensures After(mid, beads.tasks, claimed, p)
  {
    claimed, refused := [], [];
    assert ready[0..] == ready;
    for i := 0 to |ready|
      invariant After(mid, beads.tasks, claimed, p)
      invariant forall k :: i <= k < |ready| ==> ready[k].id !in claimed
      invariant HandedSoFar(ready, p, i, claimed, refused)
    {
      if |claimed| >= p.maxBeads { return; }
      var b := ready[i];
      HandNext(ready, p, i, claimed, refused);
      assert Offered(mid, b, p);
      var r := ClaimReady(beads, p, b, mid, claimed);
      if r.Written? {
        claimed := claimed + [b.id];
      } else {
        refused := refused + [b.id];
      }
    }
  }

  /** What is handed out in all is what has been, and what the rest yields. */
  ghost predicate HandedSoFar(ready: seq<Bead>, p: Poll, i: nat, claimed: seq<Id>, refused: seq<Id>)
    requires i <= |ready|
  {
    && Taken(ready, p.held, p.maxBeads) == claimed + Taken(ready[i..], p.held, p.maxBeads - |claimed|)
    && PassedOver(ready, p.held, p.maxBeads) == refused + PassedOver(ready[i..], p.held, p.maxBeads - |claimed|)
  }

  lemma HandNext(ready: seq<Bead>, p: Poll, i: nat, claimed: seq<Id>, refused: seq<Id>)
    requires i < |ready| && HandedSoFar(ready, p, i, claimed, refused) && |claimed| < p.maxBeads
    ensures Capable(ready[i], p.held) ==> HandedSoFar(ready, p, i + 1, claimed + [ready[i].id], refused)
    ensures !Capable(ready[i], p.held) ==> HandedSoFar(ready, p, i + 1, claimed, refused + [ready[i].id])
  {
    var rest := ready[i..];
    assert rest[0] == ready[i] && rest[1..] == ready[i + 1..];
  }

  /** A bead the ready list offered, not yet claimed by this poll, is claimed
      exactly when the worker is capable of it. */
  method ClaimReady(beads: B.Beads, p: Poll, b: Bead, ghost mid: seq<Bead>, ghost claimed: seq<Id>) returns (r: Outcome)
    requires UniqueIds(mid) && After(mid, beads.tasks, claimed, p) && Offered(mid, b, p) && b.id !in claimed
    modifies beads
    ensures r.Written? <==> Capable(b, p.held)
    ensures After(mid, beads.tasks, if r.Written? then claimed + [b.id] else claimed, p)
  {
    ghost var k :| 0 <= k < |mid| && mid[k] == b;
    ghost var before := beads.tasks;
    assert before[k] == b;
    AfterUnique(mid, before, claimed, p);
    FindUnique(before, k);
    r := beads.Claim(b.id, p.agent, p.held, p.now, p.ttl);
    if r.Written? {
      AfterOneMore(mid, before, claimed, p, k);
    }
  }

  lemma AfterUnique(mid: seq<Bead>, tasks: seq<Bead>, claimed: seq<Id>, p: Poll)
    requires UniqueIds(mid) && After(mid, tasks, claimed, p)
    ensures UniqueIds(tasks)
  {
    assert forall j :: 0 <= j < |mid| ==> tasks[j].id == mid[j].id;
  }

  lemma AfterOneMore(mid: seq<Bead>, tasks: seq<Bead>, claimed: seq<Id>, p: Poll, k: nat)
    requires UniqueIds(mid) && After(mid, tasks, claimed, p) && k < |mid| && tasks[k] == mid[k]
    ensures After(mid, tasks[k := Granted(tasks[k], p)], claimed + [mid[k].id], p)
  {
    assert forall j :: 0 <= j < |mid| && j != k ==> mid[j].id != mid[k].id;
  }
}
