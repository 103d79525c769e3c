/** Runs of the store under many callers. Every `update` is two events: `Begin`
    is the read and gate check outside the lock, `Finish` the locked region, and
    anything may happen in between. `claim`, `report_result` and the reaper's
    scan and write are calls of the same shape. */
module BeadRuns {
  import opened Prelude
  import opened Graph
  import opened BeadModel
  import opened StepCascade
  import opened BeadStore
  import CyclePath

  datatype Call =
    | CallUpdate(q: Request)
    | CallClaim(id: Id, agent: string, held: set<string>, ttl: int)
    | CallReport(id: Id, attempt: nat, status: Status, result: Option<string>, metadata: Metadata)
    | CallReap(id: Id)
  {
    function Target(): Id { if CallUpdate? then q.id else id }
  }

  /** The request a call makes when it begins at this time. */
  function RequestOf(c: Call, now: int): Request {
    match c
    case CallUpdate(q) => q
    case CallClaim(id, agent, held, ttl) => ClaimRequest(id, agent, held, now, ttl)
    case CallReport(id, attempt, status, result, m) => ReportRequest(id, attempt, status, result, m)
    case CallReap(id) => ReapRequest(id)
  }

  datatype Event =
    | Tick(to: int)
    | File(id: Id, args: CreateArgs)
    | Begin(op: nat, call: Call, check: nat -> bool)
    | Finish(op: nat)

  datatype Op = Op(call: Call, prepared: Prepared)

  datatype World = World(tasks: seq<Bead>, ops: map<nat, Op>, clock: int)

  /** A call names a bead it can see; the reaper only picks lapsed leases. */
  predicate MayBegin(tasks: seq<Bead>, c: Call, now: int) {
    && Exists(tasks, c.Target())
    && match c
       case CallUpdate(q) => q.precheck == NoCheck
       case CallClaim(_, _, _, _) => true
       case CallReport(_, _, status, _, _) => status == Done || status == Failed
       case CallReap(id) => Reapable(tasks[Find(tasks, id).value], now)
  }

  ghost function Next(env: Env, w: World, e: Event): World {
    match e
    case Tick(to) => w.(clock := if to > w.clock then to else w.clock)
    case File(id, args) =>
      if ValidId(id) && !Exists(w.tasks, id) && (args.status == Pending || args.status == PendingApproval) then
        w.(tasks := AfterCreate(w.tasks, Create(env, w.tasks, id, args)))
      else w
    case Begin(op, call, check) =>
      if MayBegin(w.tasks, call, w.clock) then
        match Prepare(env, w.tasks, RequestOf(call, w.clock), check)
        case Ok(p) => w.(ops := w.ops[op := Op(call, p)])
        case Err(_) => w
      else w
    case Finish(op) =>
      if op in w.ops then
        w.(tasks := Commit(env, w.tasks, w.ops[op].prepared).tasks, ops := w.ops - {op})
      else w
  }

  ghost function Exec(env: Env, w: World, es: seq<Event>): World {
    if es == [] then w else Next(env, Exec(env, w, es[..|es| - 1]), es[|es| - 1])
  }

  const EMPTY := World([], map[], 0)

  /** The world after the first `n` events of a run that starts at `w`. */
  ghost function From(env: Env, w: World, es: seq<Event>, n: nat): World
    requires n <= |es|
  {
    Exec(env, w, es[..n])
  }

  /** The same from the empty store. */
  ghost function After(env: Env, es: seq<Event>, n: nat): World
    requires n <= |es|
  {
    From(env, EMPTY, es, n)
  }

  lemma FromStep(env: Env, w: World, es: seq<Event>, n: nat)
    requires n < |es|
    ensures From(env, w, es, n + 1) == Next(env, From(env, w, es, n), es[n])
  {
    assert es[..n + 1][..n] == es[..n];
  }

  lemma AfterStep(env: Env, es: seq<Event>, n: nat)
    requires n < |es|
    ensures After(env, es, n + 1) == Next(env, After(env, es, n), es[n])
  {
    FromStep(env, EMPTY, es, n);
  }

  // --- one step, seen from one bead ---------------------------------------------

  /** The operation a `Finish` event commits, when it writes bead `i`. */
  ghost predicate Writes(env: Env, w: World, e: Event, i: nat) {
    e.Finish? && e.op in w.ops && Commit(env, w.tasks, w.ops[e.op].prepared).outcome == Written(i)
  }

  /** The keywords the locked region writes, hook included. */
  function Effective(w: World, op: nat, i: nat): Kwargs
    requires op in w.ops && i < |w.tasks|
    requires RunPrecheck(w.ops[op].prepared.precheck, w.tasks[i], w.ops[op].prepared.kwargs).Ok?
  {
    WithBlockersNormal(RunPrecheck(w.ops[op].prepared.precheck, w.tasks[i], w.ops[op].prepared.kwargs).value)
  }

  /** Positions never move: a step appends at most one bead, writes at most one,
      and the cascade closes or marks others. */
  lemma StepFrame(env: Env, w: World, e: Event)
    ensures var w' := Next(env, w, e);
      && |w.tasks| <= |w'.tasks|
      && w.clock <= w'.clock
      && forall i: nat :: i < |w.tasks| ==>
        if Writes(env, w, e, i) then
          && RunPrecheck(w.ops[e.op].prepared.precheck, w.tasks[i], w.ops[e.op].prepared.kwargs).Ok?
          && CascadedFrom(Apply(w.tasks[i], Effective(w, e.op, i)), w'.tasks[i])
        else CascadedFrom(w.tasks[i], w'.tasks[i])
  {
    if e.Finish? && e.op in w.ops {
      var p := w.ops[e.op].prepared;
      if Commit(env, w.tasks, p).outcome.Written? {
        var i := Find(w.tasks, p.id).value;
        WriteFrame(w.tasks, i, WithBlockersNormal(RunPrecheck(p.precheck, w.tasks[i], p.kwargs).value));
      }
    }
  }

  /** A write on its own bead: status as asked, and no cascade while it is open. */
  lemma DirectWrite(env: Env, w: World, e: Event, i: nat)
    requires i < |w.tasks| && Writes(env, w, e, i)
    ensures var kw := w.ops[e.op].prepared.kwargs; var after := Next(env, w, e).tasks[i];
      var s := kw.status.Or(w.tasks[i].status);
      && RunPrecheck(w.ops[e.op].prepared.precheck, w.tasks[i], kw).Ok?
      && Apply(w.tasks[i], Effective(w, e.op, i)).status == s
      && (after.status == Done <==> s == Done)
      && (s != Done ==> after == Apply(w.tasks[i], Effective(w, e.op, i)))
  {
    StepFrame(env, w, e);
  }

  /** Ids, once filed, stay where they are. */
  lemma {:induction false} PositionsStay(env: Env, start: World, es: seq<Event>, m: nat, n: nat)
    requires m <= n <= |es|
    ensures |From(env, start, es, m).tasks| <= |From(env, start, es, n).tasks|
    ensures From(env, start, es, m).clock <= From(env, start, es, n).clock
    ensures forall i :: 0 <= i < |From(env, start, es, m).tasks| ==>
      From(env, start, es, n).tasks[i].id == From(env, start, es, m).tasks[i].id
  {
    if m < n {
      PositionsStay(env, start, es, m, n - 1);
      FromStep(env, start, es, n - 1);
      StepFrame(env, From(env, start, es, n - 1), es[n - 1]);
      assert From(env, start, es, n).tasks == Next(env, From(env, start, es, n - 1), es[n - 1]).tasks;
    }
  }

  lemma StepKeepsUnique(env: Env, w: World, e: Event)
    requires UniqueIds(w.tasks)
    ensures UniqueIds(Next(env, w, e).tasks)
  {
    var after := Next(env, w, e).tasks;
    StepFrame(env, w, e);
    assert forall k: nat :: k < |w.tasks| ==> after[k].id == w.tasks[k].id by {
      forall k: nat | k < |w.tasks| ensures after[k].id == w.tasks[k].id {
        assert Writes(env, w, e, k) || CascadedFrom(w.tasks[k], after[k]);
      }
    }
    if e.File? {
      assert !Exists(w.tasks, e.id) ==> forall k :: 0 <= k < |w.tasks| ==> w.tasks[k].id != e.id;
    }
  }

  lemma {:induction false} IdsStayUnique(env: Env, start: World, es: seq<Event>, n: nat)
    requires UniqueIds(start.tasks) && n <= |es|
    ensures UniqueIds(From(env, start, es, n).tasks)
  {
    if n > 0 {
      IdsStayUnique(env, start, es, n - 1);
      FromStep(env, start, es, n - 1);
      StepKeepsUnique(env, From(env, start, es, n - 1), es[n - 1]);
    }
  }

  // --- where an operation in flight came from -------------------------------------

  /** Event `m` of the run is the unlocked half of this operation: the read saw
      that world's store and the check ran with that event's outcome. */
  ghost predicate BeganAt(env: Env, start: World, es: seq<Event>, m: nat, op: nat, o: Op) {
    && m < |es|
    && es[m].Begin? && es[m].op == op && es[m].call == o.call
    && var w := From(env, start, es, m);
       && MayBegin(w.tasks, o.call, w.clock)
       && Prepare(env, w.tasks, RequestOf(o.call, w.clock), es[m].check) == Ok(o.prepared)
  }

  /** An operation in flight was there at the start or began at some event since. */
  lemma {:induction false} OperationOrigin(env: Env, start: World, es: seq<Event>, n: nat, op: nat) returns (m: nat)
    requires n <= |es| && op in From(env, start, es, n).ops
    ensures m < n || (op in start.ops && start.ops[op] == From(env, start, es, n).ops[op])
    ensures m < n ==> BeganAt(env, start, es, m, op, From(env, start, es, n).ops[op])
  {
    if n == 0 {
      m := 0;
    } else {
      FromStep(env, start, es, n - 1);
      var w := From(env, start, es, n - 1);
      var e := es[n - 1];
      if e.Begin? && e.op == op && MayBegin(w.tasks, e.call, w.clock)
        && Prepare(env, w.tasks, RequestOf(e.call, w.clock), e.check).Ok? {
        m := n - 1;
      } else {
        m := OperationOrigin(env, start, es, n - 1, op);
        if m == n - 1 { m := n; }
      }
    }
  }

  // --- what every reachable store keeps -----------------------------------------

  ghost predicate ParentsExist(tasks: seq<Bead>) {
    forall i :: 0 <= i < |tasks| && tasks[i].parentId.Some? ==> Exists(tasks, tasks[i].parentId.value)
  }

  ghost predicate ShallowTrees(tasks: seq<Bead>) {
    forall i :: 0 <= i < |tasks| ==> Depth(tasks, tasks[i].id) <= MAX_SUBTASK_DEPTH
  }

  /** Distinct well-formed ids, references that resolve, no dependency loop, no
      tree deeper than the limit. */
  ghost predicate Sound(tasks: seq<Bead>) {
    && UniqueIds(tasks)
    && (forall t :: t in tasks ==> ValidId(t.id))
    && BlockersExist(tasks) && Acyclic(EdgesOf(tasks))
    && ParentsExist(tasks) && ShallowTrees(tasks)
  }

  lemma ExistsAt(tasks: seq<Bead>, i: nat)
    requires i < |tasks|
    ensures Exists(tasks, tasks[i].id)
  {
    assert Find(tasks, tasks[i].id).Some?;
  }

  /** The same ids and parents resolve the same references. */
  ghost predicate SameTree(a: seq<Bead>, b: seq<Bead>) {
    |a| == |b| && forall i :: 0 <= i < |a| ==> a[i].id == b[i].id && a[i].parentId == b[i].parentId
  }

  lemma {:induction false} SameTreeFind(a: seq<Bead>, b: seq<Bead>, id: Id)
    requires SameTree(a, b)
    ensures Find(a, id) == Find(b, id)
    ensures Lookup(a, id) == Lookup(b, id)
  {
    if Find(a, id).Some? { ExistsAt(b, Find(a, id).value); }
    if Find(b, id).Some? { ExistsAt(a, Find(b, id).value); }
    SameTreeLookup(a, b, id);
  }

  lemma {:induction false} SameTreeLookup(a: seq<Bead>, b: seq<Bead>, id: Id)
    requires SameTree(a, b)
    ensures Lookup(a, id) == Lookup(b, id)
  {
    if a != [] {
      SameTreeLookup(a[..|a| - 1], b[..|b| - 1], id);
    }
  }

  lemma {:induction false} SameTreeDepth(a: seq<Bead>, b: seq<Bead>, cur: Id, seen: set<Id>)
    requires SameTree(a, b)
    ensures DepthFrom(a, cur, seen) == DepthFrom(b, cur, seen)
    decreases IdSet(a) - seen
  {
    SameTreeLookup(a, b, cur);
    var at := Lookup(a, cur);
    if at.Some? && cur !in seen && a[at.value].parentId.Some? {
      assert a[at.value] in a;
      SameTreeDepth(a, b, a[at.value].parentId.value, seen + {cur});
    }
  }

  /** A new bead under a fresh id lengthens nobody's ancestry. */
  lemma {:induction false} AppendDepth(tasks: seq<Bead>, b: Bead, cur: Id, seen: set<Id>, more: set<Id>)
    requires ParentsExist(tasks) && !Exists(tasks, b.id) && Exists(tasks, cur)
    requires more == seen || more == seen + {b.id}
    requires b.id !in seen
    ensures DepthFrom(tasks + [b], cur, more) == DepthFrom(tasks, cur, seen)
    decreases IdSet(tasks) - seen
  {
    var all := tasks + [b];
    assert all[..|all| - 1] == tasks;
    var at := Lookup(tasks, cur);
    assert Find(tasks, cur).Some?;
    assert at.Some? && cur != b.id;
    assert Lookup(all, cur) == at;
    if cur !in seen && tasks[at.value].parentId.Some? {
      assert tasks[at.value] in tasks;
      assert all[at.value] == tasks[at.value] && all[at.value] in all;
      AppendDepth(tasks, b, tasks[at.value].parentId.value, seen + {cur}, more + {cur});
      assert DepthFrom(all, cur, more) == 1 + DepthFrom(all, tasks[at.value].parentId.value, more + {cur});
    }
  }

  lemma FindAppend(tasks: seq<Bead>, b: Bead, id: Id)
    requires Exists(tasks, id)
    ensures Exists(tasks + [b], id)
  {
    assert (tasks + [b])[Find(tasks, id).value].id == id;
    ExistsAt(tasks + [b], Find(tasks, id).value);
  }

  /** Filing keeps the store sound: a fresh id has no successors. */
  lemma CreateKeepsSound(env: Env, tasks: seq<Bead>, id: Id, a: CreateArgs)
    requires Sound(tasks) && ValidId(id) && !Exists(tasks, id)
    ensures Sound(AfterCreate(tasks, Create(env, tasks, id, a)))
  {
    var c := Create(env, tasks, id, a);
    if c.Created? {
      var b := c.bead;
      var all := tasks + [b];
      forall i, x | 0 <= i < |all| && x in all[i].blockedBy ensures Exists(all, x) {
        if i < |tasks| { assert all[i] == tasks[i]; }
        FindAppend(tasks, b, x);
      }
      forall i | 0 <= i < |all| && all[i].parentId.Some? ensures Exists(all, all[i].parentId.value) {
        if i < |tasks| { assert all[i] == tasks[i]; }
        FindAppend(tasks, b, all[i].parentId.value);
      }
      CreateKeepsAcyclic(tasks, b);
      CreateKeepsShallow(tasks, b);
      assert Find(tasks, id).None?;
    }
  }

  lemma CreateKeepsAcyclic(tasks: seq<Bead>, b: Bead)
    requires BlockersExist(tasks) && Acyclic(EdgesOf(tasks)) && !Exists(tasks, b.id)
    requires forall x :: x in b.blockedBy ==> Exists(tasks, x)
    ensures Acyclic(EdgesOf(tasks + [b]))
  {
    var edges := EdgesOf(tasks);
    CyclePath.EdgesOfSnoc(tasks, b);
    assert EdgesOf(tasks + [b]) == Rewire(edges, b.id, b.blockedBy) by {
      assert Find(tasks, b.id).None?;
    }
    forall y ensures (b.id, y) !in Rewire(edges, b.id, b.blockedBy) {
    }
    NoWayOut(Rewire(edges, b.id, b.blockedBy), b.id);
    RewireAcyclic(edges, b.id, b.blockedBy);
  }

  lemma CreateKeepsShallow(tasks: seq<Bead>, b: Bead)
    requires ParentsExist(tasks) && ShallowTrees(tasks) && !Exists(tasks, b.id)
    requires b.parentId.Some? ==> Exists(tasks, b.parentId.value) && Depth(tasks, b.parentId.value) + 1 <= MAX_SUBTASK_DEPTH
    ensures ShallowTrees(tasks + [b])
  {
    var all := tasks + [b];
    forall i | 0 <= i < |all| ensures Depth(all, all[i].id) <= MAX_SUBTASK_DEPTH {
      if i < |tasks| {
        ExistsAt(tasks, i);
        AppendDepth(tasks, b, tasks[i].id, {}, {});
      } else {
        assert Lookup(all, b.id) == Some(|tasks|);
        if b.parentId.Some? {
          AppendDepth(tasks, b, b.parentId.value, {}, {b.id});
          assert {} + {b.id} == {b.id};
        }
      }
    }
  }

  /** After a write the dependency graph is the old one, rewired at the written
      bead when the write names blockers. */
  lemma WriteEdges(tasks: seq<Bead>, i: nat, kw: Kwargs)
    requires UniqueIds(tasks) && i < |tasks|
    ensures EdgesOf(Write(tasks, i, kw)) ==
      if kw.blockedBy.Set? then Rewire(EdgesOf(tasks), tasks[i].id, kw.blockedBy.value) else EdgesOf(tasks)
  {
    WriteFrame(tasks, i, kw);
    var after := Write(tasks, i, kw);
    var id := tasks[i].id;
    forall k | 0 <= k < |tasks| && k != i ensures after[k].blockedBy == tasks[k].blockedBy && after[k].id == tasks[k].id && tasks[k].id != id {
    }
    var edges, got := EdgesOf(tasks), EdgesOf(after);
    var want := if kw.blockedBy.Set? then Rewire(edges, id, kw.blockedBy.value) else edges;
    forall e | e in got ensures e in want {
      var k, x :| 0 <= k < |after| && x in after[k].blockedBy && e == (x, after[k].id);
      if k != i || kw.blockedBy.Keep? { assert x in tasks[k].blockedBy && e in edges; }
    }
    forall e | e in want ensures e in got {
      if e in edges && (kw.blockedBy.Keep? || e.1 != id) {
        var k, x :| 0 <= k < |tasks| && x in tasks[k].blockedBy && e == (x, tasks[k].id);
        assert x in after[k].blockedBy;
      } else {
        assert e.0 in after[i].blockedBy && after[i].id == e.1;
      }
    }
  }

  lemma SameTreeSound(tasks: seq<Bead>, after: seq<Bead>)
    requires Sound(tasks) && SameTree(tasks, after)
    ensures UniqueIds(after) && (forall t :: t in after ==> ValidId(t.id))
    ensures ParentsExist(after) && ShallowTrees(after)
  {
    forall k | 0 <= k < |after| && after[k].parentId.Some? ensures Exists(after, after[k].parentId.value) {
      SameTreeFind(tasks, after, tasks[k].parentId.value);
    }
    forall k | 0 <= k < |after| ensures Depth(after, after[k].id) <= MAX_SUBTASK_DEPTH {
      SameTreeDepth(tasks, after, tasks[k].id, {});
    }
    forall t | t in after ensures ValidId(t.id) {
      var k :| 0 <= k < |after| && after[k] == t;
      assert tasks[k] in tasks;
    }
  }

  lemma WriteBlockersExist(tasks: seq<Bead>, i: nat, kw: Kwargs)
    requires BlockersExist(tasks) && i < |tasks|
    requires kw.blockedBy.Set? ==> forall x :: x in kw.blockedBy.value ==> Exists(tasks, x)
    ensures SameTree(tasks, Write(tasks, i, kw)) && BlockersExist(Write(tasks, i, kw))
  {
    WriteFrame(tasks, i, kw);
    var after := Write(tasks, i, kw);
    forall k, x | 0 <= k < |after| && x in after[k].blockedBy ensures Exists(after, x) {
      SameTreeFind(tasks, after, x);
      if k == i && kw.blockedBy.Set? {
        assert x in kw.blockedBy.value;
      } else {
        assert x in tasks[k].blockedBy;
      }
      assert Exists(tasks, x);
    }
  }

  /** A locked region keeps the store sound, whatever was prepared outside it. */
  lemma CommitKeepsSound(env: Env, tasks: seq<Bead>, p: Prepared)
    requires Sound(tasks)
    ensures Sound(Commit(env, tasks, p).tasks)
  {
    var c := Commit(env, tasks, p);
    if c.outcome.Written? {
      var i := Find(tasks, p.id).value;
      var given := RunPrecheck(p.precheck, tasks[i], p.kwargs).value;
      var kw := WithBlockersNormal(given);
      assert CommitRefusal(env, tasks, tasks[i], p, given).None?;
      if kw.blockedBy.Set? {
        assert forall x :: x in kw.blockedBy.value ==> x in given.blockedBy.value;
        RewireAcyclic(EdgesOf(tasks), tasks[i].id, kw.blockedBy.value);
      }
      WriteEdges(tasks, i, kw);
      WriteBlockersExist(tasks, i, kw);
      SameTreeSound(tasks, c.tasks);
    }
  }

  lemma EmptySound()
    ensures Sound([])
  {
    assert EdgesOf([]) == {};
    NoEdgesAcyclic(EdgesOf([]));
  }

  /** Every store any interleaving of callers can reach is sound. */
  lemma {:induction false} ReachableSound(env: Env, es: seq<Event>)
    ensures Sound(Exec(env, EMPTY, es).tasks)
  {
    if es == [] {
      EmptySound();
    } else {
      var w := Exec(env, EMPTY, es[..|es| - 1]);
      ReachableSound(env, es[..|es| - 1]);
      match es[|es| - 1]
      case Tick(_) =>
      case Begin(_, _, _) =>
      case File(id, args) =>
        if ValidId(id) && !Exists(w.tasks, id) { CreateKeepsSound(env, w.tasks, id, args); }
      case Finish(op) =>
        if op in w.ops { CommitKeepsSound(env, w.tasks, w.ops[op].prepared); }
    }
  }

  /** No silent deadlock: while anything is unfinished, some unfinished bead has
      every blocker DONE. */
  lemma NoSilentDeadlock(env: Env, es: seq<Event>)
    ensures var tasks := Exec(env, EMPTY, es).tasks;
      (exists t :: t in tasks && t.status != Done) ==>
      exists t :: t in tasks && t.status != Done && forall x :: x in t.blockedBy ==> IsDone(tasks, x)
  {
    ReachableSound(env, es);
    var tasks := Exec(env, EMPTY, es).tasks;
    if t :| t in tasks && t.status != Done {
      var waiting := set u | u in tasks && u.status != Done :: u.id;
      var x := FrontOfAcyclic(EdgesOf(tasks), waiting, [t.id]);
      var u :| u in tasks && u.status != Done && u.id == x;
      var i :| 0 <= i < |tasks| && tasks[i] == u;
      forall b | b in u.blockedBy ensures IsDone(tasks, b) {
        assert (b, x) in EdgesOf(tasks);
        assert Exists(tasks, b);
        assert tasks[Find(tasks, b).value] in tasks;
      }
    }
  }
}
