/** Turning a flat procedure into beads: a parent and one bead per step, each
    waiting for the beads of the steps it comes after. */
module Filing {
  import opened Prelude
  import opened Graph
  import opened NaturalKey
  import opened BeadModel
  import opened StepCascade
  import opened BeadStore
  import opened BeadRuns
  import opened Beads
  import opened RoleBindings
  import P = Procedures

  /** One run of a procedure: its text and bindings, and the ids the store hands
      out for the parent and the steps. */
  datatype Plan = Plan(c: P.Content, b: Bindings, parent: Id, ids: seq<Id>)

  /** The text of a flat procedure: at least one step, and each with a gate in
      normal form. */
  ghost predicate FlatText(env: Env, c: P.Content) {
    && WellFormed(c) && |c.steps| >= 1
    && forall i :: 0 <= i < |c.steps| ==>
      c.steps[i].uses.None? && c.steps[i].gate.Some? && Normalised(env, c.steps[i].gate.value)
  }

  /** A flat procedure ready to be filed: every role bound and an id for each step. */
  ghost predicate Flat(env: Env, p: Plan) {
    FlatText(env, p.c) && |p.ids| == |p.c.steps| && forall r :: r in p.c.roles ==> r in p.b
  }

  ghost predicate FreshId(tasks: seq<Bead>, x: Id) { ValidId(x) && !Exists(tasks, x) }

  /** Ids as the store makes them: well formed, new, and no two the same. */
  ghost predicate FreshIds(tasks: seq<Bead>, p: Plan) {
    && FreshId(tasks, p.parent) && (forall x :: x in p.ids ==> FreshId(tasks, x))
    && Distinct(p.ids) && p.parent !in p.ids
  }

  /** The bead ids standing for these step numbers. */
  function Images(steps: seq<P.Step>, ids: seq<Id>, after: seq<nat>): (r: seq<Id>)
    requires |steps| <= |ids|
    requires forall a :: a in after ==> StepIndex(steps, a).Some?
    ensures |r| == |after|
    ensures forall k :: 0 <= k < |after| ==> r[k] == ids[StepIndex(steps, after[k]).value]
    ensures forall x :: x in r ==> exists a :: a in after && x == ids[StepIndex(steps, a).value]
  {
    seq(|after|, k requires 0 <= k < |after| => assert after[k] in after; ids[StepIndex(steps, after[k]).value])
  }

  predicate LexLeq(a: string, b: string) {
    a == "" || (b != "" && (a[0] < b[0] || (a[0] == b[0] && LexLeq(a[1..], b[1..]))))
  }

  function Insert(x: Id, s: seq<Id>): (r: seq<Id>)
    ensures forall y :: y in r <==> y == x || y in s
  {
    if s == [] then [x]
    else if LexLeq(x, s[0]) then [x] + s
    else
      assert forall y :: y in s <==> y == s[0] || y in s[1..];
      [s[0]] + Insert(x, s[1..])
  }

  function SortIds(s: seq<Id>): (r: seq<Id>)
    ensures forall y :: y in r <==> y in s
  {
    if s == [] then []
    else
      assert forall y :: y in s <==> y == s[0] || y in s[1..];
      Insert(s[0], SortIds(s[1..]))
  }

  const NO_KEY := KeyInputs(None, None, None, None, None, None)

  const PARENT_ARGS := CreateArgs(Pending, None, None, NO_KEY, None, [], [], NO_METADATA)

  /** What `create` is asked for step `s`, given the beads it waits for. */
  function StepArgs(p: Plan, s: P.Step, blockedBy: seq<Id>): CreateArgs
    requires s.role in p.c.roles && s.role in p.b
  {
    var isHuman := p.c.roles[s.role] == P.HumanRole;
    CreateArgs(Pending,
               if isHuman then None else Some(p.b[s.role]),
               if isHuman then Some(HUMAN_PREFIX + p.b[s.role]) else None,
               NO_KEY, Some(p.parent), blockedBy, [],
               NO_METADATA.(verify := s.gate, sopStep := Some(s.step)))
  }

  /** The beads step `k` waits for: the images of its `after`. */
  ghost function Awaited(env: Env, p: Plan, k: nat): seq<Id>
    requires Flat(env, p) && k < |p.ids|
  {
    Images(p.c.steps[..k], p.ids, p.c.steps[k].after)
  }

  ghost function StepBead(env: Env, p: Plan, k: nat): Bead
    requires Flat(env, p) && k < |p.ids|
  {
    var a := StepArgs(p, p.c.steps[k], Awaited(env, p, k));
    NewBead(p.ids[k], a, None, a.metadata)
  }

  function OpenParent(p: Plan): Bead { NewBead(p.parent, PARENT_ARGS, None, NO_METADATA) }

  function HeldParent(p: Plan): Bead { OpenParent(p).(blockedBy := Dedup(SortIds(p.ids))) }

  /** The store with the parent and the first `k` step beads on top of `base`. */
  ghost function PartlyFiled(env: Env, base: seq<Bead>, p: Plan, parent: Bead, k: nat): (r: seq<Bead>)
    requires Flat(env, p) && k <= |p.ids|
    ensures |r| == |base| + 1 + k && r[..|base|] == base && r[|base|] == parent
    ensures forall j :: 0 <= j < k ==> r[|base| + 1 + j] == StepBead(env, p, j)
  {
    base + [parent] + seq(k, j requires 0 <= j < k => StepBead(env, p, j))
  }

  /** The store right after filing on top of `base`. */
  ghost function Filed(env: Env, base: seq<Bead>, p: Plan): seq<Bead>
    requires Flat(env, p)
  {
    PartlyFiled(env, base, p, HeldParent(p), |p.ids|)
  }

  // --- what a filed run carries ----------------------------------------------------------

  /** A bead carries this step of the run: pending, gated and numbered as the step
      says, unanswered and unleased, and given to the actor its role is bound to. */
  predicate CarriesStep(p: Plan, s: P.Step, b: Bead) {
    && b.status == Pending && b.parentId == Some(p.parent)
    && b.metadata.verify == s.gate && b.metadata.sopStep == Some(s.step)
    && b.metadata.approval.None? && b.metadata.outcome.None? && b.leasedBy.None? && b.result.None?
    && s.role in p.c.roles && s.role in p.b
    && match p.c.roles[s.role]
       case HumanRole => b.assignedTo == Some("human:" + p.b[s.role]) && b.assignedAgent.None?
       case AgentRole => b.assignedAgent == Some(p.b[s.role]) && b.assignedTo.None?
  }

  /** It waits for the beads of exactly the steps its own step comes after. */
  ghost predicate WaitsForPredecessors(p: Plan, s: P.Step, b: Bead)
    requires |p.ids| == |p.c.steps|
  {
    && (forall j :: 0 <= j < |p.ids| ==> (p.ids[j] in b.blockedBy <==> p.c.steps[j].step in s.after))
    && forall x :: x in b.blockedBy ==> x in p.ids
  }

  /** The store holds the run on top of `base`: an ungated root waiting for exactly
      the steps, and after it one bead for each step, in their order. */
  ghost predicate FiledAs(base: seq<Bead>, tasks: seq<Bead>, p: Plan)
    requires |p.ids| == |p.c.steps|
  {
    && |tasks| == |base| + 1 + |p.ids| && tasks[..|base|] == base
    && (var b := tasks[|base|];
        && b.id == p.parent && b.status == Pending && b.parentId.None? && b.metadata == NO_METADATA
        && b.assignedAgent.None? && b.assignedTo.None?
        && Distinct(b.blockedBy) && forall x :: x in b.blockedBy <==> x in p.ids)
    && forall k: nat :: k < |p.ids| ==>
      && tasks[|base| + 1 + k].id == p.ids[k]
      && CarriesStep(p, p.c.steps[k], tasks[|base| + 1 + k])
      && WaitsForPredecessors(p, p.c.steps[k], tasks[|base| + 1 + k])
  }

  lemma StepWaits(env: Env, p: Plan, k: nat)
    requires Flat(env, p) && k < |p.ids| && Distinct(p.ids)
    ensures WaitsForPredecessors(p, p.c.steps[k], StepBead(env, p, k))
  {
    var s, waits := p.c.steps[k], Awaited(env, p, k);
    forall x | x in waits ensures exists i :: 0 <= i < |p.ids| && x == p.ids[i] && p.c.steps[i].step in s.after {
      var a :| a in s.after && x == p.ids[StepIndex(p.c.steps[..k], a).value];
    }
    forall j | 0 <= j < |p.ids| && p.c.steps[j].step in s.after ensures p.ids[j] in waits {
      var n :| 0 <= n < |s.after| && s.after[n] == p.c.steps[j].step;
      EarlierStep(p.c, k, s.after[n]);
      StepIndexAt(p.c.steps, j);
      assert waits[n] == p.ids[j];
    }
  }

  /** The filed store carries the run; each step's bead records as its executor the
      very actor its role is bound to. */
  lemma FiledCarriesRun(env: Env, base: seq<Bead>, p: Plan)
    requires Flat(env, p) && FreshIds(base, p)
    ensures FiledAs(base, Filed(env, base, p), p)
    ensures forall k: nat :: k < |p.ids| && p.b[p.c.steps[k].role] != "" ==>
      RecordedExecutor(Filed(env, base, p)[|base| + 1 + k]) == Some(p.b[p.c.steps[k].role])
  {
    var tasks := Filed(env, base, p);
    forall k: nat | k < |p.ids|
      ensures tasks[|base| + 1 + k].id == p.ids[k]
      ensures CarriesStep(p, p.c.steps[k], tasks[|base| + 1 + k])
      ensures WaitsForPredecessors(p, p.c.steps[k], tasks[|base| + 1 + k])
      ensures p.b[p.c.steps[k].role] != "" ==> RecordedExecutor(tasks[|base| + 1 + k]) == Some(p.b[p.c.steps[k].role])
    {
      StepWaits(env, p, k);
      if p.b[p.c.steps[k].role] != "" { ExecutorNamed(tasks[|base| + 1 + k], p.b[p.c.steps[k].role]); }
    }
  }

  // --- filing is never refused ---------------------------------------------------------

  lemma PartlyFiledIds(env: Env, base: seq<Bead>, p: Plan, parent: Bead, k: nat)
    requires Flat(env, p) && k <= |p.ids| && FreshIds(base, p) && parent.id == p.parent
    ensures var tasks := PartlyFiled(env, base, p, parent, k);
      && Find(tasks, p.parent) == Some(|base|)
      && (forall n :: 0 <= n < |tasks| && n != |base| ==> tasks[n].id != p.parent)
      && forall j :: 0 <= j < k ==> Exists(tasks, p.ids[j])
  {
    var tasks := PartlyFiled(env, base, p, parent, k);
    forall n | 0 <= n < |tasks| && n != |base| ensures tasks[n].id != p.parent {
      if n < |base| {
        assert tasks[n] == base[n];
        ExistsAt(base, n);
      } else {
        assert tasks[n] == StepBead(env, p, n - |base| - 1);
        assert p.ids[n - |base| - 1] in p.ids;
      }
    }
    forall j | 0 <= j < k ensures Exists(tasks, p.ids[j]) {
      assert tasks[|base| + 1 + j].id == p.ids[j];
      ExistsAt(tasks, |base| + 1 + j);
    }
    ExistsAt(tasks, |base|);
  }

  lemma RootDepth(tasks: seq<Bead>, i: nat)
    requires i < |tasks| && tasks[i].parentId.None?
    requires forall k :: 0 <= k < |tasks| && k != i ==> tasks[k].id != tasks[i].id
    ensures Depth(tasks, tasks[i].id) == 0
  {
    assert Lookup(tasks, tasks[i].id) == Some(i);
  }

  lemma AwaitedEarlier(env: Env, p: Plan, k: nat, x: Id) returns (i: nat)
    requires Flat(env, p) && k < |p.ids| && x in Awaited(env, p, k)
    ensures i < k && x == p.ids[i]
  {
    var a :| a in p.c.steps[k].after && x == p.ids[StepIndex(p.c.steps[..k], a).value];
    i := StepIndex(p.c.steps[..k], a).value;
  }

  /** Every bead a step waits for has been filed before it. */
  lemma AwaitedFiled(env: Env, base: seq<Bead>, p: Plan, k: nat)
    requires Flat(env, p) && k < |p.ids| && FreshIds(base, p)
    ensures ReferencesExist(PartlyFiled(env, base, p, OpenParent(p), k), Awaited(env, p, k))
    ensures forall x :: x in Awaited(env, p, k) ==> x in p.ids
  {
    var tasks := PartlyFiled(env, base, p, OpenParent(p), k);
    PartlyFiledIds(env, base, p, OpenParent(p), k);
    forall x | x in Awaited(env, p, k) ensures ValidId(x) && Exists(tasks, x) && x in p.ids {
      var i := AwaitedEarlier(env, p, k, x);
      assert p.ids[i] in p.ids && FreshId(base, p.ids[i]);
    }
  }

  lemma StepCreates(env: Env, base: seq<Bead>, p: Plan, k: nat)
    requires Flat(env, p) && k < |p.ids| && FreshIds(base, p)
    ensures Create(env, PartlyFiled(env, base, p, OpenParent(p), k), p.ids[k], StepArgs(p, p.c.steps[k], Awaited(env, p, k)))
      == Created(StepBead(env, p, k))
  {
    var tasks := PartlyFiled(env, base, p, OpenParent(p), k);
    var args := StepArgs(p, p.c.steps[k], Awaited(env, p, k));
    PartlyFiledIds(env, base, p, OpenParent(p), k);
    AwaitedFiled(env, base, p, k);
    RootDepth(tasks, |base|);
    assert Validated(env, args.metadata) == Ok(args.metadata);
    assert DeriveNaturalKey(env.keys, args.key) == Ok(None);
  }

  lemma FilingClosesNoCycle(env: Env, base: seq<Bead>, p: Plan)
    requires Flat(env, p) && FreshIds(base, p) && BlockersExist(base)
    ensures !ClosesCycle(PartlyFiled(env, base, p, OpenParent(p), |p.ids|), p.parent, Dedup(SortIds(p.ids)))
  {
    var tasks := PartlyFiled(env, base, p, OpenParent(p), |p.ids|);
    forall i | 0 <= i < |tasks| ensures p.parent !in tasks[i].blockedBy {
      if i < |base| {
        assert tasks[i] == base[i];
      } else if i > |base| {
        assert tasks[i] == StepBead(env, p, i - |base| - 1);
        AwaitedFiled(env, base, p, i - |base| - 1);
      }
    }
    assert forall y :: (p.parent, y) !in EdgesOf(tasks);
    NoWayOut(Rewire(EdgesOf(tasks), p.parent, Dedup(SortIds(p.ids))), p.parent);
  }

  function HoldRequest(p: Plan): Request {
    Request(p.parent, NO_CHANGE.(blockedBy := Set(SortIds(p.ids))), NoCheck, None, false, false)
  }

  lemma HoldWrites(env: Env, base: seq<Bead>, p: Plan)
    requires Flat(env, p)
    ensures Write(PartlyFiled(env, base, p, OpenParent(p), |p.ids|), |base|, WithBlockersNormal(HoldRequest(p).kwargs)) == Filed(env, base, p)
  {
    var tasks := PartlyFiled(env, base, p, OpenParent(p), |p.ids|);
    assert Apply(tasks[|base|], WithBlockersNormal(HoldRequest(p).kwargs)) == HeldParent(p);
    assert tasks[|base| := HeldParent(p)] == Filed(env, base, p);
  }

  lemma HoldReferences(env: Env, base: seq<Bead>, p: Plan)
    requires Flat(env, p) && FreshIds(base, p)
    ensures ReferencesExist(PartlyFiled(env, base, p, OpenParent(p), |p.ids|), SortIds(p.ids))
  {
    PartlyFiledIds(env, base, p, OpenParent(p), |p.ids|);
    forall x | x in SortIds(p.ids) ensures ValidId(x) && Exists(PartlyFiled(env, base, p, OpenParent(p), |p.ids|), x) {
      var j :| 0 <= j < |p.ids| && p.ids[j] == x;
      assert FreshId(base, x);
    }
  }

  /** An update that only names blockers is refused for nothing but them. */
  lemma BlockersOnlyCommit(env: Env, tasks: seq<Bead>, id: Id, blockers: seq<Id>, i: nat)
    requires Find(tasks, id) == Some(i) && ReferencesExist(tasks, blockers) && !ClosesCycle(tasks, id, Dedup(blockers))
    ensures var kw := NO_CHANGE.(blockedBy := Set(blockers));
      Commit(env, tasks, Prepared(id, kw, None, NoCheck, false, false)) == Committed(Write(tasks, i, WithBlockersNormal(kw)), Written(i))
  {
  }

  /** Holding the parent on all its steps goes through: the cycle check does not
      refuse it, and it leaves the filed store. */
  lemma ParentHolds(env: Env, base: seq<Bead>, p: Plan)
    requires Flat(env, p) && FreshIds(base, p) && BlockersExist(base)
    ensures Commit(env, PartlyFiled(env, base, p, OpenParent(p), |p.ids|), Prepared(p.parent, HoldRequest(p).kwargs, None, NoCheck, false, false))
      == Committed(Filed(env, base, p), Written(|base|))
  {
    PartlyFiledIds(env, base, p, OpenParent(p), |p.ids|);
    FilingClosesNoCycle(env, base, p);
    HoldReferences(env, base, p);
    BlockersOnlyCommit(env, PartlyFiled(env, base, p, OpenParent(p), |p.ids|), p.parent, SortIds(p.ids), |base|);
    HoldWrites(env, base, p);
  }

  lemma HoldPrepares(env: Env, tasks: seq<Bead>, p: Plan, check: nat -> bool)
    ensures Prepare(env, tasks, HoldRequest(p), check) == Ok(Prepared(p.parent, HoldRequest(p).kwargs, None, NoCheck, false, false))
  {
  }

  lemma ParentCreates(env: Env, tasks: seq<Bead>, p: Plan)
    ensures Create(env, tasks, p.parent, PARENT_ARGS) == Created(OpenParent(p))
  {
    assert DeriveNaturalKey(env.keys, NO_KEY) == Ok(None);
  }

  lemma StepIndexSnoc(steps: seq<P.Step>, k: nat, n: nat)
    requires DistinctSteps(steps) && k < |steps|
    ensures StepIndex(steps[..k + 1], n) == (if n == steps[k].step then Some(k) else StepIndex(steps[..k], n))
  {
    var longer, shorter := steps[..k + 1], steps[..k];
    var a, b := StepIndex(longer, n), StepIndex(shorter, n);
    assert longer[k] == steps[k];
    assert forall j :: 0 <= j < k ==> longer[j] == shorter[j];
    if b.Some? {
      assert longer[b.value].step == n;
      StepIndexAt(longer, b.value);
    } else if n == steps[k].step {
      StepIndexAt(longer, k);
    }
  }

  /** The dictionary from step numbers to bead ids after `k` steps. */
  ghost predicate Assigned(p: Plan, filed: map<nat, Id>, k: nat)
    requires k <= |p.c.steps| == |p.ids|
  {
    forall n :: (n in filed <==> StepIndex(p.c.steps[..k], n).Some?)
      && (n in filed ==> filed[n] == p.ids[StepIndex(p.c.steps[..k], n).value])
  }

  /** File a flat procedure: the parent, then each step waiting for the beads of
      the steps it is after, then the parent held on all of them. Nothing is
      refused on the way. */
  method FileRun(beads: Beads, p: Plan)
    requires Flat(beads.env, p) && FreshIds(beads.tasks, p) && BlockersExist(beads.tasks)
    modifies beads
    ensures beads.tasks == Filed(beads.env, old(beads.tasks), p)
    ensures FiledAs(old(beads.tasks), beads.tasks, p)
  {
    ghost var base := beads.tasks;
    ParentCreates(beads.env, beads.tasks, p);
    var parent := beads.CreateBead(p.parent, PARENT_ARGS);
    var filed: map<nat, Id> := map[];
    assert beads.tasks == PartlyFiled(beads.env, base, p, OpenParent(p), 0);
    for k := 0 to |p.c.steps|
      invariant beads.tasks == PartlyFiled(beads.env, base, p, OpenParent(p), k)
      invariant Assigned(p, filed, k)
    {
      filed := FileStep(beads, p, base, k, filed);
    }
    ParentHolds(beads.env, base, p);
    var check: nat -> bool := _ => false;
    HoldPrepares(beads.env, beads.tasks, p, check);
    var held := beads.Update(HoldRequest(p), check);
    FiledCarriesRun(beads.env, base, p);
  }

  /** The beads a step waits for, looked up one by one. */
  method LookUpAwaited(ghost env: Env, p: Plan, k: nat, filed: map<nat, Id>) returns (blockedBy: seq<Id>)
    requires Flat(env, p) && k < |p.ids| && Assigned(p, filed, k)
    ensures blockedBy == Awaited(env, p, k)
  {
    var after := p.c.steps[k].after;
    blockedBy := [];
    for j := 0 to |after|
      invariant blockedBy == Awaited(env, p, k)[..j]
    {
      assert after[j] in after;
      assert StepIndex(p.c.steps[..k], after[j]).Some?;
      blockedBy := blockedBy + [filed[after[j]]];
    }
  }

  lemma AssignedNext(p: Plan, filed: map<nat, Id>, k: nat)
    requires DistinctSteps(p.c.steps) && k < |p.c.steps| == |p.ids| && Assigned(p, filed, k)
    ensures Assigned(p, filed[p.c.steps[k].step := p.ids[k]], k + 1)
  {
    var more := filed[p.c.steps[k].step := p.ids[k]];
    forall n
      ensures n in more <==> StepIndex(p.c.steps[..k + 1], n).Some?
      ensures n in more ==> more[n] == p.ids[StepIndex(p.c.steps[..k + 1], n).value]
    {
      StepIndexSnoc(p.c.steps, k, n);
    }
  }

  lemma PartlyFiledNext(env: Env, base: seq<Bead>, p: Plan, parent: Bead, k: nat)
    requires Flat(env, p) && k < |p.ids|
    ensures PartlyFiled(env, base, p, parent, k + 1) == PartlyFiled(env, base, p, parent, k) + [StepBead(env, p, k)]
  {
  }

  method FileStep(beads: Beads, p: Plan, ghost base: seq<Bead>, k: nat, filed: map<nat, Id>) returns (more: map<nat, Id>)
    requires Flat(beads.env, p) && FreshIds(base, p) && k < |p.ids|
    requires beads.tasks == PartlyFiled(beads.env, base, p, OpenParent(p), k) && Assigned(p, filed, k)
    modifies beads
    ensures beads.tasks == PartlyFiled(beads.env, base, p, OpenParent(p), k + 1) && Assigned(p, more, k + 1)
  {
    var blockedBy := LookUpAwaited(beads.env, p, k, filed);
    StepCreates(beads.env, base, p, k);
    var bead := beads.CreateBead(p.ids[k], StepArgs(p, p.c.steps[k], blockedBy));
    PartlyFiledNext(beads.env, base, p, OpenParent(p), k);
    AssignedNext(p, filed, k);
    more := filed[p.c.steps[k].step := p.ids[k]];
  }

  // --- starting a run of a stored procedure ------------------------------------------------

  datatype RunError = NoSuchProcedure | NoSuchVersion | NotInService | InputsMissing | Bindings(why: RunRefusal)

  /** Position `k` holds the version a run is asked for: the one named, or else
      the one in service. */
  ghost predicate AskedFor(records: seq<P.Version>, id: string, version: Option<nat>, k: nat) {
    && k < |records| && records[k].asopId == id
    && if version.Some? then records[k].version == version.value else records[k].status == P.Active
  }

  /** A run of this version may start: it is in service, its declared inputs are
      supplied and the bindings keep its duties apart. */
  ghost predicate MayRun(v: P.Version, inputs: set<string>, b: Bindings) {
    v.status == P.Active && v.content.inputs <= inputs && SeparatesDuties(v.content, b)
  }

  lemma AskedOnce(records: seq<P.Version>, id: string, version: Option<nat>, k: nat)
    requires P.LibrarySound(records) && AskedFor(records, id, version, k)
    ensures (if version.Some? then P.VersionAt(records, id, version.value) else P.ActiveAt(records, id)) == Some(k)
  {
    P.AtNumbered(records, k);
    assert version.None? ==> P.ActiveAt(records, id).Some?;
  }

  /** Start a run: it is filed exactly when the version asked for exists and may
      run; then the store holds that version's steps, and otherwise nothing is
      written. */
  method StartRun(library: P.AsopStore, beads: Beads, id: string, version: Option<nat>, inputs: set<string>, b: Bindings,
                  parent: Id, ids: seq<Id>) returns (r: Result<Plan, RunError>)
    requires P.LibrarySound(library.records) && BlockersExist(beads.tasks)
    requires forall v :: v in library.records ==> FlatText(beads.env, v.content) && |v.content.steps| <= |ids|
    requires FreshIds(beads.tasks, Plan(P.Content("", {}, map[], [], []), b, parent, ids))
    modifies beads
    ensures r.Ok? <==> exists k: nat :: AskedFor(library.records, id, version, k) && MayRun(library.records[k], inputs, b)
    ensures r.Ok? ==> exists k: nat ::
      && AskedFor(library.records, id, version, k) && MayRun(library.records[k], inputs, b)
      && r.value == Plan(library.records[k].content, b, parent, ids[..|library.records[k].content.steps|])
    ensures r.Ok? ==> |r.value.ids| == |r.value.c.steps| && FiledAs(old(beads.tasks), beads.tasks, r.value)
    ensures r.Err? ==> beads.tasks == old(beads.tasks)
    ensures r == Err(NotInService) ==> forall k: nat :: AskedFor(library.records, id, version, k) ==> library.records[k].status != P.Active
    ensures r == Err(NoSuchVersion) ==> version.Some? && forall k: nat :: !AskedFor(library.records, id, version, k)
  {
    var records := library.records;
    var at := if version.Some? then P.VersionAt(records, id, version.value) else P.ActiveAt(records, id);
    if at.None? {
      return Err(if P.Count(records, id) == 0 then NoSuchProcedure else if version.Some? then NoSuchVersion else NotInService);
    }
    assert AskedFor(records, id, version, at.value);
    forall k: nat | AskedFor(records, id, version, k) ensures k == at.value {
      AskedOnce(records, id, version, k);
    }
    var v := records[at.value];
    assert v in records;
    if v.status != P.Active {
      return Err(NotInService);
    }
    if !(v.content.inputs <= inputs) {
      return Err(InputsMissing);
    }
    var refused := CheckBindings(v.content, b);
    if refused.Some? {
      return Err(Bindings(refused.value));
    }
    var p := Plan(v.content, b, parent, ids[..|v.content.steps|]);
    FileRun(beads, p);
    r := Ok(p);
  }
}
