/** How a filed run executes: its steps keep their order, and its parent closes in
    the very locked region that finishes its last step. */
module RunFiling {
  import opened Prelude
  import opened BeadModel
  import opened StepCascade
  import opened BeadStore
  import opened BeadRuns
  import opened RoleBindings
  import opened Filing

  /** Callers may work on a run's beads freely, but nobody rewires or un-steps its
      step beads or gates its parent. */
  predicate CallLeavesRun(p: Plan, c: Call) {
    && (c.Target() == p.parent ==> match c
        case CallUpdate(q) => q.kwargs.metadata.Set? ==> q.kwargs.metadata.value.verify.None?
        case CallReport(_, _, _, _, m) => m.verify.None?
        case CallClaim(_, _, _, _) => true
        case CallReap(_) => true)
    && (c.Target() in p.ids ==> match c
        case CallUpdate(q) => q.kwargs.blockedBy.Keep? && (q.kwargs.metadata.Set? ==> q.kwargs.metadata.value.sopStep.Some?)
        case CallReport(_, _, _, _, m) => m.sopStep.Some?
        case CallClaim(_, _, _, _) => true
        case CallReap(_) => true)
  }

  /** Nor does anybody file further beads under its parent. */
  predicate EventLeavesRun(p: Plan, e: Event) {
    match e
    case File(_, args) => args.parentId != Some(p.parent)
    case Begin(_, call, _) => CallLeavesRun(p, call)
    case Tick(_) => true
    case Finish(_) => true
  }

  predicate OpLeavesRun(p: Plan, o: Prepared) {
    && (o.id == p.parent ==> o.kwargs.metadata.Set? ==> o.kwargs.metadata.value.verify.None?)
    && (o.id in p.ids ==> o.kwargs.blockedBy.Keep? && (o.kwargs.metadata.Set? ==> o.kwargs.metadata.value.sopStep.Some?))
  }

  /** Position `i` holds a step bead of the run. */
  predicate StepSlot(p: Plan, at: nat, i: nat) { at < i <= at + |p.ids| }

  /** The run as filed at position `at`: an ungated root whose children are
      exactly its step beads, each waiting for what it was filed to wait for. */
  ghost predicate RunTree(env: Env, tasks: seq<Bead>, p: Plan, at: nat)
    requires Flat(env, p)
  {
    && UniqueIds(tasks) && at + |p.ids| < |tasks|
    && tasks[at].id == p.parent && tasks[at].parentId.None? && !Gated(tasks[at])
    && forall i :: 0 <= i < |tasks| ==>
      if StepSlot(p, at, i) then
        && tasks[i].id == p.ids[i - at - 1] && ChildOf(tasks[i], p.parent) && tasks[i].metadata.sopStep.Some?
        && tasks[i].blockedBy == StepBead(env, p, i - at - 1).blockedBy
      else !ChildOf(tasks[i], p.parent)
  }

  ghost predicate RunIntact(env: Env, w: World, p: Plan, at: nat)
    requires Flat(env, p)
  {
    && ValidId(p.parent)
    && RunTree(env, w.tasks, p, at)
    && forall op :: op in w.ops ==> OpLeavesRun(p, w.ops[op].prepared)
  }

  ghost predicate StepsDone(tasks: seq<Bead>, p: Plan, at: nat) {
    at + |p.ids| < |tasks| && forall i: nat :: StepSlot(p, at, i) ==> tasks[i].status == Done
  }

  lemma StepsDoneIsChildrenDone(env: Env, tasks: seq<Bead>, p: Plan, at: nat)
    requires Flat(env, p) && RunTree(env, tasks, p, at)
    ensures StepsDone(tasks, p, at) <==> ChildrenDone(tasks, p.parent)
  {
    if ChildrenDone(tasks, p.parent) {
      forall i: nat | StepSlot(p, at, i) ensures tasks[i].status == Done {
        assert tasks[i] in tasks && ChildOf(tasks[i], p.parent);
      }
    }
    if StepsDone(tasks, p, at) {
      forall t | t in tasks && ChildOf(t, p.parent) ensures t.status == Done {
        var i :| 0 <= i < |tasks| && tasks[i] == t;
      }
    }
  }

  // --- the run stays intact --------------------------------------------------------

  lemma FiledUnique(env: Env, base: seq<Bead>, p: Plan)
    requires Flat(env, p) && FreshIds(base, p) && UniqueIds(base)
    ensures UniqueIds(Filed(env, base, p))
  {
    var tasks := Filed(env, base, p);
    PartlyFiledIds(env, base, p, HeldParent(p), |p.ids|);
    assert forall i :: 0 <= i < |base| ==> tasks[i] == base[i];
    forall i, j | 0 <= i < j < |tasks| ensures tasks[i].id != tasks[j].id {
      if j > |base| {
        assert tasks[j] == StepBead(env, p, j - |base| - 1);
        assert tasks[j].id in p.ids;
        if i < |base| {
          ExistsAt(base, i);
          assert FreshId(base, tasks[j].id);
        } else if i > |base| {
          assert tasks[i] == StepBead(env, p, i - |base| - 1);
        }
      }
    }
  }

  lemma FiledIntact(env: Env, base: seq<Bead>, p: Plan)
    requires Flat(env, p) && FreshIds(base, p) && UniqueIds(base) && ParentsExist(base)
    ensures RunTree(env, Filed(env, base, p), p, |base|)
  {
    var tasks := Filed(env, base, p);
    FiledUnique(env, base, p);
    forall i | 0 <= i < |tasks| && i != |base|
      ensures if StepSlot(p, |base|, i) then tasks[i] == StepBead(env, p, i - |base| - 1) else !ChildOf(tasks[i], p.parent)
    {
      if i < |base| { assert tasks[i] == base[i]; }
    }
    assert tasks[|base|] == HeldParent(p);
  }

  lemma BeginLeavesRun(env: Env, w: World, p: Plan, at: nat, c: Call, check: nat -> bool)
    requires Flat(env, p) && RunTree(env, w.tasks, p, at) && CallLeavesRun(p, c) && MayBegin(w.tasks, c, w.clock)
    requires Prepare(env, w.tasks, RequestOf(c, w.clock), check).Ok?
    ensures OpLeavesRun(p, Prepare(env, w.tasks, RequestOf(c, w.clock), check).value)
  {
    var q := RequestOf(c, w.clock);
    PrepareFrame(env, w.tasks, q, check);
    AsksOf(c, w.clock);
    if q.id in p.ids {
      BeginLeavesStep(env, w.tasks, p, at, q, check);
    }
    if q.id == p.parent {
      FindUnique(w.tasks, at);
      PrepareKeepsUngated(env, w.tasks, q, check);
    }
  }

  /** What each verb asks to write. */
  lemma AsksOf(c: Call, now: int)
    ensures var q := RequestOf(c, now);
      && q.id == c.Target()
      && match c
         case CallUpdate(r) => q == r
         case CallReport(_, _, _, _, m) => q.kwargs.blockedBy.Keep? && q.kwargs.metadata == Set(m)
         case CallClaim(_, _, _, _) => q.kwargs.blockedBy.Keep? && q.kwargs.metadata.Keep?
         case CallReap(_) => q.kwargs.blockedBy.Keep? && q.kwargs.metadata.Keep?
  {
  }

  lemma BeginLeavesStep(env: Env, tasks: seq<Bead>, p: Plan, at: nat, q: Request, check: nat -> bool)
    requires Flat(env, p) && RunTree(env, tasks, p, at) && q.id in p.ids && Prepare(env, tasks, q, check).Ok?
    requires q.kwargs.metadata.Set? ==> q.kwargs.metadata.value.sopStep.Some?
    ensures var kw := Prepare(env, tasks, q, check).value.kwargs;
      kw.metadata.Set? ==> kw.metadata.value.sopStep.Some?
  {
    var k :| 0 <= k < |p.ids| && p.ids[k] == q.id;
    assert StepSlot(p, at, at + 1 + k);
    FindUnique(tasks, at + 1 + k);
    PrepareKeepsStep(env, tasks, q, check);
  }

  lemma PrepareKeepsUngated(env: Env, tasks: seq<Bead>, q: Request, check: nat -> bool)
    requires Prepare(env, tasks, q, check).Ok? && Exists(tasks, q.id) && !Gated(tasks[Find(tasks, q.id).value])
    requires q.kwargs.metadata.Set? ==> q.kwargs.metadata.value.verify.None?
    ensures var kw := Prepare(env, tasks, q, check).value.kwargs;
      kw.metadata.Set? ==> kw.metadata.value.verify.None?
  {
    var kw := CleanKwargs(env, q.kwargs).value;
    assert kw.metadata.Or(tasks[Find(tasks, q.id).value].metadata).verify.None?;
  }

  lemma GateKeepsStep(b: Bead, kw: Kwargs, env: Env, g: Gate, a: Option<Attestation>, passed: bool)
    requires b.metadata.sopStep.Some?
    requires kw.metadata.Set? ==> kw.metadata.value.sopStep.Some?
    ensures ApplyVerifyGate(env, b, g, kw, a, passed).metadata.value.sopStep.Some?
    ensures SpeclessDone(b, kw).metadata.Set? ==> SpeclessDone(b, kw).metadata.value.sopStep.Some?
  {
    assert kw.metadata.Or(b.metadata).sopStep.Some?;
  }

  /** What is prepared for a step bead is still a step bead's metadata. */
  lemma PrepareKeepsStep(env: Env, tasks: seq<Bead>, q: Request, check: nat -> bool)
    requires Prepare(env, tasks, q, check).Ok? && Exists(tasks, q.id)
    requires tasks[Find(tasks, q.id).value].metadata.sopStep.Some?
    requires q.kwargs.metadata.Set? ==> q.kwargs.metadata.value.sopStep.Some?
    ensures var kw := Prepare(env, tasks, q, check).value.kwargs;
      kw.metadata.Set? ==> kw.metadata.value.sopStep.Some?
  {
    var kw := CleanKwargs(env, q.kwargs).value;
    var b := tasks[Find(tasks, q.id).value];
    var g := if Gated(b) then b.metadata.verify.value else Gate(Human, [], "");
    GateKeepsStep(b, kw, env, g, q.attestation, ChecksPass(g, check));
  }

  lemma HookKeepsOutcome(c: Precheck, b: Bead, kw: Kwargs)
    requires RunPrecheck(c, b, kw).Ok?
    ensures var after := WithBlockersNormal(RunPrecheck(c, b, kw).value);
      after.metadata == kw.metadata && after.status == kw.status && (kw.blockedBy.Keep? ==> after.blockedBy.Keep?)
  {
  }

  /** Fields of a slot that a write of these keywords, cascade included, leaves. */
  lemma ApplyKeepsSlot(b: Bead, kw: Kwargs, after: Bead)
    requires CascadedFrom(Apply(b, kw), after)
    ensures after.id == b.id && after.parentId == b.parentId
    ensures kw.blockedBy.Keep? ==> after.blockedBy == b.blockedBy
    ensures b.metadata.sopStep.Some? && (kw.metadata.Set? ==> kw.metadata.value.sopStep.Some?) ==> after.metadata.sopStep.Some?
    ensures !Gated(b) && (kw.metadata.Set? ==> kw.metadata.value.verify.None?) ==> !Gated(after)
  {
  }

  /** A locked write leaves each bead of the run in its place in the tree. */
  lemma FinishKeepsSlot(env: Env, w: World, p: Plan, at: nat, op: nat, i: nat)
    requires Flat(env, p) && RunIntact(env, w, p, at) && i < |w.tasks|
    ensures var b, after := w.tasks[i], Next(env, w, Finish(op)).tasks[i];
      && after.id == b.id && after.parentId == b.parentId
      && (StepSlot(p, at, i) ==> after.metadata.sopStep.Some? && after.blockedBy == b.blockedBy)
      && (i == at ==> !Gated(after))
  {
    var e := Finish(op);
    StepFrame(env, w, e);
    if Writes(env, w, e, i) {
      WrittenKeepsSlot(env, w, p, at, op, i);
    }
  }

  lemma WrittenKeepsSlot(env: Env, w: World, p: Plan, at: nat, op: nat, i: nat)
    requires Flat(env, p) && RunIntact(env, w, p, at) && i < |w.tasks| && Writes(env, w, Finish(op), i)
    ensures var b, after := w.tasks[i], Next(env, w, Finish(op)).tasks[i];
      && after.id == b.id && after.parentId == b.parentId
      && (StepSlot(p, at, i) ==> after.metadata.sopStep.Some? && after.blockedBy == b.blockedBy)
      && (i == at ==> !Gated(after))
  {
    var o := w.ops[op].prepared;
    StepFrame(env, w, Finish(op));
    assert OpLeavesRun(p, o);
    HookKeepsOutcome(o.precheck, w.tasks[i], o.kwargs);
    ApplyKeepsSlot(w.tasks[i], Effective(w, op, i), Next(env, w, Finish(op)).tasks[i]);
    assert StepSlot(p, at, i) ==> o.id in p.ids;
  }

  lemma FinishKeepsTree(env: Env, w: World, p: Plan, at: nat, op: nat)
    requires Flat(env, p) && RunIntact(env, w, p, at)
    ensures RunTree(env, Next(env, w, Finish(op)).tasks, p, at)
  {
    var after := Next(env, w, Finish(op)).tasks;
    assert |after| == |w.tasks|;
    StepKeepsUnique(env, w, Finish(op));
    forall i: nat | i < |after|
      ensures after[i].id == w.tasks[i].id && after[i].parentId == w.tasks[i].parentId
      ensures StepSlot(p, at, i) ==> after[i].metadata.sopStep.Some? && after[i].blockedBy == w.tasks[i].blockedBy
      ensures i == at ==> !Gated(after[i])
    {
      FinishKeepsSlot(env, w, p, at, op, i);
    }
  }

  lemma StepKeepsRun(env: Env, w: World, p: Plan, at: nat, e: Event)
    requires Flat(env, p) && RunIntact(env, w, p, at) && EventLeavesRun(p, e)
    ensures RunIntact(env, Next(env, w, e), p, at)
  {
    match e
    case Tick(_) =>
    case File(id, args) =>
      StepKeepsUnique(env, w, e);
      assert forall i :: 0 <= i < |w.tasks| ==> Next(env, w, e).tasks[i] == w.tasks[i];
    case Begin(op, call, check) =>
      if MayBegin(w.tasks, call, w.clock) && Prepare(env, w.tasks, RequestOf(call, w.clock), check).Ok? {
        BeginLeavesRun(env, w, p, at, call, check);
      }
    case Finish(op) =>
      FinishKeepsTree(env, w, p, at, op);
  }

  lemma {:induction false} RunStaysIntact(env: Env, start: World, p: Plan, at: nat, es: seq<Event>, n: nat)
    requires Flat(env, p) && RunIntact(env, start, p, at) && n <= |es|
    requires forall e :: e in es ==> EventLeavesRun(p, e)
    ensures RunIntact(env, From(env, start, es, n), p, at)
  {
    if n > 0 {
      RunStaysIntact(env, start, p, at, es, n - 1);
      FromStep(env, start, es, n - 1);
      StepKeepsRun(env, From(env, start, es, n - 1), p, at, es[n - 1]);
    }
  }

  // --- the parent closes with its last step ------------------------------------------

  /** How a step may move the parent: never reopened, DONE only when every step is
      DONE, and that in the write that first makes it so. */
  ghost predicate ParentFollows(tasks: seq<Bead>, after: seq<Bead>, p: Plan, at: nat)
    requires at < |tasks| <= |after|
  {
    && (tasks[at].status == Done ==> after[at].status == Done)
    && (tasks[at].status != Done && after[at].status == Done ==> ChildrenDone(after, p.parent))
    && (!ChildrenDone(tasks, p.parent) && ChildrenDone(after, p.parent) ==> after[at].status == Done)
  }

  /** Written this way, a bead is DONE exactly if it was. */
  predicate KeepsDoneness(b: Bead, kw: Kwargs) { kw.status.Or(b.status) == Done <==> b.status == Done }

  /** This step is no locked write that finishes the parent by hand or reopens it. */
  ghost predicate SparesParent(env: Env, w: World, e: Event, at: nat)
    requires at < |w.tasks|
  {
    Writes(env, w, e, at) ==> KeepsDoneness(w.tasks[at], w.ops[e.op].prepared.kwargs)
  }

  lemma ParentFinish(env: Env, w: World, p: Plan, at: nat, op: nat)
    requires Flat(env, p) && RunIntact(env, w, p, at) && SparesParent(env, w, Finish(op), at)
    ensures |Next(env, w, Finish(op)).tasks| == |w.tasks|
    ensures ParentFollows(w.tasks, Next(env, w, Finish(op)).tasks, p, at)
  {
    FinishKeepsTree(env, w, p, at, op);
    if op in w.ops && Commit(env, w.tasks, w.ops[op].prepared).outcome.Written? {
      CommitFollows(env, w, p, at, op, Find(w.tasks, w.ops[op].prepared.id).value);
    }
  }

  lemma CommitFollows(env: Env, w: World, p: Plan, at: nat, op: nat, i: nat)
    requires Flat(env, p) && RunIntact(env, w, p, at) && SparesParent(env, w, Finish(op), at)
    requires i < |w.tasks| && Writes(env, w, Finish(op), i)
    requires RunTree(env, Next(env, w, Finish(op)).tasks, p, at)
    ensures ParentFollows(w.tasks, Next(env, w, Finish(op)).tasks, p, at)
  {
    var o := w.ops[op].prepared;
    assert OpLeavesRun(p, o);
    HookKeepsOutcome(o.precheck, w.tasks[i], o.kwargs);
    assert StepSlot(p, at, i) ==> o.id == p.ids[i - at - 1] && o.id in p.ids;
    ParentWrite(env, w.tasks, p, at, i, WithBlockersNormal(RunPrecheck(o.precheck, w.tasks[i], o.kwargs).value));
  }

  lemma ParentStep(env: Env, w: World, p: Plan, at: nat, e: Event)
    requires Flat(env, p) && RunIntact(env, w, p, at) && EventLeavesRun(p, e) && SparesParent(env, w, e, at)
    ensures |w.tasks| <= |Next(env, w, e).tasks|
    ensures ParentFollows(w.tasks, Next(env, w, e).tasks, p, at)
  {
    match e
    case Finish(op) => ParentFinish(env, w, p, at, op);
    case File(id, args) =>
      var w' := Next(env, w, e);
      assert forall k :: 0 <= k < |w.tasks| ==> w'.tasks[k] == w.tasks[k];
      if ChildrenDone(w'.tasks, p.parent) {
        forall t | t in w.tasks && ChildOf(t, p.parent) ensures t.status == Done {
          assert t in w'.tasks;
        }
      }
    case Tick(_) =>
    case Begin(_, _, _) =>
  }

  /** If DONE steps had a DONE parent before, then after any step the parent is DONE
      exactly when it was or the steps now all are, if and only if the step spares
      the parent. */
  lemma ParentStepIff(env: Env, w: World, p: Plan, at: nat, e: Event)
    requires Flat(env, p) && RunIntact(env, w, p, at) && EventLeavesRun(p, e)
    requires StepsDone(w.tasks, p, at) ==> w.tasks[at].status == Done
    ensures at < |Next(env, w, e).tasks|
    ensures var after := Next(env, w, e).tasks;
      (after[at].status == Done <==> w.tasks[at].status == Done || StepsDone(after, p, at)) <==> SparesParent(env, w, e, at)
  {
    StepKeepsRun(env, w, p, at, e);
    StepsDoneIsChildrenDone(env, w.tasks, p, at);
    StepsDoneIsChildrenDone(env, Next(env, w, e).tasks, p, at);
    if SparesParent(env, w, e, at) {
      ParentStep(env, w, p, at, e);
    } else {
      ByHandStrays(env, w, p, at, e);
    }
  }

  /** A parent finished by hand is DONE over open steps, and one reopened is not. */
  lemma ByHandStrays(env: Env, w: World, p: Plan, at: nat, e: Event)
    requires Flat(env, p) && RunIntact(env, w, p, at) && !SparesParent(env, w, e, at)
    ensures var after := Next(env, w, e).tasks;
      && |after| == |w.tasks| && (after[at].status == Done <==> w.tasks[at].status != Done)
      && (StepsDone(after, p, at) ==> StepsDone(w.tasks, p, at))
  {
    DirectWrite(env, w, e, at);
    RootWrite(env, w, e, at);
  }

  /** Writing a root starts no cascade: every other bead stays as it was. */
  lemma RootWrite(env: Env, w: World, e: Event, at: nat)
    requires at < |w.tasks| && w.tasks[at].parentId.None? && Writes(env, w, e, at)
    ensures forall k :: 0 <= k < |w.tasks| && k != at ==> Next(env, w, e).tasks[k] == w.tasks[k]
  {
  }

  lemma ParentWrite(env: Env, tasks: seq<Bead>, p: Plan, at: nat, i: nat, kw: Kwargs)
    requires Flat(env, p) && RunTree(env, tasks, p, at) && i < |tasks| && ValidId(p.parent)
    requires RunTree(env, Write(tasks, i, kw), p, at)
    requires i == at ==> KeepsDoneness(tasks[at], kw) && (kw.metadata.Set? ==> kw.metadata.value.verify.None?)
    requires StepSlot(p, at, i) ==> kw.metadata.Set? ==> kw.metadata.value.sopStep.Some?
    ensures ParentFollows(tasks, Write(tasks, i, kw), p, at)
  {
    var written := tasks[i := Apply(tasks[i], kw)];
    var after := Write(tasks, i, kw);
    CascadeFrame(written, i);
    WrittenTree(env, tasks, p, at, i, kw);
    if !ChildrenDone(tasks, p.parent) {
      var t :| t in tasks && ChildOf(t, p.parent) && t.status != Done;
      var k :| 0 <= k < |tasks| && tasks[k] == t;
      assert written[k] in written;
      CascadeClosesParent(written, i, at);
    }
  }

  lemma WrittenTree(env: Env, tasks: seq<Bead>, p: Plan, at: nat, i: nat, kw: Kwargs)
    requires Flat(env, p) && RunTree(env, tasks, p, at) && i < |tasks| && ValidId(p.parent)
    requires i == at ==> KeepsDoneness(tasks[at], kw) && (kw.metadata.Set? ==> kw.metadata.value.verify.None?)
    requires StepSlot(p, at, i) ==> kw.metadata.Set? ==> kw.metadata.value.sopStep.Some?
    ensures var written := tasks[i := Apply(tasks[i], kw)];
      && UniqueIds(written) && !Gated(written[at]) && written[at].id == p.parent != ""
      && forall t :: t in written && ChildOf(t, p.parent) ==> IsStep(t)
  {
    var written := tasks[i := Apply(tasks[i], kw)];
    forall t | t in written && ChildOf(t, p.parent) ensures IsStep(t) {
      var k :| 0 <= k < |written| && written[k] == t;
      assert ChildOf(tasks[k], p.parent);
    }
  }

  /** When a step's own write closes the parent, the file it passes through has
      every step DONE and the parent open: a reader without the lock may see it. */
  lemma ParentOpenInTheMiddle(env: Env, tasks: seq<Bead>, p: Plan, at: nat, i: nat, kw: Kwargs)
    requires Flat(env, p) && RunTree(env, tasks, p, at) && StepSlot(p, at, i) && ValidId(p.parent)
    requires kw.metadata.Set? ==> kw.metadata.value.sopStep.Some?
    requires RunTree(env, tasks[i := Apply(tasks[i], kw)], p, at)
    requires tasks[at].status != Done && Write(tasks, i, kw)[at].status == Done
    ensures var written := tasks[i := Apply(tasks[i], kw)];
      written[at].status != Done && StepsDone(written, p, at)
  {
    var written := tasks[i := Apply(tasks[i], kw)];
    LookupUnique(written, at);
    assert ClosesParent(written, i);
    StepsDoneIsChildrenDone(env, written, p, at);
  }

  /** At some moment up to the `n`th all the run's steps were DONE together. */
  ghost predicate FinishedBy(env: Env, start: World, p: Plan, at: nat, es: seq<Event>, n: nat)
    requires n <= |es|
  {
    exists m: nat :: m <= n && StepsDone(From(env, start, es, m).tasks, p, at)
  }

  lemma FinishedByNext(env: Env, start: World, p: Plan, at: nat, es: seq<Event>, n: nat)
    requires 0 < n <= |es|
    ensures FinishedBy(env, start, p, at, es, n) <==>
      FinishedBy(env, start, p, at, es, n - 1) || StepsDone(From(env, start, es, n).tasks, p, at)
  {
    if m: nat :| m <= n && StepsDone(From(env, start, es, m).tasks, p, at) {
      assert m == n || m <= n - 1;
    }
  }

  /** At event `m` the parent is DONE exactly if all its steps have been DONE
      together by then. */
  ghost predicate ParentTracks(env: Env, start: World, p: Plan, at: nat, es: seq<Event>, m: nat)
    requires m <= |es|
  {
    && at < |From(env, start, es, m).tasks|
    && (From(env, start, es, m).tasks[at].status == Done <==> FinishedBy(env, start, p, at, es, m))
  }

  ghost predicate TracksUpTo(env: Env, start: World, p: Plan, at: nat, es: seq<Event>, n: nat)
    requires n <= |es|
  {
    forall m: nat :: m <= n ==> ParentTracks(env, start, p, at, es, m)
  }

  ghost predicate SparedUpTo(env: Env, start: World, es: seq<Event>, n: nat, at: nat)
    requires n <= |es|
  {
    forall k: nat :: k < n ==> SparedAt(env, start, es, k, at)
  }

  ghost predicate SparedAt(env: Env, start: World, es: seq<Event>, k: nat, at: nat)
    requires k < |es|
  {
    at < |From(env, start, es, k).tasks| ==> SparesParent(env, From(env, start, es, k), es[k], at)
  }

  /** The parent is DONE exactly from the first moment all its steps have been
      DONE together, closing in that write, not before and not later, if and only
      if nobody finishes it by hand or reopens it. Claims, reports of failure,
      cancellations and reaps of an open parent change nothing. */
  lemma {:induction false} ParentClosesWithLastStep(env: Env, start: World, p: Plan, at: nat, es: seq<Event>, n: nat)
    requires Flat(env, p) && RunIntact(env, start, p, at) && n <= |es|
    requires forall e :: e in es ==> EventLeavesRun(p, e)
    requires start.tasks[at].status != Done && !StepsDone(start.tasks, p, at)
    ensures TracksUpTo(env, start, p, at, es, n) <==> SparedUpTo(env, start, es, n, at)
  {
    if n == 0 {
      TracksAtStart(env, start, p, at, es);
    } else {
      ParentClosesWithLastStep(env, start, p, at, es, n - 1);
      RunStaysIntact(env, start, p, at, es, n - 1);
      if ParentTracks(env, start, p, at, es, n - 1) {
        ParentTracksNext(env, start, p, at, es, n);
      }
      TracksSnoc(env, start, p, at, es, n);
      SparedSnoc(env, start, es, n, at);
    }
  }

  lemma TracksAtStart(env: Env, start: World, p: Plan, at: nat, es: seq<Event>)
    requires at < |start.tasks| && start.tasks[at].status != Done && !StepsDone(start.tasks, p, at)
    ensures TracksUpTo(env, start, p, at, es, 0) && SparedUpTo(env, start, es, 0, at)
  {
    assert From(env, start, es, 0) == start;
    assert ParentTracks(env, start, p, at, es, 0);
  }

  lemma TracksSnoc(env: Env, start: World, p: Plan, at: nat, es: seq<Event>, n: nat)
    requires 0 < n <= |es|
    ensures TracksUpTo(env, start, p, at, es, n) <==>
      TracksUpTo(env, start, p, at, es, n - 1) && ParentTracks(env, start, p, at, es, n)
  {
  }

  lemma SparedSnoc(env: Env, start: World, es: seq<Event>, n: nat, at: nat)
    requires 0 < n <= |es|
    ensures SparedUpTo(env, start, es, n, at) <==>
      SparedUpTo(env, start, es, n - 1, at) && SparedAt(env, start, es, n - 1, at)
  {
  }

  lemma ParentTracksNext(env: Env, start: World, p: Plan, at: nat, es: seq<Event>, n: nat)
    requires Flat(env, p) && 0 < n <= |es| && EventLeavesRun(p, es[n - 1])
    requires RunIntact(env, From(env, start, es, n - 1), p, at)
    requires ParentTracks(env, start, p, at, es, n - 1)
    ensures ParentTracks(env, start, p, at, es, n) <==> SparedAt(env, start, es, n - 1, at)
  {
    var w := From(env, start, es, n - 1);
    FromStep(env, start, es, n - 1);
    FinishedByNext(env, start, p, at, es, n);
    assert StepsDone(w.tasks, p, at) ==> FinishedBy(env, start, p, at, es, n - 1);
    ParentStepIff(env, w, p, at, es[n - 1]);
  }

  // --- steps run in order --------------------------------------------------------------

  /** The beads standing for what step `k` comes after are among its blockers. */
  lemma PredecessorsBlock(env: Env, p: Plan, k: nat, a: nat)
    requires Flat(env, p) && k < |p.ids| && a in p.c.steps[k].after
    ensures StepIndex(p.c.steps, a).Some? && p.ids[StepIndex(p.c.steps, a).value] in StepBead(env, p, k).blockedBy
  {
    EarlierStep(p.c, k, a);
    var j :| 0 <= j < |p.c.steps[k].after| && p.c.steps[k].after[j] == a;
    assert Awaited(env, p, k)[j] in Awaited(env, p, k);
  }

  lemma StepBlockers(env: Env, tasks: seq<Bead>, p: Plan, at: nat, k: nat, t: Bead)
    requires Flat(env, p) && RunTree(env, tasks, p, at) && k < |p.ids| && t in tasks && t.id == p.ids[k]
    ensures t.blockedBy == StepBead(env, p, k).blockedBy
  {
    var i :| 0 <= i < |tasks| && tasks[i] == t;
    assert StepSlot(p, at, at + 1 + k);
    assert tasks[at + 1 + k].id == p.ids[k];
    assert i == at + 1 + k;
  }

  /** A step bead offered by `ready` has every bead it was filed after DONE. */
  lemma ReadyStepIsDue(env: Env, w: World, p: Plan, at: nat, k: nat, agent: Option<string>, now: int)
    requires Flat(env, p) && RunIntact(env, w, p, at) && k < |p.ids|
    requires exists t :: t in Ready(w.tasks, agent, now) && t.id == p.ids[k]
    ensures forall a :: a in p.c.steps[k].after ==> StepIndex(p.c.steps, a).Some? && IsDone(w.tasks, p.ids[StepIndex(p.c.steps, a).value])
  {
    var t :| t in Ready(w.tasks, agent, now) && t.id == p.ids[k];
    StepBlockers(env, w.tasks, p, at, k, t);
    forall a | a in p.c.steps[k].after ensures StepIndex(p.c.steps, a).Some? && IsDone(w.tasks, p.ids[StepIndex(p.c.steps, a).value]) {
      PredecessorsBlock(env, p, k, a);
    }
  }

  /** A scheduler that begins claims only on beads `ready` is offering it. */
  ghost predicate ClaimsFromReady(env: Env, start: World, es: seq<Event>) {
    forall m: nat :: m < |es| && es[m].Begin? && es[m].call.CallClaim? ==>
      var w := From(env, start, es, m);
      exists t :: t in Ready(w.tasks, Some(es[m].call.agent), w.clock) && t.id == es[m].call.id
  }

  /** Under such a scheduler no step is claimed before everything it comes after
      has been DONE. */
  lemma StepsClaimedInOrder(env: Env, start: World, p: Plan, at: nat, es: seq<Event>, n: nat, k: nat) returns (m: nat)
    requires Flat(env, p) && RunIntact(env, start, p, at) && n < |es| && k < |p.ids|
    requires forall e :: e in es ==> EventLeavesRun(p, e)
    requires ClaimsFromReady(env, start, es)
    requires forall op :: op in start.ops ==> start.ops[op].call.Target() != p.ids[k]
    requires es[n].Finish? && es[n].op in From(env, start, es, n).ops
    requires var o := From(env, start, es, n).ops[es[n].op]; o.call.CallClaim? && o.call.id == p.ids[k]
    ensures m < n
    ensures forall a :: a in p.c.steps[k].after ==>
      StepIndex(p.c.steps, a).Some? && IsDone(From(env, start, es, m).tasks, p.ids[StepIndex(p.c.steps, a).value])
  {
    m := OperationOrigin(env, start, es, n, es[n].op);
    var w := From(env, start, es, m);
    RunStaysIntact(env, start, p, at, es, m);
    ReadyStepIsDue(env, w, p, at, k, Some(es[m].call.agent), w.clock);
  }

  /** A run filed on a sound store is intact, open, and has no step finished. */
  lemma FiledRunStarts(env: Env, base: World, p: Plan)
    requires Flat(env, p) && FreshIds(base.tasks, p) && Sound(base.tasks)
    requires forall op :: op in base.ops ==> Exists(base.tasks, base.ops[op].prepared.id)
    ensures var w := AfterFiling(env, base, p);
      && RunIntact(env, w, p, |base.tasks|)
      && w.tasks[|base.tasks|].status != Done && !StepsDone(w.tasks, p, |base.tasks|)
      && Elements(w.tasks[|base.tasks|].blockedBy) == Elements(p.ids)
  {
    var w := AfterFiling(env, base, p);
    FiledIntact(env, base.tasks, p);
    assert StepSlot(p, |base.tasks|, |base.tasks| + 1);
    assert w.tasks[|base.tasks| + 1] == StepBead(env, p, 0);
    forall op | op in w.ops ensures OpLeavesRun(p, w.ops[op].prepared) {
      assert FreshId(base.tasks, p.parent);
      assert forall x :: x in p.ids ==> FreshId(base.tasks, x);
    }
  }

  /** The world in which the run has just been filed. */
  ghost function AfterFiling(env: Env, base: World, p: Plan): World
    requires Flat(env, p)
  {
    base.(tasks := Filed(env, base.tasks, p))
  }

  /** Every operation in flight names a bead that was there when it began. */
  lemma FlightsExist(env: Env, es: seq<Event>, op: nat)
    requires op in After(env, es, |es|).ops
    ensures Exists(After(env, es, |es|).tasks, After(env, es, |es|).ops[op].prepared.id)
  {
    var m := OperationOrigin(env, EMPTY, es, |es|, op);
    var v, w := After(env, es, m), After(env, es, |es|);
    PrepareFrame(env, v.tasks, RequestOf(es[m].call, v.clock), es[m].check);
    PositionsStay(env, EMPTY, es, m, |es|);
    var k := Find(v.tasks, w.ops[op].prepared.id).value;
    assert w.tasks[k].id == w.ops[op].prepared.id;
  }

  /** The whole story from the empty store: after any events, a flat run with fresh
      ids files as an open tree, and over any further events that leave it alone
      its parent is DONE exactly from the first moment all its steps have been, if
      and only if nobody finishes it by hand or reopens it. */
  lemma FiledRunFromEmpty(env: Env, es: seq<Event>, p: Plan, more: seq<Event>, n: nat)
    requires Flat(env, p) && FreshIds(After(env, es, |es|).tasks, p) && n <= |more|
    requires forall e :: e in more ==> EventLeavesRun(p, e)
    ensures var at := |After(env, es, |es|).tasks|; var start := AfterFiling(env, After(env, es, |es|), p);
      && RunIntact(env, start, p, at) && Elements(start.tasks[at].blockedBy) == Elements(p.ids)
      && RunIntact(env, From(env, start, more, n), p, at)
      && (TracksUpTo(env, start, p, at, more, n) <==> SparedUpTo(env, start, more, n, at))
  {
    var base := After(env, es, |es|);
    assert es[..|es|] == es;
    ReachableSound(env, es);
    forall op | op in base.ops ensures Exists(base.tasks, base.ops[op].prepared.id) {
      FlightsExist(env, es, op);
    }
    FiledRunStarts(env, base, p);
    RunStaysIntact(env, AfterFiling(env, base, p), p, |base.tasks|, more, n);
    ParentClosesWithLastStep(env, AfterFiling(env, base, p), p, |base.tasks|, more, n);
  }
}
