/** What the verify gate guarantees over whole runs. */
module RunGates {
  import opened Prelude
  import opened BeadModel
  import opened StepCascade
  import opened BeadStore
  import opened BeadRuns

  // --- a gated bead reaches DONE only through its gate ------------------------------

  /** When an update leaves the unlocked half still bound for DONE on a gated
      bead, the gate it read has been released by what it was given. */
  lemma DonePreparedIsReleased(env: Env, tasks: seq<Bead>, q: Request, check: nat -> bool, i: nat)
    requires Prepare(env, tasks, q, check).Ok? && Find(tasks, q.id) == Some(i)
    requires Prepare(env, tasks, q, check).value.kwargs.status == Set(Done)
    ensures Prepare(env, tasks, q, check).value.gateAtRead == Some(tasks[i].metadata.verify)
    ensures Gated(tasks[i]) ==> Released(env, tasks[i], tasks[i].metadata.verify.value, q.attestation, check)
  {
  }

  /** The step that turned a gated bead DONE is the locked half of an update of
      that very bead, and the cascade had no part in it. */
  lemma GatedDoneIsWritten(env: Env, w: World, e: Event, i: nat)
    requires i < |w.tasks| && Gated(w.tasks[i]) && w.tasks[i].status != Done
    requires Next(env, w, e).tasks[i].status == Done
    ensures Writes(env, w, e, i) && w.ops[e.op].prepared.id == w.tasks[i].id
    ensures w.ops[e.op].prepared.kwargs.status == Set(Done)
    ensures !w.ops[e.op].prepared.allowGateChange && w.ops[e.op].prepared.gateAtRead.Some? ==>
      w.ops[e.op].prepared.gateAtRead.value == w.tasks[i].metadata.verify
  {
    StepFrame(env, w, e);
    if Writes(env, w, e, i) {
      var kw := Effective(w, e.op, i);
      if Apply(w.tasks[i], kw).status != Done {
        WrittenUngatedOnly(env, w, e, i);
      }
    }
  }

  /** A write that does not itself say DONE does not make its own gated bead DONE. */
  lemma WrittenUngatedOnly(env: Env, w: World, e: Event, i: nat)
    requires i < |w.tasks| && Writes(env, w, e, i)
    requires RunPrecheck(w.ops[e.op].prepared.precheck, w.tasks[i], w.ops[e.op].prepared.kwargs).Ok?
    requires Apply(w.tasks[i], Effective(w, e.op, i)).status != Done
    ensures Next(env, w, e).tasks[i].status != Done
  {
  }

  /** Event `m` asked to finish bead `i`, and gate `g` was released there: its
      checks passed, or the attestation given names a declared verifier who is not
      the executor then recorded and who gave a reason. */
  ghost predicate ReleasedAt(env: Env, start: World, es: seq<Event>, m: nat, i: nat, g: Gate) {
    && m < |es| && es[m].Begin? && i < |From(env, start, es, m).tasks|
    && var w := From(env, start, es, m);
       && es[m].call.Target() == w.tasks[i].id
       && Released(env, w.tasks[i], g, RequestOf(es[m].call, w.clock).attestation, es[m].check)
  }

  /** The main gate theorem. In any interleaving, when a gated bead turns DONE the
      step is the locked half of an update whose unlocked half ran earlier in the
      same run, on that bead. Unless the caller asked to change gates, the gate
      then read is the gate now on the bead, and it was released. A caller who did
      ask still had to release whatever gate it read. */
  lemma GatedDoneWasReleased(env: Env, es: seq<Event>, n: nat, i: nat) returns (m: nat)
    requires n < |es| && i < |After(env, es, n).tasks|
    requires var b := After(env, es, n).tasks[i]; Gated(b) && b.status != Done
    requires i < |After(env, es, n + 1).tasks| && After(env, es, n + 1).tasks[i].status == Done
    ensures m < n && es[n].Finish? && es[m].Begin? && es[m].op == es[n].op
    ensures i < |After(env, es, m).tasks| && es[m].call.Target() == After(env, es, n).tasks[i].id
    ensures !RequestOf(es[m].call, After(env, es, m).clock).allowGateChange ==>
      && After(env, es, m).tasks[i].metadata.verify == After(env, es, n).tasks[i].metadata.verify
      && ReleasedAt(env, EMPTY, es, m, i, After(env, es, n).tasks[i].metadata.verify.value)
    ensures var b := After(env, es, m).tasks[i]; Gated(b) ==> ReleasedAt(env, EMPTY, es, m, i, b.metadata.verify.value)
  {
    m := ReleasedSince(env, EMPTY, es, n, i);
  }

  /** This person may answer for that work: a declared verifier, and neither the agent
      who did it nor, when no agent is named, the person it was assigned to. */
  predicate MayAnswerFor(env: Env, b: Bead, who: string) {
    && who in env.verifiers && who != ""
    && b.assignedAgent != Some(who)
    && (b.assignedAgent in {None, Some("")} ==>
         b.assignedTo != Some("human:" + who) && ("human:" <= who || b.assignedTo != Some(who)))
  }

  /** What a released gate means, read off the bead and the call: every command of a
      deterministic gate passed; any other was answered, with a reason one can read
      and a time, by somebody who may answer for the work. */
  lemma ReleasedMeans(env: Env, b: Bead, g: Gate, a: Option<Attestation>, check: nat -> bool)
    ensures g.kind == Deterministic ==> (Released(env, b, g, a, check) <==> forall k :: 0 <= k < |g.stages| ==> check(k))
    ensures g.kind != Deterministic ==> (Released(env, b, g, a, check) <==>
      && a.Some? && MayAnswerFor(env, b, a.value.approver) && a.value.approvedAt != ""
      && exists c :: c in a.value.reason && !IsSpace(c))
  {
    if a.Some? && a.value.approver != "" {
      ExecutorNamed(b, a.value.approver);
      if IsHuman(b.assignedTo) { assert b.assignedTo.value == "human:" + b.assignedTo.value[6..]; }
    }
  }

  /** Nobody finishes their own work: when a bead behind a human or judged gate turns
      DONE, an earlier call in the run, on that bead, carried the answer of somebody
      who might answer for it as it then stood. */
  lemma NobodyReleasesOwnWork(env: Env, es: seq<Event>, n: nat, i: nat) returns (m: nat)
    requires n < |es| && i < |After(env, es, n).tasks|
    requires var b := After(env, es, n).tasks[i];
      b.metadata.verify.Some? && b.metadata.verify.value.kind != Deterministic && b.status != Done
    requires i < |After(env, es, n + 1).tasks| && After(env, es, n + 1).tasks[i].status == Done
    ensures m < n && es[m].Begin? && i < |After(env, es, m).tasks| && es[m].call.Target() == After(env, es, m).tasks[i].id
    ensures var q := RequestOf(es[m].call, After(env, es, m).clock);
      !q.allowGateChange ==>
      && q.attestation.Some? && MayAnswerFor(env, After(env, es, m).tasks[i], q.attestation.value.approver)
      && exists c :: c in q.attestation.value.reason && !IsSpace(c)
  {
    m := GatedDoneWasReleased(env, es, n, i);
    PositionsStay(env, EMPTY, es, m, n);
    var b := After(env, es, m).tasks[i];
    ReleasedMeans(env, b, After(env, es, n).tasks[i].metadata.verify.value, RequestOf(es[m].call, After(env, es, m).clock).attestation, es[m].check);
  }

  /** The same from any store with unique ids, for a bead nobody is yet writing. */
  lemma ReleasedSince(env: Env, start: World, es: seq<Event>, n: nat, i: nat) returns (m: nat)
    requires UniqueIds(start.tasks) && n < |es| && i < |From(env, start, es, n).tasks|
    requires forall op :: op in start.ops ==> start.ops[op].prepared.id != From(env, start, es, n).tasks[i].id
    requires var b := From(env, start, es, n).tasks[i]; Gated(b) && b.status != Done
    requires i < |From(env, start, es, n + 1).tasks| && From(env, start, es, n + 1).tasks[i].status == Done
    ensures m < n && es[n].Finish? && es[m].Begin? && es[m].op == es[n].op
    ensures i < |From(env, start, es, m).tasks| && es[m].call.Target() == From(env, start, es, n).tasks[i].id
    ensures !RequestOf(es[m].call, From(env, start, es, m).clock).allowGateChange ==>
      && From(env, start, es, m).tasks[i].metadata.verify == From(env, start, es, n).tasks[i].metadata.verify
      && ReleasedAt(env, start, es, m, i, From(env, start, es, n).tasks[i].metadata.verify.value)
    ensures var b := From(env, start, es, m).tasks[i]; Gated(b) ==> ReleasedAt(env, start, es, m, i, b.metadata.verify.value)
  {
    var w := From(env, start, es, n);
    FromStep(env, start, es, n);
    GatedDoneIsWritten(env, w, es[n], i);
    var o := w.ops[es[n].op];
    m := OperationOrigin(env, start, es, n, es[n].op);
    var v := From(env, start, es, m);
    var q := RequestOf(o.call, v.clock);
    PrepareFrame(env, v.tasks, q, es[m].check);
    assert q.id == o.call.Target();
    SeenAt(env, start, es, m, n, i);
    DonePreparedIsReleased(env, v.tasks, q, es[m].check, i);
  }

  /** The bead a call saw at its read sits at the same position when it commits. */
  lemma SeenAt(env: Env, start: World, es: seq<Event>, m: nat, n: nat, i: nat)
    requires UniqueIds(start.tasks) && m <= n <= |es| && i < |From(env, start, es, n).tasks|
    requires Exists(From(env, start, es, m).tasks, From(env, start, es, n).tasks[i].id)
    ensures i < |From(env, start, es, m).tasks|
    ensures Find(From(env, start, es, m).tasks, From(env, start, es, n).tasks[i].id) == Some(i)
  {
    PositionsStay(env, start, es, m, n);
    IdsStayUnique(env, start, es, n);
    var a, b := From(env, start, es, m).tasks, From(env, start, es, n).tasks;
    var k := Find(a, b[i].id).value;
    assert b[k].id == a[k].id == b[i].id;
  }

  // --- no approval is handed in ------------------------------------------------------

  /** The metadata an update is about to write carries no approval but one that
      answers the gate now, or one already on the bead it read. */
  lemma PreparedApproval(env: Env, tasks: seq<Bead>, q: Request, check: nat -> bool)
    requires Prepare(env, tasks, q, check).Ok?
    ensures var kw := Prepare(env, tasks, q, check).value.kwargs;
      kw.metadata.Set? && kw.metadata.value.approval.Some? ==>
        && Find(tasks, q.id).Some?
        && var b := tasks[Find(tasks, q.id).value];
           || (q.attestation == kw.metadata.value.approval && Answers(env, b, q.attestation))
           || b.metadata.approval == kw.metadata.value.approval
  {
    CleanUnapproved(env, q.kwargs);
    var kw := CleanKwargs(env, q.kwargs).value;
    if Find(tasks, q.id).Some? {
      var b := tasks[Find(tasks, q.id).value];
      var g := if Gated(b) then b.metadata.verify.value else Gate(Human, [], "");
      GateApproval(env, b, g, kw, q.attestation, ChecksPass(g, check));
    }
  }

  lemma CleanUnapproved(env: Env, kw: Kwargs)
    requires CleanKwargs(env, kw).Ok?
    ensures var clean := CleanKwargs(env, kw).value;
      clean.metadata.Set? ==> clean.metadata.value.approval.None?
  {
  }

  lemma GateApproval(env: Env, b: Bead, g: Gate, kw: Kwargs, a: Option<Attestation>, passed: bool)
    requires kw.metadata.Set? ==> kw.metadata.value.approval.None?
    ensures var gated := ApplyVerifyGate(env, b, g, kw, a, passed).metadata;
      && gated.Set?
      && (gated.value.approval.Some? ==>
           (gated.value.approval == a && Answers(env, b, a)) || gated.value.approval == b.metadata.approval)
    ensures var specless := SpeclessDone(b, kw).metadata;
      specless.Set? && specless.value.approval.Some? ==> specless.value.approval == b.metadata.approval
  {
  }

  /** Event `m` asked to finish bead `i` with an attestation that answers for it. */
  ghost predicate AnsweredAt(env: Env, es: seq<Event>, m: nat, i: nat, a: Option<Attestation>) {
    && m < |es| && es[m].Begin? && i < |After(env, es, m).tasks|
    && var w := After(env, es, m);
       && es[m].call.Target() == w.tasks[i].id
       && RequestOf(es[m].call, w.clock).attestation == a
       && Answers(env, w.tasks[i], a)
  }

  /** Every approval on record was somebody's answer: a call in the same run gave
      it for that bead, with a reason, from a declared verifier other than the
      executor then recorded. Metadata never brings one in. */
  lemma {:induction false} ApprovalWasAnswered(env: Env, es: seq<Event>, n: nat, i: nat) returns (m: nat)
    requires n <= |es| && i < |After(env, es, n).tasks| && After(env, es, n).tasks[i].metadata.approval.Some?
    ensures m < n && AnsweredAt(env, es, m, i, After(env, es, n).tasks[i].metadata.approval)
    decreases n
  {
    m := ApprovalSource(env, es, n, i);
    if !AnsweredAt(env, es, m, i, After(env, es, n).tasks[i].metadata.approval) {
      m := ApprovalWasAnswered(env, es, m, i);
    }
  }

  /** An approval on record was answered at an earlier event or on record there. */
  lemma ApprovalSource(env: Env, es: seq<Event>, n: nat, i: nat) returns (m: nat)
    requires n <= |es| && i < |After(env, es, n).tasks| && After(env, es, n).tasks[i].metadata.approval.Some?
    ensures m < n && i < |After(env, es, m).tasks|
    ensures var a := After(env, es, n).tasks[i].metadata.approval;
      AnsweredAt(env, es, m, i, a) || After(env, es, m).tasks[i].metadata.approval == a
  {
    assert After(env, es, 0) == EMPTY;
    var w, e := After(env, es, n - 1), es[n - 1];
    AfterStep(env, es, n - 1);
    ApprovalBefore(env, w, e, i);
    if Writes(env, w, e, i) && w.ops[e.op].prepared.kwargs.metadata.Set? {
      m := WrittenApproval(env, es, n, i);
    } else {
      m := n - 1;
    }
  }

  /** Where a bead's approval after one step can come from. */
  lemma ApprovalBefore(env: Env, w: World, e: Event, i: nat)
    requires i < |Next(env, w, e).tasks|
    ensures var after := Next(env, w, e).tasks[i].metadata.approval;
      after.Some? ==>
        && i < |w.tasks|
        && after == if Writes(env, w, e, i) && w.ops[e.op].prepared.kwargs.metadata.Set?
                    then w.ops[e.op].prepared.kwargs.metadata.value.approval else w.tasks[i].metadata.approval
  {
    StepFrame(env, w, e);
    if i < |w.tasks| && Writes(env, w, e, i) {
      assert Effective(w, e.op, i).metadata == w.ops[e.op].prepared.kwargs.metadata;
    }
  }

  /** An approval being written was given at the read, or was on the bead there. */
  lemma WrittenApproval(env: Env, es: seq<Event>, n: nat, i: nat) returns (m: nat)
    requires 0 < n <= |es| && i < |After(env, es, n - 1).tasks| && Writes(env, After(env, es, n - 1), es[n - 1], i)
    requires var kw := After(env, es, n - 1).ops[es[n - 1].op].prepared.kwargs;
      && kw.metadata.Set? && kw.metadata.value.approval.Some?
    ensures m < n - 1 && i < |After(env, es, m).tasks|
    ensures var a := After(env, es, n - 1).ops[es[n - 1].op].prepared.kwargs.metadata.value.approval;
      AnsweredAt(env, es, m, i, a) || After(env, es, m).tasks[i].metadata.approval == a
  {
    var w, op := After(env, es, n - 1), es[n - 1].op;
    var o := w.ops[op];
    m := OperationOrigin(env, EMPTY, es, n - 1, op);
    var v := After(env, es, m);
    var q := RequestOf(o.call, v.clock);
    PrepareFrame(env, v.tasks, q, es[m].check);
    PreparedApproval(env, v.tasks, q, es[m].check);
    assert q.id == o.call.Target() && w.tasks[i].id == q.id;
    SeenAt(env, EMPTY, es, m, n - 1, i);
  }

  // --- a pinned gate stays pinned ----------------------------------------------------

  ghost predicate NormalMetadata(env: Env, m: Metadata) {
    m.verify.Some? ==> Normalised(env, m.verify.value)
  }

  /** Every stored gate, and every gate on its way into the store, is in the
      contract's normal form. */
  ghost predicate NormalGates(env: Env, w: World) {
    && (forall i :: 0 <= i < |w.tasks| ==> NormalMetadata(env, w.tasks[i].metadata))
    && (forall op :: op in w.ops && w.ops[op].prepared.kwargs.metadata.Set? ==>
      NormalMetadata(env, w.ops[op].prepared.kwargs.metadata.value))
  }

  lemma CleanNormal(env: Env, kw: Kwargs)
    requires IdempotentGates(env) && CleanKwargs(env, kw).Ok?
    ensures var clean := CleanKwargs(env, kw).value;
      clean.metadata.Set? ==> NormalMetadata(env, clean.metadata.value)
  {
  }

  lemma GateNormal(env: Env, b: Bead, kw: Kwargs, g: Gate, a: Option<Attestation>, passed: bool)
    requires NormalMetadata(env, b.metadata)
    requires kw.metadata.Set? ==> NormalMetadata(env, kw.metadata.value)
    ensures NormalMetadata(env, ApplyVerifyGate(env, b, g, kw, a, passed).metadata.value)
    ensures SpeclessDone(b, kw).metadata.Set? ==> NormalMetadata(env, SpeclessDone(b, kw).metadata.value)
  {
    assert NormalMetadata(env, kw.metadata.Or(b.metadata));
  }

  lemma PrepareNormal(env: Env, tasks: seq<Bead>, q: Request, check: nat -> bool)
    requires IdempotentGates(env) && Prepare(env, tasks, q, check).Ok?
    requires forall i :: 0 <= i < |tasks| ==> NormalMetadata(env, tasks[i].metadata)
    ensures var kw := Prepare(env, tasks, q, check).value.kwargs;
      kw.metadata.Set? ==> NormalMetadata(env, kw.metadata.value)
  {
    CleanNormal(env, q.kwargs);
    var kw := CleanKwargs(env, q.kwargs).value;
    if Find(tasks, q.id).Some? {
      var b := tasks[Find(tasks, q.id).value];
      var g := if Gated(b) then b.metadata.verify.value else Gate(Human, [], "");
      GateNormal(env, b, kw, g, q.attestation, ChecksPass(g, check));
    }
  }

  lemma StepNormal(env: Env, w: World, e: Event)
    requires IdempotentGates(env) && NormalGates(env, w)
    ensures NormalGates(env, Next(env, w, e))
  {
    match e
    case Tick(_) =>
    case File(id, args) =>
    case Begin(op, call, check) =>
      if MayBegin(w.tasks, call, w.clock) && Prepare(env, w.tasks, RequestOf(call, w.clock), check).Ok? {
        PrepareNormal(env, w.tasks, RequestOf(call, w.clock), check);
      }
    case Finish(op) =>
      var w' := Next(env, w, e);
      forall i: nat | i < |w'.tasks| ensures NormalMetadata(env, w'.tasks[i].metadata) {
        FinishNormal(env, w, op, i);
      }
  }

  lemma FinishNormal(env: Env, w: World, op: nat, i: nat)
    requires NormalGates(env, w) && i < |Next(env, w, Finish(op)).tasks|
    ensures i < |w.tasks| && NormalMetadata(env, Next(env, w, Finish(op)).tasks[i].metadata)
  {
    var e := Finish(op);
    assert |Next(env, w, e).tasks| == |w.tasks|;
    StepFrame(env, w, e);
    if Writes(env, w, e, i) {
      assert Effective(w, op, i).metadata == w.ops[op].prepared.kwargs.metadata;
    }
  }

  lemma {:induction false} StaysNormal(env: Env, start: World, es: seq<Event>, n: nat)
    requires IdempotentGates(env) && n <= |es| && NormalGates(env, start)
    ensures NormalGates(env, From(env, start, es, n))
  {
    if n > 0 {
      StaysNormal(env, start, es, n - 1);
      FromStep(env, start, es, n - 1);
      StepNormal(env, From(env, start, es, n - 1), es[n - 1]);
    }
  }

  lemma ReachableNormal(env: Env, es: seq<Event>, n: nat)
    requires IdempotentGates(env) && n <= |es|
    ensures NormalGates(env, After(env, es, n))
  {
    StaysNormal(env, EMPTY, es, n);
  }

  /** No call in the run asks to change a gate. */
  ghost predicate LeavesGates(es: seq<Event>) {
    forall k :: 0 <= k < |es| && es[k].Begin? && es[k].call.CallUpdate? ==> !es[k].call.q.allowGateChange
  }

  /** One step keeps a normal gate where it is, unless it is a write to that bead
      that asks to change it. */
  lemma StepPins(env: Env, w: World, e: Event, i: nat)
    requires NormalGates(env, w) && i < |w.tasks| && Gated(w.tasks[i])
    requires Writes(env, w, e, i) ==> !w.ops[e.op].prepared.allowGateChange
    ensures i < |Next(env, w, e).tasks| && Next(env, w, e).tasks[i].metadata.verify == w.tasks[i].metadata.verify
  {
    StepFrame(env, w, e);
    if Writes(env, w, e, i) {
      assert Effective(w, e.op, i).metadata == w.ops[e.op].prepared.kwargs.metadata;
      assert Normalised(env, w.tasks[i].metadata.verify.value);
    }
  }

  /** A call that began in the run does not ask to change a gate. */
  lemma FlightsLeaveGates(env: Env, start: World, es: seq<Event>, n: nat, op: nat)
    requires LeavesGates(es) && n <= |es| && op in From(env, start, es, n).ops
    ensures (op in start.ops && start.ops[op] == From(env, start, es, n).ops[op])
      || !From(env, start, es, n).ops[op].prepared.allowGateChange
  {
    var k := OperationOrigin(env, start, es, n, op);
    if k < n {
      var v := From(env, start, es, k);
      PrepareFrame(env, v.tasks, RequestOf(es[k].call, v.clock), es[k].check);
    }
  }

  /** Gate pinning: once a bead carries a gate, no run of calls, lost races, lapsed
      leases and cascades alters or removes it, as long as nobody asks to. */
  lemma GateStaysPinned(env: Env, es: seq<Event>, m: nat, n: nat, i: nat)
    requires IdempotentGates(env) && LeavesGates(es)
    requires m <= n <= |es| && i < |After(env, es, m).tasks| && Gated(After(env, es, m).tasks[i])
    ensures i < |After(env, es, n).tasks|
    ensures After(env, es, n).tasks[i].metadata.verify == After(env, es, m).tasks[i].metadata.verify
  {
    GatePinnedSince(env, EMPTY, es, m, n, i);
  }

  /** The same from any store, for a bead nobody is yet writing. */
  lemma {:induction false} GatePinnedSince(env: Env, start: World, es: seq<Event>, m: nat, n: nat, i: nat)
    requires IdempotentGates(env) && LeavesGates(es) && NormalGates(env, start)
    requires m <= n <= |es| && i < |From(env, start, es, m).tasks| && Gated(From(env, start, es, m).tasks[i])
    requires forall op :: op in start.ops ==> start.ops[op].prepared.id != From(env, start, es, m).tasks[i].id
    ensures i < |From(env, start, es, n).tasks|
    ensures From(env, start, es, n).tasks[i].metadata.verify == From(env, start, es, m).tasks[i].metadata.verify
  {
    if m < n {
      GatePinnedSince(env, start, es, m, n - 1, i);
      PositionsStay(env, start, es, m, n - 1);
      EventPins(env, start, es, n - 1, i);
    }
  }

  lemma EventPins(env: Env, start: World, es: seq<Event>, n: nat, i: nat)
    requires IdempotentGates(env) && LeavesGates(es) && NormalGates(env, start)
    requires n < |es| && i < |From(env, start, es, n).tasks| && Gated(From(env, start, es, n).tasks[i])
    requires forall op :: op in start.ops ==> start.ops[op].prepared.id != From(env, start, es, n).tasks[i].id
    ensures i < |From(env, start, es, n + 1).tasks|
    ensures From(env, start, es, n + 1).tasks[i].metadata.verify == From(env, start, es, n).tasks[i].metadata.verify
  {
    var w, e := From(env, start, es, n), es[n];
    StaysNormal(env, start, es, n);
    if Writes(env, w, e, i) {
      FlightsLeaveGates(env, start, es, n, e.op);
    }
    StepPins(env, w, e, i);
    FromStep(env, start, es, n);
  }
}
