/** The store as an object: one list of beads, rewritten in place by its verbs. */
module Beads {
  import opened Prelude
  import opened Graph
  import opened BeadModel
  import opened StepCascade
  import opened BeadStore
  import opened NaturalKey
  import CP = CyclePath

  /** Re-run a gate's commands in order, stopping at the first that fails. */
  method RunDeterministicCheck(g: Gate, check: nat -> bool) returns (passed: bool, stagesRun: nat)
    ensures passed <==> ChecksPass(g, check)
    ensures passed ==> stagesRun == |g.stages|
    ensures !passed ==> 1 <= stagesRun <= |g.stages| && !check(stagesRun - 1)
    ensures forall k: nat :: k < stagesRun - 1 ==> check(k)
  {
    stagesRun := 0;
    while stagesRun < |g.stages|
      invariant stagesRun <= |g.stages|
      invariant forall k: nat :: k < stagesRun ==> check(k)
    {
      var outcome := check(stagesRun);
      stagesRun := stagesRun + 1;
      if !outcome {
        return false, stagesRun;
      }
    }
    passed := true;
  }

  /** Walk up the parents of a bead, counting generations. */
  method DepthIn(id: Id, tasks: seq<Bead>) returns (depth: nat)
    ensures depth == Depth(tasks, id)
  {
    depth := 0;
    var seen: set<Id> := {};
    var cur := id;
    while true
      invariant depth + DepthFrom(tasks, cur, seen) == Depth(tasks, id)
      decreases IdSet(tasks) - seen
    {
      var at := Lookup(tasks, cur);
      if at.None? || cur in seen {
        return;
      }
      assert tasks[at.value] in tasks;
      var parent := tasks[at.value].parentId;
      if parent.None? {
        return;
      }
      seen := seen + {cur};
      depth := depth + 1;
      cur := parent.value;
    }
  }

  /** What an update does when nobody comes between its halves. */
  ghost predicate Updates(env: Env, before: seq<Bead>, q: Request, check: nat -> bool, after: seq<Bead>, r: Outcome) {
    match Prepare(env, before, q, check)
    case Err(e) => after == before && r == Refused(e)
    case Ok(p) => Committed(after, r) == Commit(env, before, p)
  }

  class Beads {
    const env: Env
    var tasks: seq<Bead>

    constructor (env: Env)
      ensures this.env == env && tasks == []
    {
      this.env := env;
      tasks := [];
    }

    /** The unlocked half of `update`: read the bead, run its gate. */
    method BeginUpdate(q: Request, check: nat -> bool) returns (r: Result<Prepared, Refusal>)
      ensures r == Prepare(env, tasks, q, check)
      ensures r.Err? <==>
        || (q.kwargs.metadata.Set? && q.kwargs.metadata.value.verify.Some? && env.normalise(q.kwargs.metadata.value.verify.value).None?)
        || (q.kwargs.status == Set(Skipped) && Exists(tasks, q.id) && Gated(tasks[Find(tasks, q.id).value]))
      ensures r.Ok? && q.kwargs.status == Set(Done) && Exists(tasks, q.id) ==>
        var b := tasks[Find(tasks, q.id).value];
        Gated(b) ==>
          && r.value.gateAtRead == Some(b.metadata.verify)
          && r.value.kwargs.status == Set(
               if Released(env, b, b.metadata.verify.value, q.attestation, check) then Done
               else if b.metadata.verify.value.kind.Deterministic? then VerifyFailed else AwaitingVerify)
    {
      PrepareRefusedIff(env, tasks, q, check);
      var clean := CleanKwargs(env, q.kwargs);
      if clean.Err? {
        return Err(clean.error);
      }
      var kw := clean.value;
      var plain := Prepared(q.id, kw, None, q.precheck, q.allowGateChange, q.allowHumanReassign);
      var at := Find(tasks, q.id);
      if at.None? {
        return Ok(plain);
      }
      var current := tasks[at.value];
      if kw.status == Set(Skipped) && Gated(current) {
        return Err(GateTerminal);
      }
      if kw.status != Set(Done) {
        return Ok(plain);
      }
      if current.metadata.verify.None? {
        return Ok(plain.(kwargs := SpeclessDone(current, kw), gateAtRead := Some(None)));
      }
      var g := current.metadata.verify.value;
      var passed := false;
      if g.kind.Deterministic? {
        var stagesRun;
        passed, stagesRun := RunDeterministicCheck(g, check);
      }
      r := Ok(plain.(kwargs := ApplyVerifyGate(env, current, g, kw, q.attestation, passed), gateAtRead := Some(Some(g))));
    }

    /** The locked half of `update`: find the bead, run the hook, refuse or write. */
    method CommitUpdate(p: Prepared) returns (r: Outcome)
      modifies this
      ensures Committed(tasks, r) == Commit(env, old(tasks), p)
    {
      var at := Find(tasks, p.id);
      if at.None? {
        return Absent;
      }
      var i := at.value;
      var task := tasks[i];
      var derived := RunPrecheck(p.precheck, task, p.kwargs);
      if derived.Err? {
        return Refused(derived.error);
      }
      var kw := derived.value;
      if StripsHuman(task, kw) && !p.allowHumanReassign {
        return Refused(HumanLineage);
      }
      if kw.blockedBy.Set? {
        if !ReferencesExist(tasks, kw.blockedBy.value) {
          return Refused(BadReference);
        }
        var chain := CP.CyclePath(p.id, Dedup(kw.blockedBy.value), tasks);
        if chain != [] {
          return Refused(CycleRefused);
        }
      }
      if p.gateAtRead.Some? && !p.allowGateChange && task.metadata.verify != p.gateAtRead.value {
        return Refused(GateContract);
      }
      if !p.allowGateChange && RewritesGate(env, task, kw) {
        return Refused(GateContract);
      }
      var was := task.status;
      tasks := tasks[i := Apply(task, WithBlockersNormal(kw))];
      if tasks[i].status == Done && was != Done {
        OnStepClosed(i);
      }
      r := Written(i);
    }

    /** Close the parent of a finished step bead, and its parent in turn. */
    method OnStepClosed(i: nat)
      requires i < |tasks|
      modifies this
      ensures tasks == Cascade(old(tasks), i)
      decreases OpenCount(tasks)
    {
      var task := tasks[i];
      if !IsStep(task) {
        return;
      }
      var at := Lookup(tasks, task.parentId.value);
      if at.None? {
        return;
      }
      var p := at.value;
      if tasks[p].status == Done || !ChildrenDone(tasks, tasks[p].id) {
        return;
      }
      if Gated(tasks[p]) {
        tasks := tasks[p := StepsMarked(tasks[p])];
        return;
      }
      OpenCountDrops(tasks, p, RunClosed(tasks[p]));
      tasks := tasks[p := RunClosed(tasks[p])];
      OnStepClosed(p);
    }

    /** Both halves with nobody in between. */
    method Update(q: Request, check: nat -> bool) returns (r: Outcome)
      modifies this
      ensures Updates(env, old(tasks), q, check, tasks, r)
    {
      var prepared := BeginUpdate(q, check);
      if prepared.Err? {
        return Refused(prepared.error);
      }
      r := CommitUpdate(prepared.value);
    }

    /** `create`: one look at the store serves the key, the references and the depth. */
    method CreateBead(id: Id, a: CreateArgs) returns (c: Creation)
      modifies this
      ensures c == Create(env, old(tasks), id, a)
      ensures tasks == AfterCreate(old(tasks), c)
    {
      var key := DeriveNaturalKey(env.keys, a.key);
      if key.Err? {
        return NotCreated(KeyRefused(key.error));
      }
      var m := Validated(env, a.metadata);
      if m.Err? {
        return NotCreated(m.error);
      }
      if (a.parentId.Some? && !ValidId(a.parentId.value)) || (exists b :: b in a.blockedBy && !ValidId(b)) {
        return NotCreated(BadReference);
      }
      if key.value.Some? {
        var holder := Holder(tasks, key.value.value);
        if holder.Some? {
          return Duplicate(holder.value);
        }
      }
      if (a.parentId.Some? && !Exists(tasks, a.parentId.value)) || !ReferencesExist(tasks, a.blockedBy) {
        return NotCreated(BadReference);
      }
      if a.parentId.Some? {
        var above := DepthIn(a.parentId.value, tasks);
        if above + 1 > MAX_SUBTASK_DEPTH {
          return NotCreated(DepthLimit);
        }
      }
      c := Created(NewBead(id, a, key.value, m.value));
      tasks := tasks + [c.bead];
    }

    /** Compare-and-set claim: it sticks exactly when the bead is pending, free and
        within the claimant's capabilities, and then it is the only bead touched. */
    method Claim(id: Id, agent: string, held: set<string>, now: int, ttl: int) returns (r: Outcome)
      modifies this
      ensures r.Written? <==>
        && Exists(old(tasks), id)
        && var b := old(tasks)[Find(old(tasks), id).value];
           b.status == Pending && !LeaseActiveAt(b, now) && forall x :: x in b.requirements ==> x in held
      ensures !r.Written? ==> tasks == old(tasks)
      ensures r == Absent <==> !Exists(old(tasks), id)
      ensures !r.Written? && Exists(old(tasks), id) ==> r == Refused(
        if exists x :: x in old(tasks)[Find(old(tasks), id).value].requirements && x !in held then CapabilityMissing else LeaseLost)
      ensures r.Written? ==>
        && Find(old(tasks), id) == Some(r.index)
        && tasks == old(tasks)[r.index := old(tasks)[r.index].(
             status := InProgress, assignedAgent := Some(agent), leasedBy := Some(agent),
             leaseAttempt := old(tasks)[r.index].leaseAttempt + 1, leaseExpires := At(now + ttl))]
    {
      r := Update(ClaimRequest(id, agent, held, now, ttl), _ => false);
    }

    /** A leased worker's outcome, fenced on the attempt it was granted. A repeat
        of a recorded key is answered without a write; a stale attempt, or a bead
        with neither holder nor executor, is refused without one. */
    method ReportResult(id: Id, attempt: nat, status: Status, result: Option<string>, key: string, check: nat -> bool) returns (r: Outcome)
      modifies this
      ensures status != Done && status != Failed ==> r == Refused(NotAnOutcome)
      ensures !r.Written? ==> tasks == old(tasks)
      ensures r.Written? ==>
        && Find(old(tasks), id) == Some(r.index) && |tasks| == |old(tasks)|
        && if Replays(old(tasks)[r.index], key) then tasks == old(tasks)
           else
             && !Fenced(old(tasks)[r.index], attempt)
             && tasks[r.index].leaseAttempt == attempt
             && tasks[r.index].leasedBy.None? && tasks[r.index].leaseExpires == Never
      ensures Committed(tasks, r) == Report(env, old(tasks), id, attempt, status, result, key, check)
      ensures r.Written? && !Replays(old(tasks)[r.index], key) ==>
        tasks[r.index].metadata.leaseReport == Some(LeaseReport(attempt, old(tasks)[r.index].leasedBy, status, key))
      ensures r.Written? && key != "" ==> Replays(tasks[r.index], key)
      ensures status == Failed && r.Written? && !Replays(old(tasks)[r.index], key) ==>
        && tasks == old(tasks)[r.index := tasks[r.index]]
        && tasks[r.index].status == Failed && tasks[r.index].result == result
    {
      if status != Done && status != Failed {
        return Refused(NotAnOutcome);
      }
      var at := Find(tasks, id);
      if at.None? {
        return Absent;
      }
      var current := tasks[at.value];
      if Replays(current, key) {
        return Written(at.value);
      }
      var m := Reported(current, attempt, status, key);
      var q := ReportRequest(id, attempt, status, result, m);
      if Prepare(env, tasks, q, check).Ok? {
        ReportCommitted(env, tasks, q, check, attempt);
        PrepareFrame(env, tasks, q, check);
      }
      r := Update(q, check);
      if r.Written? {
        ReportOnRecord(env, old(tasks), id, attempt, status, result, key, check);
      }
    }

    /** Return every bead whose lease has lapsed to the ready set, the attempt
        counter intact. No other bead changes. */
    method ReapExpiredLeases(now: int) returns (reaped: seq<Id>)
      requires UniqueIds(tasks)
      modifies this
      ensures |tasks| == |old(tasks)|
      ensures forall k :: 0 <= k < |tasks| ==> tasks[k] == Reaped(old(tasks)[k], now)
      ensures forall k :: 0 <= k < |tasks| && Reapable(old(tasks)[k], now) ==>
        && tasks[k].status == Pending && tasks[k].leasedBy.None?
        && tasks[k].leaseAttempt == old(tasks)[k].leaseAttempt && tasks[k].assignedAgent == old(tasks)[k].assignedAgent
        && tasks[k].metadata == old(tasks)[k].metadata && tasks[k].result == old(tasks)[k].result
      ensures forall x :: x in reaped <==> exists k :: 0 <= k < |old(tasks)| && old(tasks)[k].id == x && Reapable(old(tasks)[k], now)
    {
      var snapshot := tasks;
      reaped := [];
      for i := 0 to |snapshot|
        invariant |tasks| == |snapshot|
        invariant forall k :: 0 <= k < |tasks| ==> tasks[k] == if k < i then Reaped(snapshot[k], now) else snapshot[k]
        invariant forall x :: x in reaped <==> exists k :: 0 <= k < i && snapshot[k].id == x && Reapable(snapshot[k], now)
      {
        if Reapable(snapshot[i], now) {
          FindUnique(tasks, i);
          var check: nat -> bool := _ => false;
          ReapReturns(env, tasks, i, now, check);
          var r := Update(ReapRequest(snapshot[i].id), check);
          reaped := reaped + [snapshot[i].id];
        }
      }
    }

    /** A verifier answers a parked gate. The first thing wrong with the answer is
        what it is refused for; a sound one is the update it stands for, and makes
        a bead behind a human or judged gate DONE with who said so on record. */
    method ApproveVerify(id: Id, approver: string, reason: string, now: string, check: nat -> bool) returns (r: Outcome)
      requires now != ""
      modifies this
      ensures !r.Written? ==> tasks == old(tasks)
      ensures r == Absent <==> !Exists(old(tasks), id)
      ensures Exists(old(tasks), id) ==>
        var b := old(tasks)[Find(old(tasks), id).value]; var who := RecordedExecutor(b);
        && (r == Refused(NotAwaitingVerify) <==> b.status != AwaitingVerify)
        && (r == Refused(NoExecutor) <==> b.status == AwaitingVerify && who.None?)
        && (r == Refused(Unauthenticated) <==>
             b.status == AwaitingVerify && who.Some? && (approver == "" || approver !in env.verifiers))
        && (r == Refused(SelfApproval) <==>
             b.status == AwaitingVerify && approver != "" && approver in env.verifiers && who == Some(approver))
        && (r == Refused(NoReason) <==>
             && b.status == AwaitingVerify && who.Some? && approver != "" && approver in env.verifiers && who != Some(approver)
             && IsBlank(reason))
        && (b.status == AwaitingVerify && who.Some? && approver != "" && approver in env.verifiers && who != Some(approver)
            && !IsBlank(reason) ==>
              && Updates(env, old(tasks), ApprovalRequest(b, approver, reason, now), check, tasks, r)
              && (Gated(b) && Normalised(env, b.metadata.verify.value) ==> r.Written?))
      ensures r.Written? ==>
        && Find(old(tasks), id) == Some(r.index)
        && var b := old(tasks)[r.index];
        && b.status == AwaitingVerify && approver in env.verifiers && approver != "" && !IsBlank(reason)
        && RecordedExecutor(b).Some? && RecordedExecutor(b).value != approver
      ensures r.Written? && r.index < |tasks| && Gated(old(tasks)[r.index]) && !old(tasks)[r.index].metadata.verify.value.kind.Deterministic? ==>
        && tasks[r.index].status == Done
        && tasks[r.index].metadata.approval == Some(Attestation(approver, now, true, reason))
    {
      var at := Find(tasks, id);
      if at.None? {
        return Absent;
      }
      var task := tasks[at.value];
      if task.status != AwaitingVerify {
        return Refused(NotAwaitingVerify);
      }
      if RecordedExecutor(task).None? {
        return Refused(NoExecutor);
      }
      if approver == "" || approver !in env.verifiers {
        return Refused(Unauthenticated);
      }
      if Some(approver) == RecordedExecutor(task) {
        return Refused(SelfApproval);
      }
      if IsBlank(reason) {
        return Refused(NoReason);
      }
      var q := ApprovalRequest(task, approver, reason, now);
      ApprovalLands(env, tasks, at.value, approver, reason, now, check);
      r := Update(q, check);
    }
  }
}
