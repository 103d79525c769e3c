/** The lifecycle store: what each verb does to the stored list of beads, and the
    class whose methods do it. `update` is two parts: `Prepare` reads the bead
    and runs its gate without the lock, `Commit` is the locked region. */
module BeadStore {
  import opened Prelude
  import opened Graph
  import opened BeadModel
  import opened StepCascade
  import opened NaturalKey
  import CyclePath

  /** What the operator and the contract fix: who may verify, how a gate is
      validated and normalised (None when it is refused), and the key hashes. */
  datatype Env = Env(verifiers: set<string>, normalise: Gate -> Option<Gate>, keys: KeyEnv)

  ghost predicate Normalised(env: Env, g: Gate) { env.normalise(g) == Some(g) }

  /** Validating a validated gate changes nothing. */
  ghost predicate IdempotentGates(env: Env) {
    forall g :: env.normalise(g).Some? ==> Normalised(env, env.normalise(g).value)
  }

  /** One keyword of an update: not given, or given. */
  datatype Change<T> = Keep | Set(value: T) {
    function Or(current: T): T { if Set? then value else current }
  }

  datatype Kwargs = Kwargs(
    status: Change<Status>,
    result: Change<Option<string>>,
    assignedAgent: Change<Option<string>>,
    assignedTo: Change<Option<string>>,
    source: Change<Option<string>>,
    blockedBy: Change<seq<Id>>,
    leasedBy: Change<Option<string>>,
    leaseAttempt: Change<nat>,
    leaseExpires: Change<Expiry>,
    metadata: Change<Metadata>)

  const NO_CHANGE := Kwargs(Keep, Keep, Keep, Keep, Keep, Keep, Keep, Keep, Keep, Keep)

  datatype Refusal =
    | KeyRefused(why: KeyError) | BadReference | DepthLimit | CycleRefused
    | GateContract | GateTerminal | HumanLineage | LeaseLost | CapabilityMissing
    | NotAwaitingVerify | NoExecutor | Unauthenticated | SelfApproval | NoReason | NotAnOutcome

  const MAX_SUBTASK_DEPTH := 3

  // --- metadata at the write boundary ----------------------------------------

  function Validated(env: Env, m: Metadata): Result<Metadata, Refusal> {
    match m.verify
    case None => Ok(m)
    case Some(g) =>
      match env.normalise(g)
      case None => Err(GateContract)
      case Some(n) => Ok(m.(verify := Some(n)))
  }

  /** A bead cannot be filed with its gate already answered. */
  function WithoutAnswers(m: Metadata): Metadata {
    m.(approval := None, rejection := None, outcome := None)
  }

  function CleanKwargs(env: Env, kw: Kwargs): Result<Kwargs, Refusal> {
    match kw.metadata
    case Keep => Ok(kw)
    case Set(m) =>
      match Validated(env, m)
      case Err(e) => Err(e)
      case Ok(v) => Ok(kw.(metadata := Set(v.(approval := None))))
  }

  // --- the gate, evaluated before the lock -----------------------------------

  /** Every stage passes, in order, or the gate has failed. */
  predicate ChecksPass(g: Gate, check: nat -> bool) {
    forall i: nat :: i < |g.stages| ==> check(i)
  }

  /** An attestation that releases a human or judged gate: a reason, a time, and a
      declared verifier other than the recorded executor. */
  predicate Answers(env: Env, b: Bead, a: Option<Attestation>) {
    && a.Some?
    && !IsBlank(a.value.reason)
    && a.value.approvedAt != ""
    && a.value.approver != ""
    && a.value.approver in env.verifiers
    && Some(a.value.approver) != RecordedExecutor(b)
  }

  /** Rewrite a DONE-bound update according to the bead's pinned gate. `passed` is
      what re-running a deterministic gate said. */
  function ApplyVerifyGate(env: Env, b: Bead, g: Gate, kw: Kwargs, a: Option<Attestation>, passed: bool): Kwargs {
    var m := kw.metadata.Or(b.metadata);
    if !g.kind.Deterministic? then
      if Answers(env, b, a) then
        kw.(metadata := Set(m.(approval := a, outcome := Some(VerifyResult(Some(g.kind), Some(true))))))
      else
        kw.(status := Set(AwaitingVerify), metadata := Set(m.(outcome := Some(VerifyResult(Some(g.kind), None)))))
    else if passed then
      kw.(status := Set(Done), metadata := Set(m.(outcome := Some(VerifyResult(Some(g.kind), Some(true))))))
    else
      kw.(status := Set(VerifyFailed),
          metadata := Set(m.(outcome := Some(VerifyResult(Some(g.kind), Some(false))))),
          result := if !Truthy(kw.result.Or(None)) && !Truthy(b.result) then Set(Some("verify failed")) else kw.result)
  }

  const SELF_REPORTING := {"claude", "zai", "forge"}

  datatype Speclessness = Legacy | Await | Unverified

  function ClassifySpecless(b: Bead, kw: Kwargs): Speclessness {
    var agent := kw.assignedAgent.Or(b.assignedAgent);
    var m := kw.metadata.Or(b.metadata);
    if !(agent.Some? && agent.value in SELF_REPORTING) && m.executor !in SELF_REPORTING then Legacy
    else if kw.source.Or(b.source) == Some("recurring") || m.spawnedBy != "" then Legacy
    else if kw.source.Or(b.source) == Some("rca") then Unverified
    else if m.taskClass == "agent" then Await
    else Unverified
  }

  function SpeclessDone(b: Bead, kw: Kwargs): Kwargs {
    var m := kw.metadata.Or(b.metadata).(outcome := Some(VerifyResult(None, None)));
    match ClassifySpecless(b, kw)
    case Legacy => kw
    case Await => kw.(status := Set(AwaitingVerify), metadata := Set(m))
    case Unverified => kw.(metadata := Set(m))
  }

  // --- compare-and-set hooks ---------------------------------------------------

  datatype Precheck =
    | NoCheck
    | ClaimCheck(agent: string, held: set<string>, now: int, ttl: int)
    | FenceCheck(attempt: nat)

  /** What the hook derives from the bead found under the lock, or why it aborts. */
  function RunPrecheck(c: Precheck, b: Bead, kw: Kwargs): Result<Kwargs, Refusal> {
    match c
    case NoCheck => Ok(kw)
    case ClaimCheck(agent, held, now, ttl) =>
      if exists r :: r in b.requirements && r !in held then Err(CapabilityMissing)
      else if b.status != Pending || LeaseActiveAt(b, now) then Err(LeaseLost)
      else Ok(kw.(leasedBy := Set(Some(agent)), leaseAttempt := Set(b.leaseAttempt + 1), leaseExpires := Set(At(now + ttl))))
    case FenceCheck(attempt) =>
      if Fenced(b, attempt) then Err(LeaseLost) else Ok(kw)
  }

  // --- update: the unlocked part ----------------------------------------------

  /** An update ready for the lock. `gateAtRead` is None when the gate was not
      read, and otherwise the gate the bead had, which may be none. */
  datatype Prepared = Prepared(
    id: Id, kwargs: Kwargs, gateAtRead: Option<Option<Gate>>,
    precheck: Precheck, allowGateChange: bool, allowHumanReassign: bool)

  datatype Request = Request(
    id: Id, kwargs: Kwargs, precheck: Precheck, attestation: Option<Attestation>,
    allowGateChange: bool, allowHumanReassign: bool)

  function Prepare(env: Env, tasks: seq<Bead>, q: Request, check: nat -> bool): Result<Prepared, Refusal> {
    match CleanKwargs(env, q.kwargs)
    case Err(e) => Err(e)
    case Ok(kw) =>
      var plain := Prepared(q.id, kw, None, q.precheck, q.allowGateChange, q.allowHumanReassign);
      match Find(tasks, q.id)
      case None => Ok(plain)
      case Some(i) =>
        if kw.status == Set(Skipped) && Gated(tasks[i]) then Err(GateTerminal)
        else if kw.status != Set(Done) then Ok(plain)
        else match tasks[i].metadata.verify
          case Some(g) =>
            Ok(plain.(kwargs := ApplyVerifyGate(env, tasks[i], g, kw, q.attestation, ChecksPass(g, check)), gateAtRead := Some(Some(g))))
          case None => Ok(plain.(kwargs := SpeclessDone(tasks[i], kw), gateAtRead := Some(None)))
  }

  /** The gate rewrites status, result and metadata and nothing else, and only on
      the way to DONE. */
  predicate SameButOutcome(kw: Kwargs, after: Kwargs) {
    after == kw.(status := after.status, result := after.result, metadata := after.metadata)
  }

  lemma PrepareFrame(env: Env, tasks: seq<Bead>, q: Request, check: nat -> bool)
    requires Prepare(env, tasks, q, check).Ok?
    ensures var p := Prepare(env, tasks, q, check).value;
      && p.id == q.id && p.precheck == q.precheck && p.allowGateChange == q.allowGateChange
      && SameButOutcome(q.kwargs, p.kwargs)
      && (q.kwargs.status != Set(Done) ==> p.kwargs.status == q.kwargs.status && p.kwargs.result == q.kwargs.result)
      && (q.kwargs.status == Set(Done) && Exists(tasks, q.id) ==> p.gateAtRead.Some?)
  {
    var kw := CleanKwargs(env, q.kwargs).value;
    assert SameButOutcome(q.kwargs, kw);
    if Find(tasks, q.id).Some? {
      var b := tasks[Find(tasks, q.id).value];
      assert SameButOutcome(kw, SpeclessDone(b, kw));
      if Gated(b) {
        GateFrame(env, b, b.metadata.verify.value, kw, q.attestation, ChecksPass(b.metadata.verify.value, check));
      }
    }
  }

  lemma GateFrame(env: Env, b: Bead, g: Gate, kw: Kwargs, a: Option<Attestation>, passed: bool)
    ensures SameButOutcome(kw, ApplyVerifyGate(env, b, g, kw, a, passed))
  {
  }

  // --- what the gate decides ---------------------------------------------------

  /** Who executed the bead, for the separation check: the agent if one is named,
      else the person a `human:` assignment names, else the assignee. */
  lemma ExecutorNamed(b: Bead, who: string)
    requires who != ""
    ensures b.assignedAgent == Some(who) ==> RecordedExecutor(b) == Some(who)
    ensures b.assignedAgent in {None, Some("")} && b.assignedTo == Some("human:" + who) ==> RecordedExecutor(b) == Some(who)
    ensures b.assignedAgent in {None, Some("")} && b.assignedTo.None? ==> RecordedExecutor(b).None?
  {
    assert ("human:" + who)[..6] == "human:" && ("human:" + who)[6..] == who;
  }

  /** What releases this gate on this bead: its checks passing, or a declared
      verifier other than the recorded executor giving a reason. */
  predicate Released(env: Env, b: Bead, g: Gate, a: Option<Attestation>, check: nat -> bool) {
    if g.kind.Deterministic? then ChecksPass(g, check) else Answers(env, b, a)
  }

  /** Nothing, or an empty text. */
  predicate Blankly(s: Option<string>) { s.None? || |s.value| == 0 }

  /** Where a gated bead asked for DONE goes, and what is written down about it:
      DONE if and only if its gate is released; a failed check is VERIFY_FAILED and an
      unanswered human or judged gate is AWAITING_VERIFY. */
  lemma GateDecides(env: Env, tasks: seq<Bead>, q: Request, check: nat -> bool, i: nat)
    requires Prepare(env, tasks, q, check).Ok? && Find(tasks, q.id) == Some(i) && q.kwargs.status == Set(Done)
    requires tasks[i].metadata.verify.Some?
    ensures var b := tasks[i]; var g := b.metadata.verify.value; var kw := Prepare(env, tasks, q, check).value.kwargs;
      var through := Released(env, b, g, q.attestation, check);
      && kw.status == Set(if through then Done else if g.kind.Deterministic? then VerifyFailed else AwaitingVerify)
      && kw.metadata.Set?
      && kw.metadata.value.outcome
         == Some(VerifyResult(Some(g.kind), if through then Some(true) else if g.kind.Deterministic? then Some(false) else None))
      && kw.metadata.value.approval
         == (if through && !g.kind.Deterministic? then q.attestation
             else if q.kwargs.metadata.Set? then None else b.metadata.approval)
      && kw.result ==
         if g.kind.Deterministic? && !through && Blankly(q.kwargs.result.Or(None)) && Blankly(b.result)
         then Set(Some("verify failed")) else q.kwargs.result
  {
  }

  predicate OwnWordOnly(who: string) { who == "claude" || who == "zai" || who == "forge" }

  /** Self-reported work: an executor that only has its own word, and not one of
      the system's own samples. */
  predicate SelfReported(agent: Option<string>, source: Option<string>, m: Metadata) {
    && ((agent.Some? && OwnWordOnly(agent.value)) || OwnWordOnly(m.executor))
    && source != Some("recurring") && m.spawnedBy == ""
  }

  /** Where a bead without a gate goes when asked for DONE: to AWAITING_VERIFY if
      it is self-reported work of the agent class that is no root-cause analysis,
      and otherwise to DONE. Self-reported work is marked unverified either way;
      anything else is written as asked. */
  lemma SpeclessDecides(env: Env, tasks: seq<Bead>, q: Request, check: nat -> bool, i: nat)
    requires Prepare(env, tasks, q, check).Ok? && Find(tasks, q.id) == Some(i) && q.kwargs.status == Set(Done)
    requires tasks[i].metadata.verify.None?
    ensures var b := tasks[i]; var kw := Prepare(env, tasks, q, check).value.kwargs;
      var agent := if q.kwargs.assignedAgent.Set? then q.kwargs.assignedAgent.value else b.assignedAgent;
      var source := if q.kwargs.source.Set? then q.kwargs.source.value else b.source;
      var m := if q.kwargs.metadata.Set? then q.kwargs.metadata.value else b.metadata;
      var unchecked := SelfReported(agent, source, m);
      && kw.status == Set(if unchecked && source != Some("rca") && m.taskClass == "agent" then AwaitingVerify else Done)
      && kw.result == q.kwargs.result
      && (unchecked ==> kw.metadata.Set? && kw.metadata.value.outcome == Some(VerifyResult(None, None)))
      && (!unchecked ==> kw.metadata == CleanKwargs(env, q.kwargs).value.metadata)
  {
    var clean := CleanKwargs(env, q.kwargs).value;
    assert Prepare(env, tasks, q, check).value.kwargs == SpeclessDone(tasks[i], clean);
    SpeclessMeans(tasks[i], clean);
  }

  lemma SpeclessMeans(b: Bead, kw: Kwargs)
    requires kw.status == Set(Done)
    ensures var source, m := kw.source.Or(b.source), kw.metadata.Or(b.metadata);
      var unchecked := SelfReported(kw.assignedAgent.Or(b.assignedAgent), source, m);
      var done := SpeclessDone(b, kw);
      && done.status == Set(if unchecked && source != Some("rca") && m.taskClass == "agent" then AwaitingVerify else Done)
      && done.result == kw.result
      && (unchecked ==> done.metadata.Set? && done.metadata.value.outcome == Some(VerifyResult(None, None)))
      && (!unchecked ==> done.metadata == kw.metadata)
  {
  }

  /** When the unlocked half raises: a gate that does not validate is brought in,
      or a gated bead would be skipped. */
  lemma PrepareRefusedIff(env: Env, tasks: seq<Bead>, q: Request, check: nat -> bool)
    ensures Prepare(env, tasks, q, check).Err? <==>
      || (q.kwargs.metadata.Set? && q.kwargs.metadata.value.verify.Some? && env.normalise(q.kwargs.metadata.value.verify.value).None?)
      || (q.kwargs.status == Set(Skipped) && exists i: nat :: Find(tasks, q.id) == Some(i) && tasks[i].metadata.verify.Some?)
  {
    if Find(tasks, q.id).Some? {
      assert Find(tasks, q.id) == Some(Find(tasks, q.id).value);
    }
  }

  // --- update: the locked part -------------------------------------------------

  function Apply(b: Bead, kw: Kwargs): Bead {
    b.(status := kw.status.Or(b.status), result := kw.result.Or(b.result),
       assignedAgent := kw.assignedAgent.Or(b.assignedAgent), assignedTo := kw.assignedTo.Or(b.assignedTo),
       source := kw.source.Or(b.source), blockedBy := kw.blockedBy.Or(b.blockedBy),
       leasedBy := kw.leasedBy.Or(b.leasedBy), leaseAttempt := kw.leaseAttempt.Or(b.leaseAttempt),
       leaseExpires := kw.leaseExpires.Or(b.leaseExpires), metadata := kw.metadata.Or(b.metadata))
  }

  predicate StripsHuman(b: Bead, kw: Kwargs) {
    kw.assignedTo.Set? && IsHuman(b.assignedTo) && !IsHuman(kw.assignedTo.value)
  }

  predicate ReferencesExist(tasks: seq<Bead>, ids: seq<Id>) {
    forall x :: x in ids ==> ValidId(x) && Exists(tasks, x)
  }

  /** The pinned gate as the comparison under the lock sees it. */
  function PinnedForm(env: Env, g: Gate): Gate {
    if env.normalise(g).Some? then env.normalise(g).value else g
  }

  predicate RewritesGate(env: Env, b: Bead, kw: Kwargs) {
    Gated(b) && kw.metadata.Set? && kw.metadata.value.verify != Some(PinnedForm(env, b.metadata.verify.value))
  }

  /** Why the locked region would raise, given the hook's outcome. */
  ghost function CommitRefusal(env: Env, tasks: seq<Bead>, b: Bead, p: Prepared, kw: Kwargs): Option<Refusal> {
    if StripsHuman(b, kw) && !p.allowHumanReassign then Some(HumanLineage)
    else if kw.blockedBy.Set? && !ReferencesExist(tasks, kw.blockedBy.value) then Some(BadReference)
    else if kw.blockedBy.Set? && ClosesCycle(tasks, p.id, Dedup(kw.blockedBy.value)) then Some(CycleRefused)
    else if p.gateAtRead.Some? && !p.allowGateChange && b.metadata.verify != p.gateAtRead.value then Some(GateContract)
    else if !p.allowGateChange && RewritesGate(env, b, kw) then Some(GateContract)
    else None
  }

  function WithBlockersNormal(kw: Kwargs): Kwargs {
    if kw.blockedBy.Set? then kw.(blockedBy := Set(Dedup(kw.blockedBy.value))) else kw
  }

  datatype Outcome = Written(index: nat) | Absent | Refused(why: Refusal)

  datatype Committed = Committed(tasks: seq<Bead>, outcome: Outcome)

  /** The write itself: the bead's new fields, then the cascade when it just
      became DONE. */
  function Write(tasks: seq<Bead>, i: nat, kw: Kwargs): (r: seq<Bead>)
    requires i < |tasks|
    ensures |r| == |tasks|
  {
    var written := tasks[i := Apply(tasks[i], kw)];
    if written[i].status == Done && tasks[i].status != Done then Cascade(written, i) else written
  }

  /** A write sets the fields of its own bead; every bead, its own included, may
      then be closed or marked by the cascade and changes no further. */
  lemma WriteFrame(tasks: seq<Bead>, i: nat, kw: Kwargs)
    requires i < |tasks|
    ensures CascadedFrom(Apply(tasks[i], kw), Write(tasks, i, kw)[i])
    ensures forall k :: 0 <= k < |tasks| && k != i ==> CascadedFrom(tasks[k], Write(tasks, i, kw)[k])
  {
    CascadeFrame(tasks[i := Apply(tasks[i], kw)], i);
  }

  ghost function Commit(env: Env, tasks: seq<Bead>, p: Prepared): Committed {
    match Find(tasks, p.id)
    case None => Committed(tasks, Absent)
    case Some(i) =>
      match RunPrecheck(p.precheck, tasks[i], p.kwargs)
      case Err(e) => Committed(tasks, Refused(e))
      case Ok(kw) =>
        match CommitRefusal(env, tasks, tasks[i], p, kw)
        case Some(e) => Committed(tasks, Refused(e))
        case None => Committed(Write(tasks, i, WithBlockersNormal(kw)), Written(i))
  }

  // --- what the locked part decides ----------------------------------------------

  /** The hook lets the write go on. */
  predicate HookAllows(c: Precheck, b: Bead) {
    match c
    case NoCheck => true
    case ClaimCheck(_, held, now, _) =>
      b.status == Pending && !LeaseActiveAt(b, now) && forall r :: r in b.requirements ==> r in held
    case FenceCheck(attempt) => b.leaseAttempt == attempt && (b.leasedBy.Some? || RecordedExecutor(b).Some?)
  }

  /** Nobody takes a person's bead from them without leave. */
  predicate KeepsHuman(b: Bead, p: Prepared) {
    p.allowHumanReassign || p.kwargs.assignedTo.Keep? || !IsHuman(b.assignedTo) || IsHuman(p.kwargs.assignedTo.value)
  }

  ghost predicate BlockersSound(tasks: seq<Bead>, p: Prepared) {
    p.kwargs.blockedBy.Set? ==>
      && (forall x :: x in p.kwargs.blockedBy.value ==> ValidId(x) && Exists(tasks, x))
      && !ClosesCycle(tasks, p.id, Dedup(p.kwargs.blockedBy.value))
  }

  /** The gate is the one that was read, and the write brings the same one. */
  predicate GateHeld(env: Env, b: Bead, p: Prepared) {
    || p.allowGateChange
    || (&& (p.gateAtRead.Some? ==> p.gateAtRead.value == b.metadata.verify)
        && (b.metadata.verify.Some? && p.kwargs.metadata.Set? ==>
             p.kwargs.metadata.value.verify == Some(PinnedForm(env, b.metadata.verify.value))))
  }

  /** The write happens exactly when the bead is there, the hook allows it, a
      person keeps their bead, the blockers are sound and the gate is held;
      otherwise nothing changes, and the first of these to fail is named. */
  lemma CommitDecides(env: Env, tasks: seq<Bead>, p: Prepared)
    ensures var c := Commit(env, tasks, p); var at := Find(tasks, p.id);
      && (c.outcome == Absent <==> at.None?)
      && (!c.outcome.Written? ==> c.tasks == tasks)
      && (at.Some? ==>
           var b := tasks[at.value];
           && (c.outcome == Written(at.value) <==>
                HookAllows(p.precheck, b) && KeepsHuman(b, p) && BlockersSound(tasks, p) && GateHeld(env, b, p))
           && (c.outcome.Written? <==> c.outcome == Written(at.value))
           && (c.outcome in {Refused(CapabilityMissing), Refused(LeaseLost)} <==> !HookAllows(p.precheck, b))
           && (c.outcome == Refused(CapabilityMissing) <==>
                p.precheck.ClaimCheck? && exists r :: r in b.requirements && r !in p.precheck.held)
           && (c.outcome == Refused(HumanLineage) <==> HookAllows(p.precheck, b) && !KeepsHuman(b, p))
           && (c.outcome in {Refused(BadReference), Refused(CycleRefused)} <==>
                HookAllows(p.precheck, b) && KeepsHuman(b, p) && !BlockersSound(tasks, p))
           && (c.outcome == Refused(GateContract) <==>
                HookAllows(p.precheck, b) && KeepsHuman(b, p) && BlockersSound(tasks, p) && !GateHeld(env, b, p)))
  {
    if Find(tasks, p.id).Some? {
      var b := tasks[Find(tasks, p.id).value];
      if RunPrecheck(p.precheck, b, p.kwargs).Ok? {
        var kw := RunPrecheck(p.precheck, b, p.kwargs).value;
        assert kw.blockedBy == p.kwargs.blockedBy && kw.metadata == p.kwargs.metadata && kw.assignedTo == p.kwargs.assignedTo;
      }
    }
  }

  /** A field is what the update says, or what it was. */
  predicate Became<T(==)>(c: Change<T>, was: T, now: T) {
    if c.Set? then now == c.value else now == was
  }

  /** What an accepted update leaves on its bead: every field it names and no
      other, the hook's lease fields first, and then only what the cascade may do.
      When it does not finish the bead, no other bead changes. */
  lemma CommitWrites(env: Env, tasks: seq<Bead>, p: Prepared)
    requires Commit(env, tasks, p).outcome.Written?
    ensures var i := Commit(env, tasks, p).outcome.index; var after := Commit(env, tasks, p).tasks;
      && i < |tasks| == |after| && after[i].id == tasks[i].id == p.id
      && Became(p.kwargs.status, tasks[i].status, Apply(tasks[i], p.kwargs).status)
      && (Apply(tasks[i], p.kwargs).status != Done || tasks[i].status == Done ==> after == tasks[i := after[i]])
      && (Apply(tasks[i], p.kwargs).status != Done ==> WrittenAs(tasks[i], p, after[i]))
      && exists b :: WrittenAs(tasks[i], p, b) && CascadedFrom(b, after[i])
  {
    var i := Commit(env, tasks, p).outcome.index;
    var kw := WithBlockersNormal(RunPrecheck(p.precheck, tasks[i], p.kwargs).value);
    WriteFrame(tasks, i, kw);
    AppliedAs(tasks[i], p);
  }

  lemma AppliedAs(b: Bead, p: Prepared)
    requires RunPrecheck(p.precheck, b, p.kwargs).Ok?
    ensures var after := Apply(b, WithBlockersNormal(RunPrecheck(p.precheck, b, p.kwargs).value));
      WrittenAs(b, p, after) && after.id == b.id && after.status == Apply(b, p.kwargs).status
  {
  }

  predicate WrittenAs(b: Bead, p: Prepared, after: Bead) {
    var kw := p.kwargs;
    && after.parentId == b.parentId && after.requirements == b.requirements
    && Became(kw.status, b.status, after.status) && Became(kw.result, b.result, after.result)
    && Became(kw.assignedAgent, b.assignedAgent, after.assignedAgent) && Became(kw.assignedTo, b.assignedTo, after.assignedTo)
    && Became(kw.source, b.source, after.source) && Became(kw.metadata, b.metadata, after.metadata)
    && Became(if kw.blockedBy.Set? then Set(Dedup(kw.blockedBy.value)) else Keep, b.blockedBy, after.blockedBy)
    && match p.precheck
       case ClaimCheck(agent, _, now, ttl) =>
         after.leasedBy == Some(agent) && after.leaseAttempt == b.leaseAttempt + 1 && after.leaseExpires == At(now + ttl)
       case _ =>
         && Became(kw.leasedBy, b.leasedBy, after.leasedBy) && Became(kw.leaseAttempt, b.leaseAttempt, after.leaseAttempt)
         && Became(kw.leaseExpires, b.leaseExpires, after.leaseExpires)
  }

  // --- create --------------------------------------------------------------------

  datatype CreateArgs = CreateArgs(
    status: Status, assignedAgent: Option<string>, assignedTo: Option<string>,
    key: KeyInputs, parentId: Option<Id>, blockedBy: seq<Id>,
    requirements: seq<string>, metadata: Metadata)

  function IdSet(tasks: seq<Bead>): set<Id> { set t | t in tasks :: t.id }

  /** Generations above `cur`, counting from `seen` on; a missing parent or a loop
      ends the count. */
  function DepthFrom(tasks: seq<Bead>, cur: Id, seen: set<Id>): nat
    decreases IdSet(tasks) - seen
  {
    match Lookup(tasks, cur)
    case None => 0
    case Some(i) =>
      if cur in seen then 0
      else match tasks[i].parentId
        case None => 0
        case Some(p) =>
          assert tasks[i] in tasks && cur in IdSet(tasks);
          1 + DepthFrom(tasks, p, seen + {cur})
  }

  function Depth(tasks: seq<Bead>, id: Id): nat { DepthFrom(tasks, id, {}) }

  predicate Holds(b: Bead, key: string) { key != "" && b.metadata.naturalKey == Some(key) }

  /** The first bead holding `key`. */
  function Holder(tasks: seq<Bead>, key: string): (r: Option<nat>)
    ensures r.Some? ==> r.value < |tasks| && Holds(tasks[r.value], key)
    ensures r.None? ==> forall t :: t in tasks ==> !Holds(t, key)
  {
    if tasks == [] then None
    else if Holds(tasks[0], key) then Some(0)
    else match Holder(tasks[1..], key)
      case Some(k) => Some(k + 1)
      case None =>
        assert forall t :: t in tasks ==> t == tasks[0] || t in tasks[1..];
        None
  }

  datatype Creation = Created(bead: Bead) | Duplicate(holder: nat) | NotCreated(why: Refusal)

  function NewBead(id: Id, a: CreateArgs, key: Option<string>, m: Metadata): Bead {
    Bead(id, a.status, a.assignedAgent, a.assignedTo, a.key.source, a.parentId, Dedup(a.blockedBy),
         None, 0, Never, a.requirements, None,
         if key.Some? then WithoutAnswers(m).(naturalKey := key) else WithoutAnswers(m))
  }

  /** What `create` decides; a created bead is appended, anything else leaves the
      store as it was. */
  function Create(env: Env, tasks: seq<Bead>, id: Id, a: CreateArgs): Creation {
    match DeriveNaturalKey(env.keys, a.key)
    case Err(e) => NotCreated(KeyRefused(e))
    case Ok(key) =>
      match Validated(env, a.metadata)
      case Err(e) => NotCreated(e)
      case Ok(m) =>
        if (a.parentId.Some? && !ValidId(a.parentId.value)) || (exists b :: b in a.blockedBy && !ValidId(b)) then
          NotCreated(BadReference)
        else if key.Some? && Holder(tasks, key.value).Some? then Duplicate(Holder(tasks, key.value).value)
        else if (a.parentId.Some? && !Exists(tasks, a.parentId.value)) || !ReferencesExist(tasks, a.blockedBy) then
          NotCreated(BadReference)
        else if a.parentId.Some? && Depth(tasks, a.parentId.value) + 1 > MAX_SUBTASK_DEPTH then NotCreated(DepthLimit)
        else Created(NewBead(id, a, key, m))
  }

  function AfterCreate(tasks: seq<Bead>, c: Creation): seq<Bead> {
    if c.Created? then tasks + [c.bead] else tasks
  }

  /** What `create` asks of everything but the key: a gate that validates, and a
      parent and blockers that are well formed and there, not too deep. */
  predicate Fileable(env: Env, tasks: seq<Bead>, a: CreateArgs) {
    && (a.metadata.verify.Some? ==> env.normalise(a.metadata.verify.value).Some?)
    && (a.parentId.Some? ==>
         && ValidId(a.parentId.value) && Exists(tasks, a.parentId.value)
         && Depth(tasks, a.parentId.value) < MAX_SUBTASK_DEPTH)
    && ReferencesExist(tasks, a.blockedBy)
  }

  /** A bead is created exactly when a key, if any, derives and nobody holds it
      and the rest is fileable; a held key answers with its holder. */
  lemma CreateDecides(env: Env, tasks: seq<Bead>, id: Id, a: CreateArgs)
    ensures var c := Create(env, tasks, id, a); var key := DeriveNaturalKey(env.keys, a.key);
      && (c.Created? <==> key.Ok? && (key.value.Some? ==> Holder(tasks, key.value.value).None?) && Fileable(env, tasks, a))
      && (c.Duplicate? ==> key.Ok? && key.value.Some? && Holder(tasks, key.value.value) == Some(c.holder))
      && (key.Ok? && key.value.Some? && Holder(tasks, key.value.value).Some? && Fileable(env, tasks, a) ==> c.Duplicate?)
  {
    if exists b :: b in a.blockedBy && !ValidId(b) {
      assert !ReferencesExist(tasks, a.blockedBy);
    }
  }

  /** The created bead carries what was asked for and nothing that only the store
      may give: no lease, no result and no answer to its gate. */
  lemma CreatedBead(env: Env, tasks: seq<Bead>, id: Id, a: CreateArgs)
    requires Create(env, tasks, id, a).Created?
    ensures var b := Create(env, tasks, id, a).bead; var key := DeriveNaturalKey(env.keys, a.key).value;
      && b.id == id && b.status == a.status && b.assignedAgent == a.assignedAgent && b.assignedTo == a.assignedTo
      && b.source == a.key.source && b.parentId == a.parentId && b.requirements == a.requirements
      && Distinct(b.blockedBy) && (forall x :: x in b.blockedBy <==> x in a.blockedBy)
      && b.leasedBy.None? && b.leaseAttempt == 0 && b.leaseExpires == Never && b.result.None?
      && b.metadata.approval.None? && b.metadata.rejection.None? && b.metadata.outcome.None?
      && b.metadata.naturalKey == (if key.Some? then key else a.metadata.naturalKey)
      && b.metadata.verify == (if a.metadata.verify.Some? then env.normalise(a.metadata.verify.value) else None)
      && b.metadata.(approval := a.metadata.approval, rejection := a.metadata.rejection, outcome := a.metadata.outcome,
                     naturalKey := a.metadata.naturalKey, verify := a.metadata.verify) == a.metadata
  {
  }

  /** An accepted report ends the lease it was fenced on and keeps its number. */
  lemma ReportCommitted(env: Env, tasks: seq<Bead>, q: Request, check: nat -> bool, attempt: nat)
    requires Prepare(env, tasks, q, check).Ok?
    requires q.precheck == FenceCheck(attempt)
    requires q.kwargs.leasedBy == Set(None) && q.kwargs.leaseExpires == Set(Never) && q.kwargs.leaseAttempt == Keep
    ensures var c := Commit(env, tasks, Prepare(env, tasks, q, check).value);
      && (!c.outcome.Written? ==> c.tasks == tasks)
      && (c.outcome.Written? ==>
        && Find(tasks, q.id) == Some(c.outcome.index) && |c.tasks| == |tasks|
        && !Fenced(tasks[c.outcome.index], attempt)
        && c.tasks[c.outcome.index].leaseAttempt == attempt
        && c.tasks[c.outcome.index].leasedBy.None? && c.tasks[c.outcome.index].leaseExpires == Never)
  {
    PrepareFrame(env, tasks, q, check);
    var p := Prepare(env, tasks, q, check).value;
    if Find(tasks, q.id).Some? {
      WriteFrame(tasks, Find(tasks, q.id).value, WithBlockersNormal(p.kwargs));
    }
  }

  // --- readings --------------------------------------------------------------------

  predicate IsDone(tasks: seq<Bead>, id: Id) {
    exists t :: t in tasks && t.id == id && t.status == Done
  }

  predicate IsReady(tasks: seq<Bead>, b: Bead, agent: Option<string>, now: int) {
    && b.status == Pending
    && (Truthy(agent) ==> b.assignedAgent == agent)
    && b.assignedTo.None?
    && !LeaseActiveAt(b, now)
    && !b.metadata.dispatchRefused
    && forall x :: x in b.blockedBy ==> IsDone(tasks, x)
  }

  function ReadyAmong(tasks: seq<Bead>, some: seq<Bead>, agent: Option<string>, now: int): (r: seq<Bead>)
    ensures forall b :: b in r <==> b in some && IsReady(tasks, b, agent, now)
  {
    if some == [] then []
    else (if IsReady(tasks, some[0], agent, now) then [some[0]] else []) + ReadyAmong(tasks, some[1..], agent, now)
  }

  /** Pending, unassigned, unleased, dispatchable, with every blocker DONE. */
  function Ready(tasks: seq<Bead>, agent: Option<string>, now: int): seq<Bead> {
    ReadyAmong(tasks, tasks, agent, now)
  }

  /** What `ready` offers can be claimed at once by anybody capable, and is never a
      person's, refused dispatch or waiting. */
  lemma ReadyIsClaimable(env: Env, tasks: seq<Bead>, b: Bead, agent: Option<string>, now: int, who: string, held: set<string>, ttl: int)
    requires UniqueIds(tasks) && b in Ready(tasks, agent, now)
    ensures var q := ClaimRequest(b.id, who, held, now, ttl);
      Commit(env, tasks, Prepared(q.id, q.kwargs, None, q.precheck, false, false)).outcome.Written?
      <==> forall r :: r in b.requirements ==> r in held
    ensures b.assignedTo.None? && !b.metadata.dispatchRefused && (Truthy(agent) ==> b.assignedAgent == agent)
    ensures forall x :: x in b.blockedBy ==> exists t :: t in tasks && t.id == x && t.status == Done
  {
    var i :| 0 <= i < |tasks| && tasks[i] == b;
    var q := ClaimRequest(b.id, who, held, now, ttl);
    FindUnique(tasks, i);
    CommitDecides(env, tasks, Prepared(q.id, q.kwargs, None, q.precheck, false, false));
  }

  // --- the verbs as requests ---------------------------------------------------

  function ClaimRequest(id: Id, agent: string, held: set<string>, now: int, ttl: int): Request {
    Request(id, NO_CHANGE.(status := Set(InProgress), assignedAgent := Set(Some(agent))),
            ClaimCheck(agent, held, now, ttl), None, false, false)
  }

  /** `metadata` is what an earlier read of the bead left, with the report added. */
  function ReportRequest(id: Id, attempt: nat, status: Status, result: Option<string>, metadata: Metadata): Request {
    Request(id, NO_CHANGE.(status := Set(status), result := Set(result), metadata := Set(metadata),
                           leasedBy := Set(None), leaseExpires := Set(Never)),
            FenceCheck(attempt), None, false, false)
  }

  function ReapRequest(id: Id): Request {
    Request(id, NO_CHANGE.(status := Set(Pending), leasedBy := Set(None), leaseExpires := Set(Never)),
            NoCheck, None, false, false)
  }

  /** A report the fence turns away: another attempt, or nobody on record. */
  predicate Fenced(b: Bead, attempt: nat) {
    b.leaseAttempt != attempt || (b.leasedBy.None? && RecordedExecutor(b).None?)
  }

  /** A report whose key is the one already recorded. */
  predicate Replays(b: Bead, key: string) {
    key != "" && b.metadata.leaseReport.Some? && b.metadata.leaseReport.value.key == key
  }

  /** The bead's metadata with the report on record. */
  function Reported(b: Bead, attempt: nat, status: Status, key: string): Metadata {
    b.metadata.(leaseReport := Some(LeaseReport(attempt, b.leasedBy, status, key)))
  }

  /** `report_result` as one step. */
  ghost function Report(env: Env, tasks: seq<Bead>, id: Id, attempt: nat, status: Status, result: Option<string>,
                        key: string, check: nat -> bool): Committed
  {
    if status != Done && status != Failed then Committed(tasks, Refused(NotAnOutcome))
    else match Find(tasks, id)
      case None => Committed(tasks, Absent)
      case Some(i) =>
        if Replays(tasks[i], key) then Committed(tasks, Written(i))
        else match Prepare(env, tasks, ReportRequest(id, attempt, status, result, Reported(tasks[i], attempt, status, key)), check)
          case Err(e) => Committed(tasks, Refused(e))
          case Ok(p) => Commit(env, tasks, p)
  }

  lemma GateKeepsReport(env: Env, b: Bead, g: Gate, kw: Kwargs, a: Option<Attestation>, passed: bool)
    requires kw.metadata.Set?
    ensures var gated := ApplyVerifyGate(env, b, g, kw, a, passed).metadata;
      gated.Set? && gated.value.leaseReport == kw.metadata.value.leaseReport
    ensures var specless := SpeclessDone(b, kw).metadata;
      specless.Set? && specless.value.leaseReport == kw.metadata.value.leaseReport
  {
  }

  /** The gate keeps what a report wrote down. */
  lemma PrepareKeepsReport(env: Env, tasks: seq<Bead>, q: Request, check: nat -> bool)
    requires Prepare(env, tasks, q, check).Ok? && q.kwargs.metadata.Set?
    ensures var kw := Prepare(env, tasks, q, check).value.kwargs;
      kw.metadata.Set? && kw.metadata.value.leaseReport == q.kwargs.metadata.value.leaseReport
  {
    var kw := CleanKwargs(env, q.kwargs).value;
    if Find(tasks, q.id).Some? {
      var b := tasks[Find(tasks, q.id).value];
      var g := if Gated(b) then b.metadata.verify.value else Gate(Human, [], "");
      GateKeepsReport(env, b, g, kw, q.attestation, ChecksPass(g, check));
    }
  }

  /** A commit that writes keeps ids and puts the metadata it was given in place,
      but for the cascade's marks. */
  lemma CommitKeepsReport(env: Env, tasks: seq<Bead>, p: Prepared)
    requires Commit(env, tasks, p).outcome.Written? && p.kwargs.metadata.Set?
    ensures var c := Commit(env, tasks, p); var i := c.outcome.index;
      && Find(tasks, p.id) == Some(i) && |c.tasks| == |tasks| && Find(c.tasks, p.id) == Some(i)
      && c.tasks[i].metadata.leaseReport == p.kwargs.metadata.value.leaseReport
  {
    var c := Commit(env, tasks, p);
    var i := c.outcome.index;
    WriteFrame(tasks, i, WithBlockersNormal(RunPrecheck(p.precheck, tasks[i], p.kwargs).value));
    FoundAgain(tasks, c.tasks, p.id);
  }

  /** An accepted report is on record: who reported what, under which attempt and
      which key. */
  lemma ReportOnRecord(env: Env, tasks: seq<Bead>, id: Id, attempt: nat, status: Status, result: Option<string>,
                       key: string, check: nat -> bool)
    requires Report(env, tasks, id, attempt, status, result, key, check).outcome.Written?
    ensures var c := Report(env, tasks, id, attempt, status, result, key, check); var i := c.outcome.index;
      && Find(tasks, id) == Some(i) && |c.tasks| == |tasks|
      && (!Replays(tasks[i], key) ==>
           c.tasks[i].metadata.leaseReport == Some(LeaseReport(attempt, tasks[i].leasedBy, status, key)))
      && (key != "" ==> Replays(c.tasks[i], key))
      && Find(c.tasks, id) == Some(i)
  {
    var i := Find(tasks, id).value;
    if !Replays(tasks[i], key) {
      var q := ReportRequest(id, attempt, status, result, Reported(tasks[i], attempt, status, key));
      PrepareKeepsReport(env, tasks, q, check);
      PrepareFrame(env, tasks, q, check);
      CommitKeepsReport(env, tasks, Prepare(env, tasks, q, check).value);
    }
  }

  /** Where an accepted report leaves its bead: FAILED as reported; DONE through the
      gate like anybody else's, so behind a human or judged gate it only waits. */
  lemma ReportLands(env: Env, tasks: seq<Bead>, id: Id, attempt: nat, status: Status, result: Option<string>,
                    key: string, check: nat -> bool)
    requires var c := Report(env, tasks, id, attempt, status, result, key, check);
      c.outcome.Written? && !Replays(tasks[Find(tasks, id).value], key)
    ensures var i := Find(tasks, id).value; var b := tasks[i];
      var after := Report(env, tasks, id, attempt, status, result, key, check).tasks;
      && |after| == |tasks| && status in {Done, Failed}
      && (status == Failed ==> after[i].status == Failed && after[i].result == result)
      && (status == Done && Gated(b) ==>
           after[i].status == match b.metadata.verify.value.kind
             case Deterministic => (if ChecksPass(b.metadata.verify.value, check) then Done else VerifyFailed)
             case _ => AwaitingVerify)
      && (status == Done && !Gated(b) ==> after[i].status in {Done, AwaitingVerify})
  {
    var i := Find(tasks, id).value;
    var q := ReportRequest(id, attempt, status, result, Reported(tasks[i], attempt, status, key));
    PrepareFrame(env, tasks, q, check);
    var p := Prepare(env, tasks, q, check).value;
    if status == Done {
      if Gated(tasks[i]) { GateDecides(env, tasks, q, check, i); } else { SpeclessDecides(env, tasks, q, check, i); }
    }
    WriteFrame(tasks, i, WithBlockersNormal(p.kwargs));
  }

  lemma {:induction false} FoundAgain(a: seq<Bead>, b: seq<Bead>, id: Id)
    requires |a| == |b| && forall k :: 0 <= k < |a| ==> a[k].id == b[k].id
    ensures Find(a, id) == Find(b, id)
  {
    if a != [] {
      FoundAgain(a[1..], b[1..], id);
    }
  }

  /** A report sent again under its key, whatever its check would say by then, is
      answered with the same bead and writes nothing. */
  lemma ReportAgain(env: Env, tasks: seq<Bead>, id: Id, attempt: nat, status: Status, result: Option<string>,
                    key: string, check: nat -> bool, again: nat -> bool)
    requires key != "" && Report(env, tasks, id, attempt, status, result, key, check).outcome.Written?
    ensures var once := Report(env, tasks, id, attempt, status, result, key, check);
      Report(env, once.tasks, id, attempt, status, result, key, again) == once
  {
    ReportOnRecord(env, tasks, id, attempt, status, result, key, check);
  }

  /** What an approval asks of `update`: DONE, with the verdict as its argument. */
  function ApprovalRequest(b: Bead, approver: string, reason: string, now: string): Request {
    var m := if b.metadata.outcome.Some?
      then b.metadata.(outcome := Some(b.metadata.outcome.value.(passed := Some(true)))) else b.metadata;
    Request(b.id, NO_CHANGE.(status := Set(Done), metadata := Set(m)), NoCheck,
            Some(Attestation(approver, now, true, reason)), false, false)
  }

  /** A sound answer to a parked gate: behind a human or judged gate its write
      lands DONE with the answer on record, and it does land on a normal gate. */
  lemma ApprovalLands(env: Env, tasks: seq<Bead>, i: nat, approver: string, reason: string, now: string, check: nat -> bool)
    requires i < |tasks| && Find(tasks, tasks[i].id) == Some(i)
    requires now != "" && approver != "" && approver in env.verifiers && !IsBlank(reason)
    requires RecordedExecutor(tasks[i]) != Some(approver)
    ensures var b := tasks[i]; var q := ApprovalRequest(b, approver, reason, now); var p := Prepare(env, tasks, q, check);
      && q.id == b.id
      && (p.Err? ==> p.error == GateContract)
      && (p.Ok? ==>
           var c := Commit(env, tasks, p.value);
           && (!c.outcome.Written? ==> c.tasks == tasks && c.outcome == Refused(GateContract))
           && (c.outcome.Written? ==> c.outcome == Written(i) && |c.tasks| == |tasks|)
           && (c.outcome.Written? && Gated(b) && !b.metadata.verify.value.kind.Deterministic? ==>
                c.tasks[i].status == Done && c.tasks[i].metadata.approval == Some(Attestation(approver, now, true, reason))))
      && (Gated(b) && Normalised(env, b.metadata.verify.value) ==> p.Ok? && Commit(env, tasks, p.value).outcome.Written?)
  {
    var q := ApprovalRequest(tasks[i], approver, reason, now);
    if Prepare(env, tasks, q, check).Ok? {
      var p := Prepare(env, tasks, q, check).value;
      PrepareFrame(env, tasks, q, check);
      CommitDecides(env, tasks, p);
      if Gated(tasks[i]) { GateDecides(env, tasks, q, check, i); }
      WriteFrame(tasks, i, WithBlockersNormal(p.kwargs));
    }
  }

  /** In progress under a lease that has readably lapsed. */
  predicate Reapable(b: Bead, now: int): (r: bool)
    ensures r ==> b.status == InProgress && b.leasedBy.Some? && b.leaseExpires.At? && b.leaseExpires.time <= now
    ensures b.status == InProgress && b.leasedBy.Some? && b.leasedBy.value != "" && b.leaseExpires.At? && b.leaseExpires.time <= now ==> r
  {
    b.status == InProgress && Truthy(b.leasedBy) && b.leaseExpires.At? && !LeaseActiveAt(b, now)
  }

  function Reaped(b: Bead, now: int): Bead {
    if Reapable(b, now) then b.(status := Pending, leasedBy := None, leaseExpires := Never) else b
  }

  /** The reaper's update of a lapsed bead goes through and does just that. */
  lemma ReapReturns(env: Env, tasks: seq<Bead>, i: nat, now: int, check: nat -> bool)
    requires i < |tasks| && Find(tasks, tasks[i].id) == Some(i) && Reapable(tasks[i], now)
    ensures var q := ReapRequest(tasks[i].id);
      && Prepare(env, tasks, q, check) == Ok(Prepared(q.id, q.kwargs, None, NoCheck, false, false))
      && Commit(env, tasks, Prepared(q.id, q.kwargs, None, NoCheck, false, false))
         == Committed(tasks[i := Reaped(tasks[i], now)], Written(i))
  {
  }
}
