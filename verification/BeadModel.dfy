/** The bead record and the readings of it that every verb shares. */
module BeadModel {
  import opened Prelude
  import opened Graph

  type Id = string

  /** The one shape an id may take: `ac-` and eight lowercase hex digits. */
  predicate ValidId(s: string) {
    && |s| == 11
    && s[..3] == "ac-"
    && forall k :: 3 <= k < 11 ==> s[k] in "0123456789abcdef"
  }

  datatype Status =
    | Pending | PendingApproval | InProgress | Blocked | Done | Failed
    | Skipped | AwaitingVerify | VerifyFailed | Cancelled

  datatype GateKind = Deterministic | Human | Judged

  /** A gate in the contract's normalised shape. `stages` are the commands of a
      deterministic gate, one or several; `settings` is everything else. */
  datatype Gate = Gate(kind: GateKind, stages: seq<string>, settings: string)

  /** What somebody answered. An absent field is the empty string, which every
      check reads the same way. */
  datatype Attestation = Attestation(approver: string, approvedAt: string, passed: bool, reason: string)

  /** `verify_result`: the class that ran (None is "unverified") and its verdict
      (None is "nobody has checked yet"). */
  datatype VerifyResult = VerifyResult(kind: Option<GateKind>, passed: Option<bool>)

  datatype LeaseReport = LeaseReport(attempt: nat, reportedBy: Option<string>, status: Status, key: string)

  /** The metadata keys the store itself reads or writes; `rest` is every other
      key. Absent text keys are empty strings. */
  datatype Metadata = Metadata(
    verify: Option<Gate>,
    approval: Option<Attestation>,
    outcome: Option<VerifyResult>,
    rejection: Option<Attestation>,
    sopStep: Option<nat>,
    taskClass: string,
    executor: string,
    spawnedBy: string,
    naturalKey: Option<string>,
    leaseReport: Option<LeaseReport>,
    dispatchRefused: bool,
    runStepsDone: bool,
    runClosed: bool,
    rest: map<string, string>)

  const NO_METADATA := Metadata(None, None, None, None, None, "", "", "", None, None, false, false, false, map[])

  /** When a lease lapses: never stamped, stamped unreadably, or at a moment. */
  datatype Expiry = Never | Unreadable | At(time: int)

  datatype Bead = Bead(
    id: Id,
    status: Status,
    assignedAgent: Option<string>,
    assignedTo: Option<string>,
    source: Option<string>,
    parentId: Option<Id>,
    blockedBy: seq<Id>,
    leasedBy: Option<string>,
    leaseAttempt: nat,
    leaseExpires: Expiry,
    requirements: seq<string>,
    result: Option<string>,
    metadata: Metadata)

  predicate Truthy(s: Option<string>) { s.Some? && s.value != "" }

  const HUMAN_PREFIX := "human:"

  predicate IsHuman(s: Option<string>) { s.Some? && HUMAN_PREFIX <= s.value }

  /** Who is considered to have executed a bead. A `human:` assignee is recorded
      at assignment, an agent at its claim. */
  function RecordedExecutor(b: Bead): Option<string> {
    if Truthy(b.assignedAgent) then b.assignedAgent
    else if IsHuman(b.assignedTo) then Some(b.assignedTo.value[|HUMAN_PREFIX|..])
    else b.assignedTo
  }

  /** Held under a lease that has not lapsed. An unreadable expiry is not held. */
  predicate LeaseActiveAt(b: Bead, now: int) {
    Truthy(b.leasedBy) && b.leaseExpires.At? && now < b.leaseExpires.time
  }

  predicate IsSpace(c: char) {
    c in " \t\n\r" || c as int in {0x0b, 0x0c, 0x1c, 0x1d, 0x1e, 0x1f, 0x85, 0xa0, 0x1680, 0x2028, 0x2029, 0x202f, 0x205f, 0x3000}
    || 0x2000 <= c as int <= 0x200a
  }

  /** `not s.strip()` */
  predicate IsBlank(s: string) { forall c :: c in s ==> IsSpace(c) }

  predicate Gated(b: Bead) { b.metadata.verify.Some? }

  /** The first bead with this id, as the locked loop of `update` finds it. */
  function Find(tasks: seq<Bead>, id: Id): (r: Option<nat>)
    ensures r.Some? ==> r.value < |tasks| && tasks[r.value].id == id
    ensures r.Some? ==> forall k :: 0 <= k < r.value ==> tasks[k].id != id
    ensures r.None? ==> forall k :: 0 <= k < |tasks| ==> tasks[k].id != id
  {
    if tasks == [] then None
    else if tasks[0].id == id then Some(0)
    else match Find(tasks[1..], id)
      case Some(k) => Some(k + 1)
      case None =>
        assert forall k :: 0 < k < |tasks| ==> tasks[k] == tasks[1..][k - 1];
        None
  }

  predicate Exists(tasks: seq<Bead>, id: Id) { Find(tasks, id).Some? }

  ghost predicate UniqueIds(tasks: seq<Bead>) {
    forall i, j :: 0 <= i < j < |tasks| ==> tasks[i].id != tasks[j].id
  }

  /** Under unique ids the bead holding an id is the one `Find` names. */
  lemma FindUnique(tasks: seq<Bead>, i: nat)
    requires UniqueIds(tasks) && i < |tasks|
    ensures Find(tasks, tasks[i].id) == Some(i)
  {
    assert Find(tasks, tasks[i].id).Some?;
  }

  ghost function EdgesOf(tasks: seq<Bead>): Edges<Id> {
    set i, b | 0 <= i < |tasks| && b in tasks[i].blockedBy :: (b, tasks[i].id)
  }

  /** Giving `id` these blockers would put it on a closed chain of waiting. */
  ghost predicate ClosesCycle(tasks: seq<Bead>, id: Id, blockers: seq<Id>) {
    OnCycle(Rewire(EdgesOf(tasks), id, blockers), id)
  }

  ghost predicate BlockersExist(tasks: seq<Bead>) {
    forall i, b :: 0 <= i < |tasks| && b in tasks[i].blockedBy ==> Exists(tasks, b)
  }
}
