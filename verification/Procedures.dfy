/** The versioned procedure store: every version kept, at most one in service,
    and a successor recorded whenever one leaves service for another. */
module Procedures {
  import opened Prelude
  import opened BeadModel

  datatype RoleKind = HumanRole | AgentRole

  /** A step either carries a gate of its own or runs another procedure. */
  datatype Step = Step(step: nat, name: string, role: string, after: seq<nat>, gate: Option<Gate>, uses: Option<(string, nat)>)

  /** The procedure text of one version; a constraint lists roles that must be distinct. */
  datatype Content = Content(title: string, inputs: set<string>, roles: map<string, RoleKind>, constraints: seq<seq<string>>, steps: seq<Step>)

  datatype VersionStatus = Draft | Active | Superseded | Retired

  datatype Version = Version(asopId: string, version: nat, status: VersionStatus, author: string, supersededBy: Option<nat>, content: Content)

  datatype Caller = HumanCaller | AgentCaller | Undeclared

  datatype LibraryError = SopRefused | VersionRequired | RevisionPolicy

  type Validator = Content -> Option<Content>

  predicate Of(r: Version, id: string) { r.asopId == id }

  function Count(records: seq<Version>, id: string): nat {
    if records == [] then 0
    else Count(records[..|records| - 1], id) + (if Of(records[|records| - 1], id) then 1 else 0)
  }

  /** The highest version number an id has, 0 when it has none. */
  function Latest(records: seq<Version>, id: string): nat {
    if records == [] then 0
    else
      var before := Latest(records[..|records| - 1], id);
      var r := records[|records| - 1];
      if Of(r, id) && r.version > before then r.version else before
  }

  /** Where an exact version is stored. */
  function VersionAt(records: seq<Version>, id: string, version: nat): (r: Option<nat>)
    ensures r.Some? ==> r.value < |records| && Of(records[r.value], id) && records[r.value].version == version
    ensures r.None? ==> forall k :: 0 <= k < |records| ==> !(Of(records[k], id) && records[k].version == version)
  {
    if records == [] then None
    else if Of(records[0], id) && records[0].version == version then Some(0)
    else match VersionAt(records[1..], id, version)
      case Some(k) => Some(k + 1)
      case None =>
        assert forall k :: 0 < k < |records| ==> records[k] == records[1..][k - 1];
        None
  }

  function ActiveAt(records: seq<Version>, id: string): (r: Option<nat>)
    ensures r.Some? ==> r.value < |records| && Of(records[r.value], id) && records[r.value].status == Active
    ensures r.None? ==> forall k :: 0 <= k < |records| ==> !(Of(records[k], id) && records[k].status == Active)
  {
    if records == [] then None
    else if Of(records[0], id) && records[0].status == Active then Some(0)
    else match ActiveAt(records[1..], id)
      case Some(k) => Some(k + 1)
      case None =>
        assert forall k :: 0 < k < |records| ==> records[k] == records[1..][k - 1];
        None
  }

  // --- the verbs ----------------------------------------------------------------

  /** `policy` is the revision policy's verdict on the call at hand. */
  datatype LibraryCall =
    | CreateCall(asopId: string, content: Content, author: string, who: Caller)
    | ReviseCall(asopId: string, from: Option<nat>, edit: Content -> Content, author: string, who: Caller, policy: bool)
    | ActivateCall(asopId: string, version: nat, who: Caller, policy: bool)
    | RetireCall(asopId: string, who: Caller)

  function Activated(r: Version, id: string, version: nat): Version {
    if Of(r, id) && r.status == Active then r.(status := Superseded, supersededBy := Some(version))
    else if Of(r, id) && r.version == version then r.(status := Active)
    else r
  }

  function ActivatedAll(records: seq<Version>, id: string, version: nat): (r: seq<Version>)
    ensures |r| == |records|
    ensures forall k :: 0 <= k < |records| ==> r[k] == Activated(records[k], id, version)
  {
    seq(|records|, k requires 0 <= k < |records| => Activated(records[k], id, version))
  }

  function Perform(validate: Validator, unreadable: set<string>, records: seq<Version>, c: LibraryCall): Result<seq<Version>, LibraryError> {
    match c
    case CreateCall(id, content, author, who) =>
      if who == Undeclared || validate(content).None? || Count(records, id) > 0 then Err(SopRefused)
      else Ok(records + [Version(id, 1, Draft, author, None, validate(content).value)])
    case ReviseCall(id, from, edit, author, who, policy) =>
      if who == Undeclared || id in unreadable || Count(records, id) == 0 then Err(SopRefused)
      else
        var base := if from.Some? then from.value else Latest(records, id);
        if VersionAt(records, id, base).None? then Err(VersionRequired)
        else
          var content := validate(edit(records[VersionAt(records, id, base).value].content));
          if content.None? then Err(SopRefused)
          else if !policy then Err(RevisionPolicy)
          else Ok(records + [Version(id, Latest(records, id) + 1, Draft, author, None, content.value)])
    case ActivateCall(id, version, who, policy) =>
      if who == Undeclared then Err(SopRefused)
      else if VersionAt(records, id, version).None? then Err(VersionRequired)
      else if records[VersionAt(records, id, version).value].status != Draft then Err(SopRefused)
      else if !policy then Err(RevisionPolicy)
      else Ok(ActivatedAll(records, id, version))
    case RetireCall(id, who) =>
      if who == Undeclared then Err(SopRefused)
      else if who == AgentCaller then Err(RevisionPolicy)
      else if ActiveAt(records, id).None? then Err(SopRefused)
      else
        var a := ActiveAt(records, id).value;
        Ok(records[a := records[a].(status := Retired)])
  }

  function Then(validate: Validator, unreadable: set<string>, records: seq<Version>, c: LibraryCall): seq<Version> {
    match Perform(validate, unreadable, records, c)
    case Ok(after) => after
    case Err(_) => records
  }

  function Run(validate: Validator, unreadable: set<string>, calls: seq<LibraryCall>): seq<Version> {
    if calls == [] then []
    else Then(validate, unreadable, Run(validate, unreadable, calls[..|calls| - 1]), calls[|calls| - 1])
  }

  /** A call answers with the refusal its transition gives, or with a number. */
  predicate Answers(r: Result<nat, LibraryError>, p: Result<seq<Version>, LibraryError>) {
    (r.Ok? <==> p.Ok?) && (r.Err? ==> p == Err(r.error))
  }

  /** Position `k` holds the version of `id` in service. */
  predicate InService(records: seq<Version>, id: string, k: nat) {
    k < |records| && Of(records[k], id) && records[k].status == Active
  }

  /** The store as an object; a refusal leaves it as it was. */
  class AsopStore {
    const validate: Validator
    const unreadable: set<string>
    var records: seq<Version>

    constructor (validate: Validator, unreadable: set<string>)
      ensures this.validate == validate && this.unreadable == unreadable && records == []
    {
      this.validate := validate;
      this.unreadable := unreadable;
      records := [];
    }

    method CreateProcedure(id: string, content: Content, author: string, who: Caller) returns (r: Result<nat, LibraryError>)
      modifies this
      ensures records == Then(validate, unreadable, old(records), CreateCall(id, content, author, who))
      ensures Answers(r, Perform(validate, unreadable, old(records), CreateCall(id, content, author, who)))
      ensures r.Ok? ==> r.value == 1
    {
      var clean := validate(content);
      if who == Undeclared || clean.None? || Count(records, id) > 0 {
        return Err(SopRefused);
      }
      records := records + [Version(id, 1, Draft, author, None, clean.value)];
      r := Ok(1);
    }

    method Revise(id: string, from: Option<nat>, edit: Content -> Content, author: string, who: Caller, policy: bool) returns (r: Result<nat, LibraryError>)
      modifies this
      ensures records == Then(validate, unreadable, old(records), ReviseCall(id, from, edit, author, who, policy))
      ensures Answers(r, Perform(validate, unreadable, old(records), ReviseCall(id, from, edit, author, who, policy)))
      ensures r.Ok? ==> r.value == records[|records| - 1].version
    {
      if who == Undeclared || id in unreadable || Count(records, id) == 0 {
        return Err(SopRefused);
      }
      var latest := Latest(records, id);
      var source := VersionAt(records, id, if from.Some? then from.value else latest);
      if source.None? {
        return Err(VersionRequired);
      }
      var clean := validate(edit(records[source.value].content));
      if clean.None? {
        return Err(SopRefused);
      }
      if !policy {
        return Err(RevisionPolicy);
      }
      records := records + [Version(id, latest + 1, Draft, author, None, clean.value)];
      r := Ok(latest + 1);
    }

    method Activate(id: string, version: nat, who: Caller, policy: bool) returns (r: Result<nat, LibraryError>)
      modifies this
      ensures records == Then(validate, unreadable, old(records), ActivateCall(id, version, who, policy))
      ensures Answers(r, Perform(validate, unreadable, old(records), ActivateCall(id, version, who, policy)))
      ensures r.Ok? ==> r.value == version
    {
      if who == Undeclared {
        return Err(SopRefused);
      }
      var target := VersionAt(records, id, version);
      if target.None? {
        return Err(VersionRequired);
      }
      if records[target.value].status != Draft {
        return Err(SopRefused);
      }
      if !policy {
        return Err(RevisionPolicy);
      }
      var out: seq<Version> := [];
      for k := 0 to |records|
        invariant |out| == k
        invariant forall j :: 0 <= j < k ==> out[j] == Activated(records[j], id, version)
      {
        var rec := records[k];
        if Of(rec, id) && rec.status == Active {
          rec := rec.(status := Superseded, supersededBy := Some(version));
        } else if Of(rec, id) && rec.version == version {
          rec := rec.(status := Active);
        }
        out := out + [rec];
      }
      records := out;
      r := Ok(version);
    }

    method Retire(id: string, who: Caller) returns (r: Result<nat, LibraryError>)
      modifies this
      ensures records == Then(validate, unreadable, old(records), RetireCall(id, who))
      ensures Answers(r, Perform(validate, unreadable, old(records), RetireCall(id, who)))
      ensures r.Ok? ==> exists k: nat :: InService(old(records), id, k) && old(records)[k].version == r.value
      ensures who != HumanCaller ==> r.Err? && records == old(records)
    {
      if who == Undeclared {
        return Err(SopRefused);
      }
      if who == AgentCaller {
        return Err(RevisionPolicy);
      }
      var active := ActiveAt(records, id);
      if active.None? {
        return Err(SopRefused);
      }
      records := records[active.value := records[active.value].(status := Retired)];
      r := Ok(records[active.value].version);
    }
  }

  // --- who may do what, and what it leaves ---------------------------------------------

  predicate Unchanged(records: seq<Version>, after: seq<Version>, k: nat) {
    k < |records| && k < |after| && after[k] == records[k]
  }

  lemma {:induction false} CountsNone(records: seq<Version>, id: string)
    ensures Count(records, id) == 0 <==> forall k :: 0 <= k < |records| ==> records[k].asopId != id
  {
    if records != [] {
      var front := records[..|records| - 1];
      CountsNone(front, id);
      assert forall k :: 0 <= k < |front| ==> front[k] == records[k];
    }
  }

  /** A procedure is created exactly by a declared caller, from a text that
      validates, under an id nobody has used; it is then a first draft. */
  lemma CreateDecides(validate: Validator, unreadable: set<string>, records: seq<Version>, id: string, content: Content, author: string, who: Caller)
    ensures var p := Perform(validate, unreadable, records, CreateCall(id, content, author, who));
      && (p.Ok? <==> who != Undeclared && validate(content).Some? && forall k :: 0 <= k < |records| ==> records[k].asopId != id)
      && (p.Ok? ==> p.value == records + [Version(id, 1, Draft, author, None, validate(content).value)])
      && (p.Err? ==> p.error == SopRefused)
  {
    CountsNone(records, id);
  }

  /** Position `k` holds the version a revision starts from: the one asked for, or
      else the one with the highest number. */
  ghost predicate RevisedFrom(records: seq<Version>, id: string, from: Option<nat>, k: nat) {
    && k < |records| && records[k].asopId == id
    && match from
       case Some(n) => records[k].version == n
       case None => forall j :: 0 <= j < |records| && records[j].asopId == id ==> records[j].version <= records[k].version
  }

  lemma {:induction false} LatestIsHighest(records: seq<Version>, id: string)
    ensures forall j :: 0 <= j < |records| && records[j].asopId == id ==> records[j].version <= Latest(records, id)
    ensures Latest(records, id) == 0 || exists j :: 0 <= j < |records| && records[j].asopId == id && records[j].version == Latest(records, id)
  {
    if records != [] {
      var front := records[..|records| - 1];
      LatestIsHighest(front, id);
      if Latest(front, id) > 0 {
        var j :| 0 <= j < |front| && front[j].asopId == id && front[j].version == Latest(front, id);
        assert records[j] == front[j];
      }
      forall j | 0 <= j < |records| && records[j].asopId == id ensures records[j].version <= Latest(records, id) {
        if j < |front| { assert front[j] == records[j]; }
      }
    }
  }

  /** The version a revision starts from is where the verb looks for it. */
  lemma RevisionSource(records: seq<Version>, id: string, from: Option<nat>)
    requires Numbered(records)
    ensures SourceOf(records, id, from).Some? ==> RevisedFrom(records, id, from, SourceOf(records, id, from).value)
    ensures forall k: nat :: RevisedFrom(records, id, from, k) ==> SourceOf(records, id, from) == Some(k)
  {
    LatestIsHighest(records, id);
    forall k: nat | RevisedFrom(records, id, from, k) ensures SourceOf(records, id, from) == Some(k) {
      OnlySource(records, id, from, k);
    }
  }

  function SourceOf(records: seq<Version>, id: string, from: Option<nat>): Option<nat> {
    VersionAt(records, id, if from.Some? then from.value else Latest(records, id))
  }

  lemma OnlySource(records: seq<Version>, id: string, from: Option<nat>, k: nat)
    requires Numbered(records) && RevisedFrom(records, id, from, k)
    ensures SourceOf(records, id, from) == Some(k)
  {
    AtNumbered(records, k);
    NumberedFromOne(records, k);
    if from.None? { LatestIs(records, id, k); }
  }

  lemma NumberedFromOne(records: seq<Version>, k: nat)
    requires Numbered(records) && k < |records|
    ensures records[k].version >= 1
  {
  }

  lemma LatestIs(records: seq<Version>, id: string, k: nat)
    requires RevisedFrom(records, id, None, k) && records[k].version >= 1
    ensures Latest(records, id) == records[k].version
  {
    LatestIsHighest(records, id);
  }

  /** A revision is written exactly when a declared caller, on an id whose every
      version is readable, edits a version that exists into a text that validates
      and the policy allows it. What is written is that edit, as a draft by this
      author under the number after the highest; nothing else changes. */
  lemma ReviseDecides(validate: Validator, unreadable: set<string>, records: seq<Version>, id: string, from: Option<nat>,
                      edit: Content -> Content, author: string, who: Caller, policy: bool)
    requires Numbered(records)
    ensures var p := Perform(validate, unreadable, records, ReviseCall(id, from, edit, author, who, policy));
      && (p.Ok? <==>
           && who != Undeclared && id !in unreadable && policy
           && exists k: nat :: RevisedFrom(records, id, from, k) && validate(edit(records[k].content)).Some?)
      && (p.Ok? ==> exists k: nat, top: nat :: Revision(validate, records, p.value, id, from, edit, author, k, top))
      && (p == Err(RevisionPolicy) ==> !policy)
      && (p == Err(VersionRequired) ==> forall k: nat :: !RevisedFrom(records, id, from, k))
  {
    RevisionSource(records, id, from);
    RevisionSource(records, id, None);
    CountsNone(records, id);
    var p := Perform(validate, unreadable, records, ReviseCall(id, from, edit, author, who, policy));
    if p.Ok? {
      var k := SourceOf(records, id, from).value;
      LatestIsHighest(records, id);
      var top :| 0 <= top < |records| && records[top].asopId == id && records[top].version == Latest(records, id);
      assert Revision(validate, records, p.value, id, from, edit, author, k, top);
    }
  }

  /** `after` is `records` and a new draft: the validated edit of version `k`,
      numbered one past version `top`, the highest. */
  ghost predicate Revision(validate: Validator, records: seq<Version>, after: seq<Version>, id: string, from: Option<nat>,
                           edit: Content -> Content, author: string, k: nat, top: nat)
  {
    && RevisedFrom(records, id, from, k) && RevisedFrom(records, id, None, top)
    && |after| == |records| + 1 && after[..|records|] == records
    && var r := after[|records|];
       && r.asopId == id && r.version == records[top].version + 1 && r.author == author
       && r.status == Draft && r.supersededBy.None?
       && Some(r.content) == validate(edit(records[k].content))
  }

  /** A version goes into service exactly when a declared caller names a draft and
      the policy allows it. It is then the one of its id in service; the one that
      was is superseded by it, and nothing else changes. */
  lemma ActivateDecides(validate: Validator, unreadable: set<string>, records: seq<Version>, id: string, version: nat, who: Caller, policy: bool)
    requires Numbered(records)
    ensures var p := Perform(validate, unreadable, records, ActivateCall(id, version, who, policy));
      && (p.Ok? <==> who != Undeclared && policy && exists k: nat :: DraftAt(records, id, version, k))
      && (p.Ok? ==> |p.value| == |records|)
      && (forall k: nat :: p.Ok? && DraftAt(records, id, version, k) ==> p.value[k] == records[k].(status := Active))
      && (forall k: nat :: p.Ok? && InService(records, id, k) ==>
           p.value[k] == records[k].(status := Superseded, supersededBy := Some(version)))
      && (forall k: nat :: p.Ok? && k < |records| && !DraftAt(records, id, version, k) && !InService(records, id, k) ==>
           Unchanged(records, p.value, k))
      && (forall k: nat :: p.Ok? && InService(p.value, id, k) ==> DraftAt(records, id, version, k))
  {
    forall k: nat | DraftAt(records, id, version, k) ensures VersionAt(records, id, version) == Some(k) {
      AtNumbered(records, k);
    }
    var t := VersionAt(records, id, version);
    if t.Some? && records[t.value].status == Draft {
      assert DraftAt(records, id, version, t.value);
      forall k: nat | k < |records| ensures Of(records[k], id) && records[k].version == version ==> k == t.value {
        ActivateTarget(records, t.value, k);
      }
    }
  }

  predicate DraftAt(records: seq<Version>, id: string, version: nat, k: nat) {
    k < |records| && records[k].asopId == id && records[k].version == version && records[k].status == Draft
  }

  /** Only a person withdraws a procedure, exactly when it has a version in
      service, and then that version is withdrawn and nothing else changes. */
  lemma RetireDecides(validate: Validator, unreadable: set<string>, records: seq<Version>, id: string, who: Caller)
    requires OneActive(records)
    ensures var p := Perform(validate, unreadable, records, RetireCall(id, who));
      && (p.Ok? <==> who == HumanCaller && exists k: nat :: InService(records, id, k))
      && (who == AgentCaller ==> p == Err(RevisionPolicy))
      && (p.Ok? ==> |p.value| == |records|)
      && (forall k: nat :: p.Ok? && InService(records, id, k) ==> p.value[k] == records[k].(status := Retired))
      && (forall k: nat :: p.Ok? && k < |records| && !InService(records, id, k) ==> Unchanged(records, p.value, k))
  {
    var a := ActiveAt(records, id);
    if a.Some? { assert InService(records, id, a.value); }
  }

  // --- what every run of the verbs keeps -------------------------------------------

  /** Each id's versions are numbered 1, 2, 3, ... in the order they were written. */
  ghost predicate Numbered(records: seq<Version>) {
    forall i :: 0 <= i < |records| ==> records[i].version == 1 + Count(records[..i], records[i].asopId)
  }

  ghost predicate OneActive(records: seq<Version>) {
    forall i, j :: 0 <= i < j < |records| && records[i].asopId == records[j].asopId ==>
      !(records[i].status == Active && records[j].status == Active)
  }

  /** A successor is named exactly by the superseded, and it was put in service. */
  ghost predicate SuccessorsNamed(records: seq<Version>) {
    forall i: nat :: i < |records| ==> Named(records, i)
  }

  predicate Named(records: seq<Version>, i: nat)
    requires i < |records|
  {
    && (records[i].supersededBy.Some? <==> records[i].status == Superseded)
    && (records[i].status == Superseded ==>
      var s := VersionAt(records, records[i].asopId, records[i].supersededBy.value);
      s.Some? && records[s.value].status != Draft)
  }

  /** Versions can be ranked so that each superseded one ranks below its successor:
      the order in which they were put in service. */
  ghost predicate RankedBy(records: seq<Version>, rank: seq<nat>) {
    && |rank| == |records|
    && forall i: nat :: i < |records| ==> BelowSuccessor(records, rank, i)
  }

  predicate BelowSuccessor(records: seq<Version>, rank: seq<nat>, i: nat)
    requires |rank| == |records| && i < |records|
  {
    records[i].status == Superseded && records[i].supersededBy.Some? ==>
      var s := VersionAt(records, records[i].asopId, records[i].supersededBy.value);
      s.Some? ==> rank[i] < rank[s.value]
  }

  ghost predicate LibrarySound(records: seq<Version>) {
    && Numbered(records) && OneActive(records) && SuccessorsNamed(records)
    && exists rank :: RankedBy(records, rank)
  }

  lemma {:induction false} SameIdsCount(a: seq<Version>, b: seq<Version>, id: string)
    requires |a| == |b| && forall k :: 0 <= k < |a| ==> a[k].asopId == b[k].asopId
    ensures Count(a, id) == Count(b, id)
  {
    if a != [] {
      SameIdsCount(a[..|a| - 1], b[..|b| - 1], id);
    }
  }

  lemma {:induction false} CountMonotone(records: seq<Version>, i: nat, j: nat, id: string)
    requires i <= j <= |records|
    ensures Count(records[..i], id) <= Count(records[..j], id)
  {
    if i < j {
      CountMonotone(records, i, j - 1, id);
      assert records[..j][..j - 1] == records[..j - 1];
    }
  }

  lemma NumberedDistinct(records: seq<Version>, i: nat, j: nat)
    requires Numbered(records) && i < j < |records| && records[i].asopId == records[j].asopId
    ensures records[i].version < records[j].version
  {
    assert records[..i + 1][..i] == records[..i];
    CountMonotone(records, i + 1, j, records[i].asopId);
  }

  lemma AtNumbered(records: seq<Version>, i: nat)
    requires Numbered(records) && i < |records|
    ensures VersionAt(records, records[i].asopId, records[i].version) == Some(i)
  {
    var s := VersionAt(records, records[i].asopId, records[i].version);
    assert s.Some?;
    if s.value < i { NumberedDistinct(records, s.value, i); }
    if i < s.value { NumberedDistinct(records, i, s.value); }
  }

  lemma {:induction false} LatestIsCount(records: seq<Version>, id: string)
    requires Numbered(records)
    ensures Latest(records, id) == Count(records, id)
  {
    if records != [] {
      var front := records[..|records| - 1];
      assert forall i :: 0 <= i < |front| ==> front[..i] == records[..i];
      LatestIsCount(front, id);
    }
  }

  /** Appending a draft under the next number of its id. */
  lemma AppendSound(records: seq<Version>, r: Version)
    requires LibrarySound(records)
    requires r.status == Draft && r.supersededBy.None? && r.version == 1 + Count(records, r.asopId)
    ensures LibrarySound(records + [r])
  {
    var all := records + [r];
    forall i | 0 <= i < |all| ensures all[i].version == 1 + Count(all[..i], all[i].asopId) {
      assert all[..i] == records[..i];
      assert records[..|records|] == records;
    }
    var rank :| RankedBy(records, rank);
    forall i: nat | i < |all| ensures Named(all, i) && BelowSuccessor(all, rank + [0], i) {
      if i < |records| {
        assert Named(records, i) && BelowSuccessor(records, rank, i);
        if records[i].status == Superseded {
          var s := VersionAt(records, records[i].asopId, records[i].supersededBy.value);
          assert all[s.value] == records[s.value];
          AtNumbered(all, s.value);
        }
      }
    }
    assert RankedBy(all, rank + [0]);
  }

  /** Rewriting statuses in place keeps numbers and positions. */
  lemma RestatusNumbered(records: seq<Version>, after: seq<Version>)
    requires Numbered(records) && |after| == |records|
    requires forall k :: 0 <= k < |records| ==> after[k].asopId == records[k].asopId && after[k].version == records[k].version
    ensures Numbered(after)
    ensures forall k :: 0 <= k < |records| ==> VersionAt(after, records[k].asopId, records[k].version) == Some(k)
  {
    forall i | 0 <= i < |after| ensures after[i].version == 1 + Count(after[..i], after[i].asopId) {
      SameIdsCount(after[..i], records[..i], after[i].asopId);
    }
    forall k | 0 <= k < |records| ensures VersionAt(after, records[k].asopId, records[k].version) == Some(k) {
      AtNumbered(after, k);
    }
  }

  function MaxRank(rank: seq<nat>): (m: nat)
    ensures forall r :: r in rank ==> r <= m
  {
    if rank == [] then 0
    else
      var rest := MaxRank(rank[1..]);
      assert forall r :: r in rank ==> r == rank[0] || r in rank[1..];
      if rank[0] > rest then rank[0] else rest
  }

  lemma ActivateOneActive(records: seq<Version>, t: nat)
    requires Numbered(records) && OneActive(records) && t < |records| && records[t].status == Draft
    ensures OneActive(ActivatedAll(records, records[t].asopId, records[t].version))
  {
    forall k | 0 <= k < |records| && Of(records[k], records[t].asopId) && records[k].version == records[t].version ensures k == t {
      AtNumbered(records, k);
      AtNumbered(records, t);
    }
  }

  lemma ActivateTarget(records: seq<Version>, t: nat, k: nat)
    requires Numbered(records) && t < |records| && k < |records|
    ensures Of(records[k], records[t].asopId) && records[k].version == records[t].version ==> k == t
  {
    AtNumbered(records, k);
    AtNumbered(records, t);
  }

  lemma ActivateKeepsSuccessor(records: seq<Version>, t: nat, i: nat)
    requires Numbered(records) && t < |records| && records[t].status == Draft
    requires i < |records| && Named(records, i) && records[i].status == Superseded
    ensures var after := ActivatedAll(records, records[t].asopId, records[t].version);
      && after[i] == records[i] && i != t
      && var s := VersionAt(after, records[i].asopId, records[i].supersededBy.value);
      && s == VersionAt(records, records[i].asopId, records[i].supersededBy.value)
      && s.Some? && s != Some(t) && after[s.value].status != Draft
  {
    var after := ActivatedAll(records, records[t].asopId, records[t].version);
    ActivateTarget(records, t, i);
    var s := VersionAt(records, records[i].asopId, records[i].supersededBy.value);
    RestatusNumbered(records, after);
    assert VersionAt(after, records[s.value].asopId, records[s.value].version) == s;
  }

  /** After an activation a superseded version names the one it named before, or
      it was the one in service and names the newly activated. */
  lemma ActivateSuccessor(records: seq<Version>, t: nat, i: nat)
    requires Numbered(records) && t < |records| && records[t].status == Draft && i < |records| && Named(records, i)
    requires ActivatedAll(records, records[t].asopId, records[t].version)[i].status == Superseded
    ensures var after := ActivatedAll(records, records[t].asopId, records[t].version);
      && after[i].supersededBy.Some? && i != t
      && var s := VersionAt(after, after[i].asopId, after[i].supersededBy.value);
      && s.Some? && after[s.value].status != Draft
      && if records[i].status == Superseded
         then s == VersionAt(records, records[i].asopId, records[i].supersededBy.value) && s != Some(t)
         else s == Some(t)
  {
    var after := ActivatedAll(records, records[t].asopId, records[t].version);
    if records[i].status == Superseded {
      ActivateKeepsSuccessor(records, t, i);
    } else {
      ActivateNames(records, t, i);
    }
  }

  lemma ActivateNames(records: seq<Version>, t: nat, i: nat)
    requires Numbered(records) && t < |records| && records[t].status == Draft && i < |records|
    requires ActivatedAll(records, records[t].asopId, records[t].version)[i].status == Superseded
    requires records[i].status != Superseded
    ensures var after := ActivatedAll(records, records[t].asopId, records[t].version);
      && after[i].supersededBy == Some(records[t].version) && i != t && after[t].status == Active
      && VersionAt(after, after[i].asopId, records[t].version) == Some(t)
  {
    RestatusNumbered(records, ActivatedAll(records, records[t].asopId, records[t].version));
  }

  lemma ActivateSound(records: seq<Version>, t: nat)
    requires LibrarySound(records) && t < |records| && records[t].status == Draft
    ensures LibrarySound(ActivatedAll(records, records[t].asopId, records[t].version))
  {
    var after := ActivatedAll(records, records[t].asopId, records[t].version);
    RestatusNumbered(records, after);
    ActivateOneActive(records, t);
    ActivateNamed(records, t);
    var rank :| RankedBy(records, rank);
    ActivateRanked(records, t, rank);
  }

  lemma ActivateNamedAt(records: seq<Version>, t: nat, i: nat)
    requires Numbered(records) && t < |records| && records[t].status == Draft && i < |records| && Named(records, i)
    ensures Named(ActivatedAll(records, records[t].asopId, records[t].version), i)
  {
    if ActivatedAll(records, records[t].asopId, records[t].version)[i].status == Superseded {
      ActivateSuccessor(records, t, i);
    } else {
      ActivateTarget(records, t, i);
    }
  }

  lemma ActivateNamed(records: seq<Version>, t: nat)
    requires Numbered(records) && SuccessorsNamed(records) && t < |records| && records[t].status == Draft
    ensures SuccessorsNamed(ActivatedAll(records, records[t].asopId, records[t].version))
  {
    var after := ActivatedAll(records, records[t].asopId, records[t].version);
    forall i: nat | i < |after| ensures Named(after, i) {
      ActivateNamedAt(records, t, i);
    }
  }

  /** The newly activated version ranks above all others. */
  lemma ActivateRanked(records: seq<Version>, t: nat, rank: seq<nat>)
    requires Numbered(records) && SuccessorsNamed(records) && t < |records| && records[t].status == Draft
    requires RankedBy(records, rank)
    ensures RankedBy(ActivatedAll(records, records[t].asopId, records[t].version), rank[t := MaxRank(rank) + 1])
  {
    var after := ActivatedAll(records, records[t].asopId, records[t].version);
    var above := rank[t := MaxRank(rank) + 1];
    forall i: nat | i < |after| ensures BelowSuccessor(after, above, i) {
      if after[i].status == Superseded {
        assert Named(records, i) && BelowSuccessor(records, rank, i) && rank[i] in rank;
        ActivateSuccessor(records, t, i);
      }
    }
  }

  lemma RetireSound(records: seq<Version>, a: nat)
    requires LibrarySound(records) && a < |records| && records[a].status == Active
    ensures LibrarySound(records[a := records[a].(status := Retired)])
  {
    RestatusNumbered(records, records[a := records[a].(status := Retired)]);
    RetireOneActive(records, a);
    var rank :| RankedBy(records, rank);
    RetireRanked(records, a, rank);
  }

  lemma RetireOneActive(records: seq<Version>, a: nat)
    requires OneActive(records) && a < |records|
    ensures OneActive(records[a := records[a].(status := Retired)])
  {
  }

  lemma RetireRanked(records: seq<Version>, a: nat, rank: seq<nat>)
    requires Numbered(records) && SuccessorsNamed(records) && RankedBy(records, rank)
    requires a < |records| && records[a].status == Active
    ensures var after := records[a := records[a].(status := Retired)];
      SuccessorsNamed(after) && RankedBy(after, rank)
  {
    var after := records[a := records[a].(status := Retired)];
    forall i: nat | i < |after| ensures Named(after, i) && BelowSuccessor(after, rank, i) {
      assert Named(records, i) && BelowSuccessor(records, rank, i);
      RetireNamedAt(records, a, rank, i);
    }
  }

  lemma RetireNamedAt(records: seq<Version>, a: nat, rank: seq<nat>, i: nat)
    requires Numbered(records) && a < |records| && records[a].status == Active && |rank| == |records|
    requires i < |records| && Named(records, i) && BelowSuccessor(records, rank, i)
    ensures var after := records[a := records[a].(status := Retired)];
      Named(after, i) && BelowSuccessor(after, rank, i)
  {
    if records[i].status == Superseded { RetireKeepsSuccessor(records, a, i); }
  }

  lemma RetireKeepsSuccessor(records: seq<Version>, a: nat, i: nat)
    requires Numbered(records) && a < |records| && i < |records| && Named(records, i) && records[i].status == Superseded
    ensures VersionAt(records[a := records[a].(status := Retired)], records[i].asopId, records[i].supersededBy.value)
         == VersionAt(records, records[i].asopId, records[i].supersededBy.value)
  {
    var after := records[a := records[a].(status := Retired)];
    RestatusNumbered(records, after);
    var s := VersionAt(records, records[i].asopId, records[i].supersededBy.value);
    assert VersionAt(after, records[s.value].asopId, records[s.value].version) == s;
  }

  lemma PerformSound(validate: Validator, unreadable: set<string>, records: seq<Version>, c: LibraryCall)
    requires LibrarySound(records)
    ensures LibrarySound(Then(validate, unreadable, records, c))
  {
    var p := Perform(validate, unreadable, records, c);
    if p.Ok? {
      match c
      case CreateCall(id, content, author, who) =>
        AppendSound(records, p.value[|records|]);
      case ReviseCall(id, from, edit, author, who, policy) =>
        LatestIsCount(records, id);
        AppendSound(records, p.value[|records|]);
      case ActivateCall(id, version, who, policy) =>
        ActivateSound(records, VersionAt(records, id, version).value);
      case RetireCall(id, who) =>
        RetireSound(records, ActiveAt(records, id).value);
    }
  }

  /** In every store the verbs can build, an id's versions are 1..n, at most one
      is in service, and successors are named and ranked. */
  lemma {:induction false} LibraryStaysSound(validate: Validator, unreadable: set<string>, calls: seq<LibraryCall>)
    ensures LibrarySound(Run(validate, unreadable, calls))
  {
    if calls == [] {
      assert RankedBy([], []);
    } else {
      LibraryStaysSound(validate, unreadable, calls[..|calls| - 1]);
      PerformSound(validate, unreadable, Run(validate, unreadable, calls[..|calls| - 1]), calls[|calls| - 1]);
    }
  }

  // --- how a version moves -----------------------------------------------------------

  /** DRAFT to ACTIVE to SUPERSEDED or RETIRED, never back. */
  predicate MovesTo(a: VersionStatus, b: VersionStatus) {
    a == b || a == Draft || (a == Active && (b == Superseded || b == Retired))
  }

  /** A version that has been written keeps its number, author and text, and only
      moves forward. */
  ghost predicate Grown(before: seq<Version>, after: seq<Version>) {
    && |before| <= |after|
    && forall k: nat :: k < |before| ==> MovedOn(before[k], after[k])
  }

  predicate MovedOn(before: Version, after: Version) {
    && after == before.(status := after.status, supersededBy := after.supersededBy)
    && MovesTo(before.status, after.status)
    && (before.supersededBy.Some? ==> after.supersededBy == before.supersededBy)
  }

  /** Over any further calls nothing written is edited, renumbered or moved back. */
  lemma {:induction false} VersionsOnlyMoveForward(validate: Validator, unreadable: set<string>, calls: seq<LibraryCall>, n: nat)
    requires n <= |calls|
    ensures Grown(Run(validate, unreadable, calls[..n]), Run(validate, unreadable, calls))
  {
    if n == |calls| {
      assert calls[..n] == calls;
    } else {
      var most := calls[..|calls| - 1];
      assert most[..n] == calls[..n];
      VersionsOnlyMoveForward(validate, unreadable, most, n);
      LibraryStaysSound(validate, unreadable, most);
      GrowsOnce(validate, unreadable, Run(validate, unreadable, most), calls[|calls| - 1]);
    }
  }

  /** What one call may do to a written version. */
  predicate OneMove(a: VersionStatus, b: VersionStatus) {
    a == b || (a == Draft && b == Active) || (a == Active && (b == Superseded || b == Retired))
  }

  /** What any number of calls may do is what chains of single moves do. */
  lemma MovesAreChained(a: VersionStatus, c: VersionStatus)
    ensures MovesTo(a, c) <==> exists b :: OneMove(a, b) && OneMove(b, c)
  {
    if MovesTo(a, c) {
      var b := if a == Draft && c != Draft then Active else a;
      assert OneMove(a, b) && OneMove(b, c);
    }
  }

  /** One call moves each version at most one step: a draft into service, or the
      one in service out of it. */
  lemma OneCallMovesOnce(validate: Validator, unreadable: set<string>, records: seq<Version>, c: LibraryCall, k: nat)
    requires LibrarySound(records) && k < |records|
    ensures k < |Then(validate, unreadable, records, c)|
    ensures OneMove(records[k].status, Then(validate, unreadable, records, c)[k].status)
  {
    if c.ActivateCall? && Perform(validate, unreadable, records, c).Ok? {
      ActivateTarget(records, VersionAt(records, c.asopId, c.version).value, k);
    }
  }

  lemma GrowsOnce(validate: Validator, unreadable: set<string>, records: seq<Version>, c: LibraryCall)
    requires LibrarySound(records)
    ensures Grown(records, Then(validate, unreadable, records, c))
  {
    if c.ActivateCall? && Perform(validate, unreadable, records, c).Ok? {
      ActivateGrows(records, VersionAt(records, c.asopId, c.version).value);
    }
  }

  lemma ActivateGrows(records: seq<Version>, t: nat)
    requires LibrarySound(records) && t < |records| && records[t].status == Draft
    ensures Grown(records, ActivatedAll(records, records[t].asopId, records[t].version))
  {
    var after := ActivatedAll(records, records[t].asopId, records[t].version);
    forall k: nat | k < |records| ensures MovedOn(records[k], after[k]) {
      ActivateTarget(records, t, k);
      assert Named(records, k);
    }
  }

  /** Successors followed from version to version. */
  ghost predicate SuccessorPath(records: seq<Version>, p: seq<nat>) {
    && |p| >= 1 && (forall k :: 0 <= k < |p| ==> p[k] < |records|)
    && forall k :: 0 <= k < |p| - 1 ==>
      && records[p[k]].status == Superseded && records[p[k]].supersededBy.Some?
      && VersionAt(records, records[p[k]].asopId, records[p[k]].supersededBy.value) == Some(p[k + 1])
  }

  lemma {:induction false} FollowRank(records: seq<Version>, rank: seq<nat>, i: nat) returns (p: seq<nat>)
    requires SuccessorsNamed(records) && RankedBy(records, rank) && i < |records| && records[i].status != Draft
    ensures SuccessorPath(records, p) && p[0] == i
    ensures forall k :: 0 <= k < |p| - 1 ==> rank[p[k]] < rank[p[k + 1]]
    ensures records[p[|p| - 1]].status in {Active, Retired}
    decreases MaxRank(rank) - rank[i]
  {
    if records[i].status != Superseded {
      p := [i];
    } else {
      assert Named(records, i) && BelowSuccessor(records, rank, i);
      var s := VersionAt(records, records[i].asopId, records[i].supersededBy.value).value;
      assert rank[s] in rank;
      var rest := FollowRank(records, rank, s);
      p := [i] + rest;
    }
  }

  lemma {:induction false} RisingDistinct(rank: seq<nat>, p: seq<nat>, i: nat, j: nat)
    requires i < j < |p| && forall k :: 0 <= k < |p| ==> p[k] < |rank|
    requires forall k :: 0 <= k < |p| - 1 ==> rank[p[k]] < rank[p[k + 1]]
    ensures rank[p[i]] < rank[p[j]]
  {
    if i + 1 < j {
      RisingDistinct(rank, p, i, j - 1);
    }
  }

  /** Following successors from any version that was ever in service never loops
      and ends at one in service or withdrawn. */
  lemma SupersessionEnds(validate: Validator, unreadable: set<string>, calls: seq<LibraryCall>, i: nat) returns (p: seq<nat>)
    requires i < |Run(validate, unreadable, calls)| && Run(validate, unreadable, calls)[i].status != Draft
    ensures SuccessorPath(Run(validate, unreadable, calls), p) && p[0] == i && Distinct(p)
    ensures Run(validate, unreadable, calls)[p[|p| - 1]].status in {Active, Retired}
  {
    var records := Run(validate, unreadable, calls);
    LibraryStaysSound(validate, unreadable, calls);
    var rank :| RankedBy(records, rank);
    p := FollowRank(records, rank, i);
    forall a, b | 0 <= a < b < |p| ensures p[a] != p[b] {
      RisingDistinct(rank, p, a, b);
    }
  }
}
