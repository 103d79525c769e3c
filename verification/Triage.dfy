/** Lesson triage over the recurrence registry: the check a classification must
    pass, the plan computed from it, and the two writes to the log. */
module Triage {
  import opened Prelude
  import opened Registry
  import opened BeadModel

  /** The two patterns the source compiles once: what a fingerprint and what a
      target look like. */
  datatype Patterns = Patterns(fingerprint: string -> bool, target: string -> bool)

  /** A text field that is absent or not a string reads as blank. */
  datatype Lesson = Lesson(id: string, text: string, named: bool)

  datatype Finding =
    | Fact(summary: string, recordedIn: string)
    | Noise(reason: string)
    | Defect(target: string, fingerprint: string, newBecause: string, ruledOut: seq<string>)
    | OtherType

  datatype Row = Row(id: string, finding: Finding)

  // --- what looks alike -------------------------------------------------------------

  function WordsOf(fp: string): set<string> { Elements(Split(fp, '-')) }

  /** Half of all their words, or more, are shared. */
  predicate Similar(a: string, b: string) {
    2 * |WordsOf(a) * WordsOf(b)| >= |WordsOf(a) + WordsOf(b)|
  }

  // --- what a classification must be ------------------------------------------------

  ghost predicate LessonsOk(lessons: seq<Lesson>) {
    && (forall i, j :: 0 <= i < j < |lessons| ==> lessons[i].id != lessons[j].id)
    && (forall l :: l in lessons ==> !IsBlank(l.id) && !IsBlank(l.text) && l.named)
  }

  predicate Readable(p: Patterns, log: seq<Entry>) {
    forall e :: e in log ==> p.fingerprint(e.fingerprint)
  }

  /** Fingerprints of the defects, row by row. */
  function Defects(rows: seq<Row>): (r: seq<string>) {
    if rows == [] then []
    else
      var last := rows[|rows| - 1].finding;
      Defects(rows[..|rows| - 1]) + (if last.Defect? then [last.fingerprint] else [])
  }

  /** A fingerprint a row may reuse: in the log already, or argued for by an
      earlier row. */
  predicate Accepted(log: seq<Entry>, before: seq<Row>, fp: string) {
    Known(log, None, fp) || fp in Defects(before)
  }

  ghost predicate RowOk(p: Patterns, log: seq<Entry>, before: seq<Row>, r: Row) {
    && !IsBlank(r.id)
    && match r.finding
       case Fact(summary, recordedIn) => !IsBlank(summary) && !IsBlank(recordedIn)
       case Noise(reason) => !IsBlank(reason)
       case Defect(target, fp, newBecause, ruledOut) =>
         && !IsBlank(target) && p.target(target)
         && !IsBlank(fp) && p.fingerprint(fp)
         && (Accepted(log, before, fp)
             || (&& !IsBlank(newBecause)
                 && forall k :: Accepted(log, before, k) && Similar(fp, k) ==> k in ruledOut))
       case OtherType => false
  }

  ghost predicate RowsOk(p: Patterns, log: seq<Entry>, rows: seq<Row>) {
    forall i :: 0 <= i < |rows| ==> RowOk(p, log, rows[..i], rows[i])
  }

  ghost predicate OncePerLesson(rows: seq<Row>) {
    forall i, j :: 0 <= i < j < |rows| ==> rows[i].id != rows[j].id
  }

  function LessonIds(lessons: seq<Lesson>): set<string> { set l | l in lessons :: l.id }

  function RowIds(rows: seq<Row>): set<string> { set r | r in rows :: r.id }

  ghost predicate SameIds(lessons: seq<Lesson>, rows: seq<Row>) {
    LessonIds(lessons) == RowIds(rows)
  }

  ghost predicate Classified(p: Patterns, log: seq<Entry>, lessons: seq<Lesson>, rows: seq<Row>) {
    && LessonsOk(lessons) && Readable(p, log)
    && RowsOk(p, log, rows) && OncePerLesson(rows) && SameIds(lessons, rows)
  }

  method CheckLessons(lessons: seq<Lesson>) returns (ok: bool, want: set<string>)
    ensures ok <==> LessonsOk(lessons)
    ensures ok ==> want == LessonIds(lessons)
  {
    want := {};
    for i := 0 to |lessons|
      invariant LessonsOk(lessons[..i])
      invariant want == LessonIds(lessons[..i])
    {
      var l := lessons[i];
      if IsBlank(l.id) || l.id in want || IsBlank(l.text) || !l.named {
        assert l in lessons;
        return false, want;
      }
      want := want + {l.id};
      assert lessons[..i + 1] == lessons[..i] + [l];
    }
    assert lessons[..|lessons|] == lessons;
    return true, want;
  }

  /** `known` grows as rows argue for new fingerprints. */
  method CheckDefect(p: Patterns, d: Finding, known: set<string>) returns (ok: bool, grown: set<string>)
    requires d.Defect?
    ensures ok <==>
      && !IsBlank(d.target) && p.target(d.target)
      && !IsBlank(d.fingerprint) && p.fingerprint(d.fingerprint)
      && (d.fingerprint in known
          || (&& !IsBlank(d.newBecause)
              && forall k :: k in known && Similar(d.fingerprint, k) ==> k in d.ruledOut))
    ensures ok ==> grown == known + {d.fingerprint}
  {
    grown := known;
    if IsBlank(d.target) || !p.target(d.target) { return false, grown; }
    if IsBlank(d.fingerprint) || !p.fingerprint(d.fingerprint) { return false, grown; }
    if d.fingerprint in known {
      assert known == known + {d.fingerprint};
      return true, grown;
    }
    if IsBlank(d.newBecause) { return false, grown; }
    var near := set k | k in known && Similar(d.fingerprint, k) && k !in d.ruledOut;
    if near != {} { return false, grown; }
    assert forall k :: k in known && Similar(d.fingerprint, k) ==> k in d.ruledOut || k in near;
    return true, known + {d.fingerprint};
  }

  method CheckRow(p: Patterns, r: Row, known: set<string>, ghost log: seq<Entry>, ghost before: seq<Row>)
    returns (ok: bool, grown: set<string>)
    requires forall k :: k in known <==> Accepted(log, before, k)
    ensures ok <==> RowOk(p, log, before, r)
    ensures ok ==> forall k :: k in grown <==> Accepted(log, before + [r], k)
  {
    ok, grown := !IsBlank(r.id), known;
    assert (before + [r])[..|before|] == before;
    match r.finding
    case Fact(summary, recordedIn) => ok := ok && !IsBlank(summary) && !IsBlank(recordedIn);
    case Noise(reason) => ok := ok && !IsBlank(reason);
    case Defect(_, _, _, _) =>
      if ok {
        ok, grown := CheckDefect(p, r.finding, known);
      }
    case OtherType => ok := false;
  }

  /** The gate of the classify step: accepts exactly a classification that is
      well formed, covers each lesson once, and argues for each new name. */
  method CheckClassified(p: Patterns, log: seq<Entry>, lessons: seq<Lesson>, rows: seq<Row>)
    returns (ok: bool)
    ensures ok <==> Classified(p, log, lessons, rows)
  {
    var want: set<string>;
    ok, want := CheckLessons(lessons);
    if !ok { return; }
    if !Readable(p, log) { return false; }
    var state := Fold(log, None);
    var known := state.Keys;
    var got: set<string> := {};
    for i := 0 to |rows|
      invariant forall k :: k in known <==> Accepted(log, rows[..i], k)
      invariant RowsOk(p, log, rows[..i]) && OncePerLesson(rows[..i])
      invariant got == RowIds(rows[..i])
    {
      var r := rows[i];
      assert rows[..i + 1] == rows[..i] + [r];
      assert forall k :: 0 <= k <= i ==> rows[..i + 1][..k] == rows[..k];
      assert forall k :: 0 <= k <= i ==> rows[..i][..k] == rows[..k];
      if r.id in got { return false; }
      var grown;
      ok, grown := CheckRow(p, r, known, log, rows[..i]);
      if !ok { return; }
      known := grown;
      got := got + {r.id};
    }
    assert rows[..|rows|] == rows;
    assert forall k :: 0 <= k <= |rows| ==> rows[..|rows|][..k] == rows[..k];
    ok := want == got;
  }

  // --- the plan ---------------------------------------------------------------------

  datatype Disposition = New | Matched | WasClosed

  datatype Outcome = Triaged | Regressions | NothingToTriage

  datatype Item = Item(
    fingerprint: string,
    target: string,
    disposition: Disposition,
    prior: Standing,
    occurrences: nat,
    lessons: string)

  datatype Plan = Plan(items: seq<Item>, outcome: Outcome)

  function Judged(s: Standing): Disposition {
    match s
    case NoStatus => New
    case Open => Matched
    case _ => WasClosed
  }

  predicate About(r: Row, fp: string) { r.finding.Defect? && r.finding.fingerprint == fp }

  function LessonsOf(rows: seq<Row>, fp: string): seq<string> {
    if rows == [] then []
    else
      var r := rows[|rows| - 1];
      LessonsOf(rows[..|rows| - 1], fp) + (if About(r, fp) then [r.id] else [])
  }

  /** The target the first row about `fp` names. */
  function TargetIn(rows: seq<Row>, fp: string): string {
    if rows == [] then ""
    else if About(rows[0], fp) then rows[0].finding.target
    else TargetIn(rows[1..], fp)
  }

  lemma {:induction false} DefectsHaveLessons(rows: seq<Row>, fp: string)
    ensures fp in Defects(rows) <==> LessonsOf(rows, fp) != []
  {
    if rows != [] {
      DefectsHaveLessons(rows[..|rows| - 1], fp);
    }
  }

  /** What the plan says of one fingerprint: judged by the log as every other
      scope left it, and counted together with this batch. */
  function ItemFor(log: seq<Entry>, scope: string, rows: seq<Row>, fp: string): Item
    requires fp in Defects(rows)
  {
    var prior := StandingOf(log, Some(scope), fp);
    var ids := LessonsOf(rows, fp);
    DefectsHaveLessons(rows, fp);
    Item(fp, TargetIn(rows, fp), Judged(prior), prior,
         SeenOf(log, Some(scope), fp) + |ids|, Join(ids, ','))
  }

  function ItemsFor(log: seq<Entry>, scope: string, rows: seq<Row>, fps: seq<string>): (items: seq<Item>)
    requires forall fp :: fp in fps ==> fp in Defects(rows)
    ensures |items| == |fps|
    ensures forall i :: 0 <= i < |fps| ==> items[i] == ItemFor(log, scope, rows, fps[i])
  {
    seq(|fps|, i requires 0 <= i < |fps| => ItemFor(log, scope, rows, fps[i]))
  }

  function PlanFor(log: seq<Entry>, scope: string, rows: seq<Row>): Plan {
    var items := ItemsFor(log, scope, rows, Dedup(Defects(rows)));
    Plan(items,
         if rows == [] then NothingToTriage
         else if exists i :: i in items && i.disposition == WasClosed then Regressions
         else Triaged)
  }

  /** An item under construction: its lessons are still a list. */
  datatype Draft = Draft(target: string, prior: Standing, occurrences: nat, lessons: seq<string>)

  ghost predicate DraftsMatch(log: seq<Entry>, scope: string, rows: seq<Row>, drafts: map<string, Draft>) {
    && (forall fp :: fp in drafts <==> fp in Defects(rows))
    && (forall fp :: fp in drafts ==> DraftMatches(log, scope, rows, fp, drafts[fp]))
  }

  ghost predicate DraftMatches(log: seq<Entry>, scope: string, rows: seq<Row>, fp: string, d: Draft) {
    && d.target == TargetIn(rows, fp)
    && d.prior == StandingOf(log, Some(scope), fp)
    && d.lessons == LessonsOf(rows, fp)
    && d.occurrences == SeenOf(log, Some(scope), fp) + |d.lessons|
  }

  lemma {:induction false} TargetGrows(rows: seq<Row>, r: Row, fp: string)
    ensures fp in Defects(rows) ==> TargetIn(rows + [r], fp) == TargetIn(rows, fp)
    ensures fp !in Defects(rows) && About(r, fp) ==> TargetIn(rows + [r], fp) == r.finding.target
  {
    if rows != [] {
      TargetGrows(rows[1..], r, fp);
      DefectsFront(rows, fp);
      assert (rows + [r])[1..] == rows[1..] + [r];
    }
  }

  lemma {:induction false} DefectsFront(rows: seq<Row>, fp: string)
    requires rows != []
    ensures fp in Defects(rows) <==> About(rows[0], fp) || fp in Defects(rows[1..])
  {
    if |rows| == 1 {
      assert rows[..0] == [];
    } else {
      var front := rows[..|rows| - 1];
      DefectsFront(front, fp);
      assert front[1..] == rows[1..][..|rows[1..]| - 1];
    }
  }

  /** Gathers the defects row by row, one draft per fingerprint in order of
      first mention, then joins the lessons of each. */
  method PlanDisposition(p: Patterns, log: seq<Entry>, scope: string, lessons: seq<Lesson>, rows: seq<Row>)
    returns (plan: Option<Plan>)
    ensures plan.Some? <==> Classified(p, log, lessons, rows)
    ensures plan.Some? ==> plan.value == PlanFor(log, scope, rows)
  {
    var ok := CheckClassified(p, log, lessons, rows);
    if !ok { return None; }
    var known := Fold(log, Some(scope));
    var order, drafts := GatherDefects(log, scope, rows, known);
    var items := Finish(log, scope, rows, order, drafts);
    var outcome :=
      if rows == [] then NothingToTriage
      else if exists i :: i in items && i.disposition == WasClosed then Regressions
      else Triaged;
    plan := Some(Plan(items, outcome));
  }

  method Finish(ghost log: seq<Entry>, ghost scope: string, ghost rows: seq<Row>,
                order: seq<string>, drafts: map<string, Draft>)
    returns (items: seq<Item>)
    requires DraftsMatch(log, scope, rows, drafts)
    requires forall fp :: fp in order ==> fp in Defects(rows)
    ensures items == ItemsFor(log, scope, rows, order)
  {
    items := [];
    for i := 0 to |order|
      invariant |items| == i
      invariant forall k :: 0 <= k < i ==> items[k] == ItemFor(log, scope, rows, order[k])
    {
      var fp := order[i];
      var d := drafts[fp];
      DefectsHaveLessons(rows, fp);
      assert DraftMatches(log, scope, rows, fp, d);
      items := items + [Item(fp, d.target, Judged(d.prior), d.prior, d.occurrences, Join(d.lessons, ','))];
    }
  }

  method GatherDefects(log: seq<Entry>, scope: string, rows: seq<Row>, known: map<string, Folded>)
    returns (order: seq<string>, drafts: map<string, Draft>)
    requires forall fp :: fp in known <==> Known(log, Some(scope), fp)
    requires forall fp :: fp in known ==> known[fp] == FoldedOf(log, Some(scope), fp)
    ensures order == Dedup(Defects(rows))
    ensures DraftsMatch(log, scope, rows, drafts)
  {
    order, drafts := [], map[];
    for i := 0 to |rows|
      invariant order == Dedup(Defects(rows[..i]))
      invariant DraftsMatch(log, scope, rows[..i], drafts)
    {
      assert rows[..i + 1] == rows[..i] + [rows[i]];
      order, drafts := GatherRow(log, scope, rows[..i], rows[i], known, order, drafts);
    }
    assert rows[..|rows|] == rows;
  }

  method GatherRow(ghost log: seq<Entry>, ghost scope: string, ghost front: seq<Row>, r: Row,
                   known: map<string, Folded>, order: seq<string>, drafts: map<string, Draft>)
    returns (longer: seq<string>, more: map<string, Draft>)
    requires forall fp :: fp in known <==> Known(log, Some(scope), fp)
    requires forall fp :: fp in known ==> known[fp] == FoldedOf(log, Some(scope), fp)
    requires order == Dedup(Defects(front)) && DraftsMatch(log, scope, front, drafts)
    ensures longer == Dedup(Defects(front + [r])) && DraftsMatch(log, scope, front + [r], more)
  {
    longer, more := order, drafts;
    assert (front + [r])[..|front|] == front;
    if r.finding.Defect? {
      var fp := r.finding.fingerprint;
      DedupSnoc(Defects(front), fp);
      var prior := if fp in known then known[fp] else Folded(NoStatus, 0, "");
      var d := if fp in drafts then drafts[fp] else Draft(r.finding.target, prior.status, prior.seen, []);
      var grown := d.(occurrences := d.occurrences + 1, lessons := d.lessons + [r.id]);
      if fp !in drafts {
        longer := order + [fp];
        if fp !in known { UnknownFolded(log, Some(scope), fp); }
        FirstDraft(log, scope, front, r, grown);
      } else {
        NextDraft(log, scope, front, r, d);
      }
      more := drafts[fp := grown];
      DraftReplaced(log, scope, front, r, drafts, grown);
    } else {
      DraftsKept(log, scope, front, r, drafts);
    }
  }

  lemma FirstDraft(log: seq<Entry>, scope: string, front: seq<Row>, r: Row, d: Draft)
    requires r.finding.Defect? && r.finding.fingerprint !in Defects(front)
    requires var fp := r.finding.fingerprint;
      d == Draft(r.finding.target, StandingOf(log, Some(scope), fp), SeenOf(log, Some(scope), fp) + 1, [r.id])
    ensures DraftMatches(log, scope, front + [r], r.finding.fingerprint, d)
  {
    assert (front + [r])[..|front|] == front;
    TargetGrows(front, r, r.finding.fingerprint);
    DefectsHaveLessons(front, r.finding.fingerprint);
  }

  lemma NextDraft(log: seq<Entry>, scope: string, front: seq<Row>, r: Row, d: Draft)
    requires r.finding.Defect? && r.finding.fingerprint in Defects(front)
    requires DraftMatches(log, scope, front, r.finding.fingerprint, d)
    ensures DraftMatches(log, scope, front + [r], r.finding.fingerprint,
                         d.(occurrences := d.occurrences + 1, lessons := d.lessons + [r.id]))
  {
    assert (front + [r])[..|front|] == front;
    TargetGrows(front, r, r.finding.fingerprint);
  }

  lemma OtherDraftKept(log: seq<Entry>, scope: string, front: seq<Row>, r: Row, fp: string, d: Draft)
    requires fp in Defects(front) && DraftMatches(log, scope, front, fp, d) && !About(r, fp)
    ensures DraftMatches(log, scope, front + [r], fp, d)
  {
    assert (front + [r])[..|front|] == front;
    TargetGrows(front, r, fp);
  }

  lemma DraftsKept(log: seq<Entry>, scope: string, front: seq<Row>, r: Row, drafts: map<string, Draft>)
    requires DraftsMatch(log, scope, front, drafts) && !r.finding.Defect?
    ensures DraftsMatch(log, scope, front + [r], drafts) && Defects(front + [r]) == Defects(front)
  {
    assert (front + [r])[..|front|] == front;
    assert Defects(front + [r]) == Defects(front);
    forall fp | fp in drafts ensures DraftMatches(log, scope, front + [r], fp, drafts[fp]) {
      OtherDraftKept(log, scope, front, r, fp, drafts[fp]);
    }
  }

  lemma DraftReplaced(log: seq<Entry>, scope: string, front: seq<Row>, r: Row, drafts: map<string, Draft>, d: Draft)
    requires DraftsMatch(log, scope, front, drafts) && r.finding.Defect?
    requires DraftMatches(log, scope, front + [r], r.finding.fingerprint, d)
    ensures DraftsMatch(log, scope, front + [r], drafts[r.finding.fingerprint := d])
    ensures Defects(front + [r]) == Defects(front) + [r.finding.fingerprint]
  {
    var more := drafts[r.finding.fingerprint := d];
    assert (front + [r])[..|front|] == front;
    assert Defects(front + [r]) == Defects(front) + [r.finding.fingerprint];
    forall fp | fp in more ensures DraftMatches(log, scope, front + [r], fp, more[fp]) {
      if fp != r.finding.fingerprint {
        OtherDraftKept(log, scope, front, r, fp, drafts[fp]);
      }
    }
  }

  // --- the writes -------------------------------------------------------------------

  function StatusFor(d: Disposition): Option<Kind> {
    match d
    case New => Some(Opened)
    case Matched => None
    case WasClosed => Some(Reopened)
  }

  function StatusEntries(log: seq<Entry>, scope: string, item: Item): seq<Entry> {
    var k := StatusFor(item.disposition);
    if k.Some? && !Has(log, scope, item.fingerprint, k.value, None)
    then [Entry(item.fingerprint, k.value, scope, None, item.target)]
    else []
  }

  function SeenEntries(log: seq<Entry>, scope: string, fp: string, ids: seq<string>): seq<Entry> {
    if ids == [] then []
    else
      var id := ids[|ids| - 1];
      SeenEntries(log, scope, fp, ids[..|ids| - 1])
      + (if Has(log, scope, fp, Seen, Some(id)) then [] else [Entry(fp, Seen, scope, Some(id), "")])
  }

  /** What one item still has to add to the log. */
  function EntriesFor(log: seq<Entry>, scope: string, item: Item): seq<Entry> {
    StatusEntries(log, scope, item) + SeenEntries(log, scope, item.fingerprint, Split(item.lessons, ','))
  }

  function NewEntries(log: seq<Entry>, scope: string, items: seq<Item>): seq<Entry> {
    if items == [] then []
    else NewEntries(log, scope, items[..|items| - 1]) + EntriesFor(log, scope, items[|items| - 1])
  }

  /** The log after `dispose`; unchanged when the classification is refused. */
  ghost function Disposed(p: Patterns, log: seq<Entry>, scope: string, lessons: seq<Lesson>, rows: seq<Row>): seq<Entry> {
    if Classified(p, log, lessons, rows)
    then log + NewEntries(log, scope, PlanFor(log, scope, rows).items)
    else log
  }

  datatype Fix = WasFixed | WasMitigated | WontFix

  function FixKind(f: Fix): Kind {
    match f
    case WasFixed => Fixed
    case WasMitigated => Mitigated
    case WontFix => Retired
  }

  predicate HasEvent(log: seq<Entry>, scope: string, fp: string, k: Kind) {
    exists e :: e in log && e.scope == scope && e.fingerprint == fp && e.kind == k
  }

  function Recorded(log: seq<Entry>, scope: string, fp: string, f: Fix): seq<Entry> {
    if HasEvent(log, scope, fp, FixKind(f)) then log else log + [Entry(fp, FixKind(f), scope, None, "")]
  }

  /** What `check_disposed` asks: the written files are the plan the log implies
      now, and what the plan says is open is open in the full log. */
  ghost predicate DisposedOk(p: Patterns, log: seq<Entry>, scope: string, lessons: seq<Lesson>, rows: seq<Row>,
                             written: Option<Plan>)
  {
    && Classified(p, log, lessons, rows)
    && written == Some(PlanFor(log, scope, rows))
    && forall i :: i in written.value.items && i.disposition != Matched ==> StandingOf(log, None, i.fingerprint) == Open
  }

  /** The registry file, shared by every run. */
  class RegistryFile {
    var log: seq<Entry>

    constructor ()
      ensures log == []
    {
      log := [];
    }

    method RecordFix(scope: string, fp: string, f: Fix)
      modifies this
      ensures log == Recorded(old(log), scope, fp, f)
    {
      var kind := FixKind(f);
      for i := 0 to |log|
        invariant forall e :: e in log[..i] ==> !(e.scope == scope && e.fingerprint == fp && e.kind == kind)
        invariant log == old(log)
      {
        if log[i].scope == scope && log[i].fingerprint == fp && log[i].kind == kind {
          assert HasEvent(log, scope, fp, kind);
          return;
        }
        assert log[..i + 1] == log[..i] + [log[i]];
      }
      assert log[..|log|] == log;
      log := log + [Entry(fp, kind, scope, None, "")];
    }
  }

  /** One triage run: its working directory, and the registry it shares. */
  class TriageRun {
    const patterns: Patterns
    const registry: RegistryFile
    const scope: string
    var lessons: seq<Lesson>
    var rows: seq<Row>
    var written: Option<Plan>

    constructor (patterns: Patterns, registry: RegistryFile, scope: string, lessons: seq<Lesson>, rows: seq<Row>)
      ensures this.patterns == patterns && this.registry == registry && this.scope == scope
      ensures this.lessons == lessons && this.rows == rows && written == None
    {
      this.patterns, this.registry, this.scope := patterns, registry, scope;
      this.lessons, this.rows, written := lessons, rows, None;
    }

    /** Writes the plan's files, then appends what the log does not have yet. */
    method Dispose() returns (plan: Option<Plan>)
      modifies this`written, registry
      ensures plan.Some? <==> Classified(patterns, old(registry.log), lessons, rows)
      ensures plan.Some? ==> plan.value == PlanFor(old(registry.log), scope, rows)
      ensures written == if plan.Some? then plan else old(written)
      ensures registry.log == Disposed(patterns, old(registry.log), scope, lessons, rows)
    {
      plan := PlanDisposition(patterns, registry.log, scope, lessons, rows);
      if plan == None { return; }
      written := plan;
      var added := AllOutstanding(registry.log, plan.value.items);
      registry.log := registry.log + added;
    }

    method AllOutstanding(have: seq<Entry>, items: seq<Item>) returns (added: seq<Entry>)
      ensures added == NewEntries(have, scope, items)
    {
      added := [];
      for i := 0 to |items|
        invariant added == NewEntries(have, scope, items[..i])
      {
        assert items[..i + 1][..i] == items[..i];
        var more := Outstanding(have, items[i]);
        added := added + more;
      }
      assert items[..|items|] == items;
    }

    method Outstanding(have: seq<Entry>, item: Item) returns (more: seq<Entry>)
      ensures more == EntriesFor(have, scope, item)
    {
      var fp, status := item.fingerprint, StatusFor(item.disposition);
      more := [];
      if status.Some? && !Has(have, scope, fp, status.value, None) {
        more := [Entry(fp, status.value, scope, None, item.target)];
      }
      ghost var head := more;
      var ids := Split(item.lessons, ',');
      for i := 0 to |ids|
        invariant more == head + SeenEntries(have, scope, fp, ids[..i])
      {
        assert ids[..i + 1][..i] == ids[..i];
        if !Has(have, scope, fp, Seen, Some(ids[i])) {
          more := more + [Entry(fp, Seen, scope, Some(ids[i]), "")];
        }
      }
      assert ids[..|ids|] == ids;
    }

    method CheckDisposed() returns (ok: bool)
      ensures ok <==> DisposedOk(patterns, registry.log, scope, lessons, rows, written)
    {
      var plan := PlanDisposition(patterns, registry.log, scope, lessons, rows);
      if plan == None || written != plan { return false; }
      var events := Fold(registry.log, None);
      ok := true;
      var items := plan.value.items;
      for i := 0 to |items|
        invariant ok <==> forall x :: x in items[..i] && x.disposition != Matched
                            ==> StandingOf(registry.log, None, x.fingerprint) == Open
      {
        var item := items[i];
        assert items[..i + 1] == items[..i] + [item];
        if item.fingerprint !in events { UnknownFolded(registry.log, None, item.fingerprint); }
        if item.disposition != Matched && !(item.fingerprint in events && events[item.fingerprint].status == Open) {
          ok := false;
        }
      }
      assert items[..|items|] == items;
    }
  }
}
