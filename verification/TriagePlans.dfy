/** What a triage plan says, read straight off the log and the classified rows:
    the last status entry other scopes left about a fingerprint, the first row
    that names it and the rows that count towards it. */
module TriagePlans {
  import opened Prelude
  import opened Registry
  import opened Triage

  // --- reading the log ------------------------------------------------------------------

  ghost predicate StatusEntry(log: seq<Entry>, hidden: Option<string>, fp: string, k: nat) {
    k < |log| && log[k].fingerprint == fp && Some(log[k].scope) != hidden && log[k].kind != Seen
  }

  /** Entry `k` is the last visible status entry about `fp`. */
  ghost predicate LastWord(log: seq<Entry>, hidden: Option<string>, fp: string, k: nat) {
    StatusEntry(log, hidden, fp, k) && forall j: nat :: k < j ==> !StatusEntry(log, hidden, fp, j)
  }

  /** How a status entry is read. */
  predicate Reads(k: Kind, s: Standing) {
    && (k in {Opened, Reopened} <==> s == Open)
    && (k == Fixed <==> s == IsFixed) && (k == Mitigated <==> s == IsMitigated) && (k == Retired <==> s == IsRetired)
  }

  /** A fingerprint stands where its last visible status entry left it, and
      nowhere exactly when it has none. */
  lemma {:induction false} StandingRead(log: seq<Entry>, hidden: Option<string>, fp: string)
    ensures forall k: nat :: LastWord(log, hidden, fp, k) ==> Reads(log[k].kind, StandingOf(log, hidden, fp))
    ensures StandingOf(log, hidden, fp) == NoStatus <==> forall k: nat :: !StatusEntry(log, hidden, fp, k)
    ensures StandingOf(log, hidden, fp) != NoStatus ==> exists k: nat :: LastWord(log, hidden, fp, k)
  {
    if log != [] {
      var front, last := log[..|log| - 1], |log| - 1;
      StandingRead(front, hidden, fp);
      assert forall k: nat :: k < last ==> (StatusEntry(front, hidden, fp, k) <==> StatusEntry(log, hidden, fp, k));
      if StatusEntry(log, hidden, fp, last) {
        StandingReadEnd(log, hidden, fp);
      } else {
        forall k: nat ensures LastWord(front, hidden, fp, k) <==> LastWord(log, hidden, fp, k) {
          LastWordFront(log, hidden, fp, k);
        }
      }
    }
  }

  lemma StandingReadEnd(log: seq<Entry>, hidden: Option<string>, fp: string)
    requires log != [] && StatusEntry(log, hidden, fp, |log| - 1)
    ensures LastWord(log, hidden, fp, |log| - 1) && Reads(log[|log| - 1].kind, StandingOf(log, hidden, fp))
    ensures forall k: nat :: LastWord(log, hidden, fp, k) ==> k == |log| - 1
  {
  }

  lemma LastWordFront(log: seq<Entry>, hidden: Option<string>, fp: string, k: nat)
    requires log != [] && !StatusEntry(log, hidden, fp, |log| - 1)
    ensures LastWord(log[..|log| - 1], hidden, fp, k) <==> LastWord(log, hidden, fp, k)
  {
    var front := log[..|log| - 1];
    assert forall j: nat :: StatusEntry(front, hidden, fp, j) <==> StatusEntry(log, hidden, fp, j);
  }

  /** The last visible status entry about `fp` says that it was fixed, mitigated or
      retired. */
  ghost predicate StandsClosed(log: seq<Entry>, hidden: Option<string>, fp: string) {
    exists k: nat :: LastWord(log, hidden, fp, k) && log[k].kind in {Fixed, Mitigated, Retired}
  }

  ghost predicate StandsOpen(log: seq<Entry>, hidden: Option<string>, fp: string) {
    exists k: nat :: LastWord(log, hidden, fp, k) && log[k].kind in {Opened, Reopened}
  }

  lemma StandingDecides(log: seq<Entry>, hidden: Option<string>, fp: string)
    ensures StandsClosed(log, hidden, fp) <==> StandingOf(log, hidden, fp) in {IsFixed, IsMitigated, IsRetired}
    ensures StandsOpen(log, hidden, fp) <==> StandingOf(log, hidden, fp) == Open
  {
    StandingRead(log, hidden, fp);
    if k: nat :| LastWord(log, hidden, fp, k) {
      assert Reads(log[k].kind, StandingOf(log, hidden, fp));
    }
  }

  ghost function Sightings(log: seq<Entry>, hidden: Option<string>, fp: string): set<nat> {
    set k: nat | k < |log| && log[k].fingerprint == fp && Some(log[k].scope) != hidden && log[k].kind == Seen
  }

  lemma {:induction false} SeenRead(log: seq<Entry>, hidden: Option<string>, fp: string)
    ensures SeenOf(log, hidden, fp) == |Sightings(log, hidden, fp)|
  {
    if log != [] {
      var front, last := log[..|log| - 1], |log| - 1;
      SeenRead(front, hidden, fp);
      var sighted := Visible(log[last], hidden, fp) && log[last].kind == Seen;
      var before := Sightings(front, hidden, fp);
      assert last !in before;
      if sighted {
        assert Sightings(log, hidden, fp) == before + {last};
      } else {
        assert Sightings(log, hidden, fp) == before;
      }
    }
  }

  /** Entry `k` is about `fp`, visible, and names a target. */
  ghost predicate NamesTarget(log: seq<Entry>, hidden: Option<string>, fp: string, k: nat) {
    k < |log| && log[k].fingerprint == fp && Some(log[k].scope) != hidden && log[k].target != ""
  }

  /** The target on record is the one named last. */
  lemma {:induction false} LastTargetRead(log: seq<Entry>, hidden: Option<string>, fp: string, k: nat)
    requires NamesTarget(log, hidden, fp, k) && forall j: nat :: k < j ==> !NamesTarget(log, hidden, fp, j)
    ensures TargetOf(log, hidden, fp) == log[k].target
  {
    var front, last := log[..|log| - 1], |log| - 1;
    if k < last {
      assert !NamesTarget(log, hidden, fp, last);
      assert forall j: nat :: NamesTarget(front, hidden, fp, j) ==> NamesTarget(log, hidden, fp, j);
      LastTargetRead(front, hidden, fp, k);
    }
  }

  // --- reading the rows -----------------------------------------------------------------

  /** Row `k` is the first defect that names `fp`. */
  ghost predicate FirstAbout(rows: seq<Row>, fp: string, k: nat) {
    k < |rows| && About(rows[k], fp) && forall j :: 0 <= j < k ==> !About(rows[j], fp)
  }

  /** `at` lists the rows about `fp`, in order. */
  ghost predicate Gathers(rows: seq<Row>, fp: string, at: seq<nat>) {
    && (forall n :: 0 <= n < |at| ==> at[n] < |rows| && About(rows[at[n]], fp))
    && (forall m, n :: 0 <= m < n < |at| ==> at[m] < at[n])
    && forall k: nat :: k < |rows| && About(rows[k], fp) ==> k in at
  }

  function IdsAt(rows: seq<Row>, at: seq<nat>): (ids: seq<string>)
    requires forall n :: 0 <= n < |at| ==> at[n] < |rows|
    ensures |ids| == |at| && forall n :: 0 <= n < |at| ==> ids[n] == rows[at[n]].id
  {
    seq(|at|, n requires 0 <= n < |at| => rows[at[n]].id)
  }

  lemma {:induction false} TargetRead(rows: seq<Row>, fp: string, k: nat)
    requires FirstAbout(rows, fp, k)
    ensures TargetIn(rows, fp) == rows[k].finding.target
  {
    if k > 0 {
      assert forall j :: 0 <= j < k - 1 ==> rows[1..][j] == rows[j + 1];
      TargetRead(rows[1..], fp, k - 1);
    }
  }

  lemma {:induction false} LessonsRead(rows: seq<Row>, fp: string) returns (at: seq<nat>)
    ensures Gathers(rows, fp, at) && LessonsOf(rows, fp) == IdsAt(rows, at)
  {
    at := [];
    if rows != [] {
      var front, last := rows[..|rows| - 1], |rows| - 1;
      var some := LessonsRead(front, fp);
      assert forall k :: 0 <= k < last ==> front[k] == rows[k];
      if About(rows[last], fp) {
        at := some + [last];
        GathersMore(rows, fp, some);
        assert LessonsOf(rows, fp) == LessonsOf(front, fp) + [rows[last].id];
      } else {
        at := some;
        GathersSame(rows, fp, some);
        assert LessonsOf(rows, fp) == LessonsOf(front, fp);
      }
    }
  }

  lemma GathersMore(rows: seq<Row>, fp: string, some: seq<nat>)
    requires rows != [] && About(rows[|rows| - 1], fp) && Gathers(rows[..|rows| - 1], fp, some)
    ensures Gathers(rows, fp, some + [|rows| - 1])
  {
    var front, last := rows[..|rows| - 1], |rows| - 1;
    var at := some + [last];
    assert at[|some|] == last;
    forall k: nat | k < |rows| && About(rows[k], fp) ensures k in at {
      if k < last { assert About(front[k], fp) && k in some; }
    }
  }

  lemma GathersSame(rows: seq<Row>, fp: string, some: seq<nat>)
    requires rows != [] && !About(rows[|rows| - 1], fp) && Gathers(rows[..|rows| - 1], fp, some)
    ensures Gathers(rows, fp, some)
  {
    forall k: nat | k < |rows| && About(rows[k], fp) ensures k in some {
      assert About(rows[..|rows| - 1][k], fp);
    }
  }

  /** The first row about `a` comes before the first about `b`. */
  ghost predicate FirstNamedBefore(rows: seq<Row>, a: string, b: string) {
    exists k: nat, l: nat :: k < l && FirstAbout(rows, a, k) && FirstAbout(rows, b, l)
  }

  /** Fingerprints come in the order of the rows that first name them. */
  lemma {:induction false} FirstMentionOrder(rows: seq<Row>, i: nat, j: nat)
    requires i < j < |Dedup(Defects(rows))|
    ensures FirstNamedBefore(rows, Dedup(Defects(rows))[i], Dedup(Defects(rows))[j])
  {
    var front, last := rows[..|rows| - 1], rows[|rows| - 1];
    var some := Dedup(Defects(front));
    if last.finding.Defect? {
      assert Defects(rows) == Defects(front) + [last.finding.fingerprint];
      DedupSnoc(Defects(front), last.finding.fingerprint);
    } else {
      assert Defects(rows) == Defects(front);
    }
    if j < |some| {
      FirstMentionOrder(front, i, j);
      NamedBeforeInFront(rows, some[i], some[j]);
    } else {
      assert some[i] in some;
      NamedBeforeLast(rows, some[i]);
    }
  }

  lemma NamedBeforeInFront(rows: seq<Row>, a: string, b: string)
    requires rows != [] && FirstNamedBefore(rows[..|rows| - 1], a, b)
    ensures FirstNamedBefore(rows, a, b)
  {
    var k: nat, l: nat :| k < l && FirstAbout(rows[..|rows| - 1], a, k) && FirstAbout(rows[..|rows| - 1], b, l);
    assert FirstAbout(rows, a, k) && FirstAbout(rows, b, l);
  }

  lemma NamedBeforeLast(rows: seq<Row>, a: string)
    requires rows != [] && rows[|rows| - 1].finding.Defect?
    requires a in Defects(rows[..|rows| - 1]) && rows[|rows| - 1].finding.fingerprint !in Defects(rows[..|rows| - 1])
    ensures FirstNamedBefore(rows, a, rows[|rows| - 1].finding.fingerprint)
  {
    var front, b := rows[..|rows| - 1], rows[|rows| - 1].finding.fingerprint;
    var k := FirstMention(front, a);
    Unmentioned(front, b);
    assert FirstAbout(rows, a, k);
    assert FirstAbout(rows, b, |front|);
  }

  lemma {:induction false} FirstMention(rows: seq<Row>, fp: string) returns (k: nat)
    requires fp in Defects(rows)
    ensures FirstAbout(rows, fp, k)
  {
    var front := rows[..|rows| - 1];
    if fp in Defects(front) {
      k := FirstMention(front, fp);
    } else {
      k := |front|;
      Unmentioned(front, fp);
    }
  }

  lemma {:induction false} Unmentioned(rows: seq<Row>, fp: string)
    ensures fp in Defects(rows) <==> exists k :: 0 <= k < |rows| && About(rows[k], fp)
  {
    if rows != [] {
      var front := rows[..|rows| - 1];
      Unmentioned(front, fp);
      assert forall k :: 0 <= k < |front| ==> front[k] == rows[k];
      if fp in Defects(front) {
        var k :| 0 <= k < |front| && About(front[k], fp);
        assert About(rows[k], fp);
      }
    }
  }

  // --- what a plan says -----------------------------------------------------------------

  /** An item says where the other scopes left its fingerprint, what the first row
      about it names as target, and the lessons of the rows about it. */
  ghost predicate ItemReads(log: seq<Entry>, scope: string, rows: seq<Row>, i: Item) {
    && (i.disposition == WasClosed <==> StandsClosed(log, Some(scope), i.fingerprint))
    && (i.disposition == Matched <==> StandsOpen(log, Some(scope), i.fingerprint))
    && (forall k: nat :: LastWord(log, Some(scope), i.fingerprint, k) ==> Reads(log[k].kind, i.prior))
    && (exists k: nat :: FirstAbout(rows, i.fingerprint, k) && i.target == rows[k].finding.target)
    && exists at :: Gathers(rows, i.fingerprint, at) && CountsLessons(log, scope, rows, i, at)
  }

  ghost predicate CountsLessons(log: seq<Entry>, scope: string, rows: seq<Row>, i: Item, at: seq<nat>) {
    && at != [] && (forall n :: 0 <= n < |at| ==> at[n] < |rows|)
    && i.lessons == Join(IdsAt(rows, at), ',')
    && i.occurrences == |at| + |Sightings(log, Some(scope), i.fingerprint)|
  }

  lemma ItemRead(log: seq<Entry>, scope: string, rows: seq<Row>, fp: string)
    requires fp in Defects(rows)
    ensures ItemReads(log, scope, rows, ItemFor(log, scope, rows, fp))
  {
    StandingRead(log, Some(scope), fp);
    StandingDecides(log, Some(scope), fp);
    SeenRead(log, Some(scope), fp);
    var k := FirstMention(rows, fp);
    TargetRead(rows, fp, k);
    DefectsHaveLessons(rows, fp);
    var at := LessonsRead(rows, fp);
    assert CountsLessons(log, scope, rows, ItemFor(log, scope, rows, fp), at);
  }

  /** The outcome of a plan: there is a regression exactly when some row names a
      defect that the other scopes left closed, and nothing to triage exactly when
      there are no rows. */
  lemma PlanDecides(log: seq<Entry>, scope: string, rows: seq<Row>)
    ensures var o := PlanFor(log, scope, rows).outcome;
      && (o == Regressions <==> exists k :: 0 <= k < |rows| && rows[k].finding.Defect? && StandsClosed(log, Some(scope), rows[k].finding.fingerprint))
      && (o == NothingToTriage <==> |rows| == 0)
  {
    var plan := PlanFor(log, scope, rows);
    var fps := Dedup(Defects(rows));
    forall k | 0 <= k < |rows| && rows[k].finding.Defect? && StandsClosed(log, Some(scope), rows[k].finding.fingerprint)
      ensures plan.outcome == Regressions
    {
      var fp := rows[k].finding.fingerprint;
      Unmentioned(rows, fp);
      assert About(rows[k], fp) && fp in fps;
      var n :| 0 <= n < |fps| && fps[n] == fp;
      ItemRead(log, scope, rows, fp);
      assert plan.items[n] in plan.items && plan.items[n].disposition == WasClosed;
    }
    if plan.outcome == Regressions {
      var i :| i in plan.items && i.disposition == WasClosed;
      ItemRead(log, scope, rows, i.fingerprint);
      Unmentioned(rows, i.fingerprint);
      var k :| 0 <= k < |rows| && About(rows[k], i.fingerprint);
      assert rows[k].finding.Defect? && StandsClosed(log, Some(scope), rows[k].finding.fingerprint);
    }
  }

  /** The items of a plan: one for each fingerprint some row names, in the order
      the rows first name them, each as the log and the rows say. */
  lemma PlanReads(log: seq<Entry>, scope: string, rows: seq<Row>)
    ensures var items := PlanFor(log, scope, rows).items;
      && (forall i :: i in items ==> ItemReads(log, scope, rows, i))
      && (forall k :: 0 <= k < |rows| && rows[k].finding.Defect? ==> exists i :: i in items && i.fingerprint == rows[k].finding.fingerprint)
      && forall m: nat, n: nat :: m < n < |items| ==> FirstNamedBefore(rows, items[m].fingerprint, items[n].fingerprint)
  {
    var items := PlanFor(log, scope, rows).items;
    var fps := Dedup(Defects(rows));
    forall i | i in items ensures ItemReads(log, scope, rows, i) {
      ItemRead(log, scope, rows, i.fingerprint);
    }
    forall k | 0 <= k < |rows| && rows[k].finding.Defect? ensures exists i :: i in items && i.fingerprint == rows[k].finding.fingerprint {
      Unmentioned(rows, rows[k].finding.fingerprint);
      assert About(rows[k], rows[k].finding.fingerprint) && rows[k].finding.fingerprint in fps;
      var n :| 0 <= n < |fps| && fps[n] == rows[k].finding.fingerprint;
      assert items[n] in items;
    }
    forall m: nat, n: nat | m < n < |items| ensures FirstNamedBefore(rows, items[m].fingerprint, items[n].fingerprint) {
      FirstMentionOrder(rows, m, n);
    }
  }

  // --- what a disposal and a fix write ------------------------------------------------

  /** What one item asks to have on record. */
  predicate Asked(scope: string, i: Item, e: Entry) {
    && e.fingerprint == i.fingerprint && e.scope == scope
    && match e.kind
       case Opened => i.disposition == New && e.lesson.None? && e.target == i.target
       case Reopened => i.disposition == WasClosed && e.lesson.None? && e.target == i.target
       case Seen => e.lesson.Some? && e.lesson.value in Split(i.lessons, ',') && e.target == ""
       case _ => false
  }

  /** The log already holds this scope's line of that kind, about the same lesson. */
  predicate OnFile(log: seq<Entry>, e: Entry) {
    exists h :: h in log && h.scope == e.scope && h.fingerprint == e.fingerprint && h.kind == e.kind && h.lesson == e.lesson
  }

  /** A disposal appends for each item exactly what it asks and the log lacks. */
  lemma EntriesExact(log: seq<Entry>, scope: string, i: Item, e: Entry)
    ensures e in EntriesFor(log, scope, i) <==> Asked(scope, i, e) && !OnFile(log, e)
  {
    SeenExact(log, scope, i.fingerprint, Split(i.lessons, ','), e);
    var status := StatusEntries(log, scope, i);
    assert e in EntriesFor(log, scope, i) <==> e in status || e in SeenEntries(log, scope, i.fingerprint, Split(i.lessons, ','));
    assert OnFile(log, e) <==> Has(log, e.scope, e.fingerprint, e.kind, e.lesson);
  }

  lemma {:induction false} SeenExact(log: seq<Entry>, scope: string, fp: string, ids: seq<string>, e: Entry)
    ensures e in SeenEntries(log, scope, fp, ids) <==>
      && e.fingerprint == fp && e.scope == scope && e.kind == Seen && e.target == ""
      && e.lesson.Some? && e.lesson.value in ids && !OnFile(log, e)
  {
    if ids != [] {
      var front, id := ids[..|ids| - 1], ids[|ids| - 1];
      SeenExact(log, scope, fp, front, e);
      assert ids == front + [id];
      assert OnFile(log, e) <==> Has(log, e.scope, e.fingerprint, e.kind, e.lesson);
    }
  }

  /** A scope's fix is appended once: `fixed`, `mitigated`, or `retired` for a defect
      that will not be fixed; from then the full log reads it so. */
  lemma FixRecorded(log: seq<Entry>, scope: string, fp: string, f: Fix)
    ensures var after := Recorded(log, scope, fp, f);
      var kind := if f.WasFixed? then Fixed else if f.WasMitigated? then Mitigated else Retired;
      && (after == log <==> exists e :: e in log && e.scope == scope && e.fingerprint == fp && e.kind == kind)
      && (after != log ==>
           && |after| == |log| + 1 && after[..|log|] == log
           && after[|log|] == Entry(fp, kind, scope, None, "")
           && LastWord(after, None, fp, |log|) && StandsClosed(after, None, fp))
  {
    var after := Recorded(log, scope, fp, f);
    if after != log {
      assert LastWord(after, None, fp, |log|);
    }
  }

  /** The recurrence law: once one scope has recorded a fix, another scope's batch
      that names the defect again is a regression. */
  lemma RecurrenceIsRegression(log: seq<Entry>, fixer: string, fp: string, f: Fix, scope: string, rows: seq<Row>, k: nat)
    requires fixer != scope && Recorded(log, fixer, fp, f) != log
    requires k < |rows| && rows[k].finding.Defect? && rows[k].finding.fingerprint == fp
    ensures PlanFor(Recorded(log, fixer, fp, f), scope, rows).outcome == Regressions
  {
    var after := Recorded(log, fixer, fp, f);
    FixRecorded(log, fixer, fp, f);
    assert LastWord(after, Some(scope), fp, |log|);
    PlanDecides(after, scope, rows);
  }

  // --- what looks alike ------------------------------------------------------------------

  /** Two names look alike exactly when they share at least as many words as they
      do not. */
  lemma SimilarIff(a: string, b: string)
    ensures var x, y := WordsOf(a), WordsOf(b); Similar(a, b) <==> |x * y| >= |x - y| + |y - x|
  {
    var x, y := WordsOf(a), WordsOf(b);
    assert x + y == (x * y) + (x - y) + (y - x);
  }
}
