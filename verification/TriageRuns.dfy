/** Whole histories of the registry: any mix of disposals and recorded fixes, by
    any scopes, in any order. */
module TriageRuns {
  import opened Prelude
  import opened Registry
  import opened Triage

  datatype Act =
    | Dispose(scope: string, lessons: seq<Lesson>, rows: seq<Row>)
    | RecordFix(scope: string, fingerprint: string, fix: Fix)

  ghost function Step(p: Patterns, log: seq<Entry>, act: Act): seq<Entry> {
    match act
    case Dispose(scope, lessons, rows) => Disposed(p, log, scope, lessons, rows)
    case RecordFix(scope, fp, fix) => Recorded(log, scope, fp, fix)
  }

  ghost function After(p: Patterns, log: seq<Entry>, acts: seq<Act>): seq<Entry>
    decreases |acts|
  {
    if acts == [] then log else After(p, Step(p, log, acts[0]), acts[1..])
  }

  // --- what a disposal appends ------------------------------------------------------

  /** Entries `scope` may append about `fp`: no status entry names a lesson. */
  predicate OwnEntry(e: Entry, scope: string, fp: string) {
    e.scope == scope && e.fingerprint == fp && (e.kind != Seen ==> e.lesson.None?)
  }

  lemma {:induction false} SeenEntriesOwn(log: seq<Entry>, scope: string, fp: string, ids: seq<string>)
    ensures forall e :: e in SeenEntries(log, scope, fp, ids) ==> OwnEntry(e, scope, fp) && e.kind == Seen
  {
    if ids != [] {
      SeenEntriesOwn(log, scope, fp, ids[..|ids| - 1]);
    }
  }

  lemma {:induction false} SeenIsNoStatus(es: seq<Entry>, fp: string)
    requires forall e :: e in es ==> e.kind == Seen
    ensures StatusKinds(es, fp) == []
  {
    if es != [] {
      assert es[|es| - 1] in es;
      SeenIsNoStatus(es[..|es| - 1], fp);
    }
  }

  lemma HasMore(log: seq<Entry>, now: seq<Entry>, scope: string, fp: string, k: Kind, lesson: Option<string>)
    requires Has(log, scope, fp, k, lesson) && forall e :: e in log ==> e in now
    ensures Has(now, scope, fp, k, lesson)
  {
    var e :| e in log && e.scope == scope && e.fingerprint == fp && e.kind == k && e.lesson == lesson;
    assert e in now;
  }

  lemma {:induction false} SeenEntriesHave(log: seq<Entry>, scope: string, fp: string, ids: seq<string>, id: string)
    requires id in ids
    ensures Has(log + SeenEntries(log, scope, fp, ids), scope, fp, Seen, Some(id))
  {
    var front, last := ids[..|ids| - 1], ids[|ids| - 1];
    var now := log + SeenEntries(log, scope, fp, ids);
    if id == last {
      if Has(log, scope, fp, Seen, Some(id)) {
        HasMore(log, now, scope, fp, Seen, Some(id));
      } else {
        assert Entry(fp, Seen, scope, Some(id), "") in now;
      }
    } else {
      SeenEntriesHave(log, scope, fp, front, id);
      HasMore(log + SeenEntries(log, scope, fp, front), now, scope, fp, Seen, Some(id));
    }
  }

  lemma EntriesForOwn(log: seq<Entry>, scope: string, item: Item)
    ensures forall e :: e in EntriesFor(log, scope, item) ==> OwnEntry(e, scope, item.fingerprint)
  {
    SeenEntriesOwn(log, scope, item.fingerprint, Split(item.lessons, ','));
  }

  lemma {:induction false} NewEntriesOwn(log: seq<Entry>, scope: string, items: seq<Item>)
    ensures forall e :: e in NewEntries(log, scope, items)
              ==> exists i :: i in items && OwnEntry(e, scope, i.fingerprint)
  {
    if items != [] {
      var last := items[|items| - 1];
      NewEntriesOwn(log, scope, items[..|items| - 1]);
      EntriesForOwn(log, scope, last);
      assert last in items;
      assert forall i :: i in items[..|items| - 1] ==> i in items;
    }
  }

  ghost predicate OnePerFingerprint(items: seq<Item>) {
    forall i, j :: 0 <= i < j < |items| ==> items[i].fingerprint != items[j].fingerprint
  }

  lemma {:induction false} NothingAbout(es: seq<Entry>, fp: string)
    requires forall e :: e in es ==> e.fingerprint != fp
    ensures StatusKinds(es, fp) == [] && forall h :: SeenOf(es, h, fp) == 0
  {
    if es != [] {
      assert es[|es| - 1] in es;
      NothingAbout(es[..|es| - 1], fp);
    }
  }

  lemma NothingNewAbout(log: seq<Entry>, scope: string, items: seq<Item>, fp: string)
    requires forall i :: i in items ==> i.fingerprint != fp
    ensures StatusKinds(NewEntries(log, scope, items), fp) == []
    ensures SeenOf(NewEntries(log, scope, items), None, fp) == 0
  {
    NewEntriesOwn(log, scope, items);
    NothingAbout(NewEntries(log, scope, items), fp);
  }

  /** With one item per fingerprint, what is appended about it is that item's. */
  lemma {:induction false} NewAbout(log: seq<Entry>, scope: string, items: seq<Item>, k: nat)
    requires OnePerFingerprint(items) && k < |items|
    ensures var fp := items[k].fingerprint; var own := EntriesFor(log, scope, items[k]);
      && StatusKinds(NewEntries(log, scope, items), fp) == StatusKinds(own, fp)
      && SeenOf(NewEntries(log, scope, items), None, fp) == SeenOf(own, None, fp)
  {
    var fp := items[k].fingerprint;
    var front, last := items[..|items| - 1], items[|items| - 1];
    var before, own := NewEntries(log, scope, front), EntriesFor(log, scope, last);
    StatusKindsAppend(before, own, fp);
    SeenAppend(before, own, None, fp);
    if k == |items| - 1 {
      NothingNewAbout(log, scope, front, fp);
      assert StatusKinds(before + own, fp) == [] + StatusKinds(own, fp);
    } else {
      NewAbout(log, scope, front, k);
      EntriesForOwn(log, scope, last);
      NothingAbout(own, fp);
      assert StatusKinds(before + own, fp) == StatusKinds(before, fp) + [];
    }
  }

  lemma {:induction false} NewIncludes(log: seq<Entry>, scope: string, items: seq<Item>, k: nat)
    requires k < |items|
    ensures forall e :: e in EntriesFor(log, scope, items[k]) ==> e in NewEntries(log, scope, items)
  {
    if k < |items| - 1 {
      NewIncludes(log, scope, items[..|items| - 1], k);
    }
  }

  lemma StatusOfItem(log: seq<Entry>, scope: string, item: Item)
    ensures StatusKinds(EntriesFor(log, scope, item), item.fingerprint)
         == StatusKinds(StatusEntries(log, scope, item), item.fingerprint)
    ensures var k := StatusFor(item.disposition);
      StatusKinds(StatusEntries(log, scope, item), item.fingerprint)
      == if k.Some? && !Has(log, scope, item.fingerprint, k.value, None) then [k.value] else []
  {
    var fp, ids := item.fingerprint, Split(item.lessons, ',');
    SeenEntriesOwn(log, scope, fp, ids);
    SeenIsNoStatus(SeenEntries(log, scope, fp, ids), fp);
    StatusKindsAppend(StatusEntries(log, scope, item), SeenEntries(log, scope, fp, ids), fp);
  }

  lemma PlanItems(log: seq<Entry>, scope: string, rows: seq<Row>)
    ensures OnePerFingerprint(PlanFor(log, scope, rows).items)
    ensures forall fp :: fp in Defects(rows)
              ==> exists k :: 0 <= k < |PlanFor(log, scope, rows).items|
                              && PlanFor(log, scope, rows).items[k] == ItemFor(log, scope, rows, fp)
    ensures forall i :: i in PlanFor(log, scope, rows).items
              ==> i.fingerprint in Defects(rows) && i == ItemFor(log, scope, rows, i.fingerprint)
  {
    var fps, items := Dedup(Defects(rows)), PlanFor(log, scope, rows).items;
    forall fp | fp in Defects(rows) ensures exists k :: 0 <= k < |items| && items[k] == ItemFor(log, scope, rows, fp) {
      assert fp in fps;
      var k :| 0 <= k < |fps| && fps[k] == fp;
      assert items[k] == ItemFor(log, scope, rows, fp);
    }
  }

  // --- histories stay good ----------------------------------------------------------

  ghost predicate GoodLog(log: seq<Entry>) {
    StatusPlain(log) && forall fp :: GoodHistory(StatusKinds(log, fp))
  }

  /** A disposal decides while blind to its own scope's entries, and still every
      history it extends stays good. */
  lemma DisposeKeepsHistories(p: Patterns, log: seq<Entry>, scope: string, lessons: seq<Lesson>, rows: seq<Row>)
    requires GoodLog(log)
    ensures GoodLog(Disposed(p, log, scope, lessons, rows))
  {
    if Classified(p, log, lessons, rows) {
      var items := PlanFor(log, scope, rows).items;
      var more := NewEntries(log, scope, items);
      PlanItems(log, scope, rows);
      NewEntriesOwn(log, scope, items);
      forall fp ensures GoodHistory(StatusKinds(log + more, fp)) {
        ItemsKeepHistory(log, scope, items, fp);
      }
    }
  }

  lemma ItemsKeepHistory(log: seq<Entry>, scope: string, items: seq<Item>, fp: string)
    requires GoodLog(log) && OnePerFingerprint(items)
    requires forall i :: i in items ==> i.disposition == Judged(StandingOf(log, Some(scope), i.fingerprint))
    ensures GoodHistory(StatusKinds(log + NewEntries(log, scope, items), fp))
  {
    StatusKindsAppend(log, NewEntries(log, scope, items), fp);
    if i :| 0 <= i < |items| && items[i].fingerprint == fp {
      NewAbout(log, scope, items, i);
      StatusOfItem(log, scope, items[i]);
      ItemKeepsHistory(log, scope, items[i]);
    } else {
      NothingNewAbout(log, scope, items, fp);
      assert StatusKinds(log, fp) + [] == StatusKinds(log, fp);
    }
  }

  lemma ItemKeepsHistory(log: seq<Entry>, scope: string, item: Item)
    requires GoodLog(log) && item.disposition == Judged(StandingOf(log, Some(scope), item.fingerprint))
    ensures GoodHistory(StatusKinds(log, item.fingerprint)
                        + StatusKinds(StatusEntries(log, scope, item), item.fingerprint))
  {
    var fp := item.fingerprint;
    var h := StatusKinds(log, fp);
    StatusOfItem(log, scope, item);
    assert GoodHistory(h) && h + [] == h;
    if item.disposition == New && !Has(log, scope, fp, Opened, None) {
      NewMeansUntouched(log, scope, fp);
      assert h + [Opened] == [Opened];
    } else if item.disposition == WasClosed && !Has(log, scope, fp, Reopened, None) {
      ReopenMeansClosed(log, scope, fp);
      ReopenedStaysGood(h);
    }
  }

  lemma ReopenedStaysGood(h: seq<Kind>)
    requires GoodHistory(h) && h != [] && Closing(h[|h| - 1])
    ensures GoodHistory(h + [Reopened])
  {
  }

  /** Some status entry of `fp` is on record. */
  ghost predicate OnRecord(log: seq<Entry>, fp: string) { StatusKinds(log, fp) != [] }

  lemma FixExtends(log: seq<Entry>, e: Entry)
    requires e.kind != Seen
    ensures StatusKinds(log + [e], e.fingerprint) == StatusKinds(log, e.fingerprint) + [e.kind]
    ensures forall fp :: fp != e.fingerprint ==> StatusKinds(log + [e], fp) == StatusKinds(log, fp)
  {
    assert (log + [e])[..|log|] == log;
  }

  lemma FixKeepsHistory(log: seq<Entry>, scope: string, fp: string, fix: Fix)
    requires GoodLog(log) && OnRecord(log, fp)
    ensures GoodLog(Recorded(log, scope, fp, fix))
  {
    var e := Entry(fp, FixKind(fix), scope, None, "");
    FixExtends(log, e);
    forall x ensures GoodHistory(StatusKinds(log + [e], x)) {
      assert GoodHistory(StatusKinds(log, x));
    }
  }

  lemma FixBreaksHistory(log: seq<Entry>, scope: string, fp: string, fix: Fix)
    requires !OnRecord(log, fp)
    ensures Misbegun(Recorded(log, scope, fp, fix), fp)
  {
    if HasEvent(log, scope, fp, FixKind(fix)) {
      EventOnRecord(log, scope, fp, FixKind(fix));
    }
    FixExtends(log, Entry(fp, FixKind(fix), scope, None, ""));
  }

  lemma {:induction false} EventOnRecord(log: seq<Entry>, scope: string, fp: string, k: Kind)
    requires HasEvent(log, scope, fp, k) && k != Seen
    ensures OnRecord(log, fp)
  {
    var front, e := log[..|log| - 1], log[|log| - 1];
    if !(e.scope == scope && e.fingerprint == fp && e.kind == k) {
      var x :| x in log && x.scope == scope && x.fingerprint == fp && x.kind == k;
      assert x in front;
      EventOnRecord(front, scope, fp, k);
    }
  }

  /** A history that begins with anything but `opened`. */
  ghost predicate Misbegun(log: seq<Entry>, fp: string) {
    StatusKinds(log, fp) != [] && StatusKinds(log, fp)[0] != Opened
  }

  lemma {:induction false} MisbegunForever(p: Patterns, log: seq<Entry>, acts: seq<Act>, fp: string)
    requires Misbegun(log, fp)
    ensures Misbegun(After(p, log, acts), fp)
    decreases |acts|
  {
    if acts != [] {
      var next := Step(p, log, acts[0]);
      assert log <= next;
      assert next == log + next[|log|..];
      StatusKindsAppend(log, next[|log|..], fp);
      MisbegunForever(p, next, acts[1..], fp);
    }
  }

  /** Every fix of the run is recorded against a fingerprint already on record. */
  ghost predicate FixesFollowOpening(p: Patterns, log: seq<Entry>, acts: seq<Act>)
    decreases |acts|
  {
    acts == []
    || (&& (acts[0].RecordFix? ==> OnRecord(log, acts[0].fingerprint))
        && FixesFollowOpening(p, Step(p, log, acts[0]), acts[1..]))
  }

  /** Over every run, from any good log: all histories end good exactly when no
      fix was recorded for a fingerprint nobody had opened. */
  lemma {:induction false} HistoriesGoodIff(p: Patterns, log: seq<Entry>, acts: seq<Act>)
    requires GoodLog(log)
    ensures GoodLog(After(p, log, acts)) <==> FixesFollowOpening(p, log, acts)
    decreases |acts|
  {
    if acts != [] {
      var next := Step(p, log, acts[0]);
      match acts[0]
      case Dispose(scope, lessons, rows) =>
        DisposeKeepsHistories(p, log, scope, lessons, rows);
        HistoriesGoodIff(p, next, acts[1..]);
      case RecordFix(scope, fp, fix) =>
        if OnRecord(log, fp) {
          FixKeepsHistory(log, scope, fp, fix);
          HistoriesGoodIff(p, next, acts[1..]);
        } else {
          FixBreaksHistory(log, scope, fp, fix);
          MisbegunForever(p, next, acts[1..], fp);
          assert !GoodHistory(StatusKinds(After(p, log, acts), fp));
        }
    }
  }

  // --- disposing twice --------------------------------------------------------------

  /** Everything an item calls for is on the log. */
  ghost predicate OnLog(log: seq<Entry>, scope: string, i: Item) {
    && (StatusFor(i.disposition).Some? ==> Has(log, scope, i.fingerprint, StatusFor(i.disposition).value, None))
    && (forall id :: id in Split(i.lessons, ',') ==> Has(log, scope, i.fingerprint, Seen, Some(id)))
  }

  lemma DisposedOnLog(log: seq<Entry>, scope: string, items: seq<Item>, k: nat)
    requires k < |items|
    ensures OnLog(log + NewEntries(log, scope, items), scope, items[k])
  {
    var i := items[k];
    var fp, status := i.fingerprint, StatusFor(i.disposition);
    var now := log + NewEntries(log, scope, items);
    NewIncludes(log, scope, items, k);
    if status.Some? {
      if Has(log, scope, fp, status.value, None) {
        HasMore(log, now, scope, fp, status.value, None);
      } else {
        var e := Entry(fp, status.value, scope, None, i.target);
        assert EntriesFor(log, scope, i)[0] == e;
        assert e in now;
      }
    }
    var ids := Split(i.lessons, ',');
    forall id | id in ids ensures Has(now, scope, fp, Seen, Some(id)) {
      SeenEntriesHave(log, scope, fp, ids, id);
      HasMore(log + SeenEntries(log, scope, fp, ids), now, scope, fp, Seen, Some(id));
    }
  }

  lemma OnLogIsKnown(log: seq<Entry>, scope: string, i: Item)
    requires OnLog(log, scope, i)
    ensures Known(log, None, i.fingerprint)
  {
    var id := Split(i.lessons, ',')[0];
    assert Has(log, scope, i.fingerprint, Seen, Some(id));
    var e :| e in log && e.scope == scope && e.fingerprint == i.fingerprint && e.kind == Seen && e.lesson == Some(id);
    assert Visible(e, None, i.fingerprint);
  }

  lemma {:induction false} NoSeenLeft(log: seq<Entry>, scope: string, fp: string, ids: seq<string>)
    requires forall id :: id in ids ==> Has(log, scope, fp, Seen, Some(id))
    ensures SeenEntries(log, scope, fp, ids) == []
  {
    if ids != [] {
      NoSeenLeft(log, scope, fp, ids[..|ids| - 1]);
      assert ids[|ids| - 1] in ids;
    }
  }

  lemma {:induction false} NothingLeft(log: seq<Entry>, scope: string, items: seq<Item>)
    requires forall i :: i in items ==> OnLog(log, scope, i)
    ensures NewEntries(log, scope, items) == []
  {
    if items != [] {
      var last := items[|items| - 1];
      assert OnLog(log, scope, last);
      NothingLeft(log, scope, items[..|items| - 1]);
      NoSeenLeft(log, scope, last.fingerprint, Split(last.lessons, ','));
    }
  }

  /** Every fingerprint of an accepted classification is well formed. */
  lemma {:induction false} DefectsWellFormed(p: Patterns, log: seq<Entry>, rows: seq<Row>)
    requires RowsOk(p, log, rows)
    ensures forall fp :: fp in Defects(rows) ==> p.fingerprint(fp)
  {
    if rows != [] {
      var front := rows[..|rows| - 1];
      assert forall i :: 0 <= i < |front| ==> front[..i] == rows[..i];
      assert RowsOk(p, log, front) by {
        forall i | 0 <= i < |front| ensures RowOk(p, log, front[..i], front[i]) {
          assert RowOk(p, log, rows[..i], rows[i]);
        }
      }
      DefectsWellFormed(p, log, front);
      assert RowOk(p, log, rows[..|front|], rows[|front|]);
    }
  }

  lemma {:induction false} RowAmongDefects(rows: seq<Row>, i: nat)
    requires i < |rows| && rows[i].finding.Defect?
    ensures rows[i].finding.fingerprint in Defects(rows)
  {
    if i < |rows| - 1 {
      RowAmongDefects(rows[..|rows| - 1], i);
    }
  }

  lemma PlanIgnoresOwn(log: seq<Entry>, scope: string, rows: seq<Row>, more: seq<Entry>)
    requires forall e :: e in more ==> e.scope == scope
    ensures PlanFor(log + more, scope, rows) == PlanFor(log, scope, rows)
  {
    var fps := Dedup(Defects(rows));
    forall fp | fp in fps ensures ItemFor(log + more, scope, rows, fp) == ItemFor(log, scope, rows, fp) {
      HiddenAppend(log, more, scope, fp);
    }
    assert PlanFor(log + more, scope, rows).items == PlanFor(log, scope, rows).items;
  }

  lemma StillClassified(p: Patterns, log: seq<Entry>, more: seq<Entry>, lessons: seq<Lesson>, rows: seq<Row>)
    requires Classified(p, log, lessons, rows)
    requires forall e :: e in more ==> e.fingerprint in Defects(rows)
    requires forall fp :: fp in Defects(rows) ==> Known(log + more, None, fp)
    ensures Classified(p, log + more, lessons, rows)
  {
    DefectsWellFormed(p, log, rows);
    forall i | 0 <= i < |rows| ensures RowOk(p, log + more, rows[..i], rows[i]) {
      assert RowOk(p, log, rows[..i], rows[i]);
      if rows[i].finding.Defect? {
        RowAmongDefects(rows, i);
      }
    }
  }

  /** Running the same disposal again plans the same and appends nothing,
      whatever the log holds. */
  lemma DisposeAgain(p: Patterns, log: seq<Entry>, scope: string, lessons: seq<Lesson>, rows: seq<Row>)
    ensures var now := Disposed(p, log, scope, lessons, rows);
      && (Classified(p, now, lessons, rows) <==> Classified(p, log, lessons, rows))
      && PlanFor(now, scope, rows) == PlanFor(log, scope, rows)
      && Disposed(p, now, scope, lessons, rows) == now
  {
    if Classified(p, log, lessons, rows) {
      var items := PlanFor(log, scope, rows).items;
      var more := NewEntries(log, scope, items);
      PlanItems(log, scope, rows);
      NewEntriesOwn(log, scope, items);
      PlanIgnoresOwn(log, scope, rows, more);
      AllOnLog(log, scope, items);
      NothingLeft(log + more, scope, items);
      StillClassified(p, log, more, lessons, rows);
      assert log + more + [] == log + more;
    }
  }

  lemma AllOnLog(log: seq<Entry>, scope: string, items: seq<Item>)
    ensures var now := log + NewEntries(log, scope, items);
      forall i :: i in items ==> OnLog(now, scope, i) && Known(now, None, i.fingerprint)
  {
    var now := log + NewEntries(log, scope, items);
    forall i | i in items ensures OnLog(now, scope, i) && Known(now, None, i.fingerprint) {
      var k :| 0 <= k < |items| && items[k] == i;
      DisposedOnLog(log, scope, items, k);
      OnLogIsKnown(now, scope, i);
    }
  }

  // --- what the next check finds ----------------------------------------------------

  lemma {:induction false} StandingIsLastStatus(log: seq<Entry>, fp: string)
    ensures var h := StatusKinds(log, fp);
      StandingOf(log, None, fp) == if h == [] then NoStatus else StandingAfter(h[|h| - 1], NoStatus)
  {
    if log != [] {
      StandingIsLastStatus(log[..|log| - 1], fp);
    }
  }

  /** The scope has already recorded the status this item calls for. */
  ghost predicate Already(log: seq<Entry>, scope: string, i: Item) {
    StatusFor(i.disposition).Some? && Has(log, scope, i.fingerprint, StatusFor(i.disposition).value, None)
  }

  lemma StandingAfterDisposal(log: seq<Entry>, scope: string, items: seq<Item>, k: nat)
    requires OnePerFingerprint(items) && k < |items| && items[k].disposition != Matched
    ensures StandingOf(log + NewEntries(log, scope, items), None, items[k].fingerprint)
         == if Already(log, scope, items[k]) then StandingOf(log, None, items[k].fingerprint) else Open
  {
    var i, now := items[k], log + NewEntries(log, scope, items);
    StatusAfterDisposal(log, scope, items, k);
    StandingIsLastStatus(now, i.fingerprint);
    StandingIsLastStatus(log, i.fingerprint);
  }

  lemma StatusAfterDisposal(log: seq<Entry>, scope: string, items: seq<Item>, k: nat)
    requires OnePerFingerprint(items) && k < |items| && items[k].disposition != Matched
    ensures var fp := items[k].fingerprint;
      StatusKinds(log + NewEntries(log, scope, items), fp)
      == if Already(log, scope, items[k]) then StatusKinds(log, fp)
         else StatusKinds(log, fp) + [StatusFor(items[k].disposition).value]
  {
    var fp := items[k].fingerprint;
    NewAbout(log, scope, items, k);
    StatusOfItem(log, scope, items[k]);
    StatusKindsAppend(log, NewEntries(log, scope, items), fp);
    assert StatusKinds(log, fp) + [] == StatusKinds(log, fp);
  }

  /** The step's own check accepts what `dispose` just did, unless a status this
      scope had already recorded was closed again since. */
  lemma DisposeAcceptedIff(p: Patterns, log: seq<Entry>, scope: string, lessons: seq<Lesson>, rows: seq<Row>)
    requires Classified(p, log, lessons, rows)
    ensures var plan := PlanFor(log, scope, rows);
      DisposedOk(p, Disposed(p, log, scope, lessons, rows), scope, lessons, rows, Some(plan))
      <==> forall i :: i in plan.items && Already(log, scope, i) ==> StandingOf(log, None, i.fingerprint) == Open
  {
    var items := PlanFor(log, scope, rows).items;
    var now := Disposed(p, log, scope, lessons, rows);
    DisposeAgain(p, log, scope, lessons, rows);
    PlanItems(log, scope, rows);
    forall i | i in items && i.disposition != Matched
      ensures StandingOf(now, None, i.fingerprint)
           == if Already(log, scope, i) then StandingOf(log, None, i.fingerprint) else Open
    {
      var k :| 0 <= k < |items| && items[k] == i;
      StandingAfterDisposal(log, scope, items, k);
    }
  }

  ghost predicate UnusedScope(log: seq<Entry>, scope: string) {
    forall e :: e in log ==> e.scope != scope
  }

  lemma {:induction false} UnusedScopeHidesNothing(log: seq<Entry>, scope: string, fp: string)
    requires UnusedScope(log, scope)
    ensures SeenOf(log, Some(scope), fp) == SeenOf(log, None, fp)
  {
    if log != [] {
      assert log[|log| - 1] in log;
      UnusedScopeHidesNothing(log[..|log| - 1], scope, fp);
    }
  }

  lemma {:induction false} SeenEntriesCount(log: seq<Entry>, scope: string, fp: string, ids: seq<string>)
    requires UnusedScope(log, scope)
    ensures SeenOf(SeenEntries(log, scope, fp, ids), None, fp) == |ids|
  {
    if ids != [] {
      var front := ids[..|ids| - 1];
      SeenEntriesCount(log, scope, fp, front);
      SeenAppend(SeenEntries(log, scope, fp, front), [Entry(fp, Seen, scope, Some(ids[|ids| - 1]), "")], None, fp);
    }
  }

  lemma {:induction false} LessonIdsPlain(rows: seq<Row>, fp: string)
    requires forall r :: r in rows ==> ',' !in r.id
    ensures forall id :: id in LessonsOf(rows, fp) ==> ',' !in id
  {
    if rows != [] {
      assert rows[|rows| - 1] in rows;
      LessonIdsPlain(rows[..|rows| - 1], fp);
    }
  }

  lemma StatusCountsNothing(es: seq<Entry>, fp: string)
    requires |es| <= 1 && forall e :: e in es ==> e.kind != Seen
    ensures SeenOf(es, None, fp) == 0
  {
    if es != [] { assert es[0] in es && es[..0] == []; }
  }

  lemma SeenOfBoth(log: seq<Entry>, scope: string, item: Item, ids: seq<string>)
    requires UnusedScope(log, scope)
    ensures SeenOf(StatusEntries(log, scope, item) + SeenEntries(log, scope, item.fingerprint, ids), None, item.fingerprint) == |ids|
  {
    var fp, status := item.fingerprint, StatusEntries(log, scope, item);
    SeenAppend(status, SeenEntries(log, scope, fp, ids), None, fp);
    SeenEntriesCount(log, scope, fp, ids);
    StatusCountsNothing(status, fp);
  }

  lemma SeenOfItem(log: seq<Entry>, scope: string, item: Item, ids: seq<string>)
    requires UnusedScope(log, scope) && ids != [] && item.lessons == Join(ids, ',')
    requires forall id :: id in ids ==> ',' !in id
    ensures SeenOf(EntriesFor(log, scope, item), None, item.fingerprint) == |ids|
  {
    SplitJoin(ids, ',');
    SeenOfBoth(log, scope, item, ids);
  }

  lemma OccurrencesCounted(log: seq<Entry>, scope: string, rows: seq<Row>, items: seq<Item>, k: nat)
    requires UnusedScope(log, scope) && forall r :: r in rows ==> ',' !in r.id
    requires OnePerFingerprint(items) && k < |items| && items[k].fingerprint in Defects(rows)
    requires items[k] == ItemFor(log, scope, rows, items[k].fingerprint)
    ensures items[k].occurrences == SeenOf(log + NewEntries(log, scope, items), None, items[k].fingerprint)
  {
    var fp := items[k].fingerprint;
    NewAbout(log, scope, items, k);
    SeenAppend(log, NewEntries(log, scope, items), None, fp);
    UnusedScopeHidesNothing(log, scope, fp);
    LessonIdsPlain(rows, fp);
    DefectsHaveLessons(rows, fp);
    SeenOfItem(log, scope, items[k], LessonsOf(rows, fp));
  }

  /** A scope that disposes for the first time: its check accepts, and the plan's
      counts are what the registry then counts. */
  lemma FirstDisposal(p: Patterns, log: seq<Entry>, scope: string, lessons: seq<Lesson>, rows: seq<Row>)
    requires Classified(p, log, lessons, rows) && UnusedScope(log, scope)
    requires forall l :: l in lessons ==> ',' !in l.id
    ensures var plan := PlanFor(log, scope, rows); var now := Disposed(p, log, scope, lessons, rows);
      && DisposedOk(p, now, scope, lessons, rows, Some(plan))
      && forall i :: i in plan.items ==> i.occurrences == SeenOf(now, None, i.fingerprint)
  {
    var items := PlanFor(log, scope, rows).items;
    DisposeAcceptedIff(p, log, scope, lessons, rows);
    RowIdsPlain(lessons, rows);
    forall i | i in items
      ensures i.occurrences == SeenOf(log + NewEntries(log, scope, items), None, i.fingerprint)
    {
      var k :| 0 <= k < |items| && items[k] == i;
      OccurrencesCounted(log, scope, rows, items, k);
    }
  }

  lemma RowIdsPlain(lessons: seq<Lesson>, rows: seq<Row>)
    requires SameIds(lessons, rows) && forall l :: l in lessons ==> ',' !in l.id
    ensures forall r :: r in rows ==> ',' !in r.id
  {
    forall r | r in rows ensures ',' !in r.id {
      assert r.id in RowIds(rows);
      assert r.id in LessonIds(lessons);
    }
  }
}
