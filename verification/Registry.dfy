/** The recurrence registry: an append-only log of what happened to each
    fingerprint, and the readings folded from it. */
module Registry {
  import opened Prelude

  datatype Kind = Opened | Reopened | Fixed | Mitigated | Retired | Seen

  /** One line of the log. Only a `seen` names a lesson. */
  datatype Entry = Entry(fingerprint: string, kind: Kind, scope: string, lesson: Option<string>, target: string)

  datatype Standing = NoStatus | Open | IsFixed | IsMitigated | IsRetired

  function StandingAfter(k: Kind, before: Standing): Standing {
    match k
    case Opened => Open
    case Reopened => Open
    case Fixed => IsFixed
    case Mitigated => IsMitigated
    case Retired => IsRetired
    case Seen => before
  }

  /** An entry about `fp` that a reading hiding `hidden`'s own entries looks at. */
  predicate Visible(e: Entry, hidden: Option<string>, fp: string) {
    e.fingerprint == fp && Some(e.scope) != hidden
  }

  function StandingOf(log: seq<Entry>, hidden: Option<string>, fp: string): Standing {
    if log == [] then NoStatus
    else
      var before := StandingOf(log[..|log| - 1], hidden, fp);
      var e := log[|log| - 1];
      if Visible(e, hidden, fp) then StandingAfter(e.kind, before) else before
  }

  function SeenOf(log: seq<Entry>, hidden: Option<string>, fp: string): nat {
    if log == [] then 0
    else
      var e := log[|log| - 1];
      SeenOf(log[..|log| - 1], hidden, fp) + (if Visible(e, hidden, fp) && e.kind == Seen then 1 else 0)
  }

  predicate Known(log: seq<Entry>, hidden: Option<string>, fp: string) {
    exists e :: e in log && Visible(e, hidden, fp)
  }

  function TargetOf(log: seq<Entry>, hidden: Option<string>, fp: string): string {
    if log == [] then ""
    else
      var e := log[|log| - 1];
      if Visible(e, hidden, fp) && e.target != "" then e.target else TargetOf(log[..|log| - 1], hidden, fp)
  }

  datatype Folded = Folded(status: Standing, seen: nat, target: string)

  function FoldedOf(log: seq<Entry>, hidden: Option<string>, fp: string): Folded {
    Folded(StandingOf(log, hidden, fp), SeenOf(log, hidden, fp), TargetOf(log, hidden, fp))
  }

  /** One pass over the log, keeping every visible fingerprint's state. */
  method Fold(log: seq<Entry>, hidden: Option<string>) returns (state: map<string, Folded>)
    ensures forall fp :: fp in state <==> Known(log, hidden, fp)
    ensures forall fp :: fp in state ==> state[fp] == FoldedOf(log, hidden, fp)
  {
    state := map[];
    for i := 0 to |log|
      invariant forall fp :: fp in state <==> Known(log[..i], hidden, fp)
      invariant forall fp :: fp in state ==> state[fp] == FoldedOf(log[..i], hidden, fp)
    {
      var e := log[i];
      var fp := e.fingerprint;
      assert log[..i + 1] == log[..i] + [e];
      FoldedStep(log[..i], hidden, e);
      if Some(e.scope) != hidden {
        if fp !in state { UnknownFolded(log[..i], hidden, fp); }
        var s := if fp in state then state[fp] else Folded(NoStatus, 0, "");
        if e.kind == Seen {
          s := s.(seen := s.seen + 1);
        } else {
          s := s.(status := StandingAfter(e.kind, NoStatus));
        }
        if e.target != "" {
          s := s.(target := e.target);
        }
        state := state[fp := s];
      }
    }
    assert log[..|log|] == log;
  }

  /** One more entry touches one fingerprint, and only when it is visible. */
  lemma FoldedStep(log: seq<Entry>, hidden: Option<string>, e: Entry)
    ensures forall fp :: Known(log + [e], hidden, fp) <==> Known(log, hidden, fp) || Visible(e, hidden, fp)
    ensures forall fp :: !Visible(e, hidden, fp) ==> FoldedOf(log + [e], hidden, fp) == FoldedOf(log, hidden, fp)
    ensures Some(e.scope) != hidden ==>
      var was := FoldedOf(log, hidden, e.fingerprint);
      FoldedOf(log + [e], hidden, e.fingerprint)
      == Folded(StandingAfter(e.kind, was.status),
                was.seen + (if e.kind == Seen then 1 else 0),
                if e.target != "" then e.target else was.target)
  {
    assert (log + [e])[..|log|] == log;
    assert forall y :: y in log + [e] <==> y in log || y == e;
  }

  lemma {:induction false} UnknownFolded(log: seq<Entry>, hidden: Option<string>, fp: string)
    requires !Known(log, hidden, fp)
    ensures FoldedOf(log, hidden, fp) == Folded(NoStatus, 0, "")
  {
    if log != [] {
      var e := log[|log| - 1];
      assert e in log;
      assert forall y :: y in log[..|log| - 1] ==> y in log;
      UnknownFolded(log[..|log| - 1], hidden, fp);
    }
  }

  /** The status entries of a fingerprint, in order. */
  function StatusKinds(log: seq<Entry>, fp: string): seq<Kind> {
    if log == [] then []
    else
      var e := log[|log| - 1];
      StatusKinds(log[..|log| - 1], fp) + (if e.fingerprint == fp && e.kind != Seen then [e.kind] else [])
  }

  lemma {:induction false} StatusKindsAppend(log: seq<Entry>, more: seq<Entry>, fp: string)
    ensures StatusKinds(log + more, fp) == StatusKinds(log, fp) + StatusKinds(more, fp)
  {
    if more == [] {
      assert log + more == log;
    } else {
      var front := more[..|more| - 1];
      StatusKindsAppend(log, front, fp);
      assert (log + more)[..|log + more| - 1] == log + front;
    }
  }

  lemma {:induction false} SeenAppend(log: seq<Entry>, more: seq<Entry>, hidden: Option<string>, fp: string)
    ensures SeenOf(log + more, hidden, fp) == SeenOf(log, hidden, fp) + SeenOf(more, hidden, fp)
  {
    if more == [] {
      assert log + more == log;
    } else {
      var front := more[..|more| - 1];
      SeenAppend(log, front, hidden, fp);
      assert (log + more)[..|log + more| - 1] == log + front;
    }
  }

  /** Entries of the hidden scope change nothing that is read. */
  lemma {:induction false} HiddenAppend(log: seq<Entry>, more: seq<Entry>, scope: string, fp: string)
    requires forall e :: e in more ==> e.scope == scope
    ensures StandingOf(log + more, Some(scope), fp) == StandingOf(log, Some(scope), fp)
    ensures SeenOf(log + more, Some(scope), fp) == SeenOf(log, Some(scope), fp)
  {
    if more == [] {
      assert log + more == log;
    } else {
      var front := more[..|more| - 1];
      assert forall e :: e in front ==> e in more;
      HiddenAppend(log, front, scope, fp);
      assert (log + more)[..|log + more| - 1] == log + front;
      assert more[|more| - 1] in more;
    }
  }

  // --- a good history -----------------------------------------------------------------

  predicate Closing(k: Kind) { k == Fixed || k == Mitigated || k == Retired }

  /** Begins with its one and only `opened`; every `reopened` directly follows a
      closing entry. */
  predicate GoodHistory(h: seq<Kind>) {
    && (h != [] ==> h[0] == Opened)
    && (forall i :: 0 < i < |h| ==> h[i] != Opened)
    && (forall i :: 0 < i < |h| && h[i] == Reopened ==> Closing(h[i - 1]))
  }

  predicate Has(log: seq<Entry>, scope: string, fp: string, k: Kind, lesson: Option<string>) {
    exists e :: e in log && e.scope == scope && e.fingerprint == fp && e.kind == k && e.lesson == lesson
  }

  /** Status entries name no lesson. */
  ghost predicate StatusPlain(log: seq<Entry>) {
    forall e :: e in log && e.kind != Seen ==> e.lesson.None?
  }

  lemma {:induction false} HistoryEmpty(log: seq<Entry>, hidden: Option<string>, fp: string)
    requires StatusKinds(log, fp) == []
    ensures StandingOf(log, hidden, fp) == NoStatus
  {
    if log != [] {
      HistoryEmpty(log[..|log| - 1], hidden, fp);
    }
  }

  /** Nothing visible and no `opened` of its own: the fingerprint is untouched. */
  lemma {:induction false} NewMeansUntouched(log: seq<Entry>, scope: string, fp: string)
    requires StatusPlain(log) && GoodHistory(StatusKinds(log, fp))
    requires StandingOf(log, Some(scope), fp) == NoStatus
    requires !Has(log, scope, fp, Opened, None)
    ensures StatusKinds(log, fp) == []
  {
    if log != [] {
      var front, e := log[..|log| - 1], log[|log| - 1];
      assert e in log && forall x :: x in front ==> x in log;
      GoodPrefix(log, fp);
      if e.fingerprint == fp && e.kind != Seen {
        assert e.scope == scope;
        assert StatusKinds(log, fp) == StatusKinds(front, fp) + [e.kind];
        NewMeansUntouched(front, scope, fp);
      } else {
        NewMeansUntouched(front, scope, fp);
      }
    }
  }

  lemma GoodPrefix(log: seq<Entry>, fp: string)
    requires log != [] && GoodHistory(StatusKinds(log, fp))
    ensures GoodHistory(StatusKinds(log[..|log| - 1], fp))
  {
    var h, g := StatusKinds(log, fp), StatusKinds(log[..|log| - 1], fp);
    assert forall i :: 0 <= i < |g| ==> g[i] == h[i];
  }

  /** Closed as others see it, and never reopened by this scope: closed in full. */
  lemma {:induction false} ReopenMeansClosed(log: seq<Entry>, scope: string, fp: string)
    requires StatusPlain(log) && GoodHistory(StatusKinds(log, fp))
    requires StandingOf(log, Some(scope), fp) !in {NoStatus, Open}
    requires !Has(log, scope, fp, Reopened, None)
    ensures StatusKinds(log, fp) != [] && Closing(StatusKinds(log, fp)[|StatusKinds(log, fp)| - 1])
  {
    var front, e := log[..|log| - 1], log[|log| - 1];
    assert e in log && forall x :: x in front ==> x in log;
    GoodPrefix(log, fp);
    if e.fingerprint == fp && e.kind != Seen {
      var h := StatusKinds(log, fp);
      assert h == StatusKinds(front, fp) + [e.kind];
      if e.kind == Opened {
        assert h[|h| - 1] == e.kind;
        assert StatusKinds(front, fp) == [];
        HistoryEmpty(front, Some(scope), fp);
      }
    } else {
      ReopenMeansClosed(front, scope, fp);
    }
  }
}
