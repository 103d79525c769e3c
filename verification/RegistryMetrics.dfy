/** How often a defect came back after it was said to be fixed. */
module RegistryMetrics {
  import opened Prelude
  import opened Registry

  /** Reopenings of `fp` directly after a `k`, counted on its status history. */
  function RepeatsAfter(h: seq<Kind>, k: Kind): nat {
    if |h| < 2 then 0
    else RepeatsAfter(h[..|h| - 1], k) + (if h[|h| - 1] == Reopened && h[|h| - 2] == k then 1 else 0)
  }

  function Reopenings(h: seq<Kind>): nat {
    if h == [] then 0
    else Reopenings(h[..|h| - 1]) + (if h[|h| - 1] == Reopened then 1 else 0)
  }

  function LastOf(h: seq<Kind>): Option<Kind> { if h == [] then None else Some(h[|h| - 1]) }

  datatype Running = Running(last: Option<Kind>, repeats: nat)

  ghost predicate Tracks(log: seq<Entry>, per: map<string, Running>) {
    && (forall fp :: fp in per <==> Known(log, None, fp))
    && (forall fp :: fp in per ==> per[fp] == RunningOf(log, fp))
  }

  function RunningOf(log: seq<Entry>, fp: string): Running {
    var h := StatusKinds(log, fp);
    Running(LastOf(h), RepeatsAfter(h, Fixed))
  }

  lemma RunningStep(log: seq<Entry>, e: Entry, fp: string)
    ensures RunningOf(log + [e], fp) ==
      if e.fingerprint != fp || e.kind == Seen then RunningOf(log, fp)
      else Running(Some(e.kind), RunningOf(log, fp).repeats
                   + (if e.kind == Reopened && RunningOf(log, fp).last == Some(Fixed) then 1 else 0))
  {
    var h := StatusKinds(log, fp);
    assert (log + [e])[..|log|] == log;
    if e.fingerprint == fp && e.kind != Seen {
      assert StatusKinds(log + [e], fp) == h + [e.kind];
      assert (h + [e.kind])[..|h|] == h;
    } else {
      assert StatusKinds(log + [e], fp) == h;
    }
  }

  lemma {:induction false} UnknownRunning(log: seq<Entry>, fp: string)
    requires !Known(log, None, fp)
    ensures RunningOf(log, fp) == Running(None, 0)
  {
    if log != [] {
      var front, e := log[..|log| - 1], log[|log| - 1];
      assert e in log && forall x :: x in front ==> x in log;
      UnknownRunning(front, fp);
      assert log == front + [e];
      RunningStep(front, e, fp);
    }
  }

  /** One pass over the log. */
  method Metrics(log: seq<Entry>) returns (per: map<string, Running>)
    ensures forall fp :: fp in per <==> Known(log, None, fp)
    ensures forall fp :: fp in per ==> per[fp].repeats == RepeatsAfter(StatusKinds(log, fp), Fixed)
  {
    per := map[];
    for i := 0 to |log|
      invariant Tracks(log[..i], per)
    {
      var e := log[i];
      assert log[..i + 1] == log[..i] + [e];
      per := Counted(log[..i], e, per);
    }
    assert log[..|log|] == log;
  }

  method Counted(ghost log: seq<Entry>, e: Entry, per: map<string, Running>) returns (more: map<string, Running>)
    requires Tracks(log, per)
    ensures Tracks(log + [e], more)
  {
    var fp := e.fingerprint;
    var m := if fp in per then per[fp] else Running(None, 0);
    if fp !in per { UnknownRunning(log, fp); }
    if e.kind != Seen {
      var again := if e.kind == Reopened && m.last == Some(Fixed) then 1 else 0;
      m := Running(Some(e.kind), m.repeats + again);
    }
    more := per[fp := m];
    forall x ensures Known(log + [e], None, x) <==> Known(log, None, x) || x == fp {
      assert forall y :: y in log + [e] <==> y in log || y == e;
      assert Visible(e, None, fp);
    }
    forall x | x in more ensures more[x] == RunningOf(log + [e], x) {
      RunningStep(log, e, x);
    }
  }

  /** In a good history every reopening followed one of the three ways to close. */
  lemma {:induction false} ReopeningsAccounted(h: seq<Kind>)
    requires GoodHistory(h)
    ensures Reopenings(h) == RepeatsAfter(h, Fixed) + RepeatsAfter(h, Mitigated) + RepeatsAfter(h, Retired)
  {
    if h != [] {
      var front := h[..|h| - 1];
      assert forall i :: 0 <= i < |front| ==> front[i] == h[i];
      ReopeningsAccounted(front);
    }
  }
}
