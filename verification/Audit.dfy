/** Deny-by-default reduction of a row to what its policy lets through: the
    transformation, its counters, and the loops that compute both. */
module Audit {
  import opened Prelude

  /** An object lists its fields in the order of their keys, which is the order
      the reducer visits them in. */
  datatype Json =
    | Null
    | Bool(b: bool)
    | Num(n: real)
    | Str(s: string)
    | Arr(items: seq<Json>)
    | Obj(fields: seq<Field>)

  datatype Field = Field(key: string, value: Json)

  datatype Decision = Keep | Deny | Nest(shape: string)

  type Policy = map<string, map<string, Decision>>

  /** Every nested shape has a table of its own. */
  ghost predicate Closed(policy: Policy) {
    forall shape, key :: shape in policy && key in policy[shape] && policy[shape][key].Nest?
      ==> policy[shape][key].shape in policy
  }

  /** An unknown key is a denied key. */
  function DecisionFor(policy: Policy, shape: string, key: string): (d: Decision)
    requires shape in policy
    ensures Closed(policy) && d.Nest? ==> d.shape in policy
  {
    if key in policy[shape] then policy[shape][key] else Deny
  }

  // --- names under which drops are counted ------------------------------------------

  predicate IdentStart(c: char) { 'a' <= c <= 'z' || 'A' <= c <= 'Z' || c == '_' }

  predicate IdentPart(c: char) { IdentStart(c) || '0' <= c <= '9' || c == '-' }

  /** The pattern's end anchor also accepts one final line break. */
  predicate IsIdent(s: string) {
    var t := if s != "" && s[|s| - 1] == '\n' then s[..|s| - 1] else s;
    1 <= |t| <= 64 && IdentStart(t[0]) && forall c :: c in t ==> IdentPart(c)
  }

  function SafeName(key: string): string { if IsIdent(key) then key else "<non-identifier>" }

  /** A name shown in a report: the key itself when it is an identifier of at most
      64 characters; otherwise nothing of the key, save that one final line break
      passes. */
  lemma SafeNameIsSafe(key: string)
    ensures 1 <= |key| <= 64 && IdentStart(key[0]) && (forall c :: c in key ==> IdentPart(c)) ==> SafeName(key) == key
    ensures var r := SafeName(key);
      r == "<non-identifier>" || (r == key && |r| <= 65 && forall k :: 0 <= k < |r| && r[k] != '\n' ==> IdentPart(r[k]))
    ensures forall k :: 0 <= k < |SafeName(key)| - 1 ==> SafeName(key)[k] != '\n'
  {
    if IsIdent(key) {
      var t := if key[|key| - 1] == '\n' then key[..|key| - 1] else key;
      forall k | 0 <= k < |t| ensures IdentPart(key[k]) {
        assert t[k] in t;
      }
    }
  }

  // --- strings ----------------------------------------------------------------------

  const MAX_KEPT_STRING := 256
  const HASH_PREFIX := "sha256:"

  predicate Occurs(root: string, s: string) {
    root <= s || (s != "" && Occurs(root, s[1..]))
  }

  /** `root` stands in `s` from position `i`. */
  predicate StandsAt(root: string, s: string, i: nat) { i + |root| <= |s| && s[i..i + |root|] == root }

  ghost predicate Inside(root: string, s: string) { exists i: nat :: StandsAt(root, s, i) }

  lemma {:induction false} OccursInside(root: string, s: string)
    ensures Occurs(root, s) <==> Inside(root, s)
  {
    if root <= s {
      assert StandsAt(root, s, 0);
    } else if s != "" {
      OccursInside(root, s[1..]);
      if i: nat :| StandsAt(root, s[1..], i) {
        StandsLater(root, s, i);
      }
      if i: nat :| StandsAt(root, s, i) {
        assert i > 0;
        StandsLater(root, s, i - 1);
      }
    }
  }

  lemma StandsLater(root: string, s: string, i: nat)
    requires s != ""
    ensures StandsAt(root, s[1..], i) <==> StandsAt(root, s, i + 1)
  {
    if i + |root| <= |s| - 1 { assert s[1..][i..i + |root|] == s[i + 1..i + 1 + |root|]; }
  }

  /** What strings are checked against: roots to scrub, and the digest. */
  datatype Scrub = Scrub(roots: seq<string>, sha: string -> string)

  predicate PathLike(c: Scrub, s: string) {
    (s != "" && s[0] == '~') || exists r :: r in c.roots && Occurs(r, s)
  }

  predicate Plain(c: Scrub, s: string) { !PathLike(c, s) && |s| <= MAX_KEPT_STRING }

  function Hashed(c: Scrub, s: string): string { HASH_PREFIX + c.sha(s) }

  function Scrubbed(c: Scrub, s: string): string { if Plain(c, s) then s else Hashed(c, s) }

  /** Looks like a path: begins at a home directory, or holds a scrub root. */
  ghost predicate ShowsPath(c: Scrub, s: string) {
    "~" <= s || exists r :: r in c.roots && Inside(r, s)
  }

  /** Fit to be handed out: shows no path and is at most 256 characters long. */
  ghost predicate Presentable(c: Scrub, s: string) { !ShowsPath(c, s) && |s| <= 256 }

  lemma PathLikeIff(c: Scrub, s: string)
    ensures PathLike(c, s) <==> ShowsPath(c, s)
  {
    forall r | r in c.roots ensures Occurs(r, s) <==> Inside(r, s) {
      OccursInside(r, s);
    }
  }

  /** A string is kept, uncounted, exactly when it is presentable; else it is
      replaced by its digest and counted once, as a path or else as oversize. */
  lemma StringDecides(c: Scrub, s: string)
    ensures Presentable(c, s) ==> Scrubbed(c, s) == s && CountString(c, s) == Counts(multiset{}, 0, 0)
    ensures !Presentable(c, s) ==> Scrubbed(c, s) == "sha256:" + c.sha(s)
    ensures ShowsPath(c, s) ==> CountString(c, s) == Counts(multiset{}, 1, 0)
    ensures !ShowsPath(c, s) && |s| > 256 ==> CountString(c, s) == Counts(multiset{}, 0, 1)
  {
    PathLikeIff(c, s);
  }

  /** What a report counts: drops by name, and hashed strings. */
  datatype Counts = Counts(dropped: multiset<string>, paths: nat, oversize: nat) {
    function Plus(t: Counts): Counts { Counts(dropped + t.dropped, paths + t.paths, oversize + t.oversize) }
  }

  const NO_COUNTS := Counts(multiset{}, 0, 0)

  lemma PlusAssoc(a: Counts, b: Counts, c: Counts)
    ensures a.Plus(b).Plus(c) == a.Plus(b.Plus(c))
    ensures a.Plus(NO_COUNTS) == a
  {
    assert a.dropped + b.dropped + c.dropped == a.dropped + (b.dropped + c.dropped);
    assert a.dropped + multiset{} == a.dropped;
  }

  function CountString(c: Scrub, s: string): Counts {
    if PathLike(c, s) then Counts(multiset{}, 1, 0)
    else if |s| > MAX_KEPT_STRING then Counts(multiset{}, 0, 1)
    else NO_COUNTS
  }

  function Dropping(name: string): Counts { Counts(multiset{name}, 0, 0) }

  // --- values a kept key may carry --------------------------------------------------

  predicate Leaf(v: Json) { v.Null? || v.Bool? || v.Num? || v.Str? }

  /** A leaf, or a list of leaves. */
  predicate Scalar(v: Json) { Leaf(v) || (v.Arr? && forall x :: x in v.items ==> Leaf(x)) }

  function CleanLeaf(c: Scrub, v: Json): Json { if v.Str? then Str(Scrubbed(c, v.s)) else v }

  function CleanLeaves(c: Scrub, items: seq<Json>): (r: seq<Json>)
    ensures |r| == |items| && forall i :: 0 <= i < |r| ==> r[i] == CleanLeaf(c, items[i])
  {
    seq(|items|, i requires 0 <= i < |items| => CleanLeaf(c, items[i]))
  }

  function CleanScalar(c: Scrub, v: Json): (r: Json)
    requires Scalar(v)
  {
    if v.Arr? then Arr(CleanLeaves(c, v.items)) else CleanLeaf(c, v)
  }

  /** Strings hashed while a value is looked at: a list is abandoned at its first
      element that is no leaf, after that element has been looked at too. */
  function CountValue(c: Scrub, v: Json): Counts
    decreases v
  {
    match v
    case Str(s) => CountString(c, s)
    case Arr(items) => CountItems(c, items)
    case _ => NO_COUNTS
  }

  function CountItems(c: Scrub, items: seq<Json>): Counts
    decreases items
  {
    if items == [] then NO_COUNTS
    else CountValue(c, items[0]).Plus(if Leaf(items[0]) then CountItems(c, items[1..]) else NO_COUNTS)
  }

  // --- the reduction ----------------------------------------------------------------

  datatype Outcome = Outcome(out: seq<Field>, counts: Counts) {
    function Then(o: Outcome): Outcome { Outcome(out + o.out, counts.Plus(o.counts)) }
  }

  function Reduced(c: Scrub, policy: Policy, row: seq<Field>, shape: string, prefix: string): Outcome
    requires Closed(policy) && shape in policy
    decreases row
  {
    if row == [] then Outcome([], NO_COUNTS)
    else Reduced(c, policy, row[..|row| - 1], shape, prefix).Then(
           ReducedField(c, policy, row[|row| - 1], DecisionFor(policy, shape, row[|row| - 1].key), prefix))
  }

  function ReducedField(c: Scrub, policy: Policy, f: Field, d: Decision, prefix: string): Outcome
    requires Closed(policy) && (d.Nest? ==> d.shape in policy)
    decreases f
  {
    var name := prefix + SafeName(f.key);
    match d
    case Deny => Outcome([], Dropping(name))
    case Keep =>
      if Scalar(f.value) then Outcome([Field(f.key, CleanScalar(c, f.value))], CountValue(c, f.value))
      else Outcome([], CountValue(c, f.value).Plus(Dropping(name + "(non-scalar)")))
    case Nest(sub) =>
      match f.value
      case Null => Outcome([f], NO_COUNTS)
      case Obj(fields) =>
        var o := Reduced(c, policy, fields, sub, name + ".");
        Outcome([Field(f.key, Obj(o.out))], o.counts)
      case Arr(items) =>
        var o := ReducedItems(c, policy, items, sub, name);
        Outcome([Field(f.key, Arr(o.items))], o.counts)
      case _ => Outcome([], Dropping(name + "(non-object)"))
  }

  datatype ItemsOutcome = ItemsOutcome(items: seq<Json>, counts: Counts) {
    function Then(o: ItemsOutcome): ItemsOutcome { ItemsOutcome(items + o.items, counts.Plus(o.counts)) }
  }

  function ReducedItems(c: Scrub, policy: Policy, items: seq<Json>, sub: string, name: string): ItemsOutcome
    requires Closed(policy) && sub in policy
    decreases items
  {
    if items == [] then ItemsOutcome([], NO_COUNTS)
    else ReducedItems(c, policy, items[..|items| - 1], sub, name).Then(
           ReducedItem(c, policy, items[|items| - 1], sub, name))
  }

  function ReducedItem(c: Scrub, policy: Policy, item: Json, sub: string, name: string): ItemsOutcome
    requires Closed(policy) && sub in policy
    decreases item
  {
    if item.Obj? then
      var o := Reduced(c, policy, item.fields, sub, name + "[].");
      ItemsOutcome([Obj(o.out)], o.counts)
    else ItemsOutcome([], Dropping(name + "[](non-object)"))
  }

  // --- the loops --------------------------------------------------------------------

  class FileReport {
    var dropped: multiset<string>
    var pathsHashed: nat
    var oversizeHashed: nat

    constructor ()
      ensures Counted() == NO_COUNTS
    {
      dropped, pathsHashed, oversizeHashed := multiset{}, 0, 0;
    }

    function Counted(): Counts
      reads this
    {
      Counts(dropped, pathsHashed, oversizeHashed)
    }
  }

  class Reducer {
    const scrub: Scrub
    const policy: Policy
    const report: FileReport

    constructor (scrub: Scrub, policy: Policy, report: FileReport)
      ensures this.scrub == scrub && this.policy == policy && this.report == report
    {
      this.scrub, this.policy, this.report := scrub, policy, report;
    }

    method String(s: string) returns (r: string)
      modifies report
      ensures r == Scrubbed(scrub, s)
      ensures report.Counted() == old(report.Counted()).Plus(CountString(scrub, s))
    {
      PlusAssoc(report.Counted(), NO_COUNTS, NO_COUNTS);
      if (s != "" && s[0] == '~') || exists root :: root in scrub.roots && Occurs(root, s) {
        report.pathsHashed := report.pathsHashed + 1;
        return HASH_PREFIX + scrub.sha(s);
      }
      if |s| > MAX_KEPT_STRING {
        report.oversizeHashed := report.oversizeHashed + 1;
        return HASH_PREFIX + scrub.sha(s);
      }
      return s;
    }

    /** The value with its strings scrubbed, or None for what is no scalar. */
    method ScalarOrNone(v: Json) returns (r: Option<Json>)
      modifies report
      ensures r == if Scalar(v) then Some(CleanScalar(scrub, v)) else None
      ensures report.Counted() == old(report.Counted()).Plus(CountValue(scrub, v))
      decreases v, 1
    {
      match v
      case Str(s) =>
        var t := String(s);
        r := Some(Str(t));
      case Arr(items) =>
        var out := ScalarItems(items);
        r := if out.Some? then Some(Arr(out.value)) else None;
      case Obj(_) => r := None;
      case _ => r := Some(v);
    }

    method ScalarItems(items: seq<Json>) returns (r: Option<seq<Json>>)
      modifies report
      ensures r.Some? <==> forall x :: x in items ==> Leaf(x)
      ensures r.Some? ==> r.value == CleanLeaves(scrub, items)
      ensures report.Counted() == old(report.Counted()).Plus(CountItems(scrub, items))
      decreases items, 0
    {
      var out: seq<Json> := [];
      ghost var start := report.Counted();
      PlusAssoc(start, NO_COUNTS, NO_COUNTS);
      for i := 0 to |items|
        invariant |out| == i
        invariant forall k :: 0 <= k < i ==> Leaf(items[k]) && out[k] == CleanLeaf(scrub, items[k])
        invariant start.Plus(CountItems(scrub, items)) == report.Counted().Plus(CountItems(scrub, items[i..]))
      {
        ghost var here, rest := report.Counted(), items[i..];
        assert rest[0] == items[i] && rest[1..] == items[i + 1..];
        var cleaned := ScalarOrNone(items[i]);
        PlusAssoc(here, CountValue(scrub, items[i]), if Leaf(items[i]) then CountItems(scrub, items[i + 1..]) else NO_COUNTS);
        if cleaned.None? || items[i].Arr? {
          assert items[i] in items && !Leaf(items[i]);
          PlusAssoc(report.Counted(), NO_COUNTS, NO_COUNTS);
          return None;
        }
        out := out + [cleaned.value];
      }
      PlusAssoc(report.Counted(), NO_COUNTS, NO_COUNTS);
      return Some(out);
    }

    method Reduce(row: seq<Field>, shape: string, prefix: string) returns (out: seq<Field>)
      requires Closed(policy) && shape in policy
      modifies report
      ensures out == Reduced(scrub, policy, row, shape, prefix).out
      ensures report.Counted() == old(report.Counted()).Plus(Reduced(scrub, policy, row, shape, prefix).counts)
      decreases row
    {
      out := [];
      ghost var start := report.Counted();
      PlusAssoc(start, NO_COUNTS, NO_COUNTS);
      for i := 0 to |row|
        invariant out == Reduced(scrub, policy, row[..i], shape, prefix).out
        invariant report.Counted() == start.Plus(Reduced(scrub, policy, row[..i], shape, prefix).counts)
      {
        assert row[..i + 1][..i] == row[..i];
        var d := DecisionFor(policy, shape, row[i].key);
        var more := ReduceField(row[i], d, prefix);
        PlusAssoc(start, Reduced(scrub, policy, row[..i], shape, prefix).counts,
                  ReducedField(scrub, policy, row[i], d, prefix).counts);
        out := out + more;
      }
      assert row[..|row|] == row;
    }

    method ReduceField(f: Field, d: Decision, prefix: string) returns (out: seq<Field>)
      requires Closed(policy) && (d.Nest? ==> d.shape in policy)
      modifies report
      ensures out == ReducedField(scrub, policy, f, d, prefix).out
      ensures report.Counted() == old(report.Counted()).Plus(ReducedField(scrub, policy, f, d, prefix).counts)
      decreases f
    {
      var name := prefix + SafeName(f.key);
      out := [];
      match d
      case Deny => Drop(name);
      case Keep =>
        var cleaned := ScalarOrNone(f.value);
        if cleaned.Some? {
          out := [Field(f.key, cleaned.value)];
        } else {
          Drop(name + "(non-scalar)");
          PlusAssoc(old(report.Counted()), CountValue(scrub, f.value), Dropping(name + "(non-scalar)"));
        }
      case Nest(sub) =>
        match f.value {
          case Null =>
            out := [Field(f.key, Null)];
            PlusAssoc(report.Counted(), NO_COUNTS, NO_COUNTS);
          case Obj(fields) =>
            var inner := Reduce(fields, sub, name + ".");
            out := [Field(f.key, Obj(inner))];
          case Arr(items) =>
            var kept := ReduceItems(items, sub, name);
            out := [Field(f.key, Arr(kept))];
          case _ => Drop(name + "(non-object)");
        }
    }

    method ReduceItems(items: seq<Json>, sub: string, name: string) returns (kept: seq<Json>)
      requires Closed(policy) && sub in policy
      modifies report
      ensures kept == ReducedItems(scrub, policy, items, sub, name).items
      ensures report.Counted() == old(report.Counted()).Plus(ReducedItems(scrub, policy, items, sub, name).counts)
      decreases items
    {
      kept := [];
      ghost var start := report.Counted();
      PlusAssoc(start, NO_COUNTS, NO_COUNTS);
      for i := 0 to |items|
        invariant kept == ReducedItems(scrub, policy, items[..i], sub, name).items
        invariant report.Counted() == start.Plus(ReducedItems(scrub, policy, items[..i], sub, name).counts)
      {
        assert items[..i + 1][..i] == items[..i];
        if items[i].Obj? {
          var inner := Reduce(items[i].fields, sub, name + "[].");
          kept := kept + [Obj(inner)];
        } else {
          Drop(name + "[](non-object)");
        }
        PlusAssoc(start, ReducedItems(scrub, policy, items[..i], sub, name).counts,
                  ReducedItem(scrub, policy, items[i], sub, name).counts);
      }
      assert items[..|items|] == items;
    }

    method Drop(name: string)
      modifies report
      ensures report.Counted() == old(report.Counted()).Plus(Dropping(name))
    {
      report.dropped := report.dropped + multiset{name};
    }
  }
}
