/** What a reader of an audit bundle may rely on: nothing denied shows, nothing
    disappears uncounted, everything left is clean, and reducing again is a
    no-op. */
module AuditLaws {
  import opened Audit

  // --- nothing denied shows ---------------------------------------------------------

  /** Rows that differ only under denied or unknown keys, at any depth, or in
      what stands where an object was expected. */
  ghost predicate Alike(policy: Policy, a: seq<Field>, b: seq<Field>, shape: string)
    requires Closed(policy) && shape in policy
    decreases a
  {
    if a == [] || b == [] then a == b
    else
      var f, g := a[|a| - 1], b[|b| - 1];
      && Alike(policy, a[..|a| - 1], b[..|b| - 1], shape)
      && AlikeField(policy, f, g, DecisionFor(policy, shape, f.key))
  }

  ghost predicate AlikeField(policy: Policy, f: Field, g: Field, d: Decision)
    requires Closed(policy) && (d.Nest? ==> d.shape in policy)
    decreases f
  {
    && f.key == g.key
    && match d
       case Deny => true
       case Keep => f.value == g.value
       case Nest(sub) =>
         match f.value
         case Null => g.value.Null?
         case Obj(fields) => g.value.Obj? && Alike(policy, fields, g.value.fields, sub)
         case Arr(items) => g.value.Arr? && AlikeItems(policy, items, g.value.items, sub)
         case _ => g.value.Bool? || g.value.Num? || g.value.Str?
  }

  ghost predicate AlikeItems(policy: Policy, a: seq<Json>, b: seq<Json>, sub: string)
    requires Closed(policy) && sub in policy
    decreases a
  {
    if a == [] || b == [] then a == b
    else
      && AlikeItems(policy, a[..|a| - 1], b[..|b| - 1], sub)
      && AlikeItem(policy, a[|a| - 1], b[|b| - 1], sub)
  }

  ghost predicate AlikeItem(policy: Policy, x: Json, y: Json, sub: string)
    requires Closed(policy) && sub in policy
    decreases x
  {
    if x.Obj? then y.Obj? && Alike(policy, x.fields, y.fields, sub) else !y.Obj?
  }

  /** The output and every count are the same for rows that are alike. */
  lemma {:induction false} NonInterference(c: Scrub, policy: Policy, a: seq<Field>, b: seq<Field>, shape: string, prefix: string)
    requires Closed(policy) && shape in policy && Alike(policy, a, b, shape)
    ensures Reduced(c, policy, a, shape, prefix) == Reduced(c, policy, b, shape, prefix)
    decreases a
  {
    if a != [] {
      NonInterference(c, policy, a[..|a| - 1], b[..|b| - 1], shape, prefix);
      var f, g := a[|a| - 1], b[|b| - 1];
      FieldNonInterference(c, policy, f, g, DecisionFor(policy, shape, f.key), prefix);
    }
  }

  lemma {:induction false} FieldNonInterference(c: Scrub, policy: Policy, f: Field, g: Field, d: Decision, prefix: string)
    requires Closed(policy) && (d.Nest? ==> d.shape in policy) && AlikeField(policy, f, g, d)
    ensures ReducedField(c, policy, f, d, prefix) == ReducedField(c, policy, g, d, prefix)
    decreases f
  {
    if d.Nest? {
      var name := prefix + SafeName(f.key);
      match f.value
      case Obj(fields) => NonInterference(c, policy, fields, g.value.fields, d.shape, name + ".");
      case Arr(items) => ItemsNonInterference(c, policy, items, g.value.items, d.shape, name);
      case _ =>
    }
  }

  lemma {:induction false} ItemsNonInterference(c: Scrub, policy: Policy, a: seq<Json>, b: seq<Json>, sub: string, name: string)
    requires Closed(policy) && sub in policy && AlikeItems(policy, a, b, sub)
    ensures ReducedItems(c, policy, a, sub, name) == ReducedItems(c, policy, b, sub, name)
    decreases a
  {
    if a != [] {
      ItemsNonInterference(c, policy, a[..|a| - 1], b[..|b| - 1], sub, name);
      var x, y := a[|a| - 1], b[|b| - 1];
      if x.Obj? {
        NonInterference(c, policy, x.fields, y.fields, sub, name + "[].");
      }
    }
  }

  // --- nothing disappears uncounted -------------------------------------------------

  /** Keys and list elements in everything the reducer looks into. */
  function Weight(policy: Policy, row: seq<Field>, shape: string): nat
    requires Closed(policy) && shape in policy
    decreases row
  {
    if row == [] then 0
    else
      var f := row[|row| - 1];
      Weight(policy, row[..|row| - 1], shape) + WeightField(policy, f, DecisionFor(policy, shape, f.key))
  }

  function WeightField(policy: Policy, f: Field, d: Decision): nat
    requires Closed(policy) && (d.Nest? ==> d.shape in policy)
    decreases f
  {
    1 + (if d.Nest? && f.value.Obj? then Weight(policy, f.value.fields, d.shape)
         else if d.Nest? && f.value.Arr? then WeightItems(policy, f.value.items, d.shape)
         else 0)
  }

  function WeightItems(policy: Policy, items: seq<Json>, sub: string): nat
    requires Closed(policy) && sub in policy
    decreases items
  {
    if items == [] then 0
    else
      var x := items[|items| - 1];
      WeightItems(policy, items[..|items| - 1], sub) + 1 + (if x.Obj? then Weight(policy, x.fields, sub) else 0)
  }

  lemma NoValueDrops(c: Scrub, v: Json)
    ensures CountValue(c, v).dropped == multiset{}
    decreases v
  {
    if v.Arr? { NoItemDrops(c, v.items); }
  }

  lemma {:induction false} NoItemDrops(c: Scrub, items: seq<Json>)
    ensures CountItems(c, items).dropped == multiset{}
    decreases items
  {
    if items != [] {
      NoValueDrops(c, items[0]);
      if Leaf(items[0]) { NoItemDrops(c, items[1..]); }
    }
  }

  /** Over all depths, what goes in comes out or is counted as dropped. */
  lemma {:induction false} Conserved(c: Scrub, policy: Policy, row: seq<Field>, shape: string, prefix: string)
    requires Closed(policy) && shape in policy
    ensures var o := Reduced(c, policy, row, shape, prefix);
      Weight(policy, row, shape) == Weight(policy, o.out, shape) + |o.counts.dropped|
    decreases row
  {
    if row != [] {
      var front, f := row[..|row| - 1], row[|row| - 1];
      var d := DecisionFor(policy, shape, f.key);
      var before, o := Reduced(c, policy, front, shape, prefix), ReducedField(c, policy, f, d, prefix);
      Conserved(c, policy, front, shape, prefix);
      FieldConserved(c, policy, f, d, prefix);
      if o.out != [] {
        var all := before.out + o.out;
        assert all[..|all| - 1] == before.out;
      } else {
        assert before.out + o.out == before.out;
      }
    }
  }

  /** At most the one field comes out, and the rest of its weight is counted. */
  ghost predicate Balanced(policy: Policy, f: Field, d: Decision, o: Outcome)
    requires Closed(policy) && (d.Nest? ==> d.shape in policy)
  {
    && |o.out| <= 1 && (o.out != [] ==> o.out[0].key == f.key)
    && WeightField(policy, f, d) == (if o.out == [] then 0 else WeightField(policy, o.out[0], d)) + |o.counts.dropped|
  }

  lemma FlatConserved(c: Scrub, policy: Policy, f: Field, d: Decision, prefix: string)
    requires Closed(policy) && (d.Nest? ==> d.shape in policy && !f.value.Obj? && !f.value.Arr?)
    ensures Balanced(policy, f, d, ReducedField(c, policy, f, d, prefix))
  {
    NoValueDrops(c, f.value);
    var name := prefix + SafeName(f.key) + "(non-scalar)";
    assert |multiset{name}| == 1 && multiset{} + multiset{name} == multiset{name};
  }

  lemma ObjectConserved(c: Scrub, policy: Policy, f: Field, sub: string, prefix: string)
    requires Closed(policy) && sub in policy && f.value.Obj?
    requires var o := Reduced(c, policy, f.value.fields, sub, prefix + SafeName(f.key) + ".");
      Weight(policy, f.value.fields, sub) == Weight(policy, o.out, sub) + |o.counts.dropped|
    ensures Balanced(policy, f, Nest(sub), ReducedField(c, policy, f, Nest(sub), prefix))
  {
  }

  lemma ListConserved(c: Scrub, policy: Policy, f: Field, sub: string, prefix: string)
    requires Closed(policy) && sub in policy && f.value.Arr?
    requires var o := ReducedItems(c, policy, f.value.items, sub, prefix + SafeName(f.key));
      WeightItems(policy, f.value.items, sub) == WeightItems(policy, o.items, sub) + |o.counts.dropped|
    ensures Balanced(policy, f, Nest(sub), ReducedField(c, policy, f, Nest(sub), prefix))
  {
  }

  lemma {:induction false} FieldConserved(c: Scrub, policy: Policy, f: Field, d: Decision, prefix: string)
    requires Closed(policy) && (d.Nest? ==> d.shape in policy)
    ensures Balanced(policy, f, d, ReducedField(c, policy, f, d, prefix))
    decreases f
  {
    if d.Nest? && f.value.Obj? {
      Conserved(c, policy, f.value.fields, d.shape, prefix + SafeName(f.key) + ".");
      ObjectConserved(c, policy, f, d.shape, prefix);
    } else if d.Nest? && f.value.Arr? {
      ItemsConserved(c, policy, f.value.items, d.shape, prefix + SafeName(f.key));
      ListConserved(c, policy, f, d.shape, prefix);
    } else {
      FlatConserved(c, policy, f, d, prefix);
    }
  }

  lemma {:induction false} ItemsConserved(c: Scrub, policy: Policy, items: seq<Json>, sub: string, name: string)
    requires Closed(policy) && sub in policy
    ensures var o := ReducedItems(c, policy, items, sub, name);
      WeightItems(policy, items, sub) == WeightItems(policy, o.items, sub) + |o.counts.dropped|
    decreases items
  {
    if items != [] {
      var front, x := items[..|items| - 1], items[|items| - 1];
      var before := ReducedItems(c, policy, front, sub, name);
      ItemsConserved(c, policy, front, sub, name);
      if x.Obj? {
        Conserved(c, policy, x.fields, sub, name + "[].");
        var all := ReducedItems(c, policy, items, sub, name).items;
        assert all[..|all| - 1] == before.items;
      } else {
        assert before.items + [] == before.items;
      }
    }
  }

  /** Which fields of one level survive, said without reducing anything. */
  predicate Survives(d: Decision, v: Json) {
    (d.Keep? && Scalar(v)) || (d.Nest? && (v.Null? || v.Obj? || v.Arr?))
  }

  function SurvivingKeys(policy: Policy, row: seq<Field>, shape: string): seq<string>
    requires Closed(policy) && shape in policy
  {
    if row == [] then []
    else
      var f := row[|row| - 1];
      SurvivingKeys(policy, row[..|row| - 1], shape)
      + (if Survives(DecisionFor(policy, shape, f.key), f.value) then [f.key] else [])
  }

  function Suffix(d: Decision): string {
    match d
    case Deny => ""
    case Keep => "(non-scalar)"
    case Nest(_) => "(non-object)"
  }

  function LostNames(policy: Policy, row: seq<Field>, shape: string, prefix: string): multiset<string>
    requires Closed(policy) && shape in policy
  {
    if row == [] then multiset{}
    else
      var f := row[|row| - 1];
      var d := DecisionFor(policy, shape, f.key);
      LostNames(policy, row[..|row| - 1], shape, prefix)
      + (if Survives(d, f.value) then multiset{} else multiset{prefix + SafeName(f.key) + Suffix(d)})
  }

  function Keys(row: seq<Field>): seq<string> { seq(|row|, i requires 0 <= i < |row| => row[i].key) }

  /** At each level: the surviving keys, in order, and a count for each other. */
  lemma {:induction false} LevelAccounted(c: Scrub, policy: Policy, row: seq<Field>, shape: string, prefix: string)
    requires Closed(policy) && shape in policy
    ensures var o := Reduced(c, policy, row, shape, prefix); var lost := LostNames(policy, row, shape, prefix);
      && Keys(o.out) == SurvivingKeys(policy, row, shape)
      && |row| == |o.out| + |lost|
      && lost <= o.counts.dropped
  {
    if row != [] {
      var f := row[|row| - 1];
      var d := DecisionFor(policy, shape, f.key);
      LevelAccounted(c, policy, row[..|row| - 1], shape, prefix);
      FieldAccounted(c, policy, f, d, prefix);
      KeysAppend(Reduced(c, policy, row[..|row| - 1], shape, prefix).out, ReducedField(c, policy, f, d, prefix).out);
    }
  }

  lemma KeysAppend(a: seq<Field>, b: seq<Field>)
    ensures Keys(a + b) == Keys(a) + Keys(b)
  {
  }

  lemma FieldAccounted(c: Scrub, policy: Policy, f: Field, d: Decision, prefix: string)
    requires Closed(policy) && (d.Nest? ==> d.shape in policy)
    ensures var o := ReducedField(c, policy, f, d, prefix);
      && Keys(o.out) == (if Survives(d, f.value) then [f.key] else [])
      && (!Survives(d, f.value) ==> multiset{prefix + SafeName(f.key) + Suffix(d)} <= o.counts.dropped)
  {
    var name := prefix + SafeName(f.key);
    assert d.Deny? ==> name + Suffix(d) == name;
  }

  lemma {:induction false} FieldCounted(c: Scrub, policy: Policy, row: seq<Field>, i: nat, shape: string, prefix: string)
    requires Closed(policy) && shape in policy && i < |row|
    ensures var d := DecisionFor(policy, shape, row[i].key);
      ReducedField(c, policy, row[i], d, prefix).counts.dropped <= Reduced(c, policy, row, shape, prefix).counts.dropped
  {
    if i < |row| - 1 {
      FieldCounted(c, policy, row[..|row| - 1], i, shape, prefix);
    }
  }

  lemma {:induction false} ItemCounted(c: Scrub, policy: Policy, items: seq<Json>, i: nat, sub: string, name: string)
    requires Closed(policy) && sub in policy && i < |items|
    ensures ReducedItem(c, policy, items[i], sub, name).counts.dropped <= ReducedItems(c, policy, items, sub, name).counts.dropped
  {
    if i < |items| - 1 {
      ItemCounted(c, policy, items[..|items| - 1], i, sub, name);
    }
  }

  /** What a nested object loses is counted in the whole report, under its names
      behind the key's own name and a dot. With LevelAccounted at each level, this
      names every drop at any depth. */
  lemma NestedAccounted(c: Scrub, policy: Policy, row: seq<Field>, i: nat, sub: string, shape: string, prefix: string)
    requires Closed(policy) && shape in policy && i < |row|
    requires DecisionFor(policy, shape, row[i].key) == Nest(sub) && row[i].value.Obj?
    ensures Reduced(c, policy, row[i].value.fields, sub, prefix + SafeName(row[i].key) + ".").counts.dropped
      <= Reduced(c, policy, row, shape, prefix).counts.dropped
    ensures LostNames(policy, row[i].value.fields, sub, prefix + SafeName(row[i].key) + ".")
      <= Reduced(c, policy, row, shape, prefix).counts.dropped
  {
    FieldCounted(c, policy, row, i, shape, prefix);
    NestedObject(c, policy, row[i], sub, prefix);
  }

  lemma NestedObject(c: Scrub, policy: Policy, f: Field, sub: string, prefix: string)
    requires Closed(policy) && sub in policy && f.value.Obj?
    ensures var o := Reduced(c, policy, f.value.fields, sub, prefix + SafeName(f.key) + ".");
      && ReducedField(c, policy, f, Nest(sub), prefix).counts == o.counts
      && LostNames(policy, f.value.fields, sub, prefix + SafeName(f.key) + ".") <= o.counts.dropped
  {
    LevelAccounted(c, policy, f.value.fields, sub, prefix + SafeName(f.key) + ".");
  }

  lemma NestedElement(c: Scrub, policy: Policy, x: Json, sub: string, name: string)
    requires Closed(policy) && sub in policy
    ensures var o := ReducedItem(c, policy, x, sub, name);
      if x.Obj? then
        && o.counts == Reduced(c, policy, x.fields, sub, name + "[].").counts
        && LostNames(policy, x.fields, sub, name + "[].") <= o.counts.dropped
      else o.counts.dropped == multiset{name + "[](non-object)"}
  {
    if x.Obj? { LevelAccounted(c, policy, x.fields, sub, name + "[]."); }
  }

  lemma NestedList(c: Scrub, policy: Policy, f: Field, sub: string, prefix: string)
    requires Closed(policy) && sub in policy && f.value.Arr?
    ensures ReducedField(c, policy, f, Nest(sub), prefix).counts
         == ReducedItems(c, policy, f.value.items, sub, prefix + SafeName(f.key)).counts
  {
  }

  /** The same for each element of a nested list, behind `[].`; an element that is
      no object is itself counted. */
  lemma ListedAccounted(c: Scrub, policy: Policy, row: seq<Field>, i: nat, k: nat, sub: string, shape: string, prefix: string)
    requires Closed(policy) && shape in policy && i < |row|
    requires DecisionFor(policy, shape, row[i].key) == Nest(sub) && row[i].value.Arr? && k < |row[i].value.items|
    ensures var x := row[i].value.items[k]; var name := prefix + SafeName(row[i].key);
      var all := Reduced(c, policy, row, shape, prefix).counts.dropped;
      if x.Obj? then
        && Reduced(c, policy, x.fields, sub, name + "[].").counts.dropped <= all
        && LostNames(policy, x.fields, sub, name + "[].") <= all
      else name + "[](non-object)" in all
  {
    FieldCounted(c, policy, row, i, shape, prefix);
    var x, name := row[i].value.items[k], prefix + SafeName(row[i].key);
    NestedList(c, policy, row[i], sub, prefix);
    ItemCounted(c, policy, row[i].value.items, k, sub, name);
    NestedElement(c, policy, x, sub, name);
  }

  // --- everything left is clean -----------------------------------------------------

  /** Digests have their fixed length, and no root occurs in a hashed string. */
  ghost predicate HashesAreClean(c: Scrub) {
    forall s :: |c.sha(s)| == 64 && forall r :: r in c.roots ==> !Occurs(r, Hashed(c, s))
  }

  predicate PlainLeaf(c: Scrub, v: Json) { Leaf(v) && (v.Str? ==> Plain(c, v.s)) }

  predicate PlainScalar(c: Scrub, v: Json) {
    PlainLeaf(c, v) || (v.Arr? && forall x :: x in v.items ==> PlainLeaf(c, x))
  }

  /** Nothing at any depth that the policy would not keep as it is. */
  ghost predicate Clean(c: Scrub, policy: Policy, row: seq<Field>, shape: string)
    requires Closed(policy) && shape in policy
    decreases row
  {
    row == []
    || (&& Clean(c, policy, row[..|row| - 1], shape)
        && CleanField(c, policy, row[|row| - 1], DecisionFor(policy, shape, row[|row| - 1].key)))
  }

  ghost predicate CleanField(c: Scrub, policy: Policy, f: Field, d: Decision)
    requires Closed(policy) && (d.Nest? ==> d.shape in policy)
    decreases f
  {
    match d
    case Deny => false
    case Keep => PlainScalar(c, f.value)
    case Nest(sub) =>
      match f.value
      case Null => true
      case Obj(fields) => Clean(c, policy, fields, sub)
      case Arr(items) => CleanItems(c, policy, items, sub)
      case _ => false
  }

  ghost predicate CleanItems(c: Scrub, policy: Policy, items: seq<Json>, sub: string)
    requires Closed(policy) && sub in policy
    decreases items
  {
    items == []
    || (&& CleanItems(c, policy, items[..|items| - 1], sub)
        && items[|items| - 1].Obj? && Clean(c, policy, items[|items| - 1].fields, sub))
  }

  lemma ScrubbedIsPlain(c: Scrub, s: string)
    requires HashesAreClean(c)
    ensures Plain(c, Scrubbed(c, s))
  {
    assert |c.sha(s)| == 64;
    assert Hashed(c, s)[0] == 's';
  }

  lemma CleanedIsPlain(c: Scrub, v: Json)
    requires HashesAreClean(c) && Scalar(v)
    ensures PlainScalar(c, CleanScalar(c, v))
  {
    if v.Arr? {
      var out := CleanScalar(c, v).items;
      forall x | x in out ensures PlainLeaf(c, x) {
        var i :| 0 <= i < |out| && out[i] == x;
        if v.items[i].Str? { ScrubbedIsPlain(c, v.items[i].s); }
      }
    } else if v.Str? {
      ScrubbedIsPlain(c, v.s);
    }
  }

  /** No output, at any depth, holds a path, a scrub root or an oversize string. */
  lemma {:induction false} OutputIsClean(c: Scrub, policy: Policy, row: seq<Field>, shape: string, prefix: string)
    requires Closed(policy) && shape in policy && HashesAreClean(c)
    ensures Clean(c, policy, Reduced(c, policy, row, shape, prefix).out, shape)
    decreases row
  {
    if row != [] {
      var front, f := row[..|row| - 1], row[|row| - 1];
      var d := DecisionFor(policy, shape, f.key);
      var before, o := Reduced(c, policy, front, shape, prefix).out, ReducedField(c, policy, f, d, prefix).out;
      OutputIsClean(c, policy, front, shape, prefix);
      FieldIsClean(c, policy, f, d, prefix);
      if o != [] {
        assert (before + o)[..|before + o| - 1] == before;
      } else {
        assert before + o == before;
      }
    }
  }

  lemma {:induction false} FieldIsClean(c: Scrub, policy: Policy, f: Field, d: Decision, prefix: string)
    requires Closed(policy) && (d.Nest? ==> d.shape in policy) && HashesAreClean(c)
    ensures var o := ReducedField(c, policy, f, d, prefix).out;
      |o| <= 1 && (o != [] ==> o[0].key == f.key && CleanField(c, policy, o[0], d))
    decreases f
  {
    match d
    case Deny =>
    case Keep => if Scalar(f.value) { CleanedIsPlain(c, f.value); }
    case Nest(sub) =>
      var name := prefix + SafeName(f.key);
      match f.value {
        case Obj(fields) => OutputIsClean(c, policy, fields, sub, name + ".");
        case Arr(items) => ItemsAreClean(c, policy, items, sub, name);
        case _ =>
      }
  }

  lemma {:induction false} ItemsAreClean(c: Scrub, policy: Policy, items: seq<Json>, sub: string, name: string)
    requires Closed(policy) && sub in policy && HashesAreClean(c)
    ensures CleanItems(c, policy, ReducedItems(c, policy, items, sub, name).items, sub)
    decreases items
  {
    if items != [] {
      var before, x := ReducedItems(c, policy, items[..|items| - 1], sub, name).items, items[|items| - 1];
      ItemsAreClean(c, policy, items[..|items| - 1], sub, name);
      var one := ReducedItem(c, policy, x, sub, name).items;
      if x.Obj? {
        OutputIsClean(c, policy, x.fields, sub, name + "[].");
        assert (before + one)[..|before + one| - 1] == before;
      } else {
        assert before + one == before;
      }
    }
  }

  /** A string stands somewhere in a value. */
  ghost predicate Holds(v: Json, s: string) {
    match v
    case Str(t) => s == t
    case Arr(items) => exists x :: x in items && Holds(x, s)
    case Obj(fields) => exists f :: f in fields && Holds(f.value, s)
    case _ => false
  }

  ghost predicate RowHolds(row: seq<Field>, s: string) { exists f :: f in row && Holds(f.value, s) }

  lemma {:induction false} CleanHolds(c: Scrub, policy: Policy, row: seq<Field>, shape: string, s: string)
    requires Closed(policy) && shape in policy && Clean(c, policy, row, shape) && RowHolds(row, s)
    ensures Plain(c, s)
    decreases row
  {
    var f :| f in row && Holds(f.value, s);
    var last := row[|row| - 1];
    if f == last {
      CleanFieldHolds(c, policy, f, DecisionFor(policy, shape, f.key), s);
    } else {
      assert f in row[..|row| - 1];
      CleanHolds(c, policy, row[..|row| - 1], shape, s);
    }
  }

  lemma {:induction false} CleanFieldHolds(c: Scrub, policy: Policy, f: Field, d: Decision, s: string)
    requires Closed(policy) && (d.Nest? ==> d.shape in policy) && CleanField(c, policy, f, d) && Holds(f.value, s)
    ensures Plain(c, s)
    decreases f
  {
    if d.Nest? {
      match f.value
      case Obj(fields) => CleanHolds(c, policy, fields, d.shape, s);
      case Arr(items) => CleanItemsHold(c, policy, items, d.shape, s);
      case _ =>
    }
  }

  lemma {:induction false} CleanItemsHold(c: Scrub, policy: Policy, items: seq<Json>, sub: string, s: string)
    requires Closed(policy) && sub in policy && CleanItems(c, policy, items, sub)
    requires exists x :: x in items && Holds(x, s)
    ensures Plain(c, s)
    decreases items
  {
    var x :| x in items && Holds(x, s);
    var last := items[|items| - 1];
    if x == last {
      CleanHolds(c, policy, x.fields, sub, s);
    } else {
      assert x in items[..|items| - 1];
      CleanItemsHold(c, policy, items[..|items| - 1], sub, s);
    }
  }

  /** No string at any depth of an output begins at a home directory, contains a
      scrub root, or is longer than 256 characters. */
  lemma OutputHoldsNoPath(c: Scrub, policy: Policy, row: seq<Field>, shape: string, prefix: string, s: string)
    requires Closed(policy) && shape in policy && HashesAreClean(c)
    requires RowHolds(Reduced(c, policy, row, shape, prefix).out, s)
    ensures |s| <= 256 && (s != "" ==> s[0] != '~')
    ensures forall r, i: nat :: r in c.roots ==> !StandsAt(r, s, i)
  {
    OutputIsClean(c, policy, row, shape, prefix);
    CleanHolds(c, policy, Reduced(c, policy, row, shape, prefix).out, shape, s);
    PathLikeIff(c, s);
    forall r, i: nat | r in c.roots ensures !StandsAt(r, s, i) {
      assert !Inside(r, s);
    }
  }

  // --- reducing again is a no-op ----------------------------------------------------

  lemma {:induction false} PlainUncounted(c: Scrub, items: seq<Json>)
    requires forall x :: x in items ==> PlainLeaf(c, x)
    ensures CountItems(c, items) == NO_COUNTS
  {
    if items != [] {
      assert PlainLeaf(c, items[0]);
      PlainUncounted(c, items[1..]);
    }
  }

  lemma PlainLeavesKept(c: Scrub, items: seq<Json>)
    requires forall x :: x in items ==> PlainLeaf(c, x)
    ensures CleanLeaves(c, items) == items
  {
    forall i | 0 <= i < |items| ensures CleanLeaf(c, items[i]) == items[i] {
      assert PlainLeaf(c, items[i]);
    }
  }

  lemma PlainKept(c: Scrub, v: Json)
    requires PlainScalar(c, v)
    ensures Scalar(v) && CleanScalar(c, v) == v && CountValue(c, v) == NO_COUNTS
  {
    if v.Arr? {
      PlainUncounted(c, v.items);
      PlainLeavesKept(c, v.items);
    }
  }

  lemma FrontAndLast<T>(s: seq<T>)
    requires s != []
    ensures s[..|s| - 1] + [s[|s| - 1]] == s
  {
  }

  lemma FixedSnoc(o: Outcome, p: Outcome, row: seq<Field>)
    requires row != [] && o == Outcome(row[..|row| - 1], NO_COUNTS) && p == Outcome([row[|row| - 1]], NO_COUNTS)
    ensures o.Then(p) == Outcome(row, NO_COUNTS)
  {
    PlusAssoc(NO_COUNTS, NO_COUNTS, NO_COUNTS);
    FrontAndLast(row);
  }

  lemma FixedItemsSnoc(o: ItemsOutcome, p: ItemsOutcome, items: seq<Json>)
    requires items != []
    requires o == ItemsOutcome(items[..|items| - 1], NO_COUNTS) && p == ItemsOutcome([items[|items| - 1]], NO_COUNTS)
    ensures o.Then(p) == ItemsOutcome(items, NO_COUNTS)
  {
    PlusAssoc(NO_COUNTS, NO_COUNTS, NO_COUNTS);
    FrontAndLast(items);
  }

  lemma {:induction false} CleanIsFixed(c: Scrub, policy: Policy, row: seq<Field>, shape: string, prefix: string)
    requires Closed(policy) && shape in policy && Clean(c, policy, row, shape)
    ensures Reduced(c, policy, row, shape, prefix) == Outcome(row, NO_COUNTS)
    decreases row
  {
    if row != [] {
      var front, f := row[..|row| - 1], row[|row| - 1];
      var d := DecisionFor(policy, shape, f.key);
      CleanIsFixed(c, policy, front, shape, prefix);
      CleanFieldIsFixed(c, policy, f, d, prefix);
      FixedSnoc(Reduced(c, policy, front, shape, prefix), ReducedField(c, policy, f, d, prefix), row);
    }
  }

  lemma {:induction false} CleanFieldIsFixed(c: Scrub, policy: Policy, f: Field, d: Decision, prefix: string)
    requires Closed(policy) && (d.Nest? ==> d.shape in policy) && CleanField(c, policy, f, d)
    ensures ReducedField(c, policy, f, d, prefix) == Outcome([f], NO_COUNTS)
    decreases f
  {
    if d.Keep? {
      PlainKept(c, f.value);
    } else {
      var name := prefix + SafeName(f.key);
      match f.value
      case Obj(fields) => CleanIsFixed(c, policy, fields, d.shape, name + ".");
      case Arr(items) => CleanItemsAreFixed(c, policy, items, d.shape, name);
      case _ =>
    }
  }

  lemma {:induction false} CleanItemsAreFixed(c: Scrub, policy: Policy, items: seq<Json>, sub: string, name: string)
    requires Closed(policy) && sub in policy && CleanItems(c, policy, items, sub)
    ensures ReducedItems(c, policy, items, sub, name) == ItemsOutcome(items, NO_COUNTS)
    decreases items
  {
    if items != [] {
      var front, x := items[..|items| - 1], items[|items| - 1];
      CleanItemsAreFixed(c, policy, front, sub, name);
      CleanIsFixed(c, policy, x.fields, sub, name + "[].");
      FixedItemsSnoc(ReducedItems(c, policy, front, sub, name), ReducedItem(c, policy, x, sub, name), items);
    }
  }

  /** Reducing an output again, under any prefix, changes and counts nothing. */
  lemma ReduceTwice(c: Scrub, policy: Policy, row: seq<Field>, shape: string, prefix: string, again: string)
    requires Closed(policy) && shape in policy && HashesAreClean(c)
    ensures var out := Reduced(c, policy, row, shape, prefix).out;
      Reduced(c, policy, out, shape, again) == Outcome(out, NO_COUNTS)
  {
    OutputIsClean(c, policy, row, shape, prefix);
    CleanIsFixed(c, policy, Reduced(c, policy, row, shape, prefix).out, shape, again);
  }
}
