/** Binding the roles of a procedure to actors for one run. */
module RoleBindings {
  import opened Prelude
  import opened BeadModel
  import opened Procedures

  type Bindings = map<string, string>

  datatype RunRefusal = RoleUnbound | ConstraintUnsatisfiable

  function StepIndex(steps: seq<Step>, n: nat): (r: Option<nat>)
    ensures r.Some? ==> r.value < |steps| && steps[r.value].step == n
    ensures r.None? ==> forall k :: 0 <= k < |steps| ==> steps[k].step != n
  {
    if steps == [] then None
    else if steps[0].step == n then Some(0)
    else match StepIndex(steps[1..], n)
      case Some(k) => Some(k + 1)
      case None =>
        assert forall k :: 0 < k < |steps| ==> steps[k] == steps[1..][k - 1];
        None
  }

  ghost predicate DistinctSteps(steps: seq<Step>) {
    forall i, j :: 0 <= i < j < |steps| ==> steps[i].step != steps[j].step
  }

  lemma StepIndexAt(steps: seq<Step>, i: nat)
    requires DistinctSteps(steps) && i < |steps|
    ensures StepIndex(steps, steps[i].step) == Some(i)
  {
    assert StepIndex(steps, steps[i].step).Some?;
  }

  /** What validation promises: distinctly numbered steps that come after earlier
      ones only, and every role that is mentioned is declared. */
  ghost predicate WellFormed(c: Content) {
    && DistinctSteps(c.steps)
    && (forall i, a :: 0 <= i < |c.steps| && a in c.steps[i].after ==> StepIndex(c.steps[..i], a).Some?)
    && (forall i :: 0 <= i < |c.steps| && c.steps[i].uses.None? ==> c.steps[i].role in c.roles)
    && (forall d, r :: d in c.constraints && r in d ==> r in c.roles)
  }

  lemma EarlierStep(c: Content, i: nat, a: nat)
    requires WellFormed(c) && i < |c.steps| && a in c.steps[i].after
    ensures StepIndex(c.steps, a) == StepIndex(c.steps[..i], a) && StepIndex(c.steps, a).Some?
  {
    var k := StepIndex(c.steps[..i], a).value;
    assert c.steps[k] == c.steps[..i][k];
    StepIndexAt(c.steps, k);
  }

  predicate Judges(s: Step) { s.uses.None? && s.gate.Some? && s.gate.value.kind == Judged }

  predicate Bound(b: Bindings, role: string) { role in b && !IsBlank(b[role]) }

  predicate AllBound(c: Content, b: Bindings) { forall r :: r in c.roles ==> Bound(b, r) }

  /** No two of these roles are held by one actor. */
  ghost predicate Apart(roles: seq<string>, b: Bindings) {
    && (forall r :: r in roles ==> r in b)
    && forall i, j :: 0 <= i < j < |roles| ==> b[roles[i]] != b[roles[j]]
  }

  /** The judge `s` is not the actor of `prev`. */
  predicate JudgesAnother(s: Step, prev: Step, b: Bindings) {
    prev.uses.None? ==> prev.role in b && s.role in b && b[prev.role] != b[s.role]
  }

  ghost predicate JudgesOthers(c: Content, b: Bindings, i: nat)
    requires i < |c.steps|
  {
    Judges(c.steps[i]) ==>
      forall k :: 0 <= k < |c.steps| && c.steps[k].step in c.steps[i].after ==> JudgesAnother(c.steps[i], c.steps[k], b)
  }

  /** Every role bound; roles declared distinct held by different actors; no judge
      bound to the actor whose step it judges. */
  ghost predicate SeparatesDuties(c: Content, b: Bindings) {
    && AllBound(c, b)
    && (forall d :: d in c.constraints ==> Apart(d, b))
    && forall i :: 0 <= i < |c.steps| ==> JudgesOthers(c, b, i)
  }

  /** `len(set(actors)) == len(actors)` says no actor appears twice. */
  lemma {:induction false} SetSizeDistinct(s: seq<string>)
    ensures |Elements(s)| <= |s|
    ensures |Elements(s)| == |s| <==> Distinct(s)
  {
    if s != [] {
      var front, last := s[..|s| - 1], s[|s| - 1];
      SetSizeDistinct(front);
      assert s == front + [last];
      assert Elements(s) == Elements(front) + {last};
      if last in front {
        assert Elements(s) == Elements(front);
        var i :| 0 <= i < |front| && front[i] == last;
        assert s[i] == s[|s| - 1];
      } else {
        assert |Elements(s)| == |Elements(front)| + 1;
        assert Distinct(front) ==> Distinct(s);
        if Distinct(s) { assert forall i :: 0 <= i < |front| ==> front[i] == s[i]; }
      }
    }
  }

  lemma ActorsApart(roles: seq<string>, b: Bindings, actors: seq<string>)
    requires (forall r :: r in roles ==> r in b) && |actors| == |roles|
    requires forall i :: 0 <= i < |roles| ==> roles[i] in b && actors[i] == b[roles[i]]
    ensures |Elements(actors)| == |actors| <==> Apart(roles, b)
  {
    SetSizeDistinct(actors);
    if Distinct(actors) {
      forall i, j | 0 <= i < j < |roles| ensures b[roles[i]] != b[roles[j]] {
        assert actors[i] != actors[j];
      }
    }
    if Apart(roles, b) {
      forall i, j | 0 <= i < j < |actors| ensures actors[i] != actors[j] {
        assert b[roles[i]] != b[roles[j]];
      }
    }
  }

  /** One judge against the steps it comes after. */
  method CheckJudge(c: Content, b: Bindings, i: nat) returns (apart: bool)
    requires WellFormed(c) && AllBound(c, b) && i < |c.steps|
    ensures apart <==> JudgesOthers(c, b, i)
  {
    var s := c.steps[i];
    if !Judges(s) {
      return true;
    }
    for j := 0 to |s.after|
      invariant forall k :: 0 <= k < |c.steps| && c.steps[k].step in s.after[..j] ==> JudgesAnother(s, c.steps[k], b)
    {
      assert s.after[j] in s.after;
      EarlierStep(c, i, s.after[j]);
      var at := StepIndex(c.steps, s.after[j]).value;
      var prev := c.steps[at];
      if prev.uses.None? && b[prev.role] == b[s.role] {
        assert !JudgesAnother(s, prev, b);
        return false;
      }
      assert s.after[..j + 1] == s.after[..j] + [s.after[j]];
      forall k | 0 <= k < |c.steps| && c.steps[k].step == s.after[j] ensures k == at {
        StepIndexAt(c.steps, k);
      }
    }
    assert s.after[..|s.after|] == s.after;
    apart := true;
  }

  /** Bindings are accepted exactly when they separate duties. */
  method CheckBindings(c: Content, b: Bindings) returns (r: Option<RunRefusal>)
    requires WellFormed(c)
    ensures r.None? <==> SeparatesDuties(c, b)
    ensures r == Some(RoleUnbound) <==> !AllBound(c, b)
  {
    if !AllBound(c, b) {
      return Some(RoleUnbound);
    }
    for n := 0 to |c.constraints|
      invariant forall m :: 0 <= m < n ==> Apart(c.constraints[m], b)
    {
      var roles := c.constraints[n];
      assert roles in c.constraints;
      assert forall x :: x in roles ==> x in c.roles && Bound(b, x);
      var actors := [];
      for i := 0 to |roles|
        invariant |actors| == i && forall k :: 0 <= k < i ==> roles[k] in b && actors[k] == b[roles[k]]
      {
        assert roles[i] in roles;
        actors := actors + [b[roles[i]]];
      }
      ActorsApart(roles, b, actors);
      if |Elements(actors)| != |actors| {
        return Some(ConstraintUnsatisfiable);
      }
    }
    for i := 0 to |c.steps|
      invariant forall m :: 0 <= m < i ==> JudgesOthers(c, b, m)
    {
      var apart := CheckJudge(c, b, i);
      if !apart {
        return Some(ConstraintUnsatisfiable);
      }
    }
    r := None;
  }
}
