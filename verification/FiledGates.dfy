/** A filed procedure keeps its promise to check: over any run, no step of it is
    ever DONE without the gate its text gives that step having been released. */
module FiledGates {
  import opened Prelude
  import opened BeadModel
  import opened StepCascade
  import opened BeadStore
  import opened BeadRuns
  import opened RoleBindings
  import opened Filing
  import opened RunFiling
  import opened RunGates

  /** Position `i` holds an unfinished bead under this id and gate that nobody is
      yet writing. */
  ghost predicate Stands(w: World, i: nat, id: Id, g: Gate) {
    && i < |w.tasks| && w.tasks[i].id == id && w.tasks[i].metadata.verify == Some(g) && w.tasks[i].status != Done
    && forall op :: op in w.ops ==> w.ops[op].prepared.id != id
  }

  ghost predicate StartsGated(env: Env, start: World, i: nat, id: Id, g: Gate) {
    UniqueIds(start.tasks) && NormalGates(env, start) && Stands(start, i, id, g)
  }

  /** Such a bead stays where it is, under its gate. */
  lemma StandsGated(env: Env, start: World, es: seq<Event>, n: nat, i: nat, id: Id, g: Gate)
    requires IdempotentGates(env) && LeavesGates(es) && NormalGates(env, start) && n <= |es| && Stands(start, i, id, g)
    ensures var w := From(env, start, es, n); i < |w.tasks| && w.tasks[i].id == id && w.tasks[i].metadata.verify == Some(g)
  {
    assert From(env, start, es, 0) == start;
    PositionsStay(env, start, es, 0, n);
    GatePinnedSince(env, start, es, 0, n, i);
  }

  /** When it is DONE after `n` events, there is one before them at which its gate
      was released. */
  lemma {:induction false} StoodUntilReleased(env: Env, start: World, es: seq<Event>, n: nat, i: nat, id: Id, g: Gate) returns (m: nat)
    requires IdempotentGates(env) && LeavesGates(es) && NormalGates(env, start) && UniqueIds(start.tasks)
    requires n <= |es| && Stands(start, i, id, g)
    requires i < |From(env, start, es, n).tasks| && From(env, start, es, n).tasks[i].status == Done
    ensures m < n && es[m].Begin? && es[m].call.Target() == id && ReleasedAt(env, start, es, m, i, g)
  {
    assert From(env, start, es, 0) == start;
    StandsGated(env, start, es, n - 1, i, id, g);
    if From(env, start, es, n - 1).tasks[i].status == Done {
      m := StoodUntilReleased(env, start, es, n - 1, i, id, g);
    } else {
      m := ReleasedSince(env, start, es, n - 1, i);
      FlightUnasking(env, start, es, m);
    }
  }

  /** The bead, after any such events, is where it stood, and DONE only if released. */
  lemma StandsUntilReleased(env: Env, start: World, es: seq<Event>, n: nat, i: nat, id: Id, g: Gate) returns (m: nat)
    requires IdempotentGates(env) && LeavesGates(es) && n <= |es| && StartsGated(env, start, i, id, g)
    ensures DoneOnlyReleased(env, start, es, n, i, id, g, m)
  {
    StandsGated(env, start, es, n, i, id, g);
    m := 0;
    if From(env, start, es, n).tasks[i].status == Done {
      m := StoodUntilReleased(env, start, es, n, i, id, g);
    }
  }

  /** After `n` events the bead is at `i`, and if it is DONE the earlier event `m`
      is a call on it at which gate `g` was released. */
  ghost predicate DoneOnlyReleased(env: Env, start: World, es: seq<Event>, n: nat, i: nat, id: Id, g: Gate, m: nat)
    requires n <= |es|
  {
    && i < |From(env, start, es, n).tasks| && From(env, start, es, n).tasks[i].id == id
    && (From(env, start, es, n).tasks[i].status == Done ==>
         m < n && es[m].Begin? && es[m].call.Target() == id && ReleasedAt(env, start, es, m, i, g))
  }

  lemma FlightUnasking(env: Env, start: World, es: seq<Event>, m: nat)
    requires LeavesGates(es) && m < |es| && es[m].Begin?
    ensures !RequestOf(es[m].call, From(env, start, es, m).clock).allowGateChange
  {
  }

  /** Filing on a store with normal gates leaves normal gates. */
  lemma FiledNormal(env: Env, base: World, p: Plan)
    requires Flat(env, p) && NormalGates(env, base)
    ensures NormalGates(env, AfterFiling(env, base, p))
  {
    var tasks := AfterFiling(env, base, p).tasks;
    forall i | 0 <= i < |tasks| ensures NormalMetadata(env, tasks[i].metadata) {
      if i < |base.tasks| {
        assert tasks[i] == base.tasks[i];
      } else if i > |base.tasks| {
        assert tasks[i] == StepBead(env, p, i - |base.tasks| - 1);
      }
    }
  }

  /** Nobody in flight names a bead of the run. */
  ghost predicate NobodyAhead(base: World, p: Plan) {
    forall op :: op in base.ops ==> base.ops[op].prepared.id !in p.ids
  }

  /** Filed on such a store, each step stands under its own gate. */
  lemma FiledStands(env: Env, base: World, p: Plan, k: nat)
    requires Flat(env, p) && FreshIds(base.tasks, p) && NobodyAhead(base, p) && k < |p.ids|
    ensures Stands(AfterFiling(env, base, p), |base.tasks| + 1 + k, p.ids[k], p.c.steps[k].gate.value)
  {
    assert p.ids[k] in p.ids;
    FiledCarriesRun(env, base.tasks, p);
  }

  /** The filed store: unique ids, normal gates, and this step standing under its own. */
  lemma FiledStart(env: Env, base: World, p: Plan, k: nat)
    requires Flat(env, p) && FreshIds(base.tasks, p) && UniqueIds(base.tasks) && NormalGates(env, base)
    requires NobodyAhead(base, p) && k < |p.ids|
    ensures StartsGated(env, AfterFiling(env, base, p), |base.tasks| + 1 + k, p.ids[k], p.c.steps[k].gate.value)
  {
    FiledNormal(env, base, p);
    FiledUnique(env, base.tasks, p);
    FiledStands(env, base, p, k);
  }

  /** Over any events after the filing in which nobody asks to change a gate, every
      step that is DONE had its own gate released since, by a call on its bead. */
  lemma FiledStepsAreGated(env: Env, base: World, p: Plan, start: World, more: seq<Event>, n: nat, k: nat) returns (m: nat)
    requires IdempotentGates(env) && LeavesGates(more)
    requires UniqueIds(base.tasks) && NormalGates(env, base) && NobodyAhead(base, p)
    requires Flat(env, p) && FreshIds(base.tasks, p) && start == AfterFiling(env, base, p)
    requires k < |p.ids| && n <= |more|
    ensures DoneOnlyReleased(env, start, more, n, |base.tasks| + 1 + k, p.ids[k], p.c.steps[k].gate.value, m)
  {
    FiledStart(env, base, p, k);
    m := StandsUntilReleased(env, start, more, n, |base.tasks| + 1 + k, p.ids[k], p.c.steps[k].gate.value);
  }

  /** What that asks of the store a run is filed on holds of every store any calls
      can reach from the empty one. */
  lemma ReachableReady(env: Env, es: seq<Event>, p: Plan)
    requires IdempotentGates(env) && FreshIds(After(env, es, |es|).tasks, p)
    ensures var base := After(env, es, |es|); UniqueIds(base.tasks) && NormalGates(env, base) && NobodyAhead(base, p)
  {
    var base := After(env, es, |es|);
    assert es[..|es|] == es;
    ReachableSound(env, es);
    ReachableNormal(env, es, |es|);
    forall op | op in base.ops ensures base.ops[op].prepared.id !in p.ids {
      FlightsExist(env, es, op);
      assert forall x :: x in p.ids ==> FreshId(base.tasks, x);
    }
  }
}
