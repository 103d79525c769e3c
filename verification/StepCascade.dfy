/** Closing a run's parents: when the last step bead of a parent reaches DONE the
    parent closes too, and so on up the tree. */
module StepCascade {
  import opened Prelude
  import opened BeadModel

  /** The last bead with this id: what a dictionary built from the list holds. */
  function Lookup(tasks: seq<Bead>, id: Id): (r: Option<nat>)
    ensures r.Some? ==> r.value < |tasks| && tasks[r.value].id == id
    ensures r.None? ==> forall k :: 0 <= k < |tasks| ==> tasks[k].id != id
  {
    if tasks == [] then None
    else if tasks[|tasks| - 1].id == id then Some(|tasks| - 1)
    else Lookup(tasks[..|tasks| - 1], id)
  }

  lemma LookupUnique(tasks: seq<Bead>, i: nat)
    requires UniqueIds(tasks) && i < |tasks|
    ensures Lookup(tasks, tasks[i].id) == Some(i)
  {
    assert Lookup(tasks, tasks[i].id).Some?;
  }

  predicate IsStep(b: Bead) { b.metadata.sopStep.Some? && Truthy(b.parentId) }

  predicate ChildOf(b: Bead, id: Id) { b.parentId == Some(id) }

  predicate ChildrenDone(tasks: seq<Bead>, id: Id) {
    forall t :: t in tasks && ChildOf(t, id) ==> t.status == Done
  }

  function OpenCount(tasks: seq<Bead>): nat {
    if tasks == [] then 0
    else OpenCount(tasks[1..]) + (if tasks[0].status == Done then 0 else 1)
  }

  lemma {:induction false} OpenCountDrops(tasks: seq<Bead>, i: nat, b: Bead)
    requires i < |tasks| && tasks[i].status != Done && b.status == Done
    ensures OpenCount(tasks[i := b]) < OpenCount(tasks)
  {
    if i == 0 {
      assert tasks[i := b][1..] == tasks[1..];
    } else {
      OpenCountDrops(tasks[1..], i - 1, b);
      assert tasks[i := b][1..] == tasks[1..][i - 1 := b];
    }
  }

  /** A gated parent is only marked; it waits for its own gate. */
  function StepsMarked(b: Bead): Bead {
    b.(metadata := b.metadata.(runStepsDone := true))
  }

  function RunClosed(b: Bead): Bead {
    b.(status := Done,
       result := if Truthy(b.result) then b.result else Some("run complete"),
       metadata := b.metadata.(runClosed := true))
  }

  /** What closing bead `i` does to the store: the parent's fate, then the
      parent's parent's. Each level closes a bead that was open, so it ends even
      on a store whose parent chain is a loop. */
  function Cascade(tasks: seq<Bead>, i: nat): (r: seq<Bead>)
    requires i < |tasks|
    ensures |r| == |tasks|
    decreases OpenCount(tasks)
  {
    if !IsStep(tasks[i]) then tasks
    else match Lookup(tasks, tasks[i].parentId.value)
      case None => tasks
      case Some(p) =>
        if tasks[p].status == Done || !ChildrenDone(tasks, tasks[p].id) then tasks
        else if Gated(tasks[p]) then tasks[p := StepsMarked(tasks[p])]
        else
          OpenCountDrops(tasks, p, RunClosed(tasks[p]));
          Cascade(tasks[p := RunClosed(tasks[p])], p)
  }

  /** What the cascade may do to one bead: nothing, mark a gated one, or close an
      ungated one. The gate, the tree and dependency edges and the lease stay. */
  predicate CascadedFrom(b: Bead, after: Bead) {
    || after == b
    || (Gated(b) && after == StepsMarked(b))
    || (!Gated(b) && b.status != Done && after == RunClosed(b))
  }

  /** Only open ungated parents all of whose children end DONE are closed; a
      gated bead keeps its status. */
  lemma {:induction false} CascadeFrame(tasks: seq<Bead>, i: nat)
    requires i < |tasks|
    ensures forall k :: 0 <= k < |tasks| ==> CascadedFrom(tasks[k], Cascade(tasks, i)[k])
    ensures forall k :: 0 <= k < |tasks| && tasks[k].status != Done && Cascade(tasks, i)[k].status == Done ==>
      !Gated(tasks[k]) && ChildrenDone(Cascade(tasks, i), tasks[k].id)
    decreases OpenCount(tasks)
  {
    if IsStep(tasks[i]) && Lookup(tasks, tasks[i].parentId.value).Some? {
      var p := Lookup(tasks, tasks[i].parentId.value).value;
      if tasks[p].status != Done && ChildrenDone(tasks, tasks[p].id) && !Gated(tasks[p]) {
        var next := tasks[p := RunClosed(tasks[p])];
        OpenCountDrops(tasks, p, RunClosed(tasks[p]));
        CascadeFrame(next, p);
        DoneStaysDone(tasks, next, tasks[p].id);
        DoneStaysDone(next, Cascade(next, p), tasks[p].id);
      }
    }
  }

  lemma DoneStaysDone(before: seq<Bead>, after: seq<Bead>, id: Id)
    requires |after| == |before|
    requires forall k :: 0 <= k < |before| ==> CascadedFrom(before[k], after[k])
    requires ChildrenDone(before, id)
    ensures ChildrenDone(after, id)
  {
    forall t | t in after && ChildOf(t, id) ensures t.status == Done {
      var k :| 0 <= k < |after| && after[k] == t;
      assert before[k] in before && ChildOf(before[k], id);
    }
  }

  /** An open ungated bead with a DONE step child and no open child. */
  ghost predicate Closable(tasks: seq<Bead>, p: nat) {
    && p < |tasks| && tasks[p].status != Done && !Gated(tasks[p])
    && ChildrenDone(tasks, tasks[p].id)
    && exists c :: 0 <= c < |tasks| && IsStep(tasks[c]) && ChildOf(tasks[c], tasks[p].id) && tasks[c].status == Done
  }

  /** `q`'s last open child was closed by this write but is not a step bead, so
      the walk up the step chain never looks at `q`. */
  ghost predicate OffTheStepChain(tasks: seq<Bead>, i: nat, after: seq<Bead>, q: nat)
    requires |after| == |tasks| && q < |tasks|
  {
    exists k :: 0 <= k < |tasks| && (k == i || tasks[k].status != Done)
      && after[k].status == Done && ChildOf(after[k], after[q].id) && !IsStep(after[k])
  }

  /** When the bead just closed is the only reason a parent could close, the
      cascade leaves no closable parent on the step chain: any that is left
      waits on a child that is not a step. */
  lemma {:induction false} CascadeSettles(tasks: seq<Bead>, i: nat)
    requires UniqueIds(tasks) && i < |tasks| && tasks[i].status == Done
    requires forall p: nat :: Closable(tasks, p) ==> ChildOf(tasks[i], tasks[p].id)
    ensures forall q: nat :: Closable(Cascade(tasks, i), q) ==> OffTheStepChain(tasks, i, Cascade(tasks, i), q)
    decreases OpenCount(tasks)
  {
    var r := Cascade(tasks, i);
    if !IsStep(tasks[i]) {
    } else if Lookup(tasks, tasks[i].parentId.value).None? {
      assert forall p: nat :: !Closable(tasks, p);
    } else {
      var p := Lookup(tasks, tasks[i].parentId.value).value;
      forall q: nat | Closable(tasks, q) ensures q == p {
        LookupUnique(tasks, q);
      }
      if tasks[p].status == Done || !ChildrenDone(tasks, tasks[p].id) {
        assert forall q: nat :: !Closable(tasks, q);
      } else if Gated(tasks[p]) {
        forall q: nat ensures !Closable(r, q) {
          if Closable(r, q) { SameShapeClosable(tasks, r, q); }
        }
      } else {
        var next := tasks[p := RunClosed(tasks[p])];
        OpenCountDrops(tasks, p, RunClosed(tasks[p]));
        forall q: nat | Closable(next, q) ensures ChildOf(next[p], next[q].id) {
          OnlyThroughClosed(tasks, p, next, q);
        }
        CascadeSettles(next, p);
        assert r == Cascade(next, p);
        SettledBefore(tasks, i, p, next, r);
      }
    }
  }

  /** A child closed further up was open before this write too. */
  lemma OffChainBefore(tasks: seq<Bead>, i: nat, p: nat, r: seq<Bead>, q: nat)
    requires |r| == |tasks| && q < |tasks| && p < |tasks| && tasks[p].status != Done
    requires OffTheStepChain(tasks[p := RunClosed(tasks[p])], p, r, q)
    ensures OffTheStepChain(tasks, i, r, q)
  {
    var next := tasks[p := RunClosed(tasks[p])];
    var k :| 0 <= k < |next| && (k == p || next[k].status != Done)
      && r[k].status == Done && ChildOf(r[k], r[q].id) && !IsStep(r[k]);
    assert tasks[k].status != Done;
  }

  lemma SettledBefore(tasks: seq<Bead>, i: nat, p: nat, next: seq<Bead>, r: seq<Bead>)
    requires |r| == |tasks| && p < |tasks| && tasks[p].status != Done && next == tasks[p := RunClosed(tasks[p])]
    requires forall q: nat :: Closable(r, q) ==> OffTheStepChain(next, p, r, q)
    ensures forall q: nat :: Closable(r, q) ==> OffTheStepChain(tasks, i, r, q)
  {
    forall q: nat | Closable(r, q) ensures OffTheStepChain(tasks, i, r, q) {
      OffChainBefore(tasks, i, p, r, q);
    }
  }

  lemma SameShapeClosable(tasks: seq<Bead>, r: seq<Bead>, q: nat)
    requires |r| == |tasks| && Closable(r, q)
    requires forall k :: 0 <= k < |tasks| ==>
      r[k] == tasks[k] || (Gated(tasks[k]) && r[k] == StepsMarked(tasks[k]))
    ensures Closable(tasks, q)
  {
    forall t | t in tasks && ChildOf(t, tasks[q].id) ensures t.status == Done {
      var k :| 0 <= k < |tasks| && tasks[k] == t;
      assert r[k] in r;
    }
    var c :| 0 <= c < |r| && IsStep(r[c]) && ChildOf(r[c], r[q].id) && r[c].status == Done;
    assert IsStep(tasks[c]);
  }

  /** Closing one bead makes only its own parent newly closable. */
  lemma OnlyThroughClosed(tasks: seq<Bead>, p: nat, next: seq<Bead>, q: nat)
    requires UniqueIds(tasks) && p < |tasks| && next == tasks[p := RunClosed(tasks[p])]
    requires forall k: nat :: Closable(tasks, k) ==> k == p
    requires Closable(next, q)
    ensures ChildOf(next[p], next[q].id)
  {
    assert q != p;
    if !ChildOf(tasks[p], tasks[q].id) {
      var c :| 0 <= c < |next| && IsStep(next[c]) && ChildOf(next[c], next[q].id) && next[c].status == Done;
      assert IsStep(tasks[c]) && ChildOf(tasks[c], tasks[q].id);
      forall t | t in tasks && ChildOf(t, tasks[q].id) ensures t.status == Done {
        var k :| 0 <= k < |tasks| && tasks[k] == t;
        assert next[k] in next;
      }
      assert Closable(tasks, q);
    }
  }

  /** Children of one parent are all step beads or none is: what a filed run
      looks like. */
  ghost predicate RunFamilies(tasks: seq<Bead>) {
    forall a, b :: 0 <= a < |tasks| && 0 <= b < |tasks| && IsStep(tasks[a]) && tasks[b].parentId == tasks[a].parentId ==>
      IsStep(tasks[b])
  }

  /** With unmixed families nothing at all is left closable. */
  lemma CascadeClosesAll(tasks: seq<Bead>, i: nat)
    requires UniqueIds(tasks) && i < |tasks| && tasks[i].status == Done && RunFamilies(tasks)
    requires forall p: nat :: Closable(tasks, p) ==> ChildOf(tasks[i], tasks[p].id)
    ensures forall q: nat :: !Closable(Cascade(tasks, i), q)
  {
    CascadeSettles(tasks, i);
    CascadeFrame(tasks, i);
  }

  /** Seen from one ungated parent whose children are all steps: once the last of
      them is DONE the parent is DONE by the end of that write and its cascade. */
  lemma {:induction false} CascadeClosesParent(tasks: seq<Bead>, i: nat, p: nat)
    requires UniqueIds(tasks) && i < |tasks| && p < |tasks| && !Gated(tasks[p]) && tasks[p].id != ""
    requires forall t :: t in tasks && ChildOf(t, tasks[p].id) ==> IsStep(t)
    requires !ChildrenDone(tasks, tasks[p].id) || ChildOf(tasks[i], tasks[p].id) || tasks[p].status == Done
    ensures ChildrenDone(Cascade(tasks, i), tasks[p].id) ==> Cascade(tasks, i)[p].status == Done
    decreases OpenCount(tasks)
  {
    assert tasks[i] in tasks;
    if ChildOf(tasks[i], tasks[p].id) {
      LookupUnique(tasks, p);
    }
    if ClosesParent(tasks, i) {
      var q := Lookup(tasks, tasks[i].parentId.value).value;
      var next := tasks[q := RunClosed(tasks[q])];
      OpenCountDrops(tasks, q, RunClosed(tasks[q]));
      NextLevel(tasks, q, p, next);
      CascadeClosesParent(next, q, p);
    } else {
      SettledAtOnce(tasks, i, p);
    }
  }

  /** Closing `q` keeps `p`'s children as they are, save `q` itself. */
  lemma NextLevel(tasks: seq<Bead>, q: nat, p: nat, next: seq<Bead>)
    requires q < |tasks| && p < |tasks| && next == tasks[q := RunClosed(tasks[q])]
    requires forall t :: t in tasks && ChildOf(t, tasks[p].id) ==> IsStep(t)
    ensures forall t :: t in next && ChildOf(t, tasks[p].id) ==> IsStep(t)
    ensures ChildrenDone(next, tasks[p].id) && !ChildOf(next[q], tasks[p].id) ==> ChildrenDone(tasks, tasks[p].id)
  {
    forall t | t in next && ChildOf(t, next[p].id) ensures IsStep(t) {
      var k :| 0 <= k < |next| && next[k] == t;
      assert tasks[k] in tasks;
    }
    if ChildrenDone(next, tasks[p].id) && !ChildOf(next[q], tasks[p].id) {
      forall t | t in tasks && ChildOf(t, tasks[p].id) ensures t.status == Done {
        var k :| 0 <= k < |tasks| && tasks[k] == t;
        assert next[k] in next;
      }
    }
  }

  // --- exactly which parents the cascade closes ----------------------------------------

  /** The conditions of the branch that closes a parent of bead `i`. */
  predicate ClosesParent(tasks: seq<Bead>, i: nat)
    requires i < |tasks|
  {
    && IsStep(tasks[i]) && Lookup(tasks, tasks[i].parentId.value).Some?
    && var p := Lookup(tasks, tasks[i].parentId.value).value;
       tasks[p].status != Done && ChildrenDone(tasks, tasks[p].id) && !Gated(tasks[p])
  }

  /** Bead `k` became DONE in this write: it is the bead written, or the cascade
      closed it. */
  predicate NewlyDone(tasks: seq<Bead>, i: nat, after: seq<Bead>, k: nat)
    requires |after| == |tasks| && k < |tasks|
  {
    (k == i || tasks[k].status != Done) && after[k].status == Done
  }

  /** Shapes stay, and what is DONE stays DONE. */
  lemma CascadeKeeps(tasks: seq<Bead>, i: nat, k: nat)
    requires i < |tasks| && k < |tasks|
    ensures var b, after := tasks[k], Cascade(tasks, i)[k];
      && after.id == b.id && after.parentId == b.parentId && (IsStep(after) <==> IsStep(b))
      && (b.status == Done ==> after.status == Done)
  {
    CascadeFrame(tasks, i);
    assert CascadedFrom(tasks[k], Cascade(tasks, i)[k]);
  }

  /** The write finished bead `q`'s children: all are DONE, some are newly so, and
      those newly so are all steps. */
  ghost predicate Finishes(tasks: seq<Bead>, i: nat, after: seq<Bead>, q: nat)
    requires |after| == |tasks| && q < |tasks|
  {
    && ChildrenDone(after, tasks[q].id)
    && (exists k: nat :: k < |tasks| && NewlyDoneChild(tasks, i, after, q, k))
    && (forall k: nat :: k < |tasks| && NewlyDoneChild(tasks, i, after, q, k) ==> IsStep(tasks[k]))
  }

  predicate NewlyDoneChild(tasks: seq<Bead>, i: nat, after: seq<Bead>, q: nat, k: nat)
    requires |after| == |tasks| && q < |tasks| && k < |tasks|
  {
    NewlyDone(tasks, i, after, k) && ChildOf(tasks[k], tasks[q].id)
  }

  /** What the cascade owes bead `q`: an open one whose children the write finished
      is closed, or marked if it is gated; every other bead is left as it was. */
  ghost function Owed(tasks: seq<Bead>, i: nat, after: seq<Bead>, q: nat): Bead
    requires |after| == |tasks| && q < |tasks|
  {
    var b := tasks[q];
    if b.status == Done || !Finishes(tasks, i, after, q) then b
    else if Gated(b) then b.(metadata := b.metadata.(runStepsDone := true))
    else b.(status := Done, result := if Truthy(b.result) then b.result else Some("run complete"),
            metadata := b.metadata.(runClosed := true))
  }

  /** The whole effect of the cascade, on every bead of every store with unique
      ids, mixed families and looping parent chains included. */
  lemma {:induction false} CascadeExact(tasks: seq<Bead>, i: nat, q: nat)
    requires UniqueIds(tasks) && i < |tasks| && tasks[i].status == Done && q < |tasks|
    ensures Cascade(tasks, i)[q] == Owed(tasks, i, Cascade(tasks, i), q)
    decreases OpenCount(tasks)
  {
    var r := Cascade(tasks, i);
    if ClosesParent(tasks, i) {
      var p := Lookup(tasks, tasks[i].parentId.value).value;
      var next := tasks[p := RunClosed(tasks[p])];
      OpenCountDrops(tasks, p, RunClosed(tasks[p]));
      assert r == Cascade(next, p);
      if q == p {
        ClosedHere(tasks, i, p, next);
      } else {
        CascadeExact(next, p, q);
        SameOwed(tasks, i, p, next, r, q);
      }
    } else {
      SettledAtOnce(tasks, i, q);
      StoppedHere(tasks, i, q);
    }
  }

  lemma ClosedHere(tasks: seq<Bead>, i: nat, p: nat, next: seq<Bead>)
    requires UniqueIds(tasks) && i < |tasks| && p < |tasks| && tasks[i].status == Done && ClosesParent(tasks, i)
    requires Lookup(tasks, tasks[i].parentId.value) == Some(p) && next == tasks[p := RunClosed(tasks[p])]
    ensures Cascade(tasks, i)[p] == Owed(tasks, i, Cascade(tasks, i), p)
  {
    var r := Cascade(tasks, i);
    OpenCountDrops(tasks, p, RunClosed(tasks[p]));
    CascadeFrame(next, p);
    CascadeFrame(tasks, i);
    DoneStaysDone(tasks, r, tasks[p].id);
    assert NewlyDoneChild(tasks, i, r, p, i);
    forall k: nat | k < |tasks| && NewlyDoneChild(tasks, i, r, p, k) ensures k == i {
      assert tasks[k] in tasks;
    }
  }

  /** Seen from any other bead, the next level finishes what this one does. */
  lemma SameFinishes(tasks: seq<Bead>, i: nat, p: nat, next: seq<Bead>, r: seq<Bead>, q: nat)
    requires UniqueIds(tasks) && i < |tasks| && p < |tasks| && q < |tasks| && p != q && |r| == |tasks|
    requires tasks[p].status != Done && next == tasks[p := RunClosed(tasks[p])]
    requires tasks[i].parentId == Some(tasks[p].id) && tasks[i].status == Done
    ensures Finishes(next, p, r, q) <==> Finishes(tasks, i, r, q)
  {
    forall k: nat | k < |tasks|
      ensures NewlyDoneChild(next, p, r, q, k) <==> NewlyDoneChild(tasks, i, r, q, k)
      ensures IsStep(next[k]) <==> IsStep(tasks[k])
    {
      assert k == i ==> !ChildOf(tasks[k], tasks[q].id);
    }
    if k: nat :| k < |tasks| && NewlyDoneChild(tasks, i, r, q, k) {
      assert NewlyDoneChild(next, p, r, q, k);
    }
  }

  lemma SameOwed(tasks: seq<Bead>, i: nat, p: nat, next: seq<Bead>, r: seq<Bead>, q: nat)
    requires UniqueIds(tasks) && i < |tasks| && p < |tasks| && q < |tasks| && p != q && |r| == |tasks|
    requires tasks[p].status != Done && next == tasks[p := RunClosed(tasks[p])]
    requires tasks[i].parentId == Some(tasks[p].id) && tasks[i].status == Done
    ensures Owed(next, p, r, q) == Owed(tasks, i, r, q)
  {
    SameFinishes(tasks, i, p, next, r, q);
  }

  /** Where no parent closes, at most a gated one is marked. */
  lemma StoppedHere(tasks: seq<Bead>, i: nat, q: nat)
    requires UniqueIds(tasks) && i < |tasks| && tasks[i].status == Done && q < |tasks| && !ClosesParent(tasks, i)
    requires forall k: nat :: k < |tasks| ==> Cascade(tasks, i)[k].status == tasks[k].status
    requires ChildrenDone(Cascade(tasks, i), tasks[q].id) <==> ChildrenDone(tasks, tasks[q].id)
    ensures Cascade(tasks, i)[q] == Owed(tasks, i, Cascade(tasks, i), q)
  {
    var r := Cascade(tasks, i);
    forall k: nat | k < |tasks| && NewlyDoneChild(tasks, i, r, q, k) ensures k == i {
    }
    if ChildOf(tasks[i], tasks[q].id) {
      LookupUnique(tasks, q);
      assert NewlyDoneChild(tasks, i, r, q, i);
    }
  }

  /** Where the cascade stops at once, no status changes: a parent of the written
      bead left open has an open child or no step child just done. */
  lemma SettledAtOnce(tasks: seq<Bead>, i: nat, q: nat)
    requires UniqueIds(tasks) && i < |tasks| && q < |tasks| && !ClosesParent(tasks, i)
    ensures forall k: nat :: k < |tasks| ==> Cascade(tasks, i)[k].status == tasks[k].status
    ensures ChildrenDone(Cascade(tasks, i), tasks[q].id) <==> ChildrenDone(tasks, tasks[q].id)
  {
    var r := Cascade(tasks, i);
    if ChildrenDone(r, tasks[q].id) {
      forall t | t in tasks && ChildOf(t, tasks[q].id) ensures t.status == Done {
        var k :| 0 <= k < |tasks| && tasks[k] == t;
        assert r[k] in r;
      }
    }
    if ChildrenDone(tasks, tasks[q].id) {
      CascadeFrame(tasks, i);
      DoneStaysDone(tasks, r, tasks[q].id);
    }
  }

  /** Exactly which parents a write closes: an open ungated bead with a child newly
      DONE, all of whose children are DONE afterwards, is DONE itself if and only
      if no child newly DONE is anything but a step. */
  lemma CascadeClosesIff(tasks: seq<Bead>, i: nat, q: nat, k: nat)
    requires UniqueIds(tasks) && i < |tasks| && tasks[i].status == Done
    requires q < |tasks| && tasks[q].status != Done && !Gated(tasks[q])
    requires ChildrenDone(Cascade(tasks, i), tasks[q].id)
    requires k < |tasks| && NewlyDone(tasks, i, Cascade(tasks, i), k) && ChildOf(tasks[k], tasks[q].id)
    ensures Cascade(tasks, i)[q].status == Done <==> !OffTheStepChain(tasks, i, Cascade(tasks, i), q)
  {
    var r := Cascade(tasks, i);
    forall c: nat | c < |tasks|
      ensures r[c].id == tasks[c].id && r[c].parentId == tasks[c].parentId && (IsStep(r[c]) <==> IsStep(tasks[c]))
    {
      CascadeKeeps(tasks, i, c);
    }
    CascadeExact(tasks, i, q);
    assert NewlyDoneChild(tasks, i, r, q, k);
    if r[q].status == Done {
      OnTheStepChain(tasks, i, r, q);
    }
    if !OffTheStepChain(tasks, i, r, q) {
      forall c: nat | c < |tasks| && NewlyDoneChild(tasks, i, r, q, c) ensures IsStep(tasks[c]) {
        assert ChildOf(r[c], r[q].id);
      }
    }
  }

  lemma OnTheStepChain(tasks: seq<Bead>, i: nat, r: seq<Bead>, q: nat)
    requires |r| == |tasks| && q < |tasks|
    requires forall c: nat :: c < |tasks| ==>
      r[c].id == tasks[c].id && r[c].parentId == tasks[c].parentId && (IsStep(r[c]) <==> IsStep(tasks[c]))
    requires forall c: nat :: c < |tasks| && NewlyDoneChild(tasks, i, r, q, c) ==> IsStep(tasks[c])
    ensures !OffTheStepChain(tasks, i, r, q)
  {
    forall k: nat | k < |tasks| && NewlyDone(tasks, i, r, k) && ChildOf(r[k], r[q].id) ensures IsStep(r[k]) {
      assert NewlyDoneChild(tasks, i, r, q, k);
    }
  }

  // --- what a reader may see in the middle ---------------------------------------------

  /** The locked region rewrites the file once for the bead and once more at each
      level the cascade touches. Between the first two rewrites a reader finds the
      parent of the step just finished open, with every child DONE, exactly when
      the cascade is about to close it. */
  lemma MiddleShowsOpenParentIff(written: seq<Bead>, i: nat)
    requires UniqueIds(written) && i < |written| && written[i].status == Done
    ensures (exists p: nat :: Closable(written, p) && IsStep(written[i]) && ChildOf(written[i], written[p].id))
       <==> ClosesParent(written, i)
    ensures ClosesParent(written, i) ==> exists p: nat :: Closable(written, p) && Cascade(written, i)[p].status == Done
  {
    if p: nat :| Closable(written, p) && IsStep(written[i]) && ChildOf(written[i], written[p].id) {
      LookupUnique(written, p);
    }
    if ClosesParent(written, i) {
      var p := Lookup(written, written[i].parentId.value).value;
      OpenCountDrops(written, p, RunClosed(written[p]));
      CascadeKeeps(written[p := RunClosed(written[p])], p, p);
      assert Closable(written, p);
    }
  }

  /** In a store of unmixed families nothing else is ever seen half closed, and
      after the last rewrite nothing is. */
  lemma ReaderSeesOpenParentIff(written: seq<Bead>, i: nat)
    requires UniqueIds(written) && i < |written| && written[i].status == Done && RunFamilies(written)
    requires forall p: nat :: Closable(written, p) ==> ChildOf(written[i], written[p].id)
    ensures (exists p: nat :: Closable(written, p)) <==> ClosesParent(written, i)
    ensures forall p: nat :: !Closable(Cascade(written, i), p)
  {
    CascadeClosesAll(written, i);
    MiddleShowsOpenParentIff(written, i);
    if p: nat :| Closable(written, p) {
      var c :| 0 <= c < |written| && IsStep(written[c]) && ChildOf(written[c], written[p].id) && written[c].status == Done;
      assert IsStep(written[i]);
    }
  }

  /** A parent with one DONE step and one planned child, also DONE. */
  function MixedFamily(): seq<Bead> {
    var parent := Bead("p", Pending, None, None, None, None, [], None, 0, Never, [], None, NO_METADATA);
    [ parent,
      parent.(id := "s", status := Done, parentId := Some("p"), metadata := NO_METADATA.(sopStep := Some(1))),
      parent.(id := "g", status := Done, parentId := Some("p")) ]
  }

  /** Finishing the planned child last leaves the parent closable and open. */
  lemma MixedFamilyStaysOpen()
    ensures UniqueIds(MixedFamily())
    ensures forall p: nat :: Closable(MixedFamily(), p) ==> ChildOf(MixedFamily()[2], MixedFamily()[p].id)
    ensures Closable(Cascade(MixedFamily(), 2), 0)
  {
    var tasks := MixedFamily();
    assert Cascade(tasks, 2) == tasks;
    assert IsStep(tasks[1]) && ChildOf(tasks[1], tasks[0].id);
  }
}
