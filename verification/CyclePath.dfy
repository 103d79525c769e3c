/** The search that decides whether giving a bead new blockers would close a
    dependency loop, and names the loop. */
module CyclePath {
  import opened Prelude
  import opened Graph
  import opened BeadModel

  type Successors = map<Id, seq<Id>>

  function SuccessorsOf(m: Successors, x: Id): seq<Id> {
    if x in m then m[x] else []
  }

  /** `m` lists, under each bead, exactly the beads waiting for it. */
  ghost predicate Lists(m: Successors, edges: Edges<Id>) {
    forall x, y :: y in SuccessorsOf(m, x) <==> (x, y) in edges
  }

  method IndexSuccessors(tasks: seq<Bead>) returns (m: Successors)
    ensures Lists(m, EdgesOf(tasks))
  {
    m := map[];
    for i := 0 to |tasks|
      invariant Lists(m, EdgesOf(tasks[..i]))
    {
      var t := tasks[i];
      ghost var before := EdgesOf(tasks[..i]);
      for j := 0 to |t.blockedBy|
        invariant Lists(m, before + (set b | b in t.blockedBy[..j] :: (b, t.id)))
      {
        var b := t.blockedBy[j];
        ghost var was := m;
        m := m[b := SuccessorsOf(m, b) + [t.id]];
        assert t.blockedBy[..j + 1] == t.blockedBy[..j] + [b];
        forall x, y ensures y in SuccessorsOf(m, x) <==> y in SuccessorsOf(was, x) || (x == b && y == t.id) {
        }
      }
      assert t.blockedBy[..|t.blockedBy|] == t.blockedBy;
      EdgesOfSnoc(tasks[..i], t);
      assert tasks[..i] + [t] == tasks[..i + 1];
    }
    assert tasks[..|tasks|] == tasks;
  }

  lemma EdgesOfSnoc(tasks: seq<Bead>, t: Bead)
    ensures EdgesOf(tasks + [t]) == EdgesOf(tasks) + (set b | b in t.blockedBy :: (b, t.id))
  {
    var all := tasks + [t];
    forall e | e in EdgesOf(all) ensures e in EdgesOf(tasks) || (e.0 in t.blockedBy && e.1 == t.id) {
      var i, b :| 0 <= i < |all| && b in all[i].blockedBy && e == (b, all[i].id);
      if i < |tasks| { assert all[i] == tasks[i]; }
    }
    forall e | e in EdgesOf(tasks) ensures e in EdgesOf(all) {
      var i, b :| 0 <= i < |tasks| && b in tasks[i].blockedBy && e == (b, tasks[i].id);
      assert all[i] == tasks[i];
    }
    forall b | b in t.blockedBy ensures (b, t.id) in EdgesOf(all) {
      assert all[|tasks|] == t;
    }
  }

  /** The tree of a breadth-first search from `root`: every node seen but the
      root hangs under an earlier one by an edge. */
  ghost predicate SearchTree(edges: Edges<Id>, root: Id, seen: set<Id>, parent: map<Id, Id>, rank: map<Id, nat>) {
    && root in seen && root !in parent
    && parent.Keys == seen - {root}
    && rank.Keys == seen
    && forall x :: x in parent ==> parent[x] in seen && (parent[x], x) in edges && rank[parent[x]] < rank[x]
  }

  /** Everything seen and no longer queued has all its successors seen and is
      not the target. */
  ghost predicate Explored(edges: Edges<Id>, seen: set<Id>, queue: seq<Id>, target: Id) {
    && (forall x :: x in queue ==> x in seen)
    && (forall x :: x in seen && x !in queue ==> x != target)
    && (forall x, y :: x in seen && x !in queue && (x, y) in edges ==> y in seen)
  }

  /** `reached` holds the root, is closed under edges and misses the target. */
  ghost predicate Misses(edges: Edges<Id>, root: Id, target: Id, reached: set<Id>) {
    && root in reached && target !in reached
    && forall x, y :: x in reached && (x, y) in edges ==> y in reached
  }

  /** The edges a search from `root` may walk: none leads back into the root. */
  ghost function AwayFrom(edges: Edges<Id>, root: Id): Edges<Id> {
    set e | e in edges && e.1 != root
  }

  /** Follow parents from `blocker` back to `root`. */
  method Unwind(ghost edges: Edges<Id>, root: Id, blocker: Id, ghost seen: set<Id>, parent: map<Id, Id>, ghost rank: map<Id, nat>)
    returns (chain: seq<Id>)
    requires SearchTree(edges, root, seen, parent, rank)
    requires blocker in seen
    ensures Walk(AwayFrom(edges, root), chain)
    ensures chain[0] == root && chain[|chain| - 1] == blocker
  {
    chain := [blocker];
    var node := blocker;
    while node in parent
      invariant node in seen
      invariant Walk(AwayFrom(edges, root), chain)
      invariant chain[0] == node && chain[|chain| - 1] == blocker
      decreases if node in seen then rank[node] else 0
    {
      assert (parent[node], node) in AwayFrom(edges, root);
      ghost var was := chain;
      chain := [parent[node]] + chain;
      forall k | 0 <= k < |chain| - 1 ensures (chain[k], chain[k + 1]) in AwayFrom(edges, root) {
        if k > 0 {
          assert (was[k - 1], was[k]) in AwayFrom(edges, root);
        }
      }
      node := parent[node];
    }
  }

  /** Queue the successors of `cur` that have not been seen, and hang them under it. */
  method Expand(ghost edges: Edges<Id>, root: Id, cur: Id, next: seq<Id>, seen0: set<Id>, parent0: map<Id, Id>, ghost rank0: map<Id, nat>, queue0: seq<Id>)
    returns (seen: set<Id>, parent: map<Id, Id>, ghost rank: map<Id, nat>, queue: seq<Id>)
    requires SearchTree(edges, root, seen0, parent0, rank0) && cur in seen0
    requires forall y :: y in next ==> (cur, y) in edges
    ensures SearchTree(edges, root, seen, parent, rank)
    ensures seen == seen0 + Elements(next)
    ensures Elements(queue) == Elements(queue0) + (seen - seen0)
    ensures seen == seen0 ==> queue == queue0
  {
    seen, parent, rank, queue := seen0, parent0, rank0, queue0;
    for i := 0 to |next|
      invariant SearchTree(edges, root, seen, parent, rank)
      invariant seen == seen0 + Elements(next[..i])
      invariant Elements(queue) == Elements(queue0) + (seen - seen0)
      invariant seen == seen0 ==> queue == queue0
    {
      var succ := next[i];
      assert next[..i + 1] == next[..i] + [succ];
      if succ !in seen {
        parent := parent[succ := cur];
        rank := rank[succ := rank[cur] + 1];
        seen := seen + {succ};
        assert Elements(queue + [succ]) == Elements(queue) + {succ};
        queue := queue + [succ];
      }
    }
    assert next[..|next|] == next;
  }

  /** Take one node off the queue. Either more nodes are seen, or the queue is shorter. */
  method Visit(ghost edges: Edges<Id>, successors: Successors, root: Id, ghost target: Id, ghost ids: set<Id>,
               seen0: set<Id>, parent0: map<Id, Id>, ghost rank0: map<Id, nat>, queue0: seq<Id>)
    returns (seen: set<Id>, parent: map<Id, Id>, ghost rank: map<Id, nat>, queue: seq<Id>)
    requires Lists(successors, edges)
    requires forall x, y :: (x, y) in edges ==> y in ids
    requires SearchTree(edges, root, seen0, parent0, rank0)
    requires Explored(edges, seen0, queue0, target)
    requires queue0 != [] && queue0[0] != target && seen0 <= ids
    ensures SearchTree(edges, root, seen, parent, rank)
    ensures Explored(edges, seen, queue, target)
    ensures seen <= ids
    ensures |ids - seen| < |ids - seen0| || (seen == seen0 && |queue| < |queue0|)
  {
    var cur := queue0[0];
    var next := SuccessorsOf(successors, cur);
    seen, parent, rank, queue := Expand(edges, root, cur, next, seen0, parent0, rank0, queue0[1..]);
    ExploredStep(edges, seen0, queue0, seen, queue, next, target);
    MoreSeen(edges, cur, next, ids, seen0, seen);
  }

  /** Breadth-first search from `root` for `target`. Either a walk that never
      comes back to the root, or a set of nodes that holds the root, is closed
      under edges and misses the target. */
  method Search(ghost edges: Edges<Id>, successors: Successors, root: Id, target: Id, ghost ids: set<Id>)
    returns (chain: seq<Id>, ghost reached: set<Id>)
    requires Lists(successors, edges)
    requires root in ids && forall x, y :: (x, y) in edges ==> y in ids
    ensures chain != [] ==>
      Walk(AwayFrom(edges, root), chain) && chain[0] == root && chain[|chain| - 1] == target
    ensures chain == [] ==> Misses(edges, root, target, reached)
  {
    var parent: map<Id, Id> := map[];
    var queue := [root];
    var seen := {root};
    ghost var rank: map<Id, nat> := map[root := 0];
    assert queue == [root];
    while queue != []
      invariant SearchTree(edges, root, seen, parent, rank)
      invariant Explored(edges, seen, queue, target)
      invariant seen <= ids
      decreases |ids - seen|, |queue|
    {
      if queue[0] == target {
        chain := Unwind(edges, root, target, seen, parent, rank);
        reached := {};
        return;
      }
      seen, parent, rank, queue := Visit(edges, successors, root, target, ids, seen, parent, rank, queue);
    }
    chain := [];
    reached := seen;
    assert forall x :: x in seen ==> x !in queue;
  }

  lemma ExploredStep(edges: Edges<Id>, seen0: set<Id>, queue0: seq<Id>, seen: set<Id>, queue: seq<Id>, next: seq<Id>, target: Id)
    requires Explored(edges, seen0, queue0, target) && queue0 != [] && queue0[0] != target
    requires forall y :: y in next <==> (queue0[0], y) in edges
    requires seen == seen0 + Elements(next)
    requires Elements(queue) == Elements(queue0[1..]) + (seen - seen0)
    ensures Explored(edges, seen, queue, target)
  {
    forall x | x in queue ensures x in seen {
      assert x in Elements(queue);
      if x in Elements(queue0[1..]) { assert x in queue0; }
    }
    forall x | x in seen && x !in queue
      ensures x != target && forall y :: (x, y) in edges ==> y in seen
    {
      assert x !in Elements(queue);
      assert x in seen0;
      assert queue0 == [queue0[0]] + queue0[1..];
    }
  }

  lemma MoreSeen(edges: Edges<Id>, cur: Id, next: seq<Id>, ids: set<Id>, seen0: set<Id>, seen: set<Id>)
    requires forall x, y :: (x, y) in edges ==> y in ids
    requires forall y :: y in next ==> (cur, y) in edges
    requires seen0 <= ids && seen == seen0 + Elements(next)
    ensures seen <= ids
    ensures seen != seen0 ==> |ids - seen| < |ids - seen0|
  {
    if seen != seen0 {
      CardinalityShrinks(ids - seen, ids - seen0);
    }
  }

  lemma CardinalityShrinks(a: set<Id>, b: set<Id>)
    requires a < b
    ensures |a| < |b|
  {
    assert |b| == |a| + |b - a| by { assert b == a + (b - a); }
    assert b - a != {};
  }

  /** The offending chain if `taskId` gaining these blockers closes a loop, or
      the empty sequence. */
  method CyclePath(taskId: Id, proposed: seq<Id>, tasks: seq<Bead>) returns (chain: seq<Id>)
    ensures chain == [] <==> !ClosesCycle(tasks, taskId, proposed)
    ensures chain != [] ==>
      Closed(Rewire(EdgesOf(tasks), taskId, proposed), chain) && chain[0] == taskId
  {
    ghost var edges := EdgesOf(tasks);
    ghost var wouldBe := Rewire(edges, taskId, proposed);
    var byId := set t | t in tasks :: t.id;
    ghost var ids := byId + {taskId};
    assert forall x, y :: (x, y) in edges ==> y in ids;
    var successors := IndexSuccessors(tasks);
    ghost var reaches: map<Id, set<Id>> := map[];
    for i := 0 to |proposed|
      invariant forall k :: 0 <= k < i ==> proposed[k] != taskId
      invariant forall k :: 0 <= k < i && proposed[k] in byId ==>
        && proposed[k] in reaches && Misses(edges, taskId, proposed[k], reaches[proposed[k]])
    {
      var blocker := proposed[i];
      if blocker == taskId {
        chain := [taskId, taskId];
        assert (taskId, taskId) in wouldBe;
        assert Closed(wouldBe, chain);
        return;
      }
      if blocker in byId {
        ghost var reached: set<Id>;
        chain, reached := Search(edges, successors, taskId, blocker, ids);
        if chain != [] {
          ghost var found := chain;
          chain := chain + [taskId];
          forall k | 0 <= k < |chain| - 1 ensures (chain[k], chain[k + 1]) in wouldBe {
            if k == |found| - 1 {
              assert (blocker, taskId) in wouldBe;
            } else {
              assert (found[k], found[k + 1]) in AwayFrom(edges, taskId);
            }
          }
          assert Closed(wouldBe, chain);
          return;
        }
        reaches := reaches[blocker := reached];
      }
    }
    chain := [];
    NothingReached(tasks, taskId, proposed, reaches);
  }

  /** When every existing blocker lies outside a set closed from the bead, no
      loop through the bead exists in the rewired graph. */
  lemma NothingReached(tasks: seq<Bead>, taskId: Id, proposed: seq<Id>, reaches: map<Id, set<Id>>)
    requires taskId !in proposed
    requires forall b :: b in proposed && b in (set t | t in tasks :: t.id) ==>
      b in reaches && Misses(EdgesOf(tasks), taskId, b, reaches[b])
    ensures !ClosesCycle(tasks, taskId, proposed)
  {
    var edges := EdgesOf(tasks);
    var wouldBe := Rewire(edges, taskId, proposed);
    forall p | Closed(wouldBe, p) && p[0] == taskId ensures false {
      var n := |p| - 1;
      var b := p[n - 1];
      assert (p[n - 1], p[n]) in wouldBe;
      assert b in proposed;
      assert n >= 2;
      assert (p[n - 2], p[n - 1]) in wouldBe;
      assert (p[n - 2], b) in edges;
      var i, c :| 0 <= i < |tasks| && c in tasks[i].blockedBy && (p[n - 2], b) == (c, tasks[i].id);
      assert tasks[i] in tasks;
      var s := reaches[b];
      var k := 0;
      while k < n - 1
        invariant k <= n - 1 && p[k] in s
      {
        assert (p[k], p[k + 1]) in wouldBe;
        k := k + 1;
      }
    }
  }
}
