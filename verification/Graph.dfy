/** The dependency graph of a store: a finite set of edges, each from a blocker
    to the bead that waits for it. */
module Graph {
  import opened Prelude

  type Edges<T(==)> = set<(T, T)>

  /** A walk along edges. A single node is a walk of no edges. */
  ghost predicate Walk<T>(edges: Edges<T>, p: seq<T>) {
    && |p| >= 1
    && forall k :: 0 <= k < |p| - 1 ==> (p[k], p[k + 1]) in edges
  }

  /** A walk of at least one edge that ends where it began. */
  ghost predicate Closed<T>(edges: Edges<T>, p: seq<T>) {
    |p| >= 2 && Walk(edges, p) && p[0] == p[|p| - 1]
  }

  ghost predicate Acyclic<T(!new)>(edges: Edges<T>) {
    forall p :: !Closed(edges, p)
  }

  ghost predicate OnCycle<T(!new)>(edges: Edges<T>, x: T) {
    exists p :: Closed(edges, p) && p[0] == x
  }

  /** The graph in which `x` waits for exactly `blockers`. */
  ghost function Rewire<T>(edges: Edges<T>, x: T, blockers: seq<T>): Edges<T> {
    (set e | e in edges && e.1 != x) + (set b | b in blockers :: (b, x))
  }

  lemma NoWayOut<T(!new)>(edges: Edges<T>, x: T)
    requires forall y :: (x, y) !in edges
    ensures !OnCycle(edges, x)
  {
    forall p | Closed(edges, p) ensures p[0] != x {
      assert (p[0], p[1]) in edges;
    }
  }

  lemma NoEdgesAcyclic<T(!new)>(edges: Edges<T>)
    requires edges == {}
    ensures Acyclic(edges)
  {
    forall p ensures Walk(edges, p) ==> |p| == 1 {
      if |p| > 1 { assert (p[0], p[1]) !in edges; }
    }
  }

  lemma RotateClosed<T>(edges: Edges<T>, p: seq<T>, k: nat) returns (q: seq<T>)
    requires Closed(edges, p) && k < |p|
    ensures Closed(edges, q) && q[0] == p[k]
  {
    if k == 0 || k == |p| - 1 {
      q := p;
    } else {
      q := p[k..] + p[1..k + 1];
      forall j | 0 <= j < |q| - 1 ensures (q[j], q[j + 1]) in edges {
        if j < |p| - k - 1 {
          assert q[j] == p[k + j] && q[j + 1] == p[k + j + 1];
        } else {
          var m := j - (|p| - k - 1);
          assert q[j] == p[m] && q[j + 1] == p[m + 1];
        }
      }
    }
  }

  /** On an acyclic graph only cycles through the rewired node can appear. */
  lemma RewireAcyclic<T(!new)>(edges: Edges<T>, x: T, blockers: seq<T>)
    requires Acyclic(edges)
    ensures Acyclic(Rewire(edges, x, blockers)) <==> !OnCycle(Rewire(edges, x, blockers), x)
  {
    var g := Rewire(edges, x, blockers);
    forall p | Closed(g, p) ensures OnCycle(g, x) {
      if k :| 0 <= k < |p| && p[k] == x {
        var q := RotateClosed(g, p, k);
      } else {
        forall k | 0 <= k < |p| - 1 ensures (p[k], p[k + 1]) in edges {
          assert (p[k], p[k + 1]) in g;
        }
        assert Closed(edges, p);
      }
    }
  }

  /** A walk along an acyclic graph never meets the same node twice. */
  lemma WalkDistinct<T(!new)>(edges: Edges<T>, p: seq<T>)
    requires Acyclic(edges) && Walk(edges, p)
    ensures Distinct(p)
  {
    forall i, j | 0 <= i < j < |p| ensures p[i] != p[j] {
      if p[i] == p[j] {
        var q := p[i..j + 1];
        assert Closed(edges, q);
      }
    }
  }

  /** In a finite acyclic graph, whatever set of nodes is still waiting holds a
      node whose predecessors are all outside it. */
  lemma {:induction false} FrontOfAcyclic<T(!new)>(edges: Edges<T>, waiting: set<T>, p: seq<T>) returns (x: T)
    requires Acyclic(edges) && Walk(edges, p)
    requires forall y :: y in p ==> y in waiting
    ensures x in waiting && forall b :: (b, x) in edges ==> b !in waiting
    decreases |waiting| - |p|
  {
    if b :| (b, p[0]) in edges && b in waiting {
      var q := [b] + p;
      forall k | 0 <= k < |q| - 1 ensures (q[k], q[k + 1]) in edges {
        if k > 0 {
          assert q[k] == p[k - 1] && q[k + 1] == p[k];
        }
      }
      WalkDistinct(edges, q);
      DistinctFits(q, waiting);
      x := FrontOfAcyclic(edges, waiting, q);
    } else {
      x := p[0];
    }
  }
}
