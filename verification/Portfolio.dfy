/** The portfolio walk: every task of every instance reachable through the child
    registries, each instance once, over registries that may form cycles. */
module Portfolio {
  import opened Prelude
  import opened Graph

  type Path = string

  /** A registry entry; `config` is where its path leads, if anywhere. */
  datatype Child = Child(isRemote: bool, path: string, config: Option<Path>)

  datatype Node<T> = Unreadable | Readable(tasks: seq<T>, children: seq<Child>)

  /** The instances on disk by real path; a path with no entry is unreadable. */
  datatype Network<T> = Network(resolve: Path -> Path, nodes: map<Path, Node<T>>)

  function At<T>(net: Network<T>, home: Path): (n: Node<T>) {
    if home in net.nodes then net.nodes[home] else Unreadable
  }

  function TasksAt<T>(net: Network<T>, home: Path): seq<T> {
    if At(net, home).Readable? then At(net, home).tasks else []
  }

  predicate Followed(c: Child) { !c.isRemote && c.path != "" && c.config.Some? }

  function Neighbours<T>(net: Network<T>, home: Path): set<Path> {
    if At(net, home).Readable?
    then set c | c in At(net, home).children && Followed(c) :: net.resolve(c.config.value)
    else {}
  }

  function Registrations<T>(net: Network<T>): Edges<Path> {
    set x, y | x in net.nodes.Keys && y in Neighbours(net, x) :: (x, y)
  }

  ghost predicate Reachable<T>(net: Network<T>, from: Path, to: Path) {
    exists p :: Walk(Registrations(net), p) && p[0] == from && p[|p| - 1] == to
  }

  lemma ReachesItself<T>(net: Network<T>, x: Path)
    ensures Reachable(net, x, x)
  {
    assert Walk(Registrations(net), [x]);
  }

  lemma ReachesFurther<T>(net: Network<T>, x: Path, y: Path, z: Path)
    requires y in Neighbours(net, x) && Reachable(net, y, z)
    ensures Reachable(net, x, z)
  {
    var p :| Walk(Registrations(net), p) && p[0] == y && p[|p| - 1] == z;
    var q := [x] + p;
    forall k | 0 <= k < |q| - 1 ensures (q[k], q[k + 1]) in Registrations(net) {
      if k > 0 { assert q[k] == p[k - 1] && q[k + 1] == p[k]; }
    }
    assert Walk(Registrations(net), q) && q[|q| - 1] == z;
  }

  /** What is closed under following registrations holds all that is reachable. */
  lemma {:induction false} ClosedHoldsReachable<T>(net: Network<T>, visited: set<Path>, p: seq<Path>)
    requires Walk(Registrations(net), p) && p[0] in visited
    requires forall x, y :: x in visited && y in Neighbours(net, x) ==> y in visited
    ensures p[|p| - 1] in visited
  {
    if |p| > 1 {
      assert (p[0], p[1]) in Registrations(net);
      var rest := p[1..];
      forall k | 0 <= k < |rest| - 1 ensures (rest[k], rest[k + 1]) in Registrations(net) {
        assert (p[k + 1], p[k + 2]) in Registrations(net);
      }
      ClosedHoldsReachable(net, visited, rest);
    }
  }

  function Gathered<T>(net: Network<T>, order: seq<Path>): seq<T> {
    if order == [] then [] else Gathered(net, order[..|order| - 1]) + TasksAt(net, order[|order| - 1])
  }

  lemma {:induction false} GatheredAppend<T>(net: Network<T>, a: seq<Path>, b: seq<Path>)
    ensures Gathered(net, a + b) == Gathered(net, a) + Gathered(net, b)
  {
    if b == [] {
      assert a + b == a && Gathered(net, a) + [] == Gathered(net, a);
    } else {
      var front, last := b[..|b| - 1], TasksAt(net, b[|b| - 1]);
      GatheredAppend(net, a, front);
      assert (a + b)[..|a + b| - 1] == a + front;
      assert Gathered(net, a) + Gathered(net, front) + last == Gathered(net, a) + (Gathered(net, front) + last);
    }
  }

  /** `order` is what a visit from `from` added to `before`. */
  ghost predicate Explored<T>(net: Network<T>, from: Path, before: set<Path>, order: seq<Path>, seen: set<Path>) {
    && Distinct(order) && seen == before + Elements(order)
    && forall x :: x in order ==> x !in before && Reachable(net, from, x)
  }

  /** Everything registered at a listed instance, other than `open`, has been seen. */
  ghost predicate Expanded<T>(net: Network<T>, order: seq<Path>, seen: set<Path>, open: set<Path>) {
    forall x, y :: x in order && x !in open && y in Neighbours(net, x) ==> y in seen
  }

  lemma JoinExplored<T>(net: Network<T>, from: Path, next: Path, before: set<Path>,
                        a: seq<Path>, mid: set<Path>, b: seq<Path>, seen: set<Path>)
    requires Explored(net, from, before, a, mid) && Explored(net, next, mid, b, seen)
    requires next in Neighbours(net, from)
    ensures Explored(net, from, before, a + b, seen)
  {
    forall x | x in a + b ensures x !in before && Reachable(net, from, x) {
      if x in b { ReachesFurther(net, from, next, x); }
    }
    assert Elements(a + b) == Elements(a) + Elements(b);
    forall i, j | 0 <= i < j < |a + b| ensures (a + b)[i] != (a + b)[j] {
      if i < |a| <= j {
        assert a[i] in mid && b[j - |a|] in b;
      }
    }
  }

  ghost predicate AllSeen<T>(net: Network<T>, children: seq<Child>, seen: set<Path>) {
    forall c :: c in children && Followed(c) ==> net.resolve(c.config.value) in seen
  }

  lemma JoinExpanded<T>(net: Network<T>, a: seq<Path>, mid: set<Path>, b: seq<Path>, seen: set<Path>, open: set<Path>)
    requires Expanded(net, a, mid, open) && Expanded(net, b, seen, {}) && mid <= seen
    ensures Expanded(net, a + b, seen, open)
  {
  }

  /** A child's visit joined to what its parent's had gathered. */
  lemma JoinVisits<T>(net: Network<T>, home: Path, child: Child, before: set<Path>,
                      a: seq<Path>, mid: set<Path>, b: seq<Path>, seen: set<Path>)
    requires At(net, home).Readable? && child in At(net, home).children && Followed(child)
    requires Explored(net, home, before, a, mid) && Expanded(net, a, mid, {home})
    requires Explored(net, net.resolve(child.config.value), mid, b, seen) && Expanded(net, b, seen, {})
    ensures Explored(net, home, before, a + b, seen) && Expanded(net, a + b, seen, {home})
    ensures Gathered(net, a + b) == Gathered(net, a) + Gathered(net, b)
  {
    JoinExplored(net, home, net.resolve(child.config.value), before, a, mid, b, seen);
    JoinExpanded(net, a, mid, b, seen, {home});
    GatheredAppend(net, a, b);
  }

  lemma HomeExpanded<T>(net: Network<T>, home: Path, order: seq<Path>, seen: set<Path>)
    requires Expanded(net, order, seen, {home}) && At(net, home).Readable?
    requires AllSeen(net, At(net, home).children, seen)
    ensures Expanded(net, order, seen, {})
  {
  }

  class Walker<T> {
    const net: Network<T>
    var seen: set<Path>

    constructor (net: Network<T>)
      ensures this.net == net && seen == {}
    {
      this.net, seen := net, {};
    }

    /** Visits `config` and what follows from it, save what was already seen.
        `order` is the sequence of new instances, the given one first. */
    method Visit(config: Path) returns (tasks: seq<T>, ghost order: seq<Path>)
      modifies this
      ensures Explored(net, net.resolve(config), old(seen), order, seen)
      ensures Expanded(net, order, seen, {})
      ensures net.resolve(config) in seen
      ensures net.resolve(config) !in old(seen) ==> order != [] && order[0] == net.resolve(config)
      ensures tasks == Gathered(net, order)
      decreases net.nodes.Keys - seen, 0
    {
      var home := net.resolve(config);
      tasks, order := [], [];
      if home in seen { return; }
      seen := seen + {home};
      order := [home];
      ReachesItself(net, home);
      assert order[..0] == [];
      var node := At(net, home);
      if node.Readable? {
        tasks, order := VisitChildren(home, node);
      }
    }

    /** The rest of the visit to `home`, just seen: its tasks, then its children's. */
    method VisitChildren(home: Path, node: Node<T>) returns (tasks: seq<T>, ghost order: seq<Path>)
      requires node == At(net, home) && node.Readable? && home in seen
      modifies this
      ensures Explored(net, home, old(seen) - {home}, order, seen)
      ensures Expanded(net, order, seen, {})
      ensures order != [] && order[0] == home
      ensures tasks == Gathered(net, order)
      decreases net.nodes.Keys - seen, 1
    {
      tasks, order := node.tasks, [home];
      ReachesItself(net, home);
      assert order[..0] == [];
      for i := 0 to |node.children|
        invariant Explored(net, home, old(seen) - {home}, order, seen)
        invariant Expanded(net, order, seen, {home})
        invariant order != [] && order[0] == home
        invariant AllSeen(net, node.children[..i], seen)
        invariant tasks == Gathered(net, order)
      {
        var child := node.children[i];
        assert node.children[..i + 1] == node.children[..i] + [child];
        if Followed(child) {
          ghost var mid := seen;
          var more; ghost var further;
          assert order[0] in order && child in node.children;
          more, further := Visit(child.config.value);
          JoinVisits(net, home, child, old(seen) - {home}, order, mid, further, seen);
          tasks, order := tasks + more, order + further;
        }
      }
      assert node.children[..|node.children|] == node.children;
      HomeExpanded(net, home, order, seen);
    }
  }

  /** An order of exactly the instances reachable from `from`, itself first. */
  ghost predicate WalkOrder<T>(net: Network<T>, from: Path, order: seq<Path>) {
    && Distinct(order) && order != [] && order[0] == from
    && forall x :: x in order <==> Reachable(net, from, x)
  }

  /** The tasks of exactly the reachable instances, each instance's once. */
  method PortfolioTasks<T>(net: Network<T>, config: Path) returns (tasks: seq<T>)
    ensures exists order :: WalkOrder(net, net.resolve(config), order) && tasks == Gathered(net, order)
  {
    var walker := new Walker<T>(net);
    ghost var order;
    tasks, order := walker.Visit(config);
    forall x | Reachable(net, net.resolve(config), x) ensures x in order {
      var p :| Walk(Registrations(net), p) && p[0] == net.resolve(config) && p[|p| - 1] == x;
      ClosedHoldsReachable(net, Elements(order), p);
    }
    assert WalkOrder(net, net.resolve(config), order);
  }

  /** Some instance registers `x` by a local path that leads to a configuration. */
  ghost predicate LocallyRegistered<T>(net: Network<T>, keeper: Path, x: Path) {
    && At(net, keeper).Readable?
    && exists c :: c in At(net, keeper).children && !c.isRemote && c.path != "" && c.config.Some? && net.resolve(c.config.value) == x
  }

  /** An instance is reached exactly when the walk starts there or some reached,
      readable instance registers it locally; a remote registration never counts. */
  lemma ReachedIff<T>(net: Network<T>, from: Path, x: Path)
    ensures Reachable(net, from, x) <==> x == from || exists h :: Reachable(net, from, h) && LocallyRegistered(net, h, x)
  {
    ReachesItself(net, from);
    if Reachable(net, from, x) && x != from {
      var p :| Walk(Registrations(net), p) && p[0] == from && p[|p| - 1] == x;
      var front := p[..|p| - 1];
      assert (p[|p| - 2], p[|p| - 1]) in Registrations(net);
      assert forall k :: 0 <= k < |front| - 1 ==> (front[k], front[k + 1]) == (p[k], p[k + 1]);
      assert Walk(Registrations(net), front);
      assert Reachable(net, from, front[|front| - 1]) && LocallyRegistered(net, front[|front| - 1], x);
    }
    if h :| Reachable(net, from, h) && LocallyRegistered(net, h, x) {
      var p :| Walk(Registrations(net), p) && p[0] == from && p[|p| - 1] == h;
      ReachesNext(net, p, x);
    }
  }

  lemma ReachesNext<T>(net: Network<T>, p: seq<Path>, x: Path)
    requires Walk(Registrations(net), p) && LocallyRegistered(net, p[|p| - 1], x)
    ensures Reachable(net, p[0], x)
  {
    var q := p + [x];
    assert x in Neighbours(net, p[|p| - 1]);
    forall k | 0 <= k < |q| - 1 ensures (q[k], q[k + 1]) in Registrations(net) {
      if k < |p| - 1 { assert q[k] == p[k] && q[k + 1] == p[k + 1]; }
    }
    assert Walk(Registrations(net), q);
  }

  lemma {:induction false} GatheredFrom<T>(net: Network<T>, order: seq<Path>, t: T)
    ensures t in Gathered(net, order) <==> exists x :: x in order && t in TasksAt(net, x)
  {
    if order != [] {
      var front, last := order[..|order| - 1], order[|order| - 1];
      GatheredFrom(net, front, t);
      assert forall x :: x in order <==> x in front || x == last;
    }
  }

  /** No task kept only at an instance that is registered nowhere but as remote, and
      is not the one asked for, is returned. */
  lemma RemoteTasksLeftOut<T>(net: Network<T>, from: Path, order: seq<Path>, x: Path, t: T)
    requires WalkOrder(net, from, order) && x != from
    requires forall h, c :: At(net, h).Readable? && c in At(net, h).children && c.config.Some? && net.resolve(c.config.value) == x ==> c.isRemote
    requires forall y :: y != x ==> t !in TasksAt(net, y)
    ensures x !in order && t !in Gathered(net, order)
  {
    ReachedIff(net, from, x);
    GatheredFrom(net, order, t);
  }
}
