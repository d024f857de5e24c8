/** Reachability in a dependency graph that may have cycles, and install orders of it. */
module UvGraph {
  import opened Prelude

  /** A package by its normalised name. */
  datatype Node = Named(text: string)
  type Graph = Node -> seq<Node>

  ghost predicate IsWalk(g: Graph, p: seq<Node>) {
    p != [] && forall i :: 0 <= i < |p| - 1 ==> p[i + 1] in g(p[i])
  }

  ghost predicate WalkFromTo(g: Graph, p: seq<Node>, a: Node, b: Node) {
    IsWalk(g, p) && p[0] == a && p[|p| - 1] == b
  }

  ghost predicate Reach(g: Graph, a: Node, b: Node) {
    exists p :: WalkFromTo(g, p, a, b)
  }

  lemma ReachSelf(g: Graph, a: Node)
    ensures Reach(g, a, a)
  {
    assert WalkFromTo(g, [a], a, a);
  }

  lemma ReachEdge(g: Graph, a: Node, b: Node, c: Node)
    requires Reach(g, a, b) && c in g(b)
    ensures Reach(g, a, c)
  {
    var p :| WalkFromTo(g, p, a, b);
    assert WalkFromTo(g, p + [c], a, c);
  }

  lemma EdgeReach(g: Graph, a: Node, b: Node, c: Node)
    requires b in g(a) && Reach(g, b, c)
    ensures Reach(g, a, c)
  {
    var p :| WalkFromTo(g, p, b, c);
    var q := [a] + p;
    forall i | 0 <= i < |q| - 1
      ensures q[i + 1] in g(q[i])
    {
      if i > 0 {
        assert q[i] == p[i - 1] && q[i + 1] == p[i];
      }
    }
    assert WalkFromTo(g, q, a, c);
  }

  /** What is reached from elsewhere is the successor of something reached. */
  lemma ReachedFrom(g: Graph, a: Node, c: Node) returns (b: Node)
    requires Reach(g, a, c) && a != c
    ensures Reach(g, a, b) && c in g(b)
  {
    var p :| WalkFromTo(g, p, a, c);
    b := p[|p| - 2];
    assert WalkFromTo(g, p[..|p| - 1], a, b);
  }

  /** A set that holds `a` and the successors of its elements holds all that `a` reaches. */
  lemma ReachStaysInside(g: Graph, s: set<Node>, a: Node, b: Node)
    requires a in s && (forall x, y :: x in s && y in g(x) ==> y in s)
    requires Reach(g, a, b)
    ensures b in s
  {
    var p :| WalkFromTo(g, p, a, b);
    WalkStaysInside(g, s, p);
  }

  lemma {:induction false} WalkStaysInside(g: Graph, s: set<Node>, p: seq<Node>)
    requires IsWalk(g, p) && p[0] in s && (forall x, y :: x in s && y in g(x) ==> y in s)
    ensures p[|p| - 1] in s
    decreases |p|
  {
    if |p| > 1 {
      assert p[0 + 1] in g(p[0]);
      forall i | 0 <= i < |p[1..]| - 1
        ensures p[1..][i + 1] in g(p[1..][i])
      {
        assert p[i + 1 + 1] in g(p[i + 1]);
      }
      WalkStaysInside(g, s, p[1..]);
    }
  }

  // ---------------------------------------------------------- install orders

  /** A dependency precedes its dependent unless the two are on a cycle. */
  ghost predicate DependenciesFirst(g: Graph, order: seq<Node>) {
    forall i, d :: 0 <= i < |order| && d in g(order[i]) ==> d in order[..i] || Reach(g, d, order[i])
  }

  /** A search in progress: `order` lists finished nodes, the other visited ones are under way. */
  ghost predicate Tidy(g: Graph, visited: set<Node>, order: seq<Node>) {
    && (forall n :: n in order ==> n in visited)
    && Distinct(order)
    && (forall n, d :: n in order && d in g(n) ==> d in visited)
    && DependenciesFirst(g, order)
  }

  function Elements(order: seq<Node>): set<Node> { set n | n in order }

  /** Finishing a node whose successors are all visited, where those under way reach it. */
  lemma FinishNode(g: Graph, visited: set<Node>, order: seq<Node>, n: Node)
    requires Tidy(g, visited, order) && n in visited && n !in order
    requires forall d :: d in g(n) ==> d in visited
    requires forall x :: x in visited && x !in order ==> Reach(g, x, n)
    ensures Tidy(g, visited, order + [n])
    ensures Elements(order + [n]) == Elements(order) + {n}
  {
    var order' := order + [n];
    forall i, d | 0 <= i < |order'| && d in g(order'[i])
      ensures d in order'[..i] || Reach(g, d, order'[i])
    {
      if i < |order| {
        assert order'[..i] == order[..i];
      } else {
        assert order'[..i] == order;
      }
    }
  }

  /** When nothing is under way any more, the order lists exactly what the target reaches. */
  lemma OrderIsReachable(g: Graph, visited: set<Node>, order: seq<Node>, target: Node)
    requires Tidy(g, visited, order) && visited == Elements(order) && target in order
    requires forall n :: n in order ==> Reach(g, target, n)
    ensures forall n :: n in order <==> Reach(g, target, n)
  {
    forall n | Reach(g, target, n)
      ensures n in order
    {
      ReachStaysInside(g, visited, target, n);
    }
  }
}
