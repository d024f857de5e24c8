/** Where host paths end up in the container (libs/cli/langgraph_cli/uv_lock.py). Paths are resolved
    and absolute, as sequences of names: `root <= path` says that `path` is `root` or lies below it. */
module UvPaths {
  import opened Prelude
  import opened Ignore

  const CONTAINER_ROOT: Path := ["deps", "workspace"]

  /** The parts of a plan that paths depend on: the project root, the container root of every
      package in the closure, and the roots of all workspace members. */
  datatype Plan = Plan(projectRoot: Path, containerRoots: map<Path, Path>, members: set<Path>)

  function ContainerRootFor(projectRoot: Path, root: Path): Path
    requires projectRoot <= root
  {
    CONTAINER_ROOT + root[|projectRoot|..]
  }

  /** What the planner guarantees: the closure consists of members below the project root. */
  ghost predicate WellPlanned(p: Plan) {
    forall r :: r in p.containerRoots ==>
      r in p.members && p.projectRoot <= r && p.containerRoots[r] == ContainerRootFor(p.projectRoot, r)
  }

  /** `path` is inside a member outside the closure that is not above the matched root. */
  predicate InUnrelatedMember(p: Plan, path: Path, matched: Path) {
    exists ws :: ws in p.members && ws != matched && !(ws < matched) && ws <= path && ws !in p.containerRoots
  }

  /** `member` is the innermost workspace member that holds `path`. */
  ghost predicate Deepest(p: Plan, path: Path, member: Path) {
    && member in p.members && member <= path
    && forall m :: m in p.members && m <= path ==> |m| <= |member|
  }

  ghost predicate DeepestInClosure(p: Plan, path: Path) {
    exists m :: Deepest(p, path, m) && m in p.containerRoots
  }

  lemma PrefixesAgree(a: Path, b: Path, path: Path)
    requires a <= path && b <= path
    ensures |a| <= |b| ==> a <= b
    ensures |a| == |b| ==> a == b
  {
    assert a == path[..|a|] && b == path[..|b|];
  }

  /** With respect to a matching root of the closure: the guard fires exactly when some deeper
      member outside the closure holds the path. */
  lemma GuardMeaning(p: Plan, path: Path, matched: Path)
    requires matched <= path
    ensures InUnrelatedMember(p, path, matched) <==>
            exists ws :: ws in p.members && |ws| > |matched| && ws <= path && ws !in p.containerRoots
  {
    forall ws | ws in p.members && ws <= path
      ensures (ws != matched && !(ws < matched)) <==> |ws| > |matched|
    {
      PrefixesAgree(ws, matched, path);
    }
  }

  /** The roots that are not left to do are the longest ones, and the guard stopped them. */
  ghost predicate Searched(p: Plan, path: Path, todo: set<Path>) {
    && todo <= p.containerRoots.Keys
    && (forall c, d :: c in p.containerRoots && c !in todo && d in todo ==> |d| <= |c|)
    && (forall c :: c in p.containerRoots && c !in todo && c <= path ==> InUnrelatedMember(p, path, c))
  }

  lemma SearchedStep(p: Plan, path: Path, todo: set<Path>, root: Path)
    requires Searched(p, path, todo) && root in todo
    requires forall d :: d in todo ==> |d| <= |root|
    requires root <= path ==> InUnrelatedMember(p, path, root)
    ensures Searched(p, path, todo - {root})
  {}

  /** The path is rewritten exactly when its innermost member is in the closure, and then to its
      place relative to the project root, whatever member it belongs to. */
  method ResolveContainerPath(p: Plan, path: Path) returns (r: Option<Path>)
    requires WellPlanned(p)
    ensures r.Some? <==> DeepestInClosure(p, path)
    ensures r.Some? ==> p.projectRoot <= path && r.value == CONTAINER_ROOT + path[|p.projectRoot|..]
  {
    var todo := p.containerRoots.Keys;
    while todo != {}
      invariant Searched(p, path, todo)
      decreases todo
    {
      var root := Longest(todo);
      if root <= path {
        var unrelated := p.members != {} && InUnrelatedMember(p, path, root);
        if !unrelated {
          DeepestFound(p, path, root, todo);
          ContainerPlace(p, path, root);
          return Some(p.containerRoots[root] + path[|root|..]);
        }
      }
      SearchedStep(p, path, todo, root);
      todo := todo - {root};
    }
    NothingFound(p, path);
    r := None;
  }

  /** The next package root in the sorted order: no remaining one is longer. */
  method Longest(todo: set<Path>) returns (root: Path)
    requires todo != {}
    ensures root in todo && forall d :: d in todo ==> |d| <= |root|
  {
    LongestExists(todo);
    root :| root in todo && forall d :: d in todo ==> |d| <= |root|;
  }

  lemma ContainerPlace(p: Plan, path: Path, root: Path)
    requires WellPlanned(p) && root in p.containerRoots && root <= path
    ensures p.projectRoot <= path
    ensures p.containerRoots[root] + path[|root|..] == CONTAINER_ROOT + path[|p.projectRoot|..]
  {
    assert path[|p.projectRoot|..] == root[|p.projectRoot|..] + path[|root|..];
  }

  lemma NothingFound(p: Plan, path: Path)
    requires Searched(p, path, {})
    ensures !DeepestInClosure(p, path)
  {
    if DeepestInClosure(p, path) {
      var m :| Deepest(p, path, m) && m in p.containerRoots;
      GuardMeaning(p, path, m);
    }
  }

  /** The first root that passes the guard is the innermost member. */
  lemma DeepestFound(p: Plan, path: Path, root: Path, todo: set<Path>)
    requires WellPlanned(p) && Searched(p, path, todo) && root in todo && root <= path
    requires forall d :: d in todo ==> |d| <= |root|
    requires !InUnrelatedMember(p, path, root)
    ensures Deepest(p, path, root)
  {
    GuardMeaning(p, path, root);
    forall m | m in p.members && m <= path
      ensures |m| <= |root|
    {
      if |m| > |root| {
        assert m in p.containerRoots && m !in todo;
        GuardMeaning(p, path, m);
      }
    }
  }

  lemma {:induction false} LongestExists(paths: set<Path>)
    requires paths != {}
    ensures exists p :: p in paths && forall q :: q in paths ==> |q| <= |p|
  {
    var x :| x in paths;
    if paths - {x} != {} {
      LongestExists(paths - {x});
      var y :| y in paths - {x} && forall q :: q in paths - {x} ==> |q| <= |y|;
      var p := if |x| <= |y| then y else x;
      assert p in paths && forall q :: q in paths ==> |q| <= |p| by {
        assert forall q :: q in paths ==> q == x || q in paths - {x};
      }
    } else {
      assert paths == {x};
    }
  }

  /** The rewriting as a function, for statements about several paths. */
  ghost function Resolved(p: Plan, path: Path): Option<Path> {
    if DeepestInClosure(p, path) && p.projectRoot <= path
    then Some(CONTAINER_ROOT + path[|p.projectRoot|..]) else None
  }

  /** Rewriting is injective and keeps nesting: no two files are sent to one place. */
  lemma ResolvedInjective(p: Plan, a: Path, b: Path)
    requires Resolved(p, a).Some? && Resolved(p, a) == Resolved(p, b)
    ensures a == b
  {
    var n := |p.projectRoot|;
    assert (CONTAINER_ROOT + a[n..])[|CONTAINER_ROOT|..] == a[n..];
    assert (CONTAINER_ROOT + b[n..])[|CONTAINER_ROOT|..] == b[n..];
    assert a == p.projectRoot + a[n..] && b == p.projectRoot + b[n..];
  }
}
