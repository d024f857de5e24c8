/** The install order of a workspace target (`_plan_uv_lock_workspace` with its inner `visit`,
    libs/cli/langgraph_cli/uv_lock.py). Packages are named by their normalised names. */
module UvPlanner {
  import opened Prelude
  import opened Ignore
  import opened UvGraph
  import opened UvSources
  import opened UvPaths

  /** What validation will say of every member, and which members are buildable. */
  datatype View = View(outcome: map<Node, Result<Validated, Error>>, buildable: set<Node>)

  ghost function ViewOf(ws: Workspace): View {
    View(map n | n in ws.byName :: Validation(ws, ws.byName[n]),
         set n | n in ws.byName && Enabled(ws.byName[n]) == Success(true))
  }

  /** The same, as facts that the search does not have to unfold. */
  ghost predicate Describes(view: View, ws: Workspace) {
    && view.outcome.Keys == ws.byName.Keys
    && (forall n {:trigger Validation(ws, ws.byName[n])} ::
          n in ws.byName ==> view.outcome[n] == Validation(ws, ws.byName[n]))
  }

  /** The dependency graph: a package that fails validation has no outgoing edges. */
  ghost function Edges(view: View): Graph {
    n => if n in view.outcome && view.outcome[n].Success? then view.outcome[n].value.workspaceDependencies else []
  }

  ghost predicate Invalid(view: View, n: Node) {
    n in view.outcome && view.outcome[n].Failure?
  }

  ghost predicate ReachesInvalid(view: View, n: Node) {
    exists b :: Reach(Edges(view), n, b) && Invalid(view, b)
  }

  /** Every dependency is a buildable member, and validation finds out which members are. */
  ghost predicate Closed(view: View) {
    && view.buildable <= view.outcome.Keys
    && (forall n :: n in view.outcome && view.outcome[n].Success? ==>
          (view.outcome[n].value.enabled <==> n in view.buildable))
    && forall n, d :: d in Edges(view)(n) ==> d in view.buildable
  }

  lemma ViewIsClosed(ws: Workspace)
    requires Discovered(ws)
    ensures Closed(ViewOf(ws)) && Describes(ViewOf(ws), ws)
  {
    var view := ViewOf(ws);
    forall n, d | d in Edges(view)(n)
      ensures d in view.buildable
    {
      WorkspaceDependencies(ws, ws.byName[n]);
    }
    forall n | n in view.outcome && view.outcome[n].Success?
      ensures view.outcome[n].value.enabled <==> n in view.buildable
    {
      WorkspaceDependencies(ws, ws.byName[n]);
    }
  }

  // ---------------------------------------------------------------- the search

  /** The variables of the search: visited packages, finished ones in order, validated ones. */
  datatype Search = Search(visited: set<Node>, order: seq<Node>, validated: set<Node>)

  /** `visit`; None stands for the usage error of an invalid package. */
  ghost function Visited(view: View, s: Search, n: Node): (r: Option<Search>)
    requires Closed(view) && n in view.outcome
    ensures r.Some? ==> s.visited <= r.value.visited
    decreases view.outcome.Keys - s.visited, 2, 0
  {
    if n in s.visited then Some(s) else VisitedNew(view, s, n)
  }

  ghost function VisitedNew(view: View, s: Search, n: Node): (r: Option<Search>)
    requires Closed(view) && n in view.outcome && n !in s.visited
    ensures r.Some? ==> s.visited <= r.value.visited
    decreases view.outcome.Keys - s.visited, 1, 0
  {
    var r := VisitedBelow(view, s, n);
    if r == None then None else Some(r.value.(order := r.value.order + [n]))
  }

  /** The search below a package that was not visited before. */
  ghost function VisitedBelow(view: View, s: Search, n: Node): (r: Option<Search>)
    requires Closed(view) && n in view.outcome && n !in s.visited
    ensures r.Some? ==> s.visited <= r.value.visited
    decreases view.outcome.Keys - s.visited, 0, 0
  {
    if n !in s.validated && Invalid(view, n) then None
    else VisitedAll(view, Search(s.visited + {n}, s.order, s.validated + {n}), Edges(view)(n))
  }

  ghost function VisitedAll(view: View, s: Search, deps: seq<Node>): (r: Option<Search>)
    requires Closed(view) && forall d :: d in deps ==> d in view.buildable
    ensures r.Some? ==> s.visited <= r.value.visited
    decreases view.outcome.Keys - s.visited, 3, |deps|
  {
    if deps == [] then Some(s)
    else
      var r := Visited(view, s, deps[0]);
      if r == None then None else VisitedAll(view, r.value, deps[1..])
  }

  class Planner {
    const ws: Workspace
    const packages: map<Node, UvLockPackage>
    ghost const view: View
    var installOrder: seq<Node>
    var visited: set<Node>
    var validated: set<Node>

    /** `packages` are the objects of the packages that discovery found. */
    constructor (ws: Workspace, packages: map<Node, UvLockPackage>)
      requires Discovered(ws) && packages.Keys == ws.byName.Keys
      requires forall n :: n in packages ==> packages[n].raw == ws.byName[n]
      ensures this.ws == ws && this.packages == packages && view == ViewOf(ws)
      ensures State() == Search({}, [], {}) && Valid()
    {
      this.ws, this.packages, view := ws, packages, ViewOf(ws);
      installOrder, visited, validated := [], {}, {};
      ViewIsClosed(ws);
    }

    function State(): Search
      reads this
    {
      Search(visited, installOrder, validated)
    }

    ghost predicate OwnsPackages() {
      && Describes(view, ws) && Closed(view)
      && packages.Keys == ws.byName.Keys
      && (forall n :: n in packages ==> packages[n].raw == ws.byName[n] && packages[n].raw.normalizedName == n)
    }

    /** Validated packages carry the outcome of their validation. */
    ghost predicate Valid()
      reads this, packages.Values
    {
      && OwnsPackages()
      && validated <= packages.Keys
      && (forall n :: n in validated ==> view.outcome[n] == Success(packages[n].Fields()))
    }

    /** Validates one package that is not validated yet. */
    method Validate(n: Node) returns (err: Option<Error>)
      requires Valid() && n in packages && n !in validated
      modifies this`validated, packages.Values
      ensures err.Some? <==> Invalid(view, n)
      ensures err.None? ==> Valid() && validated == old(validated) + {n}
    {
      var package := packages[n];
      assert package in packages.Values;
      err := ValidatePackage(ws, package);
      assert view.outcome[n] == Validation(ws, ws.byName[n]);
      if err.None? {
        validated := validated + {n};
      }
    }

    /** The whole search. It fails exactly when the target is not buildable or reaches an invalid
        package; otherwise the order is right and every package in it is enabled. */
    method Plan(target: Node) returns (err: Option<Error>)
      requires Valid() && target in packages && State() == Search({}, [], {})
      modifies this`installOrder, this`visited, this`validated, packages.Values
      ensures err.Some? <==> ReachesInvalid(view, target) || target !in view.buildable
      ensures err.None? ==> RightOrder(view, target, installOrder)
      ensures err.None? ==> forall n :: n in installOrder ==> n in packages && packages[n].packageEnabled
    {
      ReachSelf(Edges(view), target);
      err := Validate(target);
      if err.Some? {
        return;
      }
      if !packages[target].packageEnabled {
        return Some(TargetNotBuildable);
      }
      VisitIsRight(view, target);
      assert State() == Search({}, [], {target});
      err := Visit(target);
    }

    method Visit(n: Node) returns (err: Option<Error>)
      requires Valid() && n in packages
      modifies this`installOrder, this`visited, this`validated, packages.Values
      ensures err.None? <==> Visited(view, old(State()), n).Some?
      ensures err.None? ==> Valid() && State() == Visited(view, old(State()), n).value
      decreases packages.Keys - visited, 2
    {
      if n in visited {
        return None;
      }
      err := VisitNew(n);
    }

    /** `visit` for a package that was not visited before. */
    method VisitNew(n: Node) returns (err: Option<Error>)
      requires Valid() && n in packages && n !in visited
      modifies this`installOrder, this`visited, this`validated, packages.Values
      ensures err.None? <==> VisitedNew(view, old(State()), n).Some?
      ensures err.None? ==> Valid() && State() == VisitedNew(view, old(State()), n).value
      decreases packages.Keys - visited, 1
    {
      err := VisitBelow(n);
      if err.None? {
        Finish(n);
      }
    }

    /** The end of `visit`. */
    method Finish(n: Node)
      requires Valid()
      modifies this`installOrder
      ensures Valid() && State() == old(State()).(order := old(State()).order + [n])
    {
      installOrder := installOrder + [n];
    }

    /** All of `visit` but its end. */
    method VisitBelow(n: Node) returns (err: Option<Error>)
      requires Valid() && n in packages && n !in visited
      modifies this`installOrder, this`visited, this`validated, packages.Values
      ensures err.None? <==> VisitedBelow(view, old(State()), n).Some?
      ensures err.None? ==> Valid() && State() == VisitedBelow(view, old(State()), n).value
      decreases packages.Keys - visited, 0
    {
      err := Enter(n);
      if err.None? {
        err := VisitDependencies(n);
      }
    }

    /** The beginning of `visit`: marks an unvisited package, and validates it if that is still to do. */
    method Enter(n: Node) returns (err: Option<Error>)
      requires Valid() && n in packages && n !in visited
      modifies this`visited, this`validated, packages.Values
      ensures err.Some? <==> n !in old(validated) && Invalid(view, n)
      ensures err.None? ==>
                Valid() && n in validated &&
                State() == Search(old(visited) + {n}, installOrder, old(validated) + {n})
    {
      visited := visited + {n};
      err := None;
      if n !in validated {
        err := Validate(n);
      } else {
        assert validated == validated + {n};
      }
    }

    /** The loop of `visit` over the workspace dependencies of a validated package. */
    method VisitDependencies(n: Node) returns (err: Option<Error>)
      requires Valid() && n in validated
      modifies this`installOrder, this`visited, this`validated, packages.Values
      ensures err.None? <==> VisitedAll(view, old(State()), Edges(view)(n)).Some?
      ensures err.None? ==> Valid() && State() == VisitedAll(view, old(State()), Edges(view)(n)).value
      decreases packages.Keys - visited, 3
    {
      var deps := packages[n].workspaceDependencies;
      assert deps == Edges(view)(n);
      err := None;
      for i := 0 to |deps|
        invariant Valid() && old(visited) <= visited && err == None
        invariant VisitedAll(view, old(State()), deps) == VisitedAll(view, State(), deps[i..])
      {
        assert deps[i] in Edges(view)(n);
        VisitedNext(view, State(), deps, i);
        err := Visit(deps[i]);
        if err.Some? {
          return;
        }
      }
    }
  }

  /** An order is right for a target if it lists what the target reaches, each package once, the
      target last, and dependencies before dependents where no cycle forbids it. */
  ghost predicate RightOrder(view: View, target: Node, order: seq<Node>) {
    && (forall n :: n in order <==> Reach(Edges(view), target, n))
    && Distinct(order)
    && order != [] && order[|order| - 1] == target
    && DependenciesFirst(Edges(view), order)
    && (forall n :: n in order ==> n in view.buildable)
  }

  lemma VisitedNext(view: View, s: Search, deps: seq<Node>, i: nat)
    requires Closed(view) && (forall d :: d in deps ==> d in view.buildable) && i < |deps|
    ensures VisitedAll(view, s, deps[i..]) ==
            var r := Visited(view, s, deps[i]);
            if r == None then None else VisitedAll(view, r.value, deps[i + 1..])
  {
    assert deps[i..][1..] == deps[i + 1..];
  }

  // ------------------------------------------------------- what the search gives

  predicate UnderWayIn(x: Node, s: Search) { x in s.visited && x !in s.order }

  /** Validated packages are valid, finished ones are validated. */
  ghost predicate Sound(view: View, s: Search) {
    && Tidy(Edges(view), s.visited, s.order)
    && (forall x :: x in s.validated ==> x in view.outcome && view.outcome[x].Success?)
    && (forall x :: x in s.order ==> x in s.validated)
  }

  /** From one state to a later one: what was newly visited is finished, buildable and reachable
      from `n`; what was under way still is. */
  ghost predicate Explored(view: View, n: Node, s: Search, t: Search) {
    && s.visited <= t.visited && s.order <= t.order && s.validated <= t.validated
    && (forall x :: UnderWayIn(x, t) <==> UnderWayIn(x, s))
    && (forall x :: x in t.visited && x !in s.visited ==> Reach(Edges(view), n, x) && x in view.buildable)
  }

  lemma ExploredTrans(view: View, n: Node, d: Node, s: Search, t: Search, u: Search)
    requires Reach(Edges(view), n, n) && (d == n || d in Edges(view)(n))
    requires Explored(view, n, s, t) && Explored(view, d, t, u)
    ensures Explored(view, n, s, u)
  {
    forall x | x in u.visited && x !in s.visited
      ensures Reach(Edges(view), n, x) && x in view.buildable
    {
      if x !in t.visited && d != n {
        EdgeReach(Edges(view), n, d, x);
      }
    }
  }

  ghost predicate AllReach(view: View, s: Search, n: Node) {
    forall x :: UnderWayIn(x, s) ==> Reach(Edges(view), x, n)
  }

  /** The end of a visit: `n` is finished after everything below it. */
  lemma FinishSound(view: View, s: Search, t: Search, n: Node)
    requires Closed(view) && n in view.buildable && n !in s.visited && Sound(view, s) && AllReach(view, s, n)
    requires Sound(view, t)
    requires Explored(view, n, Search(s.visited + {n}, s.order, s.validated + {n}), t)
    requires forall d :: d in Edges(view)(n) ==> d in t.visited
    ensures var u := t.(order := t.order + [n]); Sound(view, u) && Explored(view, n, s, u) && n in u.visited
  {
    var g, s1 := Edges(view), Search(s.visited + {n}, s.order, s.validated + {n});
    ReachSelf(g, n);
    assert forall x :: UnderWayIn(x, s1) <==> UnderWayIn(x, s) || x == n;
    assert UnderWayIn(n, s1) && UnderWayIn(n, t);
    assert forall x :: x in t.visited && x !in t.order ==> UnderWayIn(x, t);
    FinishNode(g, t.visited, t.order, n);
    var u := t.(order := t.order + [n]);
    assert forall x :: UnderWayIn(x, u) <==> UnderWayIn(x, t) && x != n;
  }

  lemma EnterSound(view: View, s: Search, n: Node)
    requires Closed(view) && n in view.buildable && n !in s.visited && Sound(view, s) && AllReach(view, s, n)
    requires n in s.validated || !Invalid(view, n)
    ensures var s1 := Search(s.visited + {n}, s.order, s.validated + {n});
            Sound(view, s1) && AllReach(view, s1, n)
  {
    ReachSelf(Edges(view), n);
    var s1 := Search(s.visited + {n}, s.order, s.validated + {n});
    assert forall x :: UnderWayIn(x, s1) <==> UnderWayIn(x, s) || x == n;
  }

  lemma {:induction false} VisitSound(view: View, s: Search, n: Node)
    requires Closed(view) && n in view.buildable && Sound(view, s) && AllReach(view, s, n)
    ensures var r := Visited(view, s, n);
            if r == None then ReachesInvalid(view, n)
            else Sound(view, r.value) && Explored(view, n, s, r.value) && n in r.value.visited &&
                 (n !in s.visited ==> r.value.order != [] && r.value.order[|r.value.order| - 1] == n)
    decreases view.outcome.Keys - s.visited, 0, 0
  {
    ReachSelf(Edges(view), n);
    if n in s.visited {
      ExploredSelf(view, n, s);
    } else {
      var below := VisitedBelow(view, s, n);
      assert Visited(view, s, n) == VisitedNew(view, s, n);
      if n in s.validated || !Invalid(view, n) {
        var s1 := Search(s.visited + {n}, s.order, s.validated + {n});
        EnterSound(view, s, n);
        VisitAllSound(view, s1, n, Edges(view)(n));
        assert below == VisitedAll(view, s1, Edges(view)(n));
        if below.Some? {
          FinishSound(view, s, below.value, n);
        }
      } else {
        assert below == None;
      }
    }
  }

  /** The loop over the dependencies of `n`, which is under way. */
  lemma {:induction false} VisitAllSound(view: View, s: Search, n: Node, deps: seq<Node>)
    requires Closed(view) && Sound(view, s) && AllReach(view, s, n) && Reach(Edges(view), n, n)
    requires forall d :: d in deps ==> d in Edges(view)(n)
    ensures var r := VisitedAll(view, s, deps);
            if r == None then ReachesInvalid(view, n)
            else Sound(view, r.value) && Explored(view, n, s, r.value) &&
                 forall d :: d in deps ==> d in r.value.visited
    decreases view.outcome.Keys - s.visited, 2, |deps|
  {
    if deps != [] {
      var d := deps[0];
      forall x | UnderWayIn(x, s)
        ensures Reach(Edges(view), x, d)
      {
        ReachEdge(Edges(view), x, n, d);
      }
      VisitSound(view, s, d);
      var r := Visited(view, s, d);
      if r == None {
        InvalidBehindEdge(view, n, d);
      } else {
        VisitAllSound(view, r.value, n, deps[1..]);
        var all := VisitedAll(view, r.value, deps[1..]);
        ExploredSelf(view, n, s);
        ExploredTrans(view, n, d, s, s, r.value);
        if all.Some? {
          ExploredTrans(view, n, n, s, r.value, all.value);
          assert forall e :: e in deps ==> e == d || e in deps[1..];
        }
      }
    }
  }

  lemma ExploredSelf(view: View, n: Node, s: Search)
    ensures Explored(view, n, s, s)
  {}

  lemma InvalidBehindEdge(view: View, n: Node, d: Node)
    requires d in Edges(view)(n) && ReachesInvalid(view, d)
    ensures ReachesInvalid(view, n)
  {
    var b :| Reach(Edges(view), d, b) && Invalid(view, b);
    EdgeReach(Edges(view), n, d, b);
  }

  lemma VisitIsRight(view: View, target: Node)
    requires Closed(view) && target in view.buildable && view.outcome[target].Success?
    ensures var r := Visited(view, Search({}, [], {target}), target);
            && (r == None <==> ReachesInvalid(view, target))
            && (r.Some? ==> RightOrder(view, target, r.value.order) && Sound(view, r.value))
  {
    var s := Search({}, [], {target});
    VisitSound(view, s, target);
    var r := Visited(view, s, target);
    if r.Some? {
      var t := r.value;
      assert forall x :: x in t.visited && x !in t.order ==> UnderWayIn(x, t);
      assert forall x :: !UnderWayIn(x, s);
      assert t.visited == Elements(t.order);
      OrderIsReachable(Edges(view), t.visited, t.order, target);
    }
  }

  // ------------------------------------------------------------ told from the files

  /** The edges of the graph are the workspace dependencies that the files declare. */
  lemma EdgesAreDeclared(ws: Workspace, n: Node, d: Node)
    requires Discovered(ws) && n in ws.byName && WellFormed(ws, ws.byName[n])
    requires Validation(ws, ws.byName[n]).Success?
    ensures d in Edges(ViewOf(ws))(n) <==> DependsInWorkspace(ws, ws.byName[n], d)
  {
    FoundInFiles(ws, ws.byName[n]);
  }

  /** What the files must be for the next two lemmas, and what the search has found. */
  ghost predicate Planned(ws: Workspace, target: Node, order: seq<Node>) {
    && Discovered(ws)
    && (forall n {:trigger WellFormed(ws, ws.byName[n])} :: n in ws.byName ==> WellFormed(ws, ws.byName[n]))
    && RightOrder(ViewOf(ws), target, order) && !ReachesInvalid(ViewOf(ws), target)
  }

  lemma OrderedDeclares(ws: Workspace, target: Node, order: seq<Node>, i: nat, d: Node)
    requires Planned(ws, target, order) && i < |order|
    ensures order[i] in ws.byName
    ensures d in Edges(ViewOf(ws))(order[i]) <==> DependsInWorkspace(ws, ws.byName[order[i]], d)
  {
    ViewIsClosed(ws);
    assert Reach(Edges(ViewOf(ws)), target, order[i]) && !Invalid(ViewOf(ws), order[i]);
    EdgesAreDeclared(ws, order[i], d);
  }

  /** What a package of the order declares as a workspace dependency is in the order, too, and before it
      unless it depends on that package itself, directly or not. */
  lemma DeclaredIsOrdered(ws: Workspace, target: Node, order: seq<Node>, i: nat, d: Node)
    requires Planned(ws, target, order) && i < |order|
    ensures order[i] in ws.byName
    ensures DependsInWorkspace(ws, ws.byName[order[i]], d) ==>
            d in order && (Reach(Edges(ViewOf(ws)), d, order[i]) || d in order[..i])
  {
    OrderedDeclares(ws, target, order, i, d);
    if DependsInWorkspace(ws, ws.byName[order[i]], d) {
      ReachEdge(Edges(ViewOf(ws)), target, order[i], d);
    }
  }

  /** Each package but the target, which is the last one, is in the order because another one there
      depends on it. */
  lemma OrderedIsDeclared(ws: Workspace, target: Node, order: seq<Node>, i: nat)
    requires Planned(ws, target, order) && i < |order| - 1
    ensures order[|order| - 1] == target
    ensures exists j :: 0 <= j < |order| && order[j] in ws.byName &&
                        DependsInWorkspace(ws, ws.byName[order[j]], order[i])
  {
    var n := ReachedFrom(Edges(ViewOf(ws)), target, order[i]);
    assert n in order;
    var j :| 0 <= j < |order| && order[j] == n;
    OrderedDeclares(ws, target, order, j, order[i]);
  }

  // ------------------------------------------------------------ from order to paths

  /** Some package in the order lies outside the project root. */
  ghost predicate Strays(ws: Workspace, order: seq<Node>) {
    exists n :: n in order && n in ws.byName && !(ws.projectRoot <= ws.byName[n].root)
  }

  /** The path part of the plan: container roots for the packages in the order. None stands for the
      ValueError of `relative_to`, which is none of the planner's own errors. */
  ghost function PathPlan(ws: Workspace, order: seq<Node>): Option<UvPaths.Plan>
    requires forall n :: n in order ==> n in ws.byName
  {
    if Strays(ws, order) then None
    else
      var roots := set n | n in order :: ws.byName[n].root;
      Some(UvPaths.Plan(ws.projectRoot,
                        map r | r in roots && ws.projectRoot <= r :: ContainerRootFor(ws.projectRoot, r),
                        set n | n in ws.byName :: ws.byName[n].root))
  }

  /** After the search, planning ends in that error exactly when the target reaches a package outside
      the project root. Otherwise the plan satisfies what the rewriting of paths needs, and a path is
      rewritten exactly when the innermost member around it is one that the target reaches. */
  lemma PlannedPaths(ws: Workspace, target: Node, order: seq<Node>, path: Path)
    requires Discovered(ws) && RightOrder(ViewOf(ws), target, order)
    ensures forall n :: n in order ==> n in ws.byName
    ensures PathPlan(ws, order).None? <==>
            exists n :: n in ws.byName && Reach(Edges(ViewOf(ws)), target, n) && !(ws.projectRoot <= ws.byName[n].root)
    ensures PathPlan(ws, order).Some? ==>
            && WellPlanned(PathPlan(ws, order).value)
            && (DeepestInClosure(PathPlan(ws, order).value, path) <==>
                exists n :: n in ws.byName && Reach(Edges(ViewOf(ws)), target, n) &&
                            Deepest(PathPlan(ws, order).value, path, ws.byName[n].root))
  {
    ViewIsClosed(ws);
    if PathPlan(ws, order).Some? {
      ClosureIsOrder(ws, order, PathPlan(ws, order).value, path);
    }
  }

  lemma ClosureIsOrder(ws: Workspace, order: seq<Node>, plan: UvPaths.Plan, path: Path)
    requires (forall n :: n in order ==> n in ws.byName) && PathPlan(ws, order) == Some(plan)
    ensures DeepestInClosure(plan, path) <==>
            exists n :: n in ws.byName && n in order && Deepest(plan, path, ws.byName[n].root)
  {
    if DeepestInClosure(plan, path) {
      var m :| Deepest(plan, path, m) && m in plan.containerRoots;
      var n :| n in order && ws.byName[n].root == m;
      assert n in ws.byName && Deepest(plan, path, ws.byName[n].root);
    }
    if n :| n in ws.byName && n in order && Deepest(plan, path, ws.byName[n].root) {
      assert !Strays(ws, order);
      assert ws.byName[n].root in plan.containerRoots;
    }
  }
}
