/** What is copied into the container (libs/cli/langgraph_cli/uv_lock.py), and its agreement with
    the rewriting of paths. Ignore patterns are an arbitrary predicate on project-relative paths. */
module UvCopy {
  import opened Prelude
  import opened Ignore
  import opened UvPaths

  /** A directory lists its children in name order. */
  datatype Tree = File | Dir(children: seq<Child>)
  datatype Child = Child(name: string, tree: Tree)

  datatype Context = Context(plan: Plan, ignored: (Path, bool) -> bool, hints: Hints)

  /** A copy instruction: a project-relative source and a container destination. */
  datatype Item = Item(source: Path, destination: Path)

  /** Another member's root, seen from the project root. */
  predicate IsMember(x: Context, rel: Path) {
    x.plan.projectRoot + rel in x.plan.members - {x.plan.projectRoot}
  }

  predicate AboveMember(x: Context, rel: Path) {
    exists m :: m in x.plan.members - {x.plan.projectRoot} && x.plan.projectRoot + rel < m
  }

  // --------------------------------------------------------------- the walk

  function EntriesOfChild(x: Context, rel: Path, t: Tree): seq<Path>
    decreases t, 0
  {
    if IsMember(x, rel) || IsAlwaysExcluded(rel, t.Dir?) then []
    else if t.Dir? && (AboveMember(x, rel) || (x.ignored(rel, true) && x.hints.RequiresDirWalk(rel))) then
      EntriesOf(x, rel, t.children)
    else if x.ignored(rel, t.Dir?) then []
    else [rel]
  }

  function EntriesOf(x: Context, dir: Path, children: seq<Child>): seq<Path>
    decreases children, 1
  {
    if children == [] then []
    else EntriesOfChild(x, dir + [children[0].name], children[0].tree) + EntriesOf(x, dir, children[1..])
  }

  lemma {:induction false} EntriesConcat(x: Context, dir: Path, xs: seq<Child>, ys: seq<Child>)
    ensures EntriesOf(x, dir, xs + ys) == EntriesOf(x, dir, xs) + EntriesOf(x, dir, ys)
  {
    if xs == [] {
      assert xs + ys == ys;
    } else {
      assert (xs + ys)[1..] == xs[1..] + ys;
      EntriesConcat(x, dir, xs[1..], ys);
      Regroup(EntriesOfChild(x, dir + [xs[0].name], xs[0].tree), EntriesOf(x, dir, xs[1..]), EntriesOf(x, dir, ys));
    }
  }

  method IterEntries(x: Context, dir: Path, children: seq<Child>) returns (entries: seq<Path>)
    ensures entries == EntriesOf(x, dir, children)
    decreases children
  {
    entries := [];
    var i := 0;
    while i < |children|
      invariant i <= |children|
      invariant entries == EntriesOf(x, dir, children[..i])
    {
      var rel, t := dir + [children[i].name], children[i].tree;
      OneMore(x, dir, children, i);
      i := i + 1;
      if IsMember(x, rel) {
        continue;
      }
      if IsAlwaysExcluded(rel, t.Dir?) {
        continue;
      }
      var ignored := x.ignored(rel, t.Dir?);
      if t.Dir? && AboveMember(x, rel) {
        var below := IterEntries(x, rel, t.children);
        entries := entries + below;
        continue;
      }
      if t.Dir? && ignored && x.hints.RequiresDirWalk(rel) {
        var below := IterEntries(x, rel, t.children);
        entries := entries + below;
        continue;
      }
      if ignored {
        continue;
      }
      entries := entries + [rel];
    }
    assert children[..|children|] == children;
  }

  lemma OneMore(x: Context, dir: Path, children: seq<Child>, i: nat)
    requires i < |children|
    ensures EntriesOf(x, dir, children[..i + 1]) ==
            EntriesOf(x, dir, children[..i]) + EntriesOfChild(x, dir + [children[i].name], children[i].tree)
  {
    assert children[..i + 1] == children[..i] + [children[i]];
    EntriesConcat(x, dir, children[..i], [children[i]]);
    assert [children[i]][1..] == [];
  }

  // ----------------------------------------------------- which paths are chosen

  ghost predicate UniqueNames(t: Tree)
    decreases t
  {
    t.Dir? ==>
      && (forall i, j :: 0 <= i < j < |t.children| ==> t.children[i].name != t.children[j].name)
      && (forall c :: c in t.children ==> UniqueNames(c.tree))
  }

  /** The subtree at a path below a directory. */
  function Find(children: seq<Child>, path: Path): Option<Tree>
    requires path != []
    decreases path, |children|
  {
    if children == [] then None
    else if children[0].name != path[0] then Find(children[1..], path)
    else if |path| == 1 then Some(children[0].tree)
    else if children[0].tree.Dir? then Find(children[0].tree.children, path[1..])
    else None
  }

  /** A directory that the walk enters instead of copying it whole. */
  predicate Entered(x: Context, rel: Path) {
    && !IsMember(x, rel) && !IsAlwaysExcluded(rel, true)
    && (AboveMember(x, rel) || (x.ignored(rel, true) && x.hints.RequiresDirWalk(rel)))
  }

  /** A file or directory that is copied where the walk meets it. */
  predicate Taken(x: Context, rel: Path, isDir: bool) {
    && !IsMember(x, rel) && !IsAlwaysExcluded(rel, isDir)
    && !(isDir && AboveMember(x, rel)) && !x.ignored(rel, isDir)
  }

  /** A path is chosen if it exists, is taken, and every directory above it is entered. */
  ghost predicate Chosen(x: Context, root: seq<Child>, rel: Path) {
    && rel != [] && Find(root, rel).Some? && Taken(x, rel, Find(root, rel).value.Dir?)
    && forall i :: 0 < i < |rel| ==> Entered(x, rel[..i])
  }

  ghost predicate ChosenBelow(x: Context, dir: Path, children: seq<Child>, rel: Path) {
    && dir < rel
    && Find(children, rel[|dir|..]).Some?
    && Taken(x, rel, Find(children, rel[|dir|..]).value.Dir?)
    && forall i :: |dir| < i < |rel| ==> Entered(x, rel[..i])
  }

  lemma {:induction false} FindAbsent(children: seq<Child>, path: Path)
    requires path != [] && forall i :: 0 <= i < |children| ==> children[i].name != path[0]
    ensures Find(children, path) == None
    decreases |children|
  {
    if children != [] {
      FindAbsent(children[1..], path);
    }
  }

  lemma {:induction false} ChildEntries(x: Context, rel: Path, t: Tree, p: Path)
    requires UniqueNames(t) && rel != []
    ensures p in EntriesOfChild(x, rel, t) <==>
            if p == rel then Taken(x, rel, t.Dir?)
            else t.Dir? && Entered(x, rel) && ChosenBelow(x, rel, t.children, p)
    decreases t, 0
  {
    if t.Dir? && Entered(x, rel) {
      ListEntries(x, rel, t.children, p);
    }
  }

  lemma {:induction false} ListEntries(x: Context, dir: Path, children: seq<Child>, p: Path)
    requires UniqueNames(Dir(children))
    ensures p in EntriesOf(x, dir, children) <==> ChosenBelow(x, dir, children, p)
    decreases children, 1
  {
    if children != [] {
      var c := children[0];
      var rel := dir + [c.name];
      assert c in children;
      assert UniqueNames(c.tree);
      TailUnique(children);
      ChildEntries(x, rel, c.tree, p);
      ListEntries(x, dir, children[1..], p);
      if dir < p {
        var q := p[|dir|..];
        assert p == dir + q;
        if q[0] == c.name {
          assert forall i :: 0 <= i < |children[1..]| ==> children[1..][i].name != q[0];
          FindAbsent(children[1..], q);
          if |q| == 1 {
            assert q == [c.name];
            assert p == rel;
          } else {
            assert rel < p;
            assert p[|rel|..] == q[1..];
            assert p[..|rel|] == rel;
          }
        } else {
          assert p[|dir|] != rel[|dir|];
        }
      } else {
        assert !(rel <= p);
      }
    }
  }

  lemma TailUnique(children: seq<Child>)
    requires UniqueNames(Dir(children)) && children != []
    ensures UniqueNames(Dir(children[1..]))
    ensures forall i :: 0 <= i < |children| - 1 ==> children[1..][i].name != children[0].name
  {}

  /** The walk, told without recursion: exactly the chosen paths become entries. */
  lemma EntriesAreChosen(x: Context, root: seq<Child>, p: Path)
    requires UniqueNames(Dir(root))
    ensures p in EntriesOf(x, [], root) <==> Chosen(x, root, p)
  {
    ListEntries(x, [], root, p);
    if p != [] {
      assert p[0..] == p && [] < p;
    }
  }

  // ---------------------------------------------------- properties of the entries

  lemma {:induction false} EntriesDistinct(x: Context, dir: Path, children: seq<Child>)
    requires UniqueNames(Dir(children))
    ensures Distinct(EntriesOf(x, dir, children))
    decreases children, 1
  {
    if children != [] {
      var c := children[0];
      var rel := dir + [c.name];
      assert c in children;
      assert UniqueNames(c.tree);
      TailUnique(children);
      ChildDistinct(x, rel, c.tree);
      EntriesDistinct(x, dir, children[1..]);
      var here, rest := EntriesOfChild(x, rel, c.tree), EntriesOf(x, dir, children[1..]);
      forall p | p in here
        ensures p !in rest
      {
        ChildEntries(x, rel, c.tree, p);
        ListEntries(x, dir, children[1..], p);
        assert rel <= p;
        if dir < p {
          assert p[|dir|..][0] == c.name;
          FindAbsent(children[1..], p[|dir|..]);
        }
      }
      DistinctConcat(here, rest);
    }
  }

  lemma DistinctConcat<T(!new)>(xs: seq<T>, ys: seq<T>)
    requires Distinct(xs) && Distinct(ys) && forall x :: x in xs ==> x !in ys
    ensures Distinct(xs + ys)
  {
    forall i, j | 0 <= i < j < |xs + ys|
      ensures (xs + ys)[i] != (xs + ys)[j]
    {
      if j < |xs| {
        assert (xs + ys)[i] == xs[i] && (xs + ys)[j] == xs[j];
      } else if i < |xs| {
        assert (xs + ys)[i] in xs && (xs + ys)[j] in ys;
      } else {
        assert (xs + ys)[i] == ys[i - |xs|] && (xs + ys)[j] == ys[j - |xs|];
      }
    }
  }

  lemma {:induction false} ChildDistinct(x: Context, rel: Path, t: Tree)
    requires UniqueNames(t)
    ensures Distinct(EntriesOfChild(x, rel, t))
    decreases t, 0
  {
    if t.Dir? {
      EntriesDistinct(x, rel, t.children);
    }
  }

  /** No two entries of the root package are nested or equal. */
  lemma EntriesNotNested(x: Context, root: seq<Child>, i: nat, j: nat)
    requires UniqueNames(Dir(root))
    requires var es := EntriesOf(x, [], root); i < |es| && j < |es| && i != j
    ensures var es := EntriesOf(x, [], root); !(es[i] <= es[j])
  {
    var es := EntriesOf(x, [], root);
    EntriesDistinct(x, [], root);
    EntriesAreChosen(x, root, es[i]);
    EntriesAreChosen(x, root, es[j]);
    assert es[i] != es[j] by {
      if i < j { assert es[i] != es[j]; } else { assert es[j] != es[i]; }
    }
    if es[i] < es[j] {
      assert es[j][..|es[i]|] == es[i];
      FindPrefix(root, es[j], |es[i]|);
    }
  }

  /** Every member below the project root is a directory of the tree. */
  ghost predicate MembersAreDirs(x: Context, root: seq<Child>) {
    forall m :: m in x.plan.members && x.plan.projectRoot < m ==>
      var rel := m[|x.plan.projectRoot|..];
      Find(root, rel).Some? && Find(root, rel).value.Dir?
  }

  lemma {:induction false} FindPrefix(children: seq<Child>, path: Path, n: nat)
    requires 0 < n < |path| && Find(children, path).Some?
    ensures Find(children, path[..n]).Some? && Find(children, path[..n]).value.Dir?
    decreases path, |children|
  {
    if children[0].name != path[0] {
      FindPrefix(children[1..], path, n);
    } else if n > 1 {
      assert path[..n][1..] == path[1..][..n - 1];
      FindPrefix(children[0].tree.children, path[1..], n - 1);
    }
  }

  lemma PrefixBelow(base: Path, a: Path, b: Path)
    ensures base + a <= base + b ==> a <= b && b[..|a|] == a
    ensures base + a == base + b ==> a == b
  {
    assert (base + a)[|base|..] == a && (base + b)[|base|..] == b;
  }

  /** No entry of the root package is, contains, or lies inside another member of the project. */
  lemma EntriesAvoidMembers(x: Context, root: seq<Child>, e: Path, m: Path)
    requires UniqueNames(Dir(root)) && MembersAreDirs(x, root)
    requires e in EntriesOf(x, [], root)
    requires m in x.plan.members && x.plan.projectRoot < m
    ensures !(x.plan.projectRoot + e <= m) && !(m <= x.plan.projectRoot + e)
  {
    var n := |x.plan.projectRoot|;
    var abs, rel := x.plan.projectRoot + e, m[n..];
    assert m == x.plan.projectRoot + rel;
    assert m in x.plan.members - {x.plan.projectRoot} && IsMember(x, rel);
    PrefixBelow(x.plan.projectRoot, rel, e);
    PrefixBelow(x.plan.projectRoot, e, rel);
    EntriesAreChosen(x, root, e);
    if abs < m {
      FindPrefix(root, rel, |e|);
    }
  }

  /** A file that the ignore rules keep, outside other members and built-in exclusions, with every
      ignored directory above it marked for walking. */
  ghost predicate Keepable(x: Context, root: seq<Child>, file: Path) {
    && file != [] && Find(root, file) == Some(File)
    && !x.ignored(file, false) && !IsAlwaysExcluded(file, false)
    && (forall i :: 0 < i <= |file| ==> !IsMember(x, file[..i]))
    && (forall i :: 0 < i < |file| && x.ignored(file[..i], true) ==> x.hints.RequiresDirWalk(file[..i]))
  }

  lemma {:induction false} FirstChosen(x: Context, root: seq<Child>, file: Path, n: nat) returns (k: nat)
    requires Keepable(x, root, file) && 0 < n <= |file|
    requires forall i :: 0 < i < n ==> Entered(x, file[..i])
    ensures 0 < k <= |file| && Chosen(x, root, file[..k])
    decreases |file| - n
  {
    if n < |file| && Entered(x, file[..n]) {
      k := FirstChosen(x, root, file, n + 1);
    } else {
      k := n;
      var e := file[..n];
      assert forall i :: 0 < i < n ==> e[..i] == file[..i];
      if n < |file| {
        FindPrefix(root, file, n);
        assert !IsAlwaysExcluded(e, true) by {
          assert forall i :: 0 <= i < n ==> e[i] == file[i];
        }
      } else {
        assert e == file;
      }
    }
  }

  /** Each such file lies under one entry, and under one only. */
  lemma KeepableIsCopiedOnce(x: Context, root: seq<Child>, file: Path)
    requires UniqueNames(Dir(root)) && Keepable(x, root, file)
    ensures var es := EntriesOf(x, [], root);
            exists i :: 0 <= i < |es| && es[i] <= file &&
                        forall j :: 0 <= j < |es| && es[j] <= file ==> j == i
  {
    var es := EntriesOf(x, [], root);
    var k := FirstChosen(x, root, file, 1);
    EntriesAreChosen(x, root, file[..k]);
    var i :| 0 <= i < |es| && es[i] == file[..k];
    assert es[i] <= file;
    forall j | 0 <= j < |es| && es[j] <= file
      ensures j == i
    {
      if j != i {
        PrefixesAgree(es[i], es[j], file);
        PrefixesAgree(es[j], es[i], file);
        EntriesNotNested(x, root, i, j);
        EntriesNotNested(x, root, j, i);
      }
    }
  }

  /** An ignored directory that the walk passes by. */
  predicate PassedBy(x: Context, dir: Path) {
    x.ignored(dir, true) && !AboveMember(x, dir) && !x.hints.RequiresDirWalk(dir)
  }

  /** A directory that is copied whole where the walk meets it. */
  predicate Whole(x: Context, dir: Path) { !x.ignored(dir, true) && !AboveMember(x, dir) }

  ghost predicate Covered(x: Context, root: seq<Child>, file: Path) {
    exists e :: e in EntriesOf(x, [], root) && e <= file
  }

  /** The first directory above `file` that the walk does not enter, or else `file`. */
  function Stop(x: Context, file: Path, n: nat): (k: nat)
    requires 0 < n <= |file|
    ensures n <= k <= |file| && (k < |file| ==> !Entered(x, file[..k]))
    ensures forall i :: n <= i < k ==> Entered(x, file[..i])
    decreases |file| - n
  {
    if n < |file| && Entered(x, file[..n]) then Stop(x, file, n + 1) else n
  }

  /** A file that is not ignored, outside members and built-in exclusions, lies under an entry exactly
      when every ignored directory above it that is passed by lies in one that is copied whole. */
  lemma CoveredIff(x: Context, root: seq<Child>, file: Path)
    requires UniqueNames(Dir(root)) && file != [] && Find(root, file) == Some(File)
    requires !x.ignored(file, false) && !IsAlwaysExcluded(file, false)
    requires forall i :: 0 < i <= |file| ==> !IsMember(x, file[..i])
    ensures Covered(x, root, file) <==>
            forall i :: 0 < i < |file| && PassedBy(x, file[..i]) ==> exists j :: 0 < j < i && Whole(x, file[..j])
  {
    var k := Stop(x, file, 1);
    var e := file[..k];
    assert forall i :: 0 < i < k ==> e[..i] == file[..i];
    EntriesAreChosen(x, root, e);
    if k < |file| {
      FindPrefix(root, file, k);
      assert !IsAlwaysExcluded(e, true) by {
        assert forall i :: 0 <= i < k ==> e[i] == file[i];
      }
      if PassedBy(x, e) {
        forall l | 0 < l <= |file| ensures file[..l] !in EntriesOf(x, [], root) {
          EntriesAreChosen(x, root, file[..l]);
          NotChosenHere(x, root, file, k, l);
        }
        forall m | m in EntriesOf(x, [], root) ensures m != [] && (m <= file ==> m == file[..|m|]) {
          EntriesAreChosen(x, root, m);
        }
      } else {
        assert Whole(x, e) && e in EntriesOf(x, [], root);
      }
    } else {
      assert e == file && e in EntriesOf(x, [], root);
    }
  }

  /** Where the walk passes a directory by, nothing on the way to a file below it is chosen. */
  lemma NotChosenHere(x: Context, root: seq<Child>, file: Path, k: nat, l: nat)
    requires 0 < k < |file| && PassedBy(x, file[..k]) && Find(root, file).Some?
    requires forall i :: 0 < i < k ==> Entered(x, file[..i])
    requires 0 < l <= |file|
    ensures !Chosen(x, root, file[..l])
  {
    if l > k {
      assert file[..l][..k] == file[..k] && !Entered(x, file[..k]);
    } else {
      FindPrefix(root, file, l);
    }
  }

  const ASSETS: Path := ["assets"]
  const KEEP: Path := ["assets", "keep.txt"]

  /** A project whose only file is `assets/keep.txt`. */
  function OnlyKeep(): seq<Child> { [Child("assets", Dir([Child("keep.txt", File)]))] }

  lemma FindKeep()
    ensures UniqueNames(Dir(OnlyKeep())) && Find(OnlyKeep(), KEEP) == Some(File)
  {
    var inner := [Child("keep.txt", File)];
    assert KEEP[1..] == ["keep.txt"];
    assert Find(inner, KEEP[1..]) == Some(File);
    assert UniqueNames(Dir(inner));
  }

  /** For instance: `assets/` is ignored and `!keep.txt` re-includes `assets/keep.txt`, as a pattern
      without a slash matches at any depth; the hints name no directory, and nothing covers the file. */
  lemma DeepReincludeMissed(x: Context)
    requires x.hints == HintsOf([Exactly(["keep.txt"])])
    requires x.ignored(ASSETS, true) && !x.ignored(KEEP, false)
    requires x.plan.members == {x.plan.projectRoot}
    ensures Find(OnlyKeep(), KEEP) == Some(File) && !Covered(x, OnlyKeep(), KEEP)
  {
    FindKeep();
    assert KEEP[..1] == ASSETS && KEEP[..2] == KEEP;
    LiteralWalk([Exactly(["keep.txt"])], ASSETS);
    assert PassedBy(x, KEEP[..1]);
    assert !IsAlwaysExcluded(KEEP, false);
    CoveredIff(x, OnlyKeep(), KEEP);
  }

  /** With the hints of the actual .dockerignore: a file that a negation re-includes, and that is
      not ignored, is copied once, however many ignored directories lie above it. */
  lemma ReincludedIsCopied(x: Context, ns: seq<Negation>, n: Negation, root: seq<Child>, file: Path)
    requires UniqueNames(Dir(root)) && x.hints == HintsOf(ns)
    requires n in ns && MayReinclude(n, file)
    requires file != [] && Find(root, file) == Some(File)
    requires !x.ignored(file, false) && !IsAlwaysExcluded(file, false)
    requires forall i :: 0 < i <= |file| ==> !IsMember(x, file[..i])
    ensures var es := EntriesOf(x, [], root);
            exists i :: 0 <= i < |es| && es[i] <= file &&
                        forall j :: 0 <= j < |es| && es[j] <= file ==> j == i
  {
    forall i | 0 < i < |file|
      ensures x.hints.RequiresDirWalk(file[..i])
    {
      ReincludedIsWalked(ns, n, file, i);
    }
    KeepableIsCopiedOnce(x, root, file);
  }

  // -------------------------------------------------------------- copy items

  /** The items of one package; None stands for the error that an excluded member raises. */
  method PackageCopyItems(x: Context, package: Path, root: seq<Child>) returns (items: Option<seq<Item>>)
    requires WellPlanned(x.plan) && package in x.plan.containerRoots
    ensures items == CopyItems(x, package, root)
  {
    if package != x.plan.projectRoot {
      var rel := package[|x.plan.projectRoot|..];
      if IsAlwaysExcluded(rel, true) || x.ignored(rel, true) {
        return None;
      }
      return Some([Item(rel, x.plan.containerRoots[package])]);
    }
    var entries := IterEntries(x, [], root);
    return Some(seq(|entries|, i requires 0 <= i < |entries| =>
                      Item(entries[i], x.plan.containerRoots[package] + entries[i])));
  }

  function CopyItems(x: Context, package: Path, root: seq<Child>): Option<seq<Item>>
    requires package in x.plan.containerRoots && x.plan.projectRoot <= package
  {
    var rel := package[|x.plan.projectRoot|..];
    if package == x.plan.projectRoot then
      var es := EntriesOf(x, [], root);
      Some(seq(|es|, i requires 0 <= i < |es| => Item(es[i], x.plan.containerRoots[package] + es[i])))
    else if IsAlwaysExcluded(rel, true) || x.ignored(rel, true) then None
    else Some([Item(rel, x.plan.containerRoots[package])])
  }

  /** A copy instruction puts what lies at or below its source at the same place below its destination. */
  function Destination(item: Item, rel: Path): Path
    requires item.source <= rel
  {
    item.destination + rel[|item.source|..]
  }

  /** Whatever item covers a path, it is put where the rewriting would put it, if it rewrites it at all:
      that is the case exactly when the innermost member that holds the path is in the closure. */
  lemma CopyAgreesWithRewriting(x: Context, package: Path, root: seq<Child>, item: Item, rel: Path)
    requires WellPlanned(x.plan) && package in x.plan.containerRoots
    requires CopyItems(x, package, root).Some? && item in CopyItems(x, package, root).value
    requires item.source <= rel
    ensures Destination(item, rel) == CONTAINER_ROOT + rel
    ensures Resolved(x.plan, x.plan.projectRoot + rel) == Some(Destination(item, rel))
            <==> DeepestInClosure(x.plan, x.plan.projectRoot + rel)
  {
    assert item.source + rel[|item.source|..] == rel;
    assert (x.plan.projectRoot + rel)[|x.plan.projectRoot|..] == rel;
    if package == x.plan.projectRoot {
      assert x.plan.containerRoots[package] == CONTAINER_ROOT;
    }
    assert item.destination == CONTAINER_ROOT + item.source;
  }

  /** What the root package copies is always rewritten, to the place where it is copied. */
  lemma RootCopyIsRewritten(x: Context, root: seq<Child>, item: Item, rel: Path)
    requires WellPlanned(x.plan) && x.plan.projectRoot in x.plan.containerRoots
    requires UniqueNames(Dir(root)) && MembersAreDirs(x, root)
    requires item in CopyItems(x, x.plan.projectRoot, root).value && item.source <= rel
    ensures Resolved(x.plan, x.plan.projectRoot + rel) == Some(Destination(item, rel))
  {
    var p, path := x.plan, x.plan.projectRoot + rel;
    forall m | m in p.members && m <= path
      ensures |m| <= |p.projectRoot|
    {
      if |m| > |p.projectRoot| {
        var abs := p.projectRoot + item.source;
        assert abs <= path;
        PrefixesAgree(p.projectRoot, m, path);
        PrefixesAgree(m, abs, path);
        PrefixesAgree(abs, m, path);
        EntriesAvoidMembers(x, root, item.source, m);
      }
    }
    assert Deepest(p, path, p.projectRoot);
    CopyAgreesWithRewriting(x, p.projectRoot, root, item, rel);
  }

  /** A path below a package of the closure is copied by that package's item although the rewriting
      rejects it, exactly when a deeper member outside the closure is in between. */
  lemma MemberCopyIsRewritten(x: Context, package: Path, root: seq<Child>, rel: Path)
    requires WellPlanned(x.plan) && package in x.plan.containerRoots && package != x.plan.projectRoot
    requires CopyItems(x, package, root).Some? && package <= x.plan.projectRoot + rel
    requires forall r :: r in x.plan.containerRoots && r <= x.plan.projectRoot + rel ==> |r| <= |package|
    ensures var item := CopyItems(x, package, root).value[0];
            item.source <= rel &&
            (Resolved(x.plan, x.plan.projectRoot + rel) == Some(Destination(item, rel))
             <==> !exists m :: m in x.plan.members && package < m && m <= x.plan.projectRoot + rel)
  {
    var p, path := x.plan, x.plan.projectRoot + rel;
    var item := CopyItems(x, package, root).value[0];
    assert item.source == package[|p.projectRoot|..] && path[|p.projectRoot|..] == rel;
    assert item.source <= rel by {
      assert package == path[..|package|];
    }
    CopyAgreesWithRewriting(x, package, root, item, rel);
    if !exists m :: m in p.members && package < m && m <= path {
      forall m | m in p.members && m <= path
        ensures |m| <= |package|
      {
        PrefixesAgree(package, m, path);
      }
      assert Deepest(p, path, package);
    }
  }

  /** The nested member of the statement above does occur: its files are copied with the outer
      package, but no path to them is accepted. */
  lemma NestedMemberCopiedNotRewritten()
    ensures exists x: Context, package: Path, rel: Path ::
              && WellPlanned(x.plan) && package in x.plan.containerRoots
              && CopyItems(x, package, []) == Some([Item(["a"], CONTAINER_ROOT + ["a"])])
              && ["a"] <= rel && Resolved(x.plan, x.plan.projectRoot + rel) == None
  {
    var outer, inner: Path := ["p", "a"], ["p", "a", "b"];
    var plan := Plan(["p"], map[outer := CONTAINER_ROOT + ["a"]], {["p"], outer, inner});
    var x := Context(plan, (path: Path, isDir: bool) => false, Hints({}, {}, false));
    var rel: Path := ["a", "b", "f"];
    assert outer[1..] == ["a"] && outer[..1] == ["p"];
    assert ["p"] + rel == ["p", "a", "b", "f"];
    assert ["p", "a", "b", "f"][..3] == inner;
    assert (["a"] + ["b", "f"]) == rel;
    assert inner <= ["p"] + rel && |inner| == 3 && |outer| == 2;
    assert Resolved(plan, ["p"] + rel) == None;
    assert !IsAlwaysExcluded(["a"], true);
    assert CopyItems(x, outer, []) == Some([Item(["a"], CONTAINER_ROOT + ["a"])]);
    assert ["a"] <= rel;
  }
}
