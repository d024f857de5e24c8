/** Validation of a workspace package and of its `[tool.uv.sources]` entries
    (libs/cli/langgraph_cli/uv_lock.py). TOML data is a value, packages are known by normalised name. */
module UvSources {
  import opened Prelude
  import opened Ignore
  import opened UvGraph

  /** A value out of a pyproject.toml. The entries of a table have different keys. */
  datatype Toml =
    | Bool(b: bool)
    | Str(s: string)
    | Arr(items: seq<Toml>)
    | Table(entries: seq<Entry>)
    | Number(n: int)

  datatype Entry = Entry(key: string, value: Toml)

  datatype Specs = NoSpecs | NotStrings | Specs(list: seq<string>)

  datatype Package = Package(
    name: string, normalizedName: Node, root: Path, specs: Specs, uvTool: Toml)

  /** What discovery found, and the environment's text and path functions. */
  datatype Workspace = Workspace(
    projectRoot: Path,
    rootSources: Toml,
    byName: map<Node, Package>,
    byRoot: map<Path, Package>,
    normalize: string -> Node,
    parseName: string -> Option<Node>,        // PEP 508 name, normalised
    resolve: (Path, string) -> Path,
    isAbsolute: string -> bool)

  datatype Error =
    | NoSuchMember | NotBuildable | AbsolutePath | OutsideProject | NotAPackage | NameMismatch
    | ToolNotTable | FlagNotBoolean | SourcesNotTable | DependenciesNotStrings | BadDependency
    | TargetNotBuildable

  /** Both indexes list the same packages. A members pattern with `..` may find some outside the
      project root. */
  ghost predicate Discovered(ws: Workspace) {
    && (forall n :: n in ws.byName ==>
          ws.byName[n].normalizedName == n &&
          ws.byName[n].root in ws.byRoot && ws.byRoot[ws.byName[n].root] == ws.byName[n])
    && (forall r :: r in ws.byRoot ==>
          ws.byRoot[r].root == r && ws.byRoot[r].normalizedName in ws.byName &&
          ws.byName[ws.byRoot[r].normalizedName] == ws.byRoot[r])
  }

  function Get(entries: seq<Entry>, key: string): (r: Option<Toml>)
    ensures r.Some? ==> Entry(key, r.value) in entries
    ensures r.None? ==> forall e :: e in entries ==> e.key != key
  {
    if entries == [] then None
    else if entries[0].key == key then Some(entries[0].value)
    else Get(entries[1..], key)
  }

  predicate Truthy(t: Toml) {
    match t
    case Bool(b) => b
    case Str(s) => s != ""
    case Arr(items) => items != []
    case Table(entries) => entries != []
    case Number(n) => n != 0
  }

  /** `_get_uv_lock_package_enabled`. */
  function Enabled(p: Package): Result<bool, Error> {
    if Truthy(p.uvTool) && !p.uvTool.Table? then Failure(ToolNotTable)
    else
      var flag := if p.uvTool.Table? then Get(p.uvTool.entries, "package") else None;
      if flag == None then Success(true)
      else if flag.value.Bool? then Success(flag.value.b)
      else Failure(FlagNotBoolean)
  }

  // ------------------------------------------------------------ source entries

  type Names = Result<set<Node>, Error>

  function Plus(a: Names, b: Names): Names {
    if a.Failure? then a else if b.Failure? then b else Success(a.value + b.value)
  }

  function Buildable(p: Package): Names {
    match Enabled(p)
    case Failure(e) => Failure(e)
    case Success(enabled) => if enabled then Success({p.normalizedName}) else Failure(NotBuildable)
  }

  function WorkspaceRef(ws: Workspace, name: string, entries: seq<Entry>): Names {
    if Get(entries, "workspace") != Some(Bool(true)) then Success({})
    else if ws.normalize(name) !in ws.byName then Failure(NoSuchMember)
    else Buildable(ws.byName[ws.normalize(name)])
  }

  function PathRef(ws: Workspace, name: string, entries: seq<Entry>, declared: Path): Names {
    match Get(entries, "path")
    case Some(Str(ref)) =>
      if ws.isAbsolute(ref) then Failure(AbsolutePath)
      else
        var root := ws.resolve(declared, ref);
        if !(ws.projectRoot <= root) then Failure(OutsideProject)
        else if root !in ws.byRoot then Failure(NotAPackage)
        else if ws.byRoot[root].normalizedName != ws.normalize(name) then Failure(NameMismatch)
        else Buildable(ws.byRoot[root])
    case _ => Success({})
  }

  /** The workspace packages that a source entry refers to, at any depth of nesting. */
  function SourceDeps(ws: Workspace, name: string, value: Toml, declared: Path): Names
    decreases value, 0
  {
    match value
    case Arr(items) => ItemDeps(ws, name, items, declared)
    case Table(entries) =>
      Plus(Plus(WorkspaceRef(ws, name, entries), PathRef(ws, name, entries, declared)),
           EntryDeps(ws, name, entries, declared))
    case _ => Success({})
  }

  function ItemDeps(ws: Workspace, name: string, items: seq<Toml>, declared: Path): Names
    decreases items, 1
  {
    if items == [] then Success({})
    else Plus(ItemDeps(ws, name, items[..|items| - 1], declared), SourceDeps(ws, name, items[|items| - 1], declared))
  }

  function EntryDeps(ws: Workspace, name: string, entries: seq<Entry>, declared: Path): Names
    decreases entries, 1
  {
    if entries == [] then Success({})
    else
      var last := entries[|entries| - 1];
      Plus(EntryDeps(ws, name, entries[..|entries| - 1], declared),
           if last.key == "workspace" || last.key == "path" then Success({})
           else SourceDeps(ws, name, last.value, declared))
  }

  method ValidateSourceEntry(ws: Workspace, name: string, value: Toml, declared: Path) returns (r: Names)
    ensures r == SourceDeps(ws, name, value, declared)
    decreases value
  {
    var found: set<Node> := {};
    match value {
      case Arr(items) =>
        for i := 0 to |items|
          invariant ItemDeps(ws, name, items[..i], declared) == Success(found)
        {
          var more := ValidateSourceEntry(ws, name, items[i], declared);
          ItemDepsNext(ws, name, items, declared, i);
          if more.Failure? {
            ItemFailure(ws, name, items, declared, i + 1);
            return more;
          }
          found := found + more.value;
        }
        assert items[..|items|] == items;
        return Success(found);
      case Table(entries) =>
        var ref := WorkspaceRef(ws, name, entries);
        if ref.Failure? {
          return ref;
        }
        var path := PathRef(ws, name, entries, declared);
        if path.Failure? {
          return path;
        }
        found := ref.value + path.value;
        ghost var nested: set<Node> := {};
        for i := 0 to |entries|
          invariant EntryDeps(ws, name, entries[..i], declared) == Success(nested)
          invariant found == ref.value + path.value + nested
        {
          EntryDepsNext(ws, name, entries, declared, i);
          if entries[i].key == "workspace" || entries[i].key == "path" {
            assert nested + {} == nested;
            continue;
          }
          var more := ValidateSourceEntry(ws, name, entries[i].value, declared);
          if more.Failure? {
            EntryFailure(ws, name, entries, declared, i + 1);
            return more;
          }
          found := found + more.value;
          nested := nested + more.value;
        }
        assert entries[..|entries|] == entries;
        return Success(found);
      case _ =>
        return Success({});
    }
  }

  lemma ItemDepsNext(ws: Workspace, name: string, items: seq<Toml>, declared: Path, i: nat)
    requires i < |items|
    ensures ItemDeps(ws, name, items[..i + 1], declared) ==
            Plus(ItemDeps(ws, name, items[..i], declared), SourceDeps(ws, name, items[i], declared))
  {
    assert items[..i + 1][..i] == items[..i] && items[..i + 1][i] == items[i];
  }

  lemma EntryDepsNext(ws: Workspace, name: string, entries: seq<Entry>, declared: Path, i: nat)
    requires i < |entries|
    ensures EntryDeps(ws, name, entries[..i + 1], declared) ==
            Plus(EntryDeps(ws, name, entries[..i], declared),
                 if entries[i].key == "workspace" || entries[i].key == "path" then Success({})
                 else SourceDeps(ws, name, entries[i].value, declared))
  {
    assert entries[..i + 1][..i] == entries[..i] && entries[..i + 1][i] == entries[i];
  }

  lemma {:induction false} ItemFailure(ws: Workspace, name: string, items: seq<Toml>, declared: Path, i: nat)
    requires i <= |items| && ItemDeps(ws, name, items[..i], declared).Failure?
    ensures ItemDeps(ws, name, items, declared) == ItemDeps(ws, name, items[..i], declared)
    decreases |items|
  {
    if i < |items| {
      assert items[..|items| - 1][..i] == items[..i];
      ItemFailure(ws, name, items[..|items| - 1], declared, i);
    } else {
      assert items[..i] == items;
    }
  }

  lemma {:induction false} EntryFailure(ws: Workspace, name: string, entries: seq<Entry>, declared: Path, i: nat)
    requires i <= |entries| && EntryDeps(ws, name, entries[..i], declared).Failure?
    ensures EntryDeps(ws, name, entries, declared) == EntryDeps(ws, name, entries[..i], declared)
    decreases |entries|
  {
    if i < |entries| {
      assert entries[..|entries| - 1][..i] == entries[..i];
      EntryFailure(ws, name, entries[..|entries| - 1], declared, i);
    } else {
      assert entries[..i] == entries;
    }
  }

  // ------------------------------------------------- what an entry can refer to

  /** Some table in the value, at any depth, is a workspace or path reference. */
  ghost predicate Mentions(value: Toml)
    decreases value
  {
    match value
    case Arr(items) => exists t :: t in items && Mentions(t)
    case Table(entries) =>
      || Get(entries, "workspace") == Some(Bool(true))
      || (Get(entries, "path").Some? && Get(entries, "path").value.Str?)
      || exists e :: e in entries && e.key != "workspace" && e.key != "path" && Mentions(e.value)
    case _ => false
  }

  ghost predicate OnlyOwnName(ws: Workspace, name: string, mentioned: bool, r: Names) {
    r.Success? ==>
      var n := ws.normalize(name);
      && r.value == (if mentioned then {n} else {})
      && (mentioned ==> n in ws.byName && Enabled(ws.byName[n]) == Success(true))
  }

  lemma OnlyOwnNamePlus(ws: Workspace, name: string, a: bool, b: bool, r: Names, s: Names)
    requires OnlyOwnName(ws, name, a, r) && OnlyOwnName(ws, name, b, s)
    ensures OnlyOwnName(ws, name, a || b, Plus(r, s))
  {}

  /** An entry that is accepted contributes its own name and no other: exactly when it refers to the
      workspace at some depth, and then to a buildable workspace package. */
  lemma {:induction false} SourceDepsAreOwnName(ws: Workspace, name: string, value: Toml, declared: Path)
    requires Discovered(ws)
    ensures OnlyOwnName(ws, name, Mentions(value), SourceDeps(ws, name, value, declared))
    decreases value, 0
  {
    match value
    case Arr(items) => ItemsAreOwnName(ws, name, items, declared);
    case Table(entries) =>
      var a := Get(entries, "workspace") == Some(Bool(true));
      var b := Get(entries, "path").Some? && Get(entries, "path").value.Str?;
      var w, p := WorkspaceRef(ws, name, entries), PathRef(ws, name, entries, declared);
      assert OnlyOwnName(ws, name, a, w);
      assert OnlyOwnName(ws, name, b, p);
      OnlyOwnNamePlus(ws, name, a, b, w, p);
      EntriesAreOwnName(ws, name, entries, declared);
      OnlyOwnNamePlus(ws, name, a || b, EntriesMention(entries), Plus(w, p), EntryDeps(ws, name, entries, declared));
    case _ =>
  }

  ghost predicate EntriesMention(entries: seq<Entry>) {
    exists e :: e in entries && e.key != "workspace" && e.key != "path" && Mentions(e.value)
  }

  lemma {:induction false} ItemsAreOwnName(ws: Workspace, name: string, items: seq<Toml>, declared: Path)
    requires Discovered(ws)
    ensures OnlyOwnName(ws, name, exists t :: t in items && Mentions(t), ItemDeps(ws, name, items, declared))
    decreases items, 1
  {
    if items != [] {
      var front, last := items[..|items| - 1], items[|items| - 1];
      ItemsAreOwnName(ws, name, front, declared);
      SourceDepsAreOwnName(ws, name, last, declared);
      assert forall t :: t in items <==> t in front || t == last;
      OnlyOwnNamePlus(ws, name, exists t :: t in front && Mentions(t), Mentions(last),
                      ItemDeps(ws, name, front, declared), SourceDeps(ws, name, last, declared));
    }
  }

  lemma {:induction false} EntriesAreOwnName(ws: Workspace, name: string, entries: seq<Entry>, declared: Path)
    requires Discovered(ws)
    ensures OnlyOwnName(ws, name, EntriesMention(entries), EntryDeps(ws, name, entries, declared))
    decreases entries, 1
  {
    if entries != [] {
      var front, last := entries[..|entries| - 1], entries[|entries| - 1];
      var skip := last.key == "workspace" || last.key == "path";
      EntriesAreOwnName(ws, name, front, declared);
      if !skip {
        SourceDepsAreOwnName(ws, name, last.value, declared);
      }
      assert forall e :: e in entries <==> e in front || e == last;
      OnlyOwnNamePlus(ws, name, EntriesMention(front), !skip && Mentions(last.value),
                      EntryDeps(ws, name, front, declared),
                      if skip then Success({}) else SourceDeps(ws, name, last.value, declared));
    }
  }

  // ------------------------------------------------- when an entry is accepted

  /** Some table in the value, at any depth, says `workspace = true`. */
  ghost predicate SaysWorkspace(value: Toml)
    decreases value
  {
    match value
    case Arr(items) => exists t :: t in items && SaysWorkspace(t)
    case Table(entries) =>
      || Get(entries, "workspace") == Some(Bool(true))
      || exists e :: e in entries && e.key != "workspace" && e.key != "path" && SaysWorkspace(e.value)
    case _ => false
  }

  /** Some table in the value, at any depth, says `path = ref`. */
  ghost predicate SaysPath(value: Toml, ref: string)
    decreases value
  {
    match value
    case Arr(items) => exists t :: t in items && SaysPath(t, ref)
    case Table(entries) =>
      || Get(entries, "path") == Some(Str(ref))
      || exists e :: e in entries && e.key != "workspace" && e.key != "path" && SaysPath(e.value, ref)
    case _ => false
  }

  ghost predicate GoodMember(ws: Workspace, name: string) {
    ws.normalize(name) in ws.byName && Enabled(ws.byName[ws.normalize(name)]) == Success(true)
  }

  /** A relative path that leads from `declared` to a buildable package of that name in the project. */
  ghost predicate GoodPath(ws: Workspace, name: string, ref: string, declared: Path) {
    var root := ws.resolve(declared, ref);
    && !ws.isAbsolute(ref) && ws.projectRoot <= root && root in ws.byRoot
    && ws.byRoot[root].normalizedName == ws.normalize(name) && Enabled(ws.byRoot[root]) == Success(true)
  }

  ghost predicate Good(ws: Workspace, name: string, value: Toml, declared: Path) {
    && (SaysWorkspace(value) ==> GoodMember(ws, name))
    && forall ref :: SaysPath(value, ref) ==> GoodPath(ws, name, ref, declared)
  }

  /** What an error about an entry says is so. */
  ghost predicate Cause(ws: Workspace, name: string, value: Toml, declared: Path, error: Error) {
    var n := ws.normalize(name);
    match error
    case NoSuchMember => SaysWorkspace(value) && n !in ws.byName
    case AbsolutePath => exists ref :: SaysPath(value, ref) && ws.isAbsolute(ref)
    case OutsideProject =>
      exists ref :: SaysPath(value, ref) && !ws.isAbsolute(ref) && !(ws.projectRoot <= ws.resolve(declared, ref))
    case NotAPackage =>
      exists ref :: SaysPath(value, ref) && ws.projectRoot <= ws.resolve(declared, ref) &&
                    ws.resolve(declared, ref) !in ws.byRoot
    case NameMismatch =>
      exists ref :: SaysPath(value, ref) && ws.resolve(declared, ref) in ws.byRoot &&
                    ws.byRoot[ws.resolve(declared, ref)].normalizedName != n
    case NotBuildable => n in ws.byName && Enabled(ws.byName[n]) == Success(false)
    case ToolNotTable => n in ws.byName && Enabled(ws.byName[n]) == Failure(error)
    case FlagNotBoolean => n in ws.byName && Enabled(ws.byName[n]) == Failure(error)
    case _ => false
  }

  ghost predicate Judged(ws: Workspace, name: string, value: Toml, declared: Path, r: Names) {
    (r.Success? <==> Good(ws, name, value, declared)) && (r.Failure? ==> Cause(ws, name, value, declared, r.error))
  }

  lemma TableJudged(ws: Workspace, name: string, entries: seq<Entry>, declared: Path)
    requires Discovered(ws)
    ensures var r := Plus(WorkspaceRef(ws, name, entries), PathRef(ws, name, entries, declared));
      && (r.Success? <==>
            (Get(entries, "workspace") == Some(Bool(true)) ==> GoodMember(ws, name)) &&
            forall ref :: Get(entries, "path") == Some(Str(ref)) ==> GoodPath(ws, name, ref, declared))
      && (r.Failure? ==> Cause(ws, name, Table(entries), declared, r.error))
  {
    var path := Get(entries, "path");
    if path.Some? && path.value.Str? {
      assert SaysPath(Table(entries), path.value.s);
    }
  }

  /** A cause in a part is a cause in the whole. */
  lemma CauseGrows(ws: Workspace, name: string, part: Toml, whole: Toml, declared: Path, error: Error)
    requires Cause(ws, name, part, declared, error)
    requires SaysWorkspace(part) ==> SaysWorkspace(whole)
    requires forall ref :: SaysPath(part, ref) ==> SaysPath(whole, ref)
    ensures Cause(ws, name, whole, declared, error)
  {}

  /** An entry is accepted if and only if every reference in it, at any depth, is good: a buildable
      member for `workspace = true`, and for a path one where the path leads. Else the error names
      something that is so. */
  lemma {:induction false} AcceptedIff(ws: Workspace, name: string, value: Toml, declared: Path)
    requires Discovered(ws)
    ensures Judged(ws, name, value, declared, SourceDeps(ws, name, value, declared))
    decreases value, 0
  {
    match value
    case Arr(items) => ItemsAccepted(ws, name, items, declared);
    case Table(entries) =>
      TableJudged(ws, name, entries, declared);
      EntriesAccepted(ws, name, entries, declared);
      var r := EntryDeps(ws, name, entries, declared);
      if r.Failure? {
        var e :| e in entries && e.key != "workspace" && e.key != "path" && Cause(ws, name, e.value, declared, r.error);
        CauseGrows(ws, name, e.value, value, declared, r.error);
      }
      assert forall e :: e in entries && e.key != "workspace" && e.key != "path" && SaysWorkspace(e.value) ==>
          SaysWorkspace(value);
    case _ =>
  }

  lemma {:induction false} ItemsAccepted(ws: Workspace, name: string, items: seq<Toml>, declared: Path)
    requires Discovered(ws)
    ensures Judged(ws, name, Arr(items), declared, ItemDeps(ws, name, items, declared))
    decreases items, 1
  {
    if items != [] {
      var front, last := items[..|items| - 1], items[|items| - 1];
      ItemsAccepted(ws, name, front, declared);
      AcceptedIff(ws, name, last, declared);
      assert forall t :: t in items <==> t in front || t == last;
      var r := ItemDeps(ws, name, items, declared);
      if ItemDeps(ws, name, front, declared).Failure? {
        CauseGrows(ws, name, Arr(front), Arr(items), declared, r.error);
      } else if r.Failure? {
        CauseGrows(ws, name, last, Arr(items), declared, r.error);
      }
    }
  }

  lemma {:induction false} EntriesAccepted(ws: Workspace, name: string, entries: seq<Entry>, declared: Path)
    requires Discovered(ws)
    ensures var r := EntryDeps(ws, name, entries, declared);
      && (r.Success? <==>
            forall e :: e in entries && e.key != "workspace" && e.key != "path" ==> Good(ws, name, e.value, declared))
      && (r.Failure? ==>
            exists e :: e in entries && e.key != "workspace" && e.key != "path" &&
                        Cause(ws, name, e.value, declared, r.error))
    decreases entries, 1
  {
    if entries != [] {
      var front, last := entries[..|entries| - 1], entries[|entries| - 1];
      EntriesAccepted(ws, name, front, declared);
      if last.key != "workspace" && last.key != "path" {
        AcceptedIff(ws, name, last.value, declared);
      }
      assert forall e :: e in entries <==> e in front || e == last;
    }
  }

  // -------------------------------------------------------------- one package

  function DependencyNames(ws: Workspace, specs: seq<string>): Result<seq<Node>, Error> {
    if specs == [] then Success([])
    else
      var front := DependencyNames(ws, specs[..|specs| - 1]);
      var last := ws.parseName(specs[|specs| - 1]);
      if front.Failure? then front
      else if last == None then Failure(BadDependency)
      else Success(front.value + [last.value])
  }

  /** A source entry together with the directory that its paths are relative to. */
  datatype Source = Source(name: string, value: Toml, declared: Path)

  /** Root entries, unless the package redefines them, followed by the package's own. */
  function Sources(ws: Workspace, p: Package): Result<seq<Source>, Error> {
    if !ws.rootSources.Table? then Failure(SourcesNotTable)
    else
      var own := if p.uvTool.Table? then Get(p.uvTool.entries, "sources") else None;
      if own.Some? && !own.value.Table? then Failure(SourcesNotTable)
      else
        var mine := if own.Some? then own.value.entries else [];
        var roots := ws.rootSources.entries;
        Success(RootSources(roots, mine, ws.projectRoot, p.root) + OwnOnly(roots, mine, p.root))
  }

  /** The root's entries in their order, with the package's own values where it has some. */
  function RootSources(roots: seq<Entry>, mine: seq<Entry>, projectRoot: Path, root: Path): seq<Source> {
    seq(|roots|, i requires 0 <= i < |roots| =>
          if Get(mine, roots[i].key).Some? then Source(roots[i].key, Get(mine, roots[i].key).value, root)
          else Source(roots[i].key, roots[i].value, projectRoot))
  }

  lemma RootSourcesSeen(roots: seq<Entry>, mine: seq<Entry>, projectRoot: Path, root: Path, s: Source)
    ensures s in RootSources(roots, mine, projectRoot, root) <==>
            if Get(mine, s.name).Some?
            then Get(roots, s.name).Some? && s.value == Get(mine, s.name).value && s.declared == root
            else Entry(s.name, s.value) in roots && s.declared == projectRoot
  {
    var all := RootSources(roots, mine, projectRoot, root);
    if Get(mine, s.name).Some? {
      if Get(roots, s.name).Some? && s.value == Get(mine, s.name).value && s.declared == root {
        var i :| 0 <= i < |roots| && roots[i] == Entry(s.name, Get(roots, s.name).value);
        assert all[i] == s;
      }
    } else if Entry(s.name, s.value) in roots && s.declared == projectRoot {
      var i :| 0 <= i < |roots| && roots[i] == Entry(s.name, s.value);
      assert all[i] == s;
    }
    if s in all {
      var i :| 0 <= i < |all| && all[i] == s;
      assert roots[i] in roots;
    }
  }

  function OwnOnly(roots: seq<Entry>, mine: seq<Entry>, root: Path): seq<Source> {
    if mine == [] then []
    else (if Get(roots, mine[0].key).Some? then [] else [Source(mine[0].key, mine[0].value, root)])
         + OwnOnly(roots, mine[1..], root)
  }

  /** A table as TOML has it: no key twice. */
  ghost predicate KeysOnce(entries: seq<Entry>) {
    forall i, j :: 0 <= i < j < |entries| ==> entries[i].key != entries[j].key
  }

  /** The entry `key = value` of the table `name` in `t`, if both are there. */
  ghost predicate HasIn(t: Toml, name: string, key: string, value: Toml) {
    t.Table? && exists entries :: Entry(name, Table(entries)) in t.entries && Entry(key, value) in entries
  }

  /** What the parsed files guarantee: tables, with no key twice. */
  ghost predicate WellFormed(ws: Workspace, p: Package) {
    && (ws.rootSources.Table? ==> KeysOnce(ws.rootSources.entries))
    && (p.uvTool.Table? ==>
          && KeysOnce(p.uvTool.entries)
          && forall e :: e in p.uvTool.entries && e.value.Table? ==> KeysOnce(e.value.entries))
  }

  /** The source `key` as the package `p` sees it, with the directory its paths start from: the
      package's own entry, in its own directory; or else the root's, in the project root. */
  ghost predicate Sees(ws: Workspace, p: Package, key: string, value: Toml, declared: Path) {
    || (HasIn(p.uvTool, "sources", key, value) && declared == p.root)
    || ((forall own :: !HasIn(p.uvTool, "sources", key, own)) && declared == ws.projectRoot
        && ws.rootSources.Table? && Entry(key, value) in ws.rootSources.entries)
  }

  lemma GetOnly(entries: seq<Entry>, e: Entry)
    requires KeysOnce(entries) && e in entries
    ensures Get(entries, e.key) == Some(e.value)
  {
    var i :| 0 <= i < |entries| && entries[i] == e;
  }

  lemma {:induction false} OwnOnlyHas(roots: seq<Entry>, mine: seq<Entry>, root: Path, s: Source)
    ensures s in OwnOnly(roots, mine, root) <==>
            Entry(s.name, s.value) in mine && Get(roots, s.name).None? && s.declared == root
  {
    if mine != [] {
      OwnOnlyHas(roots, mine[1..], root, s);
      var e := Entry(s.name, s.value);
      assert e in mine <==> e == mine[0] || e in mine[1..];
    }
  }

  /** The package's own table, or an empty one. */
  ghost function OwnEntries(p: Package): seq<Entry> {
    var own := if p.uvTool.Table? then Get(p.uvTool.entries, "sources") else None;
    if own.Some? && own.value.Table? then own.value.entries else []
  }

  lemma OwnEntriesHold(ws: Workspace, p: Package, key: string, value: Toml)
    requires WellFormed(ws, p)
    ensures HasIn(p.uvTool, "sources", key, value) <==> Entry(key, value) in OwnEntries(p)
    ensures KeysOnce(OwnEntries(p))
  {
    if p.uvTool.Table? {
      forall entries | Entry("sources", Table(entries)) in p.uvTool.entries
        ensures OwnEntries(p) == entries
      {
        GetOnly(p.uvTool.entries, Entry("sources", Table(entries)));
      }
    }
  }

  /** The merged sources are what the package sees, each once it is looked up under its key. */
  lemma SourcesAreSeen(ws: Workspace, p: Package, s: Source)
    requires WellFormed(ws, p) && Sources(ws, p).Success?
    ensures s in Sources(ws, p).value <==> Sees(ws, p, s.name, s.value, s.declared)
  {
    var mine, roots := OwnEntries(p), ws.rootSources.entries;
    forall value ensures HasIn(p.uvTool, "sources", s.name, value) <==> Entry(s.name, value) in mine {
      OwnEntriesHold(ws, p, s.name, value);
    }
    OwnEntriesHold(ws, p, s.name, s.value);
    OwnOnlyHas(roots, mine, p.root, s);
    if Entry(s.name, s.value) in mine {
      GetOnly(mine, Entry(s.name, s.value));
    }
    RootSourcesSeen(roots, mine, ws.projectRoot, p.root, s);
    assert Sources(ws, p).value == RootSources(roots, mine, ws.projectRoot, p.root) + OwnOnly(roots, mine, p.root);
  }

  /** The names that the applicable entries contribute. */
  function AllDeps(ws: Workspace, deps: seq<Node>, sources: seq<Source>): Names {
    if sources == [] then Success({})
    else
      var last := sources[|sources| - 1];
      Plus(AllDeps(ws, deps, sources[..|sources| - 1]),
           if ws.normalize(last.name) in deps then SourceDeps(ws, last.name, last.value, last.declared)
           else Success({}))
  }

  /** What validation stores in a package. */
  datatype Validated = Validated(enabled: bool, dependencies: seq<Node>, workspaceDependencies: seq<Node>)

  function Keep(deps: seq<Node>, names: set<Node>): seq<Node> {
    if deps == [] then [] else (if deps[0] in names then [deps[0]] else []) + Keep(deps[1..], names)
  }

  lemma {:induction false} KeepMembers(deps: seq<Node>, names: set<Node>)
    ensures forall d :: d in Keep(deps, names) <==> d in deps && d in names
  {
    if deps != [] {
      KeepMembers(deps[1..], names);
      assert forall d :: d in deps <==> d == deps[0] || d in deps[1..];
    }
  }

  function Validation(ws: Workspace, p: Package): Result<Validated, Error> {
    if p.specs.NotStrings? then Failure(DependenciesNotStrings)
    else
      var deps := DependencyNames(ws, if p.specs.Specs? then p.specs.list else []);
      if deps.Failure? then Failure(deps.error)
      else
        var sources := Sources(ws, p);
        if sources.Failure? then Failure(sources.error)
        else
          var names := AllDeps(ws, deps.value, sources.value);
          if names.Failure? then Failure(names.error)
          else if Enabled(p).Failure? then Failure(Enabled(p).error)
          else Success(Validated(Enabled(p).value, deps.value, Keep(deps.value, names.value)))
  }

  class UvLockPackage {
    const raw: Package
    var packageEnabled: bool
    var dependencyNames: seq<Node>
    var workspaceDependencies: seq<Node>

    constructor (raw: Package)
      ensures this.raw == raw
    {
      this.raw := raw;
      packageEnabled, dependencyNames, workspaceDependencies := false, [], [];
    }

    function Fields(): Validated
      reads this
    {
      Validated(packageEnabled, dependencyNames, workspaceDependencies)
    }
  }

  /** Validates a package in place; on an error nothing is stored. */
  method ValidatePackage(ws: Workspace, package: UvLockPackage) returns (err: Option<Error>)
    modifies package
    ensures err.Some? <==> Validation(ws, package.raw).Failure?
    ensures err.None? ==> package.Fields() == Validation(ws, package.raw).value
    ensures err.Some? ==> package.Fields() == old(package.Fields()) && err.value == Validation(ws, package.raw).error
  {
    var p := package.raw;
    if p.specs.NotStrings? {
      return Some(DependenciesNotStrings);
    }
    var deps := DependencyNames(ws, if p.specs.Specs? then p.specs.list else []);
    if deps.Failure? {
      return Some(deps.error);
    }
    var sources := Sources(ws, p);
    if sources.Failure? {
      return Some(sources.error);
    }
    var names := CollectDeps(ws, deps.value, sources.value);
    if names.Failure? {
      return Some(names.error);
    }
    var enabled := Enabled(p);
    if enabled.Failure? {
      return Some(enabled.error);
    }
    package.packageEnabled := enabled.value;
    package.dependencyNames := deps.value;
    package.workspaceDependencies := Keep(deps.value, names.value);
    err := None;
  }

  method CollectDeps(ws: Workspace, deps: seq<Node>, sources: seq<Source>) returns (r: Names)
    ensures r == AllDeps(ws, deps, sources)
  {
    var names: set<Node> := {};
    for i := 0 to |sources|
      invariant AllDeps(ws, deps, sources[..i]) == Success(names)
    {
      AllDepsNext(ws, deps, sources, i);
      if ws.normalize(sources[i].name) !in deps {
        assert names + {} == names;
        continue;
      }
      var more := ValidateSourceEntry(ws, sources[i].name, sources[i].value, sources[i].declared);
      if more.Failure? {
        AllDepsFailure(ws, deps, sources, i + 1);
        return more;
      }
      names := names + more.value;
    }
    assert sources[..|sources|] == sources;
    r := Success(names);
  }

  lemma AllDepsNext(ws: Workspace, deps: seq<Node>, sources: seq<Source>, i: nat)
    requires i < |sources|
    ensures AllDeps(ws, deps, sources[..i + 1]) ==
            Plus(AllDeps(ws, deps, sources[..i]),
                 if ws.normalize(sources[i].name) in deps
                 then SourceDeps(ws, sources[i].name, sources[i].value, sources[i].declared) else Success({}))
  {
    assert sources[..i + 1][..i] == sources[..i] && sources[..i + 1][i] == sources[i];
  }

  lemma {:induction false} AllDepsFailure(ws: Workspace, deps: seq<Node>, sources: seq<Source>, i: nat)
    requires i <= |sources| && AllDeps(ws, deps, sources[..i]).Failure?
    ensures AllDeps(ws, deps, sources) == AllDeps(ws, deps, sources[..i])
    decreases |sources|
  {
    if i < |sources| {
      assert sources[..|sources| - 1][..i] == sources[..i];
      AllDepsFailure(ws, deps, sources[..|sources| - 1], i);
    } else {
      assert sources[..i] == sources;
    }
  }

  lemma {:induction false} AllDepsMeaning(ws: Workspace, deps: seq<Node>, sources: seq<Source>)
    requires Discovered(ws) && AllDeps(ws, deps, sources).Success?
    ensures forall d :: d in AllDeps(ws, deps, sources).value <==>
              d in deps && exists s :: s in sources && ws.normalize(s.name) == d && Mentions(s.value)
    ensures forall d :: d in AllDeps(ws, deps, sources).value ==>
              d in ws.byName && Enabled(ws.byName[d]) == Success(true)
    decreases |sources|
  {
    if sources != [] {
      var front, last := sources[..|sources| - 1], sources[|sources| - 1];
      AllDepsMeaning(ws, deps, front);
      SourceDepsAreOwnName(ws, last.name, last.value, last.declared);
      assert forall s :: s in sources <==> s in front || s == last;
    }
  }

  /** The workspace dependencies of a valid package: those of its dependencies for which some source
      entry refers to the workspace; all of them are buildable members. */
  lemma WorkspaceDependencies(ws: Workspace, p: Package)
    requires Discovered(ws) && Validation(ws, p).Success?
    ensures var v := Validation(ws, p).value;
            && (forall d :: d in v.workspaceDependencies <==>
                  d in v.dependencies &&
                  exists s :: s in Sources(ws, p).value && ws.normalize(s.name) == d && Mentions(s.value))
            && (forall d :: d in v.workspaceDependencies ==>
                  d in ws.byName && Enabled(ws.byName[d]) == Success(true))
            && v.enabled == Enabled(p).value
  {
    var v := Validation(ws, p).value;
    var sources := Sources(ws, p).value;
    AllDepsMeaning(ws, v.dependencies, sources);
    KeepMembers(v.dependencies, AllDeps(ws, v.dependencies, sources).value);
  }

  // ------------------------------------------------- told from the parsed files

  /** Whether a package counts as buildable: unless its `[tool.uv]` says `package = false`. */
  lemma EnabledMeans(p: Package)
    requires p.uvTool.Table? ==> KeysOnce(p.uvTool.entries)
    ensures Enabled(p) == Success(true) <==>
            if p.uvTool.Table? then forall v :: Entry("package", v) in p.uvTool.entries ==> v == Bool(true)
            else p.uvTool in {Bool(false), Str(""), Arr([]), Number(0)}
    ensures Enabled(p) == Success(false) <==> p.uvTool.Table? && Entry("package", Bool(false)) in p.uvTool.entries
    ensures Enabled(p) == Failure(ToolNotTable) <==>
            !p.uvTool.Table? && p.uvTool !in {Bool(false), Str(""), Arr([]), Number(0)}
    ensures Enabled(p).Failure? ==> Enabled(p).error in {ToolNotTable, FlagNotBoolean}
  {
    if p.uvTool.Table? {
      forall v | Entry("package", v) in p.uvTool.entries
        ensures Get(p.uvTool.entries, "package") == Some(v)
      {
        GetOnly(p.uvTool.entries, Entry("package", v));
      }
    }
  }

  /** The dependencies a package declares. */
  ghost predicate Needs(ws: Workspace, p: Package, d: Node) {
    p.specs.Specs? && exists spec :: spec in p.specs.list && ws.parseName(spec) == Some(d)
  }

  ghost predicate SomeSpecBad(ws: Workspace, p: Package) {
    p.specs.Specs? && exists spec :: spec in p.specs.list && ws.parseName(spec) == None
  }

  lemma {:induction false} NamesOfSpecs(ws: Workspace, specs: seq<string>)
    ensures DependencyNames(ws, specs).Failure? <==> exists spec :: spec in specs && ws.parseName(spec) == None
    ensures DependencyNames(ws, specs).Failure? ==> DependencyNames(ws, specs).error == BadDependency
    ensures DependencyNames(ws, specs).Success? ==>
      var names := DependencyNames(ws, specs).value;
      && |names| == |specs| && forall i :: 0 <= i < |specs| ==> ws.parseName(specs[i]) == Some(names[i])
  {
    if specs != [] {
      NamesOfSpecs(ws, specs[..|specs| - 1]);
      assert forall spec :: spec in specs <==> spec in specs[..|specs| - 1] || spec == specs[|specs| - 1];
    }
  }

  lemma NamesAreNeeds(ws: Workspace, p: Package)
    ensures var r := DependencyNames(ws, if p.specs.Specs? then p.specs.list else []);
      && (r.Failure? <==> SomeSpecBad(ws, p))
      && (r.Success? ==> forall d :: d in r.value <==> Needs(ws, p, d))
  {
    var specs := if p.specs.Specs? then p.specs.list else [];
    NamesOfSpecs(ws, specs);
    var r := DependencyNames(ws, specs);
    if r.Success? {
      forall d ensures d in r.value <==> Needs(ws, p, d) {
        if d in r.value {
          var i :| 0 <= i < |r.value| && r.value[i] == d;
          assert specs[i] in specs && ws.parseName(specs[i]) == Some(d);
        }
        if Needs(ws, p, d) {
          var spec :| spec in specs && ws.parseName(spec) == Some(d);
          var i :| 0 <= i < |specs| && specs[i] == spec;
          assert r.value[i] == d;
        }
      }
    }
  }

  /** `d` is a workspace dependency: the package needs it, and a source that it sees under a name of
      `d` refers to the workspace. */
  ghost predicate DependsInWorkspace(ws: Workspace, p: Package, d: Node) {
    Needs(ws, p, d) &&
    exists key, value, declared ::
      Sees(ws, p, key, value, declared) && ws.normalize(key) == d && Mentions(value)
  }

  /** Validation finds exactly these, in the order of the declared dependencies. */
  lemma FoundInFiles(ws: Workspace, p: Package)
    requires Discovered(ws) && WellFormed(ws, p) && Validation(ws, p).Success?
    ensures forall d :: d in Validation(ws, p).value.workspaceDependencies <==> DependsInWorkspace(ws, p, d)
  {
    WorkspaceDependencies(ws, p);
    NamesAreNeeds(ws, p);
    var v, sources := Validation(ws, p).value, Sources(ws, p).value;
    forall d
      ensures d in v.workspaceDependencies <==> DependsInWorkspace(ws, p, d)
    {
      if d in v.workspaceDependencies {
        var s :| s in sources && ws.normalize(s.name) == d && Mentions(s.value);
        SourcesAreSeen(ws, p, s);
        assert Sees(ws, p, s.name, s.value, s.declared);
      }
      if DependsInWorkspace(ws, p, d) {
        var key, value, declared :| Sees(ws, p, key, value, declared) && ws.normalize(key) == d && Mentions(value);
        SourcesAreSeen(ws, p, Source(key, value, declared));
        assert Source(key, value, declared) in sources;
      }
    }
  }

  /** A source that the package sees, of a dependency that it needs, has a reference that is not good. */
  ghost predicate SomeSourceBad(ws: Workspace, p: Package) {
    exists key, value, declared ::
      Sees(ws, p, key, value, declared) && Needs(ws, p, ws.normalize(key)) && !Good(ws, key, value, declared)
  }

  ghost predicate SourcesMalformed(ws: Workspace, p: Package) {
    !ws.rootSources.Table? ||
    (p.uvTool.Table? && exists v :: Entry("sources", v) in p.uvTool.entries && !v.Table?)
  }

  lemma {:induction false} AllDepsFailIff(ws: Workspace, deps: seq<Node>, sources: seq<Source>)
    requires Discovered(ws)
    ensures AllDeps(ws, deps, sources).Failure? <==>
            exists s :: s in sources && ws.normalize(s.name) in deps && !Good(ws, s.name, s.value, s.declared)
  {
    if sources != [] {
      var front, last := sources[..|sources| - 1], sources[|sources| - 1];
      AllDepsFailIff(ws, deps, front);
      AcceptedIff(ws, last.name, last.value, last.declared);
      assert forall s :: s in sources <==> s in front || s == last;
    }
  }

  lemma SourcesFailIff(ws: Workspace, p: Package)
    requires WellFormed(ws, p)
    ensures Sources(ws, p).Failure? <==> SourcesMalformed(ws, p)
  {
    if p.uvTool.Table? {
      forall v | Entry("sources", v) in p.uvTool.entries
        ensures Get(p.uvTool.entries, "sources") == Some(v)
      {
        GetOnly(p.uvTool.entries, Entry("sources", v));
      }
    }
  }

  /** A package is invalid if and only if its dependencies are no list of readable specifications, a
      table of sources is none, some source in use is bad, or its own flag is. */
  lemma InvalidIff(ws: Workspace, p: Package)
    requires Discovered(ws) && WellFormed(ws, p)
    ensures Validation(ws, p).Failure? <==>
            p.specs.NotStrings? || SomeSpecBad(ws, p) || SourcesMalformed(ws, p) || SomeSourceBad(ws, p) ||
            Enabled(p).Failure?
  {
    NamesAreNeeds(ws, p);
    SourcesFailIff(ws, p);
    var deps := DependencyNames(ws, if p.specs.Specs? then p.specs.list else []);
    if deps.Success? && Sources(ws, p).Success? {
      var sources := Sources(ws, p).value;
      AllDepsFailIff(ws, deps.value, sources);
      forall s ensures s in sources <==> Sees(ws, p, s.name, s.value, s.declared) {
        SourcesAreSeen(ws, p, s);
      }
      BadSourceIsSeen(ws, p, deps.value, sources);
    }
  }

  lemma BadSourceIsSeen(ws: Workspace, p: Package, deps: seq<Node>, sources: seq<Source>)
    requires forall d :: d in deps <==> Needs(ws, p, d)
    requires forall s :: s in sources <==> Sees(ws, p, s.name, s.value, s.declared)
    ensures SomeSourceBad(ws, p) <==>
            exists s :: s in sources && ws.normalize(s.name) in deps && !Good(ws, s.name, s.value, s.declared)
  {
    if SomeSourceBad(ws, p) {
      var key, value, declared :|
        Sees(ws, p, key, value, declared) && Needs(ws, p, ws.normalize(key)) && !Good(ws, key, value, declared);
      var s := Source(key, value, declared);
      assert s in sources && ws.normalize(s.name) in deps && !Good(ws, s.name, s.value, s.declared);
    }
    if s :| s in sources && ws.normalize(s.name) in deps && !Good(ws, s.name, s.value, s.declared) {
      assert Sees(ws, p, s.name, s.value, s.declared);
    }
  }

  /** In a valid package a path entry of its own starts from its own directory, and one taken over from
      the root from the project root; from there it leads to the member of its name. */
  lemma PathsLead(ws: Workspace, p: Package, key: string, value: Toml, declared: Path, ref: string)
    requires Discovered(ws) && WellFormed(ws, p) && Validation(ws, p).Success?
    requires Sees(ws, p, key, value, declared) && Needs(ws, p, ws.normalize(key)) && SaysPath(value, ref)
    ensures declared == if HasIn(p.uvTool, "sources", key, value) then p.root else ws.projectRoot
    ensures ws.resolve(declared, ref) in ws.byRoot
    ensures ws.byRoot[ws.resolve(declared, ref)].normalizedName == ws.normalize(key)
    ensures !ws.isAbsolute(ref)
  {
    InvalidIff(ws, p);
  }
}
