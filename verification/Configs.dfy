/** Merging of runnable configs (`merge_configs`, `_merge_metadata`, `ensure_config`,
    libs/langgraph/langgraph/_internal/_config.py). What langchain_core's callback managers do is left
    open: a manager is recorded as the handlers added to it and the managers it was merged from. */
module Configs {
  import opened Prelude

  /** A dictionary key: the names this code singles out, and `Other` for every other name. */
  datatype Key =
    | Metadata | Tags | Configurable | Callbacks | RecursionLimit | LcVersions
    | ThreadId | CheckpointNs | CheckpointId | CheckpointMap | TaskId | RunId | AssistantId | GraphId
    | Other(name: string)

  type Mapping = map<Key, Value>
  datatype Value =
    | Null | Bool(b: bool) | Int(n: int) | Text(s: string) | List(items: seq<Value>) | Dict(m: Mapping)
    | Managed(manager: Manager)

  /** A callback manager, as what was done to make it; a copy is the same. */
  datatype Manager = Made(name: string) | WithHandler(to: Manager, handler: Value) | MergedFrom(a: Manager, b: Manager)

  type Config = Mapping

  const DEFAULT_RECURSION_LIMIT := 10007
  const COORDINATES := {ThreadId, CheckpointNs, CheckpointId, CheckpointMap}
  const PROPAGATED := {ThreadId, CheckpointId, CheckpointNs, TaskId, RunId, AssistantId, GraphId}

  /** Whether a value counts as true. */
  predicate Truthy(v: Value) {
    match v
    case Null => false
    case Bool(b) => b
    case Int(n) => n != 0
    case Text(s) => s != ""
    case List(items) => items != []
    case Dict(m) => m != map[]
    case Managed(_) => true
  }

  /** `_is_not_empty`: weaker than being true, as `false`, `0` and `""` pass. */
  predicate NotEmpty(v: Value) {
    match v
    case Null => false
    case List(items) => |items| > 0
    case Dict(m) => |m| > 0
    case _ => true
  }

  /** Told by the values themselves. */
  lemma TruthyIff(v: Value)
    ensures Truthy(v) <==> v !in {Null, Bool(false), Int(0), Text(""), List([]), Dict(map[])}
    ensures NotEmpty(v) <==> v !in {Null, List([]), Dict(map[])}
  {
    if v.Dict? && |v.m| == 0 {
      assert v.m == map[];
    }
  }

  function DictOf(v: Value): Mapping { if v.Dict? then v.m else map[] }
  function ListOf(v: Value): seq<Value> { if v.List? then v.items else [] }
  function OrEmpty(o: Option<Mapping>): Mapping { if o.None? then map[] else o.value }
  function Lookup(m: Mapping, k: Key): Option<Value> { if k in m then Some(m[k]) else None }

  /** The types the source declares for the keys it treats specially; a false value is skipped. */
  predicate WellTyped(c: Config) {
    && (Metadata in c ==> c[Metadata].Dict? || c[Metadata].Null?)
    && (Configurable in c ==> c[Configurable].Dict? || c[Configurable].Null?)
    && (Tags in c ==> c[Tags].List? || c[Tags].Null?)
    && (Callbacks in c ==> c[Callbacks].List? || c[Callbacks].Managed? || c[Callbacks].Null?)
  }

  predicate AllTyped(configs: seq<Option<Config>>) {
    forall i :: 0 <= i < |configs| && configs[i].Some? ==> WellTyped(configs[i].value)
  }

  // -------------------------------------------------------------- metadata

  /** One metadata key: newer wins, but two mappings under `lc_versions` are merged. */
  function MetaValue(k: Key, a: Option<Value>, b: Option<Value>): Option<Value> {
    if b.None? then a
    else if a.None? then b
    else if k == LcVersions && a.value.Dict? && b.value.Dict? then Some(Dict(a.value.m + b.value.m))
    else b
  }

  function MergeMeta(a: Mapping, b: Mapping): Mapping {
    map k | k in a.Keys + b.Keys :: MetaValue(k, Lookup(a, k), Lookup(b, k)).value
  }

  lemma MetaAt(a: Mapping, b: Mapping, k: Key)
    ensures Lookup(MergeMeta(a, b), k) == MetaValue(k, Lookup(a, k), Lookup(b, k))
  {}

  lemma SameMapping(x: Mapping, y: Mapping)
    requires forall k :: Lookup(x, k) == Lookup(y, k)
    ensures x == y
  {
    forall k ensures k in x <==> k in y {
      assert Lookup(x, k) == Lookup(y, k);
    }
    forall k | k in x ensures x[k] == y[k] {
      assert Lookup(x, k) == Lookup(y, k);
    }
  }

  method MergeMetadata(base: Option<Mapping>, newer: Option<Mapping>) returns (merged: Mapping)
    ensures merged == MergeMeta(OrEmpty(base), OrEmpty(newer))
  {
    var a, b := OrEmpty(base), OrEmpty(newer);
    merged := a;
    var todo := b.Keys;
    while todo != {}
      invariant todo <= b.Keys
      invariant forall k :: Lookup(merged, k) == MetaValue(k, Lookup(a, k), if k in todo then None else Lookup(b, k))
      decreases |todo|
    {
      var key :| key in todo;
      todo := todo - {key};
      assert Lookup(merged, key) == Lookup(a, key);
      var value := b[key];
      if key == LcVersions && key in merged && merged[key].Dict? && value.Dict? {
        merged := merged[key := Dict(merged[key].m + value.m)];
      } else {
        merged := merged[key := value];
      }
    }
    forall k ensures Lookup(merged, k) == Lookup(MergeMeta(a, b), k) {
      MetaAt(a, b, k);
    }
    SameMapping(merged, MergeMeta(a, b));
  }

  /** The three `lc_versions` entries for which the grouping of a metadata merge shows: mapping,
      other value, mapping, where the first has a key that the last lacks. */
  predicate MetaClash(a: Mapping, b: Mapping, c: Mapping) {
    && LcVersions in a && LcVersions in b && LcVersions in c
    && a[LcVersions].Dict? && !b[LcVersions].Dict? && c[LcVersions].Dict?
    && !(a[LcVersions].m.Keys <= c[LcVersions].m.Keys)
  }

  lemma AbsorbsIff(x: Mapping, y: Mapping)
    ensures x + y == y <==> x.Keys <= y.Keys
  {
    assert (x + y).Keys == x.Keys + y.Keys;
    if x.Keys <= y.Keys {
      assert (x + y).Keys == y.Keys;
    }
  }

  /** Merging metadata is associative on exactly the triples that do not clash. */
  lemma MetadataAssociativeIff(a: Mapping, b: Mapping, c: Mapping)
    ensures MergeMeta(MergeMeta(a, b), c) == MergeMeta(a, MergeMeta(b, c)) <==> !MetaClash(a, b, c)
  {
    var left, right := MergeMeta(MergeMeta(a, b), c), MergeMeta(a, MergeMeta(b, c));
    forall k
      ensures k == LcVersions && MetaClash(a, b, c) <==> Lookup(left, k) != Lookup(right, k)
    {
      MetaAt(a, b, k);
      MetaAt(b, c, k);
      MetaAt(MergeMeta(a, b), c, k);
      MetaAt(a, MergeMeta(b, c), k);
      if k == LcVersions {
        VersionsGrouping(Lookup(a, k), Lookup(b, k), Lookup(c, k));
      }
    }
    if !MetaClash(a, b, c) {
      SameMapping(left, right);
    } else {
      assert Lookup(left, LcVersions) != Lookup(right, LcVersions);
    }
  }

  lemma VersionsGrouping(a: Option<Value>, b: Option<Value>, c: Option<Value>)
    ensures MetaValue(LcVersions, MetaValue(LcVersions, a, b), c) ==
            MetaValue(LcVersions, a, MetaValue(LcVersions, b, c)) <==>
            !(a.Some? && b.Some? && c.Some? && a.value.Dict? && !b.value.Dict? && c.value.Dict?
              && !(a.value.m.Keys <= c.value.m.Keys))
  {
    if a.Some? && b.Some? && c.Some? && a.value.Dict? && c.value.Dict? {
      if b.value.Dict? {
        assert (a.value.m + b.value.m) + c.value.m == a.value.m + (b.value.m + c.value.m);
      } else {
        AbsorbsIff(a.value.m, c.value.m);
      }
    }
  }

  // --------------------------------------------------------- merging configs

  function AddHandlers(m: Manager, handlers: seq<Value>): Manager {
    if handlers == [] then m else WithHandler(AddHandlers(m, handlers[..|handlers| - 1]), handlers[|handlers| - 1])
  }

  /** Lists are concatenated; with one manager the list's handlers are added to it; two are merged. */
  function JoinCallbacks(a: Value, b: Value): Value {
    if a.Managed? && b.Managed? then Managed(MergedFrom(a.manager, b.manager))
    else if a.Managed? then Managed(AddHandlers(a.manager, ListOf(b)))
    else if b.Managed? then Managed(AddHandlers(b.manager, ListOf(a)))
    else List(ListOf(a) + ListOf(b))
  }

  /** `_merge_callbacks` for a new value that is not `None`. */
  method MergeCallbacks(base: Value, newer: Value) returns (merged: Value)
    requires base.Null? || base.List? || base.Managed?
    requires newer.List? || newer.Managed?
    ensures merged == JoinCallbacks(base, newer)
  {
    if base.Null? {
      assert newer.List? ==> [] + newer.items == newer.items;
      return newer;
    }
    if newer.List? {
      if base.List? {
        return List(base.items + newer.items);
      }
      var m := AddAll(base.manager, newer.items);
      return Managed(m);
    }
    if base.List? {
      var m := AddAll(newer.manager, base.items);
      return Managed(m);
    }
    merged := Managed(MergedFrom(base.manager, newer.manager));
  }

  method AddAll(start: Manager, handlers: seq<Value>) returns (m: Manager)
    ensures m == AddHandlers(start, handlers)
  {
    m := start;
    for i := 0 to |handlers|
      invariant m == AddHandlers(start, handlers[..i])
    {
      assert handlers[..i + 1][..i] == handlers[..i];
      m := WithHandler(m, handlers[i]);
    }
    assert handlers[..|handlers|] == handlers;
  }

  /** What a later value does to an earlier one under key `k`. */
  function Blend(k: Key, a: Value, b: Value): Value {
    match k
    case Metadata => Dict(MergeMeta(DictOf(a), DictOf(b)))
    case Tags => List(ListOf(a) + ListOf(b))
    case Callbacks => JoinCallbacks(a, b)
    case Configurable => Dict(DictOf(a) + DictOf(b))
    case _ => b
  }

  function Plus(k: Key, a: Option<Value>, b: Option<Value>): Option<Value> {
    if b.None? then a else if a.None? then b else Some(Blend(k, a.value, b.value))
  }

  /** What a value says: false values and the default recursion limit say nothing. */
  function Said(k: Key, v: Value): Option<Value> {
    if Truthy(v) && !(k == RecursionLimit && v == Int(DEFAULT_RECURSION_LIMIT)) then Some(v) else None
  }

  predicate TypedAt(k: Key, v: Value) {
    && (k == Metadata || k == Configurable ==> v.Dict?)
    && (k == Tags ==> v.List?)
    && (k == Callbacks ==> v.List? || v.Managed?)
  }

  /** What one config says under a key. */
  function Part(config: Option<Config>, k: Key): Option<Value> {
    if config.None? || k !in config.value then None else Said(k, config.value[k])
  }

  /** Everything a list of configs has to say under `k`, oldest first. */
  function Total(configs: seq<Option<Config>>, k: Key): Option<Value> {
    if configs == [] then None
    else Plus(k, Total(configs[..|configs| - 1], k), Part(configs[|configs| - 1], k))
  }

  lemma TotalNext(configs: seq<Option<Config>>, i: nat, k: Key)
    requires i < |configs|
    ensures Total(configs[..i + 1], k) == Plus(k, Total(configs[..i], k), Part(configs[i], k))
  {
    assert configs[..i + 1][..i] == configs[..i];
  }

  /** The merged config: what the list says under each key, and always a `configurable`. */
  ghost predicate IsMerged(configs: seq<Option<Config>>, merged: Config) {
    forall k :: Lookup(merged, k) ==
      if k == Configurable && Total(configs, k).None? then Some(Dict(map[])) else Total(configs, k)
  }

  /** A value that says itself again when merged once more. */
  predicate Stable(k: Key, v: Option<Value>) {
    v.Some? ==> TypedAt(k, v.value) && Said(k, v.value) == v
  }

  lemma {:induction false} TotalStable(configs: seq<Option<Config>>, k: Key)
    requires AllTyped(configs)
    ensures Stable(k, Total(configs, k))
  {
    if configs != [] {
      var front, last := configs[..|configs| - 1], Part(configs[|configs| - 1], k);
      TotalStable(front, k);
      if Total(front, k).Some? && last.Some? {
        BlendStable(k, Total(front, k).value, last.value);
      }
    }
  }

  lemma BlendStable(k: Key, a: Value, b: Value)
    requires TypedAt(k, b) && Said(k, b).Some?
    ensures Stable(k, Some(Blend(k, a, b)))
  {
    if k == Metadata {
      var key :| key in b.m;
      assert key in MergeMeta(DictOf(a), b.m);
    } else if k == Configurable {
      var key :| key in b.m;
      assert key in DictOf(a) + b.m;
    }
  }

  /** `merge_configs`. */
  method MergeConfigs(configs: seq<Option<Config>>) returns (base: Config)
    requires AllTyped(configs)
    ensures IsMerged(configs, base)
  {
    base := map[];
    for i := 0 to |configs|
      invariant forall k :: Lookup(base, k) == Total(configs[..i], k)
    {
      forall k
        ensures Total(configs[..i + 1], k) == Plus(k, Lookup(base, k), Part(configs[i], k))
        ensures Stable(k, Lookup(base, k))
      {
        TotalNext(configs, i, k);
        TotalStable(configs[..i], k);
      }
      if configs[i].Some? {
        base := MergeConfig(base, configs[i].value);
      }
    }
    assert configs[..|configs|] == configs;
    if Configurable !in base {
      assert Lookup(base, Configurable).None?;
      base := base[Configurable := Dict(map[])];
    }
  }

  /** One pass of the outer loop, over the keys of one config. */
  method MergeConfig(start: Config, config: Config) returns (base: Config)
    requires WellTyped(config) && forall k :: Stable(k, Lookup(start, k))
    ensures forall k :: Lookup(base, k) == Plus(k, Lookup(start, k), Part(Some(config), k))
  {
    base := start;
    var todo := config.Keys;
    while todo != {}
      invariant todo <= config.Keys
      invariant forall k :: k in todo ==> Lookup(base, k) == Lookup(start, k)
      invariant forall k :: k !in todo ==> Lookup(base, k) == Plus(k, Lookup(start, k), Part(Some(config), k))
      decreases |todo|
    {
      var key :| key in todo;
      todo := todo - {key};
      var value := config[key];
      if Truthy(value) {
        var merged := MergeValue(key, Lookup(base, key), value);
        base := if merged.Some? then base[key := merged.value] else base;
      }
    }
  }

  /** The branch taken for one key with a true value. */
  method MergeValue(key: Key, existing: Option<Value>, value: Value) returns (merged: Option<Value>)
    requires Truthy(value) && TypedAt(key, value) && Stable(key, existing)
    ensures merged == Plus(key, existing, Said(key, value))
  {
    match key
    case Metadata =>
      var m := MergeMetadata(if existing.Some? then Some(existing.value.m) else None, Some(value.m));
      MergeFromEmpty(value.m);
      merged := Some(Dict(m));
    case Tags =>
      merged := Some(if existing.Some? && Truthy(existing.value) then List(existing.value.items + value.items)
                     else value);
    case Configurable =>
      merged := Some(if existing.Some? && Truthy(existing.value) then Dict(existing.value.m + value.m) else value);
    case Callbacks =>
      var joined := MergeCallbacks(if existing.Some? then existing.value else Null, value);
      JoinFromNothing(value);
      merged := Some(joined);
    case RecursionLimit =>
      merged := if value != Int(DEFAULT_RECURSION_LIMIT) then Some(value) else existing;
    case _ =>
      merged := Some(value);
  }

  lemma JoinFromNothing(b: Value)
    requires b.List? || b.Managed?
    ensures JoinCallbacks(Null, b) == b
  {
    assert b.List? ==> [] + b.items == b.items;
  }

  lemma MergeFromEmpty(b: Mapping)
    ensures MergeMeta(map[], b) == b
  {
    forall k ensures Lookup(MergeMeta(map[], b), k) == Lookup(b, k) {
      MetaAt(map[], b, k);
    }
    SameMapping(MergeMeta(map[], b), b);
  }

  // --------------------------------------------------------------- grouping

  ghost predicate Clash(k: Key, a: Option<Value>, b: Option<Value>, c: Option<Value>) {
    k == Metadata && a.Some? && b.Some? && c.Some? && MetaClash(DictOf(a.value), DictOf(b.value), DictOf(c.value))
  }

  predicate Listed(v: Option<Value>) { v.Some? ==> v.value.List? }

  lemma BlendAssociative(k: Key, a: Value, b: Value, c: Value)
    requires k != Metadata
    requires k == Callbacks ==> a.List? && b.List? && c.List?
    ensures Blend(k, Blend(k, a, b), c) == Blend(k, a, Blend(k, b, c))
  {
    Regroup(ListOf(a), ListOf(b), ListOf(c));
    assert (DictOf(a) + DictOf(b)) + DictOf(c) == DictOf(a) + (DictOf(b) + DictOf(c));
  }

  /** Without callback managers, only clashing metadata shows how three values were grouped. */
  lemma PlusAssociativeIff(k: Key, a: Option<Value>, b: Option<Value>, c: Option<Value>)
    requires k == Callbacks ==> Listed(a) && Listed(b) && Listed(c)
    ensures Plus(k, Plus(k, a, b), c) == Plus(k, a, Plus(k, b, c)) <==> !Clash(k, a, b, c)
  {
    if a.Some? && b.Some? && c.Some? {
      if k == Metadata {
        MetadataAssociativeIff(DictOf(a.value), DictOf(b.value), DictOf(c.value));
      } else {
        BlendAssociative(k, a.value, b.value, c.value);
      }
    }
  }

  /** `lc_versions`, where a metadata mapping has it, is a mapping. */
  predicate MappingVersions(v: Option<Value>) {
    v.Some? && LcVersions in DictOf(v.value) ==> DictOf(v.value)[LcVersions].Dict?
  }

  /** `lc_versions` entries are mappings, and callbacks lists. */
  ghost predicate AllRegular(configs: seq<Option<Config>>) {
    forall i :: 0 <= i < |configs| ==>
      MappingVersions(Part(configs[i], Metadata)) && Listed(Part(configs[i], Callbacks))
  }

  lemma {:induction false} TotalRegular(configs: seq<Option<Config>>)
    requires AllRegular(configs)
    ensures MappingVersions(Total(configs, Metadata)) && Listed(Total(configs, Callbacks))
  {
    if configs != [] {
      var front := configs[..|configs| - 1];
      TotalRegular(front);
      var a, b := Total(front, Metadata), Part(configs[|configs| - 1], Metadata);
      if a.Some? && b.Some? {
        MetaAt(DictOf(a.value), DictOf(b.value), LcVersions);
      }
    }
  }

  lemma {:induction false} TotalConcat(xs: seq<Option<Config>>, ys: seq<Option<Config>>, k: Key)
    requires AllRegular(xs + ys)
    ensures Total(xs + ys, k) == Plus(k, Total(xs, k), Total(ys, k))
  {
    assert forall i :: 0 <= i < |xs| ==> (xs + ys)[i] == xs[i];
    assert forall i :: 0 <= i < |ys| ==> (xs + ys)[|xs| + i] == ys[i];
    if ys == [] {
      assert xs + ys == xs;
    } else {
      var front, last := ys[..|ys| - 1], ys[|ys| - 1];
      assert (xs + ys)[..|xs + ys| - 1] == xs + front;
      TotalConcat(xs, front, k);
      TotalRegular(xs);
      TotalRegular(front);
      PlusAssociativeIff(k, Total(xs, k), Total(front, k), Part(last, k));
    }
  }

  /** A merged config says what its list says. */
  lemma MergedSays(configs: seq<Option<Config>>, merged: Config, k: Key)
    requires AllTyped(configs) && IsMerged(configs, merged)
    ensures Part(Some(merged), k) == Total(configs, k)
  {
    TotalStable(configs, k);
    assert Lookup(merged, k) ==
      if k == Configurable && Total(configs, k).None? then Some(Dict(map[])) else Total(configs, k);
  }

  function Wrap(merged: seq<Config>): seq<Option<Config>> {
    seq(|merged|, i requires 0 <= i < |merged| => Some(merged[i]))
  }

  lemma PartsFine(xs: seq<Option<Config>>, ys: seq<Option<Config>>)
    requires AllTyped(xs + ys) && AllRegular(xs + ys)
    ensures AllTyped(xs) && AllTyped(ys) && AllRegular(xs)
  {
    assert forall i :: 0 <= i < |xs| ==> (xs + ys)[i] == xs[i];
    assert forall i :: 0 <= i < |ys| ==> (xs + ys)[|xs| + i] == ys[i];
  }

  lemma {:induction false} GroupTotals(groups: seq<seq<Option<Config>>>, merged: seq<Config>, k: Key)
    requires |groups| == |merged| && AllTyped(Flatten(groups)) && AllRegular(Flatten(groups))
    requires forall i :: 0 <= i < |groups| ==> IsMerged(groups[i], merged[i])
    ensures Total(Wrap(merged), k) == Total(Flatten(groups), k)
  {
    if groups != [] {
      var n := |groups| - 1;
      assert groups == groups[..n] + [groups[n]];
      FlattenAppend(groups[..n], groups[n]);
      var front := Flatten(groups[..n]);
      PartsFine(front, groups[n]);
      GroupTotals(groups[..n], merged[..n], k);
      MergedSays(groups[n], merged[n], k);
      TotalConcat(front, groups[n], k);
      assert Wrap(merged)[..n] == Wrap(merged[..n]);
    }
  }

  /** However a list of configs is cut into groups, merging the merged groups gives the merge of
      the whole list, when `lc_versions` entries are mappings and callbacks lists. */
  lemma MergeIgnoresGrouping(groups: seq<seq<Option<Config>>>, merged: seq<Config>, again: Config, whole: Config)
    requires |groups| == |merged| && AllTyped(Flatten(groups)) && AllRegular(Flatten(groups))
    requires forall i :: 0 <= i < |groups| ==> IsMerged(groups[i], merged[i])
    requires IsMerged(Wrap(merged), again) && IsMerged(Flatten(groups), whole)
    ensures again == whole
  {
    forall k ensures Lookup(again, k) == Lookup(whole, k) {
      GroupTotals(groups, merged, k);
    }
    SameMapping(again, whole);
  }

  /** For three configs the two groupings agree exactly when their metadata does not clash. */
  lemma ThreeConfigs(a: Config, b: Config, c: Config, ab: Config, bc: Config, left: Config, right: Config)
    requires WellTyped(a) && WellTyped(b) && WellTyped(c)
    requires Listed(Part(Some(a), Callbacks)) && Listed(Part(Some(b), Callbacks)) && Listed(Part(Some(c), Callbacks))
    requires IsMerged([Some(a), Some(b)], ab) && IsMerged([Some(ab), Some(c)], left)
    requires IsMerged([Some(b), Some(c)], bc) && IsMerged([Some(a), Some(bc)], right)
    ensures left == right <==>
            !Clash(Metadata, Part(Some(a), Metadata), Part(Some(b), Metadata), Part(Some(c), Metadata))
  {
    forall k
      ensures Lookup(left, k) == Lookup(right, k) <==> !Clash(k, Part(Some(a), k), Part(Some(b), k), Part(Some(c), k))
    {
      TotalOfTwo(Some(a), Some(b), k);
      TotalOfTwo(Some(b), Some(c), k);
      TotalOfTwo(Some(ab), Some(c), k);
      TotalOfTwo(Some(a), Some(bc), k);
      MergedSays([Some(a), Some(b)], ab, k);
      MergedSays([Some(b), Some(c)], bc, k);
      PlusAssociativeIff(k, Part(Some(a), k), Part(Some(b), k), Part(Some(c), k));
    }
    if left == right {
      assert Lookup(left, Metadata) == Lookup(right, Metadata);
    } else if !Clash(Metadata, Part(Some(a), Metadata), Part(Some(b), Metadata), Part(Some(c), Metadata)) {
      SameMapping(left, right);
    }
  }

  lemma TotalOfTwo(a: Option<Config>, b: Option<Config>, k: Key)
    ensures Total([a, b], k) == Plus(k, Part(a, k), Part(b, k))
  {
    assert [a, b][..1] == [a] && [a][..0] == [];
    assert Total([a], k) == Plus(k, Total([], k), Part(a, k));
  }

  // ------------------------------------------- what a merged config contains

  /** All the items given under `k`, in order. */
  function AllItems(configs: seq<Option<Config>>, k: Key): seq<Value> {
    if configs == [] then []
    else
      var last := Part(configs[|configs| - 1], k);
      AllItems(configs[..|configs| - 1], k) + if last.Some? then ListOf(last.value) else []
  }

  /** The entry for `q` in the last config that has one in its mapping under `k`. */
  function LastEntry(configs: seq<Option<Config>>, k: Key, q: Key): Option<Value> {
    if configs == [] then None
    else
      var last := Part(configs[|configs| - 1], k);
      if last.Some? && q in DictOf(last.value) then Some(DictOf(last.value)[q])
      else LastEntry(configs[..|configs| - 1], k, q)
  }

  /** What the last config that says something under `k` says. */
  function LastPart(configs: seq<Option<Config>>, k: Key): Option<Value> {
    if configs == [] then None
    else if Part(configs[|configs| - 1], k).Some? then Part(configs[|configs| - 1], k)
    else LastPart(configs[..|configs| - 1], k)
  }

  function MappingAt(v: Option<Value>): Mapping { if v.Some? then DictOf(v.value) else map[] }

  /** The versions that a metadata value lists. */
  function VersionsIn(v: Option<Value>): Mapping { MappingAt(Lookup(MappingAt(v), LcVersions)) }

  function LastVersion(configs: seq<Option<Config>>, q: Key): Option<Value> {
    if configs == [] then None
    else
      var last := VersionsIn(Part(configs[|configs| - 1], Metadata));
      if q in last then Some(last[q]) else LastVersion(configs[..|configs| - 1], q)
  }

  lemma {:induction false} TotalItems(configs: seq<Option<Config>>, k: Key)
    requires AllTyped(configs) && (k == Tags || (k == Callbacks && AllRegular(configs)))
    ensures Total(configs, k) == if AllItems(configs, k) == [] then None else Some(List(AllItems(configs, k)))
  {
    if configs != [] {
      var front, last := configs[..|configs| - 1], Part(configs[|configs| - 1], k);
      TotalItems(front, k);
      if last.Some? {
        assert last.value.List? && ListOf(last.value) != [];
        assert AllItems(front, k) == [] ==> AllItems(configs, k) == ListOf(last.value);
        assert Total(configs, k).value == List(AllItems(configs, k));
      } else {
        assert AllItems(configs, k) == AllItems(front, k);
      }
    }
  }

  lemma {:induction false} TotalEntry(configs: seq<Option<Config>>, k: Key, q: Key)
    requires AllTyped(configs) && (k == Configurable || (k == Metadata && q != LcVersions))
    ensures Lookup(MappingAt(Total(configs, k)), q) == LastEntry(configs, k, q)
  {
    if configs != [] {
      TotalEntry(configs[..|configs| - 1], k, q);
    }
  }

  lemma {:induction false} TotalVersion(configs: seq<Option<Config>>, q: Key)
    requires AllRegular(configs)
    ensures Lookup(VersionsIn(Total(configs, Metadata)), q) == LastVersion(configs, q)
  {
    if configs != [] {
      var front, last := configs[..|configs| - 1], Part(configs[|configs| - 1], Metadata);
      TotalVersion(front, q);
      TotalRegular(front);
      assert MappingVersions(last);
      PlusVersions(Total(front, Metadata), last, q);
    }
  }

  lemma PlusVersions(a: Option<Value>, b: Option<Value>, q: Key)
    requires MappingVersions(a) && MappingVersions(b)
    ensures Lookup(VersionsIn(Plus(Metadata, a, b)), q) ==
            if q in VersionsIn(b) then Some(VersionsIn(b)[q]) else Lookup(VersionsIn(a), q)
  {
    if a.Some? && b.Some? {
      MetaAt(DictOf(a.value), DictOf(b.value), LcVersions);
    }
  }

  predicate Plain(k: Key) { k != Metadata && k != Tags && k != Configurable && k != Callbacks }

  lemma {:induction false} TotalPlain(configs: seq<Option<Config>>, k: Key)
    requires Plain(k)
    ensures Total(configs, k) == LastPart(configs, k)
  {
    if configs != [] {
      TotalPlain(configs[..|configs| - 1], k);
    }
  }

  /** The tags of a merged config are all the tags in order; each setting and each other metadata entry
      is the last one given; and every plain key has the last value that is true, for the recursion
      limit the last that is not the default. */
  lemma MergedContents(configs: seq<Option<Config>>, merged: Config, key: Key)
    requires AllTyped(configs) && IsMerged(configs, merged)
    ensures (if Tags in merged then ListOf(merged[Tags]) else []) == AllItems(configs, Tags)
    ensures Configurable in merged && Lookup(DictOf(merged[Configurable]), key) == LastEntry(configs, Configurable, key)
    ensures key != LcVersions ==> Lookup(MappingAt(Lookup(merged, Metadata)), key) == LastEntry(configs, Metadata, key)
    ensures Plain(key) ==> Lookup(merged, key) == LastPart(configs, key)
  {
    TotalItems(configs, Tags);
    TotalEntry(configs, Configurable, key);
    if key != LcVersions {
      TotalEntry(configs, Metadata, key);
    }
    if Plain(key) {
      TotalPlain(configs, key);
    }
    assert Lookup(merged, Tags) == Total(configs, Tags);
    assert Lookup(merged, Metadata) == Total(configs, Metadata);
    assert Lookup(merged, Configurable) ==
      if Total(configs, Configurable).None? then Some(Dict(map[])) else Total(configs, Configurable);
  }

  /** With list callbacks the merged ones are all of them in order, and with mappings under
      `lc_versions` each version is the last one given. */
  lemma MergedRegularContents(configs: seq<Option<Config>>, merged: Config, package: Key)
    requires AllTyped(configs) && AllRegular(configs) && IsMerged(configs, merged)
    ensures (if Callbacks in merged then ListOf(merged[Callbacks]) else []) == AllItems(configs, Callbacks)
    ensures Lookup(VersionsIn(Lookup(merged, Metadata)), package) == LastVersion(configs, package)
  {
    TotalItems(configs, Callbacks);
    TotalVersion(configs, package);
    assert Lookup(merged, Callbacks) == Total(configs, Callbacks);
    assert Lookup(merged, Metadata) == Total(configs, Metadata);
  }

  // ------------------------------------------------------- ensuring a config

  const TREATED := {Metadata, Tags, Configurable, Callbacks, RecursionLimit}

  /** What an explicit config adds under a known key; only empty values are skipped. */
  function Entry(known: set<Key>, config: Option<Config>, k: Key): Option<Value> {
    if config.Some? && k in known && k in config.value && NotEmpty(config.value[k]) then Some(config.value[k]) else None
  }

  /** The keys outside the known ones, which are moved into `configurable`. */
  function Extras(known: set<Key>, config: Config): Mapping {
    map k | k in config && k !in known && NotEmpty(config[k]) :: config[k]
  }

  function Defaults(k: Key): Option<Value> {
    match k
    case Tags => Some(List([]))
    case Metadata => Some(Dict(map[]))
    case Callbacks => Some(Null)
    case RecursionLimit => Some(Int(DEFAULT_RECURSION_LIMIT))
    case Configurable => Some(Dict(map[]))
    case _ => None
  }

  /** What is there before any explicit config: the ambient value if not empty, else the default. */
  function Inherited(ambient: Config, k: Key): Option<Value> {
    if k in ambient && NotEmpty(ambient[k]) then Some(ambient[k]) else Defaults(k)
  }

  function Gathered(known: set<Key>, ambient: Config, configs: seq<Option<Config>>, k: Key): Option<Value> {
    if configs == [] then Inherited(ambient, k)
    else
      var n := |configs| - 1;
      Plus(k, Gathered(known, ambient, configs[..n], k), Entry(known, configs[n], k))
  }

  /** The settings the explicit configs give, later ones winning. */
  function Given(known: set<Key>, configs: seq<Option<Config>>): Mapping {
    if configs == [] then map[]
    else
      var n := |configs| - 1;
      Given(known, configs[..n]) + Settings(known, configs[n])
  }

  function Settings(known: set<Key>, config: Option<Config>): Mapping {
    if config.None? then map[]
    else
      DictOf(if Configurable in config.value then config.value[Configurable] else Null) + Extras(known, config.value)
  }

  predicate NamesCoordinate(config: Option<Config>) {
    && config.Some? && Configurable in config.value
    && exists k :: k in COORDINATES && k in DictOf(config.value[Configurable])
                   && NotEmpty(DictOf(config.value[Configurable])[k])
  }

  predicate SomeNamesCoordinate(configs: seq<Option<Config>>) {
    exists i :: 0 <= i < |configs| && NamesCoordinate(configs[i])
  }

  /** The ambient settings that survive. */
  function Surviving(ambient: Config, configs: seq<Option<Config>>): Mapping {
    if SomeNamesCoordinate(configs) then map[] else DictOf(Inherited(ambient, Configurable).value)
  }

  /** Settings copied into the metadata, where it does not have them yet. */
  function Propagate(metadata: Mapping, settings: Mapping): Mapping {
    (map k | k in PROPAGATED && k in settings && Truthy(settings[k]) :: settings[k]) + metadata
  }

  method FindsCoordinate(configs: seq<Option<Config>>) returns (found: bool)
    requires AllTyped(configs)
    ensures found == SomeNamesCoordinate(configs)
  {
    for i := 0 to |configs|
      invariant forall j :: 0 <= j < i ==> !NamesCoordinate(configs[j])
    {
      if configs[i].Some? && Configurable in configs[i].value {
        var explicit := configs[i].value[Configurable];
        if Truthy(explicit) && exists k :: k in COORDINATES && k in explicit.m && NotEmpty(explicit.m[k]) {
          return true;
        }
      }
    }
    found := false;
  }

  predicate TypedState(c: Config) {
    && Metadata in c && c[Metadata].Dict? && Tags in c && c[Tags].List?
    && Configurable in c && c[Configurable].Dict?
    && Callbacks in c && (c[Callbacks].Null? || c[Callbacks].List? || c[Callbacks].Managed?)
  }

  /** The branch taken for one known key with a value that is not empty. */
  method EnsureValue(key: Key, existing: Option<Value>, value: Value) returns (merged: Value)
    requires TypedAt(key, value)
    requires key in {Metadata, Tags, Configurable} ==> existing.Some? && TypedAt(key, existing.value)
    requires key == Callbacks ==>
      existing.Some? && (existing.value.Null? || existing.value.List? || existing.value.Managed?)
    ensures Some(merged) == Plus(key, existing, Some(value))
  {
    assert value.Dict? ==> map[] + value.m == value.m;
    assert value.List? ==> [] + value.items == value.items;
    match key
    case Configurable =>
      merged := if Truthy(existing.value) then Dict(existing.value.m + value.m) else value;
    case Callbacks =>
      merged := MergeCallbacks(existing.value, value);
    case Metadata =>
      var m := MergeMetadata(Some(existing.value.m), Some(value.m));
      merged := Dict(m);
    case Tags =>
      merged := if Truthy(existing.value) then List(existing.value.items + value.items) else value;
    case _ =>
      merged := value;
  }

  /** The first inner loop: the known keys of one config. */
  method EnsureKnown(known: set<Key>, start: Config, config: Config) returns (r: Config)
    requires WellTyped(config) && TypedState(start)
    ensures forall k :: Takes(known, start, config, r, k)
  {
    r := start;
    var todo := config.Keys;
    while todo != {}
      invariant todo <= config.Keys
      invariant forall k :: k in todo ==> Lookup(r, k) == Lookup(start, k)
      invariant forall k :: k !in todo ==> Takes(known, start, config, r, k)
      decreases |todo|
    {
      var key :| key in todo;
      todo := todo - {key};
      var value := config[key];
      if NotEmpty(value) && key in known {
        assert Lookup(r, key) == Lookup(start, key);
        var merged := EnsureValue(key, Lookup(r, key), value);
        r := r[key := merged];
      }
    }
  }

  /** The second inner loop: the other keys of one config go into the settings. */
  method EnsureExtras(known: set<Key>, config: Config, start: Mapping) returns (settings: Mapping)
    ensures settings == start + Extras(known, config)
  {
    settings := start;
    var todo := config.Keys;
    while todo != {}
      invariant todo <= config.Keys
      invariant forall k :: k in todo ==> Lookup(settings, k) == Lookup(start, k)
      invariant forall k :: k !in todo ==> Lookup(settings, k) == Lookup(start + Extras(known, config), k)
      decreases |todo|
    {
      var key :| key in todo;
      todo := todo - {key};
      assert Lookup(settings, key) == Lookup(start, key);
      if NotEmpty(config[key]) && key !in known {
        settings := settings[key := config[key]];
      }
    }
    SameMapping(settings, start + Extras(known, config));
  }

  lemma OverlayRegroup(a: Mapping, b: Mapping, c: Mapping)
    ensures (a + b) + c == a + (b + c)
  {}

  /** `r` is `start` with the known entries of `config` put in under `k`. */
  ghost predicate Takes(known: set<Key>, start: Config, config: Config, r: Config, k: Key) {
    Lookup(r, k) == Plus(k, Lookup(start, k), Entry(known, Some(config), k))
  }

  lemma KnownSettings(known: set<Key>, start: Config, config: Config, r: Config)
    requires Configurable in known && WellTyped(config) && TypedState(start)
    requires Takes(known, start, config, r, Configurable)
    ensures Configurable in r && r[Configurable].Dict?
    ensures r[Configurable].m + Extras(known, config) == start[Configurable].m + Settings(known, Some(config))
  {
    var own := DictOf(if Configurable in config then config[Configurable] else Null);
    assert start[Configurable].m + map[] == start[Configurable].m;
    assert r[Configurable].m == start[Configurable].m + own;
    OverlayRegroup(start[Configurable].m, own, Extras(known, config));
  }

  method EnsureOne(known: set<Key>, start: Config, config: Config) returns (r: Config)
    requires TREATED <= known && WellTyped(config) && TypedState(start)
    ensures forall k :: k != Configurable ==> Takes(known, start, config, r, k)
    ensures Configurable in r && r[Configurable] == Dict(start[Configurable].m + Settings(known, Some(config)))
  {
    r := EnsureKnown(known, start, config);
    assert Takes(known, start, config, r, Configurable);
    KnownSettings(known, start, config, r);
    var settings := EnsureExtras(known, config, r[Configurable].m);
    ghost var before := r;
    r := r[Configurable := Dict(settings)];
    forall k | k != Configurable ensures Takes(known, start, config, r, k) {
      assert Takes(known, start, config, before, k);
    }
  }

  method PropagateSettings(start: Mapping, settings: Mapping) returns (metadata: Mapping)
    ensures metadata == Propagate(start, settings)
  {
    metadata := start;
    var todo := PROPAGATED;
    while todo != {}
      invariant todo <= PROPAGATED
      invariant forall k :: k in todo ==> Lookup(metadata, k) == Lookup(start, k)
      invariant forall k :: k !in todo ==> Lookup(metadata, k) == Lookup(Propagate(start, settings), k)
      decreases |todo|
    {
      var key :| key in todo;
      todo := todo - {key};
      assert Lookup(metadata, key) == Lookup(start, key);
      if key !in metadata && key in settings && Truthy(settings[key]) {
        metadata := metadata[key := settings[key]];
      }
    }
    SameMapping(metadata, Propagate(start, settings));
  }

  /** A typed key stays typed under every number of merges. */
  lemma {:induction false} GatheredTyped(known: set<Key>, ambient: Config, configs: seq<Option<Config>>, k: Key)
    requires WellTyped(ambient) && AllTyped(configs) && k in TREATED
    ensures Gathered(known, ambient, configs, k).Some?
    ensures k in {Metadata, Tags, Configurable} ==> TypedAt(k, Gathered(known, ambient, configs, k).value)
    ensures k == Callbacks ==> var v := Gathered(known, ambient, configs, k).value; v.Null? || v.List? || v.Managed?
  {
    if configs != [] {
      GatheredTyped(known, ambient, configs[..|configs| - 1], k);
    }
  }

  /** Every key but the settings holds what has been gathered. */
  ghost predicate Follows(known: set<Key>, ambient: Config, configs: seq<Option<Config>>, r: Config) {
    forall k :: k != Configurable ==> Lookup(r, k) == Gathered(known, ambient, configs, k)
  }

  lemma StateTyped(known: set<Key>, ambient: Config, configs: seq<Option<Config>>, r: Config)
    requires WellTyped(ambient) && AllTyped(configs) && Follows(known, ambient, configs, r)
    requires Configurable in r && r[Configurable].Dict?
    ensures TypedState(r)
  {
    GatheredTyped(known, ambient, configs, Metadata);
    GatheredTyped(known, ambient, configs, Tags);
    GatheredTyped(known, ambient, configs, Callbacks);
    assert Lookup(r, Metadata).Some? && Lookup(r, Tags).Some? && Lookup(r, Callbacks).Some?;
  }

  /** The defaults under the ambient config, with the ambient settings dropped where an explicit
      config addresses a checkpoint of its own. */
  method StartConfig(known: set<Key>, ambient: Config, configs: seq<Option<Config>>) returns (r: Config)
    requires WellTyped(ambient) && AllTyped(configs)
    ensures Follows(known, ambient, [], r)
    ensures Configurable in r && r[Configurable] == Dict(Surviving(ambient, configs))
  {
    r := map k | k in ambient.Keys + TREATED && Inherited(ambient, k).Some? :: Inherited(ambient, k).value;
    if Truthy(r[Configurable]) {
      var found := FindsCoordinate(configs);
      if found {
        r := r[Configurable := Dict(map[])];
      }
    }
  }

  lemma FollowsNext(known: set<Key>, ambient: Config, configs: seq<Option<Config>>, i: nat, before: Config,
                    after: Config)
    requires i < |configs| && Follows(known, ambient, configs[..i], before)
    requires configs[i].None? ==> after == before
    requires configs[i].Some? ==> forall k :: k != Configurable ==> Takes(known, before, configs[i].value, after, k)
    ensures Follows(known, ambient, configs[..i + 1], after)
  {
    assert configs[..i + 1][..i] == configs[..i];
    forall k | k != Configurable
      ensures Lookup(after, k) == Gathered(known, ambient, configs[..i + 1], k)
    {
      if configs[i].Some? {
        assert Takes(known, before, configs[i].value, after, k);
      }
    }
  }

  lemma GivenNext(surviving: Mapping, known: set<Key>, configs: seq<Option<Config>>, i: nat)
    requires i < |configs|
    ensures surviving + Given(known, configs[..i + 1]) ==
            surviving + Given(known, configs[..i]) + Settings(known, configs[i])
  {
    assert configs[..i + 1][..i] == configs[..i];
    OverlayRegroup(surviving, Given(known, configs[..i]), Settings(known, configs[i]));
  }

  method MergeExplicit(known: set<Key>, ambient: Config, configs: seq<Option<Config>>) returns (r: Config)
    requires TREATED <= known && WellTyped(ambient) && AllTyped(configs)
    ensures Configurable in r && r[Configurable] == Dict(Surviving(ambient, configs) + Given(known, configs))
    ensures Follows(known, ambient, configs, r)
  {
    r := StartConfig(known, ambient, configs);
    ghost var surviving := Surviving(ambient, configs);
    assert configs[..0] == [];
    assert surviving + map[] == surviving;
    for i := 0 to |configs|
      invariant Follows(known, ambient, configs[..i], r)
      invariant Configurable in r && r[Configurable] == Dict(surviving + Given(known, configs[..i]))
    {
      ghost var before := r;
      StateTyped(known, ambient, configs[..i], r);
      GivenNext(surviving, known, configs, i);
      if configs[i].Some? {
        r := EnsureOne(known, r, configs[i].value);
      } else {
        assert before[Configurable].m + map[] == before[Configurable].m;
      }
      FollowsNext(known, ambient, configs, i, before, r);
    }
    assert configs[..|configs|] == configs;
  }

  /** The outcome of `ensure_config`: the settings are the surviving ambient ones under the explicit
      ones, some settings are copied into the metadata, and every other key is gathered. */
  ghost predicate IsEnsured(known: set<Key>, ambient: Config, configs: seq<Option<Config>>, r: Config) {
    var settings := FinalSettings(known, ambient, configs);
    && Lookup(r, Configurable) == Some(Dict(settings))
    && Lookup(r, Metadata) == Some(Dict(Propagate(MappingAt(Gathered(known, ambient, configs, Metadata)), settings)))
    && forall k :: k != Configurable && k != Metadata ==> Lookup(r, k) == Gathered(known, ambient, configs, k)
  }

  /** The settings `ensure_config` ends with. */
  function FinalSettings(known: set<Key>, ambient: Config, configs: seq<Option<Config>>): Mapping {
    Surviving(ambient, configs) + Given(known, configs)
  }

  /** The last step: some settings are copied into the metadata. */
  method CopySettings(start: Config) returns (r: Config)
    requires TypedState(start)
    ensures Lookup(r, Metadata) == Some(Dict(Propagate(start[Metadata].m, start[Configurable].m)))
    ensures forall k :: k != Metadata ==> Lookup(r, k) == Lookup(start, k)
  {
    r := start;
    PropagateNothing(r[Metadata].m);
    if Truthy(r[Configurable]) {
      var metadata := PropagateSettings(r[Metadata].m, r[Configurable].m);
      r := r[Metadata := Dict(metadata)];
    }
  }

  /** `ensure_config` on the ambient config and the explicit ones; `known` are the keys of a config. */
  method EnsureConfig(known: set<Key>, ambient: Config, configs: seq<Option<Config>>) returns (r: Config)
    requires TREATED <= known && WellTyped(ambient) && AllTyped(configs)
    ensures IsEnsured(known, ambient, configs, r)
  {
    var merged := MergeExplicit(known, ambient, configs);
    StateTyped(known, ambient, configs, merged);
    r := CopySettings(merged);
    EnsuredAfter(known, ambient, configs, merged, r);
  }

  lemma EnsuredAfter(known: set<Key>, ambient: Config, configs: seq<Option<Config>>, before: Config, after: Config)
    requires Follows(known, ambient, configs, before) && TypedState(before)
    requires before[Configurable] == Dict(FinalSettings(known, ambient, configs))
    requires Lookup(after, Metadata) == Some(Dict(Propagate(before[Metadata].m, before[Configurable].m)))
    requires forall k :: k != Metadata ==> Lookup(after, k) == Lookup(before, k)
    ensures IsEnsured(known, ambient, configs, after)
  {
    assert Lookup(before, Metadata) == Gathered(known, ambient, configs, Metadata);
    forall k | k != Configurable && k != Metadata
      ensures Lookup(after, k) == Gathered(known, ambient, configs, k)
    {
      assert Lookup(before, k) == Gathered(known, ambient, configs, k);
    }
  }

  lemma PropagateNothing(metadata: Mapping)
    ensures Propagate(metadata, map[]) == metadata
  {}

  // ----------------------------------------- what an ensured config contains

  /** The value under `k`, unless it is empty. */
  function Says(c: Option<Config>, k: Key): Option<Value> {
    if c.Some? && k in c.value && NotEmpty(c.value[k]) then Some(c.value[k]) else None
  }

  /** The items under `k` in the ambient config and then in the explicit ones, in order. */
  function ItemsSaid(ambient: Config, configs: seq<Option<Config>>, k: Key): seq<Value> {
    if configs == [] then ListOf(OrNull(Says(Some(ambient), k)))
    else ItemsSaid(ambient, configs[..|configs| - 1], k) + ListOf(OrNull(Says(configs[|configs| - 1], k)))
  }

  function OrNull(v: Option<Value>): Value { if v.Some? then v.value else Null }

  /** What is said last under `k`; the ambient config comes first. */
  function LastSaid(ambient: Config, configs: seq<Option<Config>>, k: Key): Option<Value> {
    if configs == [] then Says(Some(ambient), k)
    else
      var last := Says(configs[|configs| - 1], k);
      if last.Some? then last else LastSaid(ambient, configs[..|configs| - 1], k)
  }

  /** The last entry `q` in a mapping under `k`. */
  function LastSaidIn(ambient: Config, configs: seq<Option<Config>>, k: Key, q: Key): Option<Value> {
    if configs == [] then Lookup(MappingAt(Says(Some(ambient), k)), q)
    else
      var last := MappingAt(Says(configs[|configs| - 1], k));
      if q in last then Some(last[q]) else LastSaidIn(ambient, configs[..|configs| - 1], k, q)
  }

  /** The last setting `q` of the explicit configs: an unknown key counts as one, and before the
      settings of its own config. */
  function LastSetting(known: set<Key>, configs: seq<Option<Config>>, q: Key): Option<Value> {
    if configs == [] then None
    else
      var last := SettingOf(known, configs[|configs| - 1], q);
      if last.Some? then last
      else LastSetting(known, configs[..|configs| - 1], q)
  }

  lemma {:induction false} GatheredItems(known: set<Key>, ambient: Config, configs: seq<Option<Config>>)
    requires Tags in known && WellTyped(ambient) && AllTyped(configs)
    ensures Gathered(known, ambient, configs, Tags) == Some(List(ItemsSaid(ambient, configs, Tags)))
  {
    if configs != [] {
      var front, last := configs[..|configs| - 1], Says(configs[|configs| - 1], Tags);
      GatheredItems(known, ambient, front);
      if last.None? {
        assert ItemsSaid(ambient, front, Tags) + [] == ItemsSaid(ambient, front, Tags);
      }
    }
  }

  /** Callbacks are lists throughout. */
  ghost predicate CallbackLists(ambient: Config, configs: seq<Option<Config>>) {
    && Listed(Says(Some(ambient), Callbacks))
    && forall i :: 0 <= i < |configs| ==> Listed(Says(configs[i], Callbacks))
  }

  lemma {:induction false} GatheredCallbacks(known: set<Key>, ambient: Config, configs: seq<Option<Config>>)
    requires Callbacks in known && CallbackLists(ambient, configs)
    ensures var items := ItemsSaid(ambient, configs, Callbacks);
      Gathered(known, ambient, configs, Callbacks) == Some(if items == [] then Null else List(items))
  {
    if configs != [] {
      var front, last := configs[..|configs| - 1], Says(configs[|configs| - 1], Callbacks);
      GatheredCallbacks(known, ambient, front);
      var items := ItemsSaid(ambient, front, Callbacks);
      if last.None? {
        assert items + [] == items;
      } else {
        assert items + last.value.items != [];
        assert [] + last.value.items == last.value.items;
      }
    }
  }

  lemma {:induction false} GatheredMetadata(known: set<Key>, ambient: Config, configs: seq<Option<Config>>, q: Key)
    requires Metadata in known && WellTyped(ambient) && AllTyped(configs) && q != LcVersions
    ensures Lookup(MappingAt(Gathered(known, ambient, configs, Metadata)), q) ==
            LastSaidIn(ambient, configs, Metadata, q)
  {
    if configs != [] {
      GatheredMetadata(known, ambient, configs[..|configs| - 1], q);
      GatheredTyped({Metadata} + known, ambient, configs[..|configs| - 1], Metadata);
    }
  }

  lemma {:induction false} GatheredPlain(known: set<Key>, ambient: Config, configs: seq<Option<Config>>, k: Key)
    requires Plain(k)
    ensures k in known ==>
      Gathered(known, ambient, configs, k) ==
      if LastSaid(ambient, configs, k).Some? then LastSaid(ambient, configs, k) else Defaults(k)
    ensures k !in known ==>
      Gathered(known, ambient, configs, k) ==
      if Says(Some(ambient), k).Some? then Says(Some(ambient), k) else Defaults(k)
  {
    if configs != [] {
      GatheredPlain(known, ambient, configs[..|configs| - 1], k);
    }
  }

  /** The setting `q` that one explicit config gives. */
  function SettingOf(known: set<Key>, config: Option<Config>, q: Key): Option<Value> {
    if q !in known && Says(config, q).Some? then Says(config, q)
    else Lookup(MappingAt(Says(config, Configurable)), q)
  }

  lemma SettingsAt(known: set<Key>, config: Option<Config>, q: Key)
    requires config.Some? ==> WellTyped(config.value)
    ensures Lookup(Settings(known, config), q) == SettingOf(known, config, q)
  {
    if config.Some? {
      var c := config.value;
      var own := DictOf(if Configurable in c then c[Configurable] else Null);
      OwnSettings(c);
      ExtrasAt(known, c, q);
      OverlayAt(own, Extras(known, c), q);
    }
  }

  lemma OwnSettings(c: Config)
    requires WellTyped(c)
    ensures DictOf(if Configurable in c then c[Configurable] else Null) == MappingAt(Says(Some(c), Configurable))
  {
    if Configurable in c && !NotEmpty(c[Configurable]) {
      TruthyIff(c[Configurable]);
    }
  }

  lemma ExtrasAt(known: set<Key>, c: Config, q: Key)
    ensures Lookup(Extras(known, c), q) == if q !in known then Says(Some(c), q) else None
  {}

  lemma OverlayAt(m: Mapping, over: Mapping, q: Key)
    ensures Lookup(m + over, q) == if q in over then Some(over[q]) else Lookup(m, q)
  {}

  lemma {:induction false} GivenSettings(known: set<Key>, configs: seq<Option<Config>>, q: Key)
    requires AllTyped(configs)
    ensures Lookup(Given(known, configs), q) == LastSetting(known, configs, q)
  {
    if configs != [] {
      var front, last := configs[..|configs| - 1], configs[|configs| - 1];
      GivenSettings(known, front, q);
      SettingsAt(known, last, q);
      OverlayAt(Given(known, front), Settings(known, last), q);
    }
  }

  /** The tags are those of the ambient config followed by all explicit ones, and callbacks, where they
      are lists, likewise; without any they are `None`. */
  lemma EnsuredItems(known: set<Key>, ambient: Config, configs: seq<Option<Config>>, r: Config)
    requires TREATED <= known && WellTyped(ambient) && AllTyped(configs) && IsEnsured(known, ambient, configs, r)
    ensures Lookup(r, Tags) == Some(List(ItemsSaid(ambient, configs, Tags)))
    ensures CallbackLists(ambient, configs) ==>
      var items := ItemsSaid(ambient, configs, Callbacks);
      Lookup(r, Callbacks) == Some(if items == [] then Null else List(items))
  {
    assert Lookup(r, Tags) == Gathered(known, ambient, configs, Tags);
    assert Lookup(r, Callbacks) == Gathered(known, ambient, configs, Callbacks);
    GatheredItems(known, ambient, configs);
    if CallbackLists(ambient, configs) {
      GatheredCallbacks(known, ambient, configs);
    }
  }

  /** A metadata entry is the last one given, the ambient config coming first; else, for the keys that
      are copied, the setting of that name if it is true. */
  lemma EnsuredMetadata(known: set<Key>, ambient: Config, configs: seq<Option<Config>>, r: Config, key: Key)
    requires TREATED <= known && WellTyped(ambient) && AllTyped(configs) && IsEnsured(known, ambient, configs, r)
    requires key != LcVersions
    ensures Metadata in r && r[Metadata].Dict? && Configurable in r && r[Configurable].Dict?
    ensures var given, setting := LastSaidIn(ambient, configs, Metadata, key), Lookup(r[Configurable].m, key);
      var copied := key in {ThreadId, CheckpointId, CheckpointNs, TaskId, RunId, AssistantId, GraphId};
      Lookup(r[Metadata].m, key) ==
      if given.Some? then given else if copied && setting.Some? && Truthy(setting.value) then setting else None
  {
    var settings := FinalSettings(known, ambient, configs);
    var gathered := MappingAt(Gathered(known, ambient, configs, Metadata));
    assert Lookup(r, Configurable) == Some(Dict(settings));
    assert Lookup(r, Metadata) == Some(Dict(Propagate(gathered, settings)));
    GatheredMetadata(known, ambient, configs, key);
    PropagateAt(gathered, settings, key);
  }

  lemma PropagateAt(metadata: Mapping, settings: Mapping, key: Key)
    ensures var copied := key in {ThreadId, CheckpointId, CheckpointNs, TaskId, RunId, AssistantId, GraphId};
      Lookup(Propagate(metadata, settings), key) ==
      if key in metadata then Some(metadata[key])
      else if copied && key in settings && Truthy(settings[key]) then Some(settings[key]) else None
  {}

  /** A plain known key has the value given last, the ambient config coming first; else the recursion
      limit has its default, and other keys nothing. An unknown key keeps its ambient value. */
  lemma EnsuredPlain(known: set<Key>, ambient: Config, configs: seq<Option<Config>>, r: Config, key: Key)
    requires TREATED <= known && WellTyped(ambient) && AllTyped(configs) && IsEnsured(known, ambient, configs, r)
    requires Plain(key)
    ensures key in known ==>
      var given := LastSaid(ambient, configs, key);
      Lookup(r, key) == if given.Some? then given else if key == RecursionLimit then Some(Int(10007)) else None
    ensures key !in known ==> Lookup(r, key) == Says(Some(ambient), key)
  {
    GatheredPlain(known, ambient, configs, key);
  }

  /** A setting is the last one that the explicit configs give, unknown keys included; else the ambient
      one, provided no explicit config names a checkpoint coordinate that is not empty. */
  lemma EnsuredSettings(known: set<Key>, ambient: Config, configs: seq<Option<Config>>, r: Config, key: Key)
    requires TREATED <= known && WellTyped(ambient) && AllTyped(configs) && IsEnsured(known, ambient, configs, r)
    ensures Configurable in r && r[Configurable].Dict?
    ensures var given := LastSetting(known, configs, key);
      Lookup(r[Configurable].m, key) ==
      if given.Some? then given
      else if SomeNamesCoordinate(configs) then None
      else Lookup(MappingAt(Says(Some(ambient), Configurable)), key)
  {
    GivenSettings(known, configs, key);
  }

  // ------------------------------------------------- independence of the ambient

  function AmbientWith(k: Key): Config { map[Configurable := Dict(map[k := Null])] }

  lemma {:induction false} FreshKey(keys: set<Key>) returns (k: Key)
    ensures k !in keys
  {
    var n: nat := LongestName(keys);
    k := Other(seq(n + 1, _ => 'x'));
  }

  lemma {:induction false} LongestName(keys: set<Key>) returns (n: nat)
    ensures forall k :: k in keys && k.Other? ==> |k.name| <= n
  {
    if keys == {} {
      n := 0;
    } else {
      var k :| k in keys;
      n := LongestName(keys - {k});
      if k.Other? && |k.name| > n {
        n := |k.name|;
      }
    }
  }

  /** The settings do not depend on the ambient config exactly when some explicit config names a
      checkpoint coordinate that is not empty. */
  lemma AmbientIndependenceIff(known: set<Key>, configs: seq<Option<Config>>)
    ensures SomeNamesCoordinate(configs) <==>
            forall x: Config, y: Config :: WellTyped(x) && WellTyped(y) ==>
              FinalSettings(known, x, configs) == FinalSettings(known, y, configs)
  {
    if !SomeNamesCoordinate(configs) {
      var k := FreshKey(Given(known, configs).Keys);
      var x, y := AmbientWith(k), map[];
      assert x[Configurable].m[k] == Null;
      assert k in FinalSettings(known, x, configs);
      assert k !in FinalSettings(known, y, configs);
      assert WellTyped(x) && WellTyped(y);
    }
  }

  /** With all keys known and no ambient config, the settings are those of the merged config. */
  lemma {:induction false} EnsureAgreesWithMerge(known: set<Key>, configs: seq<Option<Config>>, merged: Config)
    requires AllTyped(configs) && IsMerged(configs, merged)
    requires forall i :: 0 <= i < |configs| && configs[i].Some? ==> configs[i].value.Keys <= known
    ensures Configurable in merged && merged[Configurable] == Dict(FinalSettings(known, map[], configs))
  {
    GivenIsTotal(known, configs);
    TotalStable(configs, Configurable);
    assert Lookup(merged, Configurable) ==
      if Total(configs, Configurable).None? then Some(Dict(map[])) else Total(configs, Configurable);
    assert map[] + Given(known, configs) == Given(known, configs);
  }

  lemma {:induction false} GivenIsTotal(known: set<Key>, configs: seq<Option<Config>>)
    requires AllTyped(configs)
    requires forall i :: 0 <= i < |configs| && configs[i].Some? ==> configs[i].value.Keys <= known
    ensures Given(known, configs) == MappingAt(Total(configs, Configurable))
  {
    if configs != [] {
      var front, last := configs[..|configs| - 1], configs[|configs| - 1];
      GivenIsTotal(known, front);
      SettingsArePart(known, last);
      PlusSettings(Total(front, Configurable), Part(last, Configurable));
    }
  }

  lemma SettingsArePart(known: set<Key>, config: Option<Config>)
    requires config.Some? ==> WellTyped(config.value) && config.value.Keys <= known
    ensures Settings(known, config) == MappingAt(Part(config, Configurable))
  {
    if config.Some? {
      assert Extras(known, config.value) == map[];
    }
  }

  lemma PlusSettings(a: Option<Value>, b: Option<Value>)
    ensures MappingAt(Plus(Configurable, a, b)) == MappingAt(a) + MappingAt(b)
  {
    assert MappingAt(a) + map[] == MappingAt(a) && map[] + MappingAt(b) == MappingAt(b);
  }
}
