/** Recovery of delta channels from stored checkpoints (examples/delta-channel-dump/dump.py):
    a backward walk over the parent chain up to a seed, and the writes found on the way. */
module DeltaWalk {
  import opened Prelude

  type Id = string
  type Channel = string
  type Version = string

  /** A channel's entry in the checkpoint JSON: the value `true` announces a stored snapshot. */
  datatype Inline<V> = Sentinel | Scalar(value: V) | Structured(value: V)

  datatype Checkpoint<V> = Checkpoint(
    parent: Option<Id>, values: map<Channel, Inline<V>>, versions: map<Channel, Version>)

  datatype Blob<V> = EmptyBlob | Stored(value: V)

  datatype Row<W> = Row(task: string, idx: int, value: W)

  /** The tables. The rows of a checkpoint and channel are listed by ascending (task, idx). */
  datatype Store<V, W> = Store(
    checkpoints: map<Id, Checkpoint<V>>,
    blobs: map<(Channel, Version), Blob<V>>,
    rows: map<(Id, Channel), seq<Row<W>>>)

  /** The JSON null, and the removal of the snapshot wrapper. */
  datatype Codec<!V> = Codec(nil: V, unwrap: V -> V)

  datatype Kind = Snapshot | LegacyPlain | NoSeed

  datatype Recovery<V, W> = Recovery(
    kind: Kind, seedId: Option<Id>, version: Option<Version>, seed: V, writes: seq<Row<W>>)

  function Reverse<T>(xs: seq<T>): (ys: seq<T>)
    ensures |ys| == |xs| && forall i :: 0 <= i < |xs| ==> ys[i] == xs[|xs| - 1 - i]
  {
    if xs == [] then [] else Reverse(xs[1..]) + [xs[0]]
  }

  lemma {:induction false} ReverseConcat<T>(xs: seq<T>, ys: seq<T>)
    ensures Reverse(xs + ys) == Reverse(ys) + Reverse(xs)
  {}

  lemma {:induction false} ReverseTwice<T>(xs: seq<T>)
    ensures Reverse(Reverse(xs)) == xs
  {}

  function RowsOf<V, W>(store: Store<V, W>, id: Id, ch: Channel): seq<Row<W>> {
    if (id, ch) in store.rows then store.rows[(id, ch)] else []
  }

  /** `ORDER BY task_id DESC, idx DESC`. */
  function LoadWrites<V, W>(store: Store<V, W>, id: Id, ch: Channel): seq<Row<W>> {
    Reverse(RowsOf(store, id, ch))
  }

  function VersionOf<V>(c: Checkpoint<V>, ch: Channel): Option<Version> {
    if ch in c.versions then Some(c.versions[ch]) else None
  }

  function BlobOf<V, W>(store: Store<V, W>, ch: Channel, v: Option<Version>): Option<Blob<V>> {
    if v.Some? && (ch, v.value) in store.blobs then Some(store.blobs[(ch, v.value)]) else None
  }

  function LoadSeed<V, W>(codec: Codec<V>, store: Store<V, W>, id: Id, c: Checkpoint<V>, ch: Channel): Recovery<V, W>
    requires ch in c.values
  {
    var version := VersionOf(c, ch);
    var blob := BlobOf(store, ch, version);
    match c.values[ch]
    case Sentinel =>
      var seed := if blob.Some? && blob.value.Stored? then codec.unwrap(blob.value.value) else codec.nil;
      Recovery(Snapshot, Some(id), version, seed, [])
    case Scalar(v) => Recovery(LegacyPlain, Some(id), version, v, [])
    case Structured(v) =>
      var seed := if blob == None then v else if blob.value.Stored? then blob.value.value else codec.nil;
      Recovery(LegacyPlain, Some(id), version, seed, [])
  }

  /** The ways in which a value can have been stored for a channel: as a wrapped snapshot, whose entry is
      `true`; inline; or, if it is a mapping or list, in a blob beside an inline copy. */
  datatype Way = Wrapped | Inlined | InBlob

  ghost predicate StoredAs<V, W>(codec: Codec<V>, store: Store<V, W>, c: Checkpoint<V>, ch: Channel, way: Way, value: V)
  {
    ch in c.values &&
    match way
    case Wrapped =>
      && c.values[ch].Sentinel? && ch in c.versions && (ch, c.versions[ch]) in store.blobs
      && store.blobs[(ch, c.versions[ch])].Stored?
      && codec.unwrap(store.blobs[(ch, c.versions[ch])].value) == value
    case Inlined =>
      || c.values[ch] == Scalar(value)
      || (c.values[ch] == Structured(value) && (ch !in c.versions || (ch, c.versions[ch]) !in store.blobs))
    case InBlob =>
      && c.values[ch].Structured? && ch in c.versions && (ch, c.versions[ch]) in store.blobs
      && store.blobs[(ch, c.versions[ch])] == Stored(value)
  }

  /** In whichever way a value was stored, it is read back, and marked as a snapshot only if it is one. */
  lemma StoredIsRead<V, W>(codec: Codec<V>, store: Store<V, W>, id: Id, c: Checkpoint<V>, ch: Channel, way: Way,
                           value: V)
    requires StoredAs(codec, store, c, ch, way, value)
    ensures var r := LoadSeed(codec, store, id, c, ch);
      && r.seed == value && r.writes == [] && r.seedId == Some(id) && r.version == VersionOf(c, ch)
      && r.kind == if way.Wrapped? then Snapshot else LegacyPlain
  {}

  // ---------------------------------------------------------- the parent chain

  function ParentOf<V, W>(store: Store<V, W>, cur: Option<Id>): Option<Id> {
    if cur.Some? && cur.value in store.checkpoints then store.checkpoints[cur.value].parent else None
  }

  function Up<V, W>(store: Store<V, W>, cur: Option<Id>, k: nat): Option<Id> {
    if k == 0 then cur else ParentOf(store, Up(store, cur, k - 1))
  }

  /** No checkpoint is its own ancestor. */
  ghost predicate Acyclic<V, W>(store: Store<V, W>) {
    forall id, k :: id in store.checkpoints && k > 0 ==> Up(store, Some(id), k) != Some(id)
  }

  predicate AtEnd<V, W>(store: Store<V, W>, cur: Option<Id>) {
    cur == None || cur.value !in store.checkpoints
  }

  /** The chain from `cur` ends within `n` checkpoints, at a root or at a missing row. */
  ghost predicate Ends<V, W>(store: Store<V, W>, cur: Option<Id>, n: nat)
    decreases n
  {
    AtEnd(store, cur) || (n > 0 && Ends(store, ParentOf(store, cur), n - 1))
  }

  /** In a finite store without cycles every chain ends. */
  lemma AcyclicEnds<V, W>(store: Store<V, W>, cur: Option<Id>)
    requires Acyclic(store)
    ensures Ends(store, cur, |store.checkpoints|)
  {
    EndsBeyond(store, cur, {});
  }

  ghost predicate StrictlyBelow<V, W>(store: Store<V, W>, id: Id, cur: Option<Id>) {
    exists k: nat :: k > 0 && Up(store, Some(id), k) == cur
  }

  lemma {:induction false} EndsBeyond<V, W>(store: Store<V, W>, cur: Option<Id>, seen: set<Id>)
    requires Acyclic(store) && seen <= store.checkpoints.Keys
    requires forall id :: id in seen ==> StrictlyBelow(store, id, cur)
    ensures |seen| <= |store.checkpoints|
    ensures Ends(store, cur, |store.checkpoints| - |seen|)
    decreases store.checkpoints.Keys - seen
  {
    SubsetCard(seen, store.checkpoints.Keys);
    if !AtEnd(store, cur) {
      var c := cur.value;
      assert c !in seen;
      var seen' := seen + {c};
      forall id | id in seen'
        ensures StrictlyBelow(store, id, ParentOf(store, cur))
      {
        if id in seen {
          var k: nat :| k > 0 && Up(store, Some(id), k) == cur;
          assert Up(store, Some(id), k + 1) == ParentOf(store, cur);
        } else {
          assert Up(store, Some(id), 0) == Some(id);
          assert Up(store, Some(id), 1) == ParentOf(store, cur);
        }
      }
      EndsBeyond(store, ParentOf(store, cur), seen');
    }
  }

  // ------------------------------------------------------------------ the walk

  /** The recovery told from the oldest checkpoint to the newest: no reversal, no accumulator. */
  ghost function Recovered<V, W>(codec: Codec<V>, store: Store<V, W>, ch: Channel, cur: Option<Id>, n: nat)
      : Recovery<V, W>
    requires Ends(store, cur, n)
    decreases n
  {
    if AtEnd(store, cur) then Recovery(NoSeed, None, None, codec.nil, [])
    else
      var c := store.checkpoints[cur.value];
      var older := if ch in c.values then LoadSeed(codec, store, cur.value, c, ch)
                   else Recovered(codec, store, ch, c.parent, n - 1);
      Extended(older, RowsOf(store, cur.value, ch))
  }

  function Extended<V, W>(r: Recovery<V, W>, rows: seq<Row<W>>): Recovery<V, W> {
    r.(writes := r.writes + rows)
  }

  lemma ExtendedTwice<V, W>(r: Recovery<V, W>, rows: seq<Row<W>>, later: seq<Row<W>>)
    ensures Extended(Extended(r, rows), Reverse(later)) == Extended(r, Reverse(later + Reverse(rows)))
  {
    ReverseConcat(later, Reverse(rows));
    ReverseTwice(rows);
    Regroup(r.writes, rows, Reverse(later));
  }

  /** The `k`-th checkpoint of the chain is there, and no newer one holds a seed. */
  ghost predicate Passed<V, W>(store: Store<V, W>, ch: Channel, cur: Option<Id>, k: nat) {
    !AtEnd(store, Up(store, cur, k)) &&
    forall j :: 0 <= j < k ==>
      !AtEnd(store, Up(store, cur, j)) && ch !in store.checkpoints[Up(store, cur, j).value].values
  }

  /** A stored write of the `k`-th checkpoint of the chain. */
  ghost predicate WrittenAt<V, W>(store: Store<V, W>, ch: Channel, cur: Option<Id>, k: nat, w: Row<W>) {
    var at := Up(store, cur, k);
    at.Some? && (at.value, ch) in store.rows && w in store.rows[(at.value, ch)]
  }

  lemma {:induction false} UpNext<V, W>(store: Store<V, W>, cur: Option<Id>, k: nat)
    ensures Up(store, cur, k + 1) == Up(store, ParentOf(store, cur), k)
  {
    if k > 0 {
      UpNext(store, cur, k - 1);
    }
  }

  lemma PassedNext<V, W>(store: Store<V, W>, ch: Channel, cur: Option<Id>, k: nat)
    requires !AtEnd(store, cur) && ch !in store.checkpoints[cur.value].values
    ensures Passed(store, ch, cur, k + 1) <==> Passed(store, ch, ParentOf(store, cur), k)
  {
    forall j: nat ensures Up(store, cur, j + 1) == Up(store, ParentOf(store, cur), j) {
      UpNext(store, cur, j);
    }
    if Passed(store, ch, ParentOf(store, cur), k) {
      forall j | 0 <= j < k + 1
        ensures !AtEnd(store, Up(store, cur, j)) && ch !in store.checkpoints[Up(store, cur, j).value].values
      {
        if j > 0 {
          assert Up(store, cur, j) == Up(store, ParentOf(store, cur), j - 1);
        }
      }
    }
    if Passed(store, ch, cur, k + 1) {
      forall j | 0 <= j < k
        ensures !AtEnd(store, Up(store, ParentOf(store, cur), j))
        ensures ch !in store.checkpoints[Up(store, ParentOf(store, cur), j).value].values
      {
        assert Up(store, cur, j + 1) == Up(store, ParentOf(store, cur), j);
      }
    }
  }

  /** The writes recovered are those stored for the checkpoints down to the first that holds a seed,
      that one included, and no others. */
  lemma {:induction false} WritesAre<V, W>(codec: Codec<V>, store: Store<V, W>, ch: Channel, cur: Option<Id>, n: nat,
                                           w: Row<W>)
    requires Ends(store, cur, n)
    ensures w in Recovered(codec, store, ch, cur, n).writes <==>
            exists k: nat :: Passed(store, ch, cur, k) && WrittenAt(store, ch, cur, k, w)
    decreases n
  {
    if !AtEnd(store, cur) {
      var c := store.checkpoints[cur.value];
      assert Passed(store, ch, cur, 0);
      if ch in c.values {
        assert forall k: nat :: Passed(store, ch, cur, k) ==> k == 0 || Up(store, cur, 0) == cur;
        assert w in RowsOf(store, cur.value, ch) <==> WrittenAt(store, ch, cur, 0, w);
      } else {
        WritesAre(codec, store, ch, c.parent, n - 1, w);
        WritesBelow(store, ch, cur, w);
      }
    } else {
      assert forall k: nat :: Passed(store, ch, cur, k) ==> AtEnd(store, Up(store, cur, 0));
    }
  }

  lemma WritesBelow<V, W>(store: Store<V, W>, ch: Channel, cur: Option<Id>, w: Row<W>)
    requires !AtEnd(store, cur) && ch !in store.checkpoints[cur.value].values
    ensures (exists k: nat :: Passed(store, ch, cur, k) && WrittenAt(store, ch, cur, k, w)) <==>
            w in RowsOf(store, cur.value, ch) ||
            exists k: nat ::
              Passed(store, ch, ParentOf(store, cur), k) && WrittenAt(store, ch, ParentOf(store, cur), k, w)
  {
    if k: nat :| Passed(store, ch, cur, k) && WrittenAt(store, ch, cur, k, w) {
      if k > 0 {
        PassedNext(store, ch, cur, k - 1);
        UpNext(store, cur, k - 1);
        assert WrittenAt(store, ch, ParentOf(store, cur), k - 1, w);
      }
    }
    if w in RowsOf(store, cur.value, ch) {
      assert Passed(store, ch, cur, 0) && WrittenAt(store, ch, cur, 0, w);
    }
    if k: nat :| Passed(store, ch, ParentOf(store, cur), k) && WrittenAt(store, ch, ParentOf(store, cur), k, w) {
      PassedNext(store, ch, cur, k);
      UpNext(store, cur, k);
      assert Passed(store, ch, cur, k + 1) && WrittenAt(store, ch, cur, k + 1, w);
    }
  }

  method WalkChannel<V, W>(codec: Codec<V>, store: Store<V, W>, ch: Channel, start: Option<Id>)
    returns (r: Recovery<V, W>)
    requires Acyclic(store)
    ensures Ends(store, start, |store.checkpoints|)
    ensures r == Recovered(codec, store, ch, start, |store.checkpoints|)
  {
    AcyclicEnds(store, start);
    var newestFirst: seq<Row<W>> := [];
    var cur := start;
    ghost var n: nat := |store.checkpoints|;
    ghost var whole := Recovered(codec, store, ch, start, n);
    while cur != None
      invariant Ends(store, cur, n)
      invariant whole == Extended(Recovered(codec, store, ch, cur, n), Reverse(newestFirst))
      decreases n, cur != None
    {
      if cur.value !in store.checkpoints {
        break;
      }
      var c := store.checkpoints[cur.value];
      ghost var older := if ch in c.values then LoadSeed(codec, store, cur.value, c, ch)
                         else Recovered(codec, store, ch, c.parent, n - 1);
      ExtendedTwice(older, RowsOf(store, cur.value, ch), newestFirst);
      newestFirst := newestFirst + LoadWrites(store, cur.value, ch);
      if ch in c.values {
        var seed := LoadSeed(codec, store, cur.value, c, ch);
        return seed.(writes := Reverse(newestFirst));
      }
      cur := c.parent;
      n := n - 1;
    }
    r := Recovery(NoSeed, None, None, codec.nil, Reverse(newestFirst));
  }

  /** Each requested channel is walked from the target's parent. */
  method WalkParentChain<V, W>(codec: Codec<V>, store: Store<V, W>, target: Id, channels: seq<Channel>)
    returns (r: Option<(Option<Id>, map<Channel, Recovery<V, W>>)>)
    requires Acyclic(store)
    ensures r.None? <==> target !in store.checkpoints
    ensures forall id :: Ends(store, id, |store.checkpoints|)
    ensures r.Some? ==>
              var start := store.checkpoints[target].parent;
              r.value.0 == start &&
              r.value.1.Keys == (set ch | ch in channels) &&
              forall ch :: ch in channels ==>
                r.value.1[ch] == Recovered(codec, store, ch, start, |store.checkpoints|)
  {
    forall id
      ensures Ends(store, id, |store.checkpoints|)
    {
      AcyclicEnds(store, id);
    }
    if target !in store.checkpoints {
      return None;
    }
    var start := store.checkpoints[target].parent;
    var all: map<Channel, Recovery<V, W>> := map[];
    for i := 0 to |channels|
      invariant all.Keys == (set ch | ch in channels[..i])
      invariant forall ch :: ch in channels[..i] ==>
                  all[ch] == Recovered(codec, store, ch, start, |store.checkpoints|)
    {
      var one := WalkChannel(codec, store, channels[i], start);
      all := all[channels[i] := one];
      assert channels[..i + 1] == channels[..i] + [channels[i]];
    }
    assert channels[..|channels|] == channels;
    return Some((start, all));
  }

  // ---------------------------------------------------- snapshot independence

  function Fold<V, W>(f: (V, W) -> V, v: V, rows: seq<Row<W>>): V {
    if rows == [] then v else Fold(f, f(v, rows[0].value), rows[1..])
  }

  lemma {:induction false} FoldConcat<V, W>(f: (V, W) -> V, v: V, xs: seq<Row<W>>, ys: seq<Row<W>>)
    ensures Fold(f, v, xs + ys) == Fold(f, Fold(f, v, xs), ys)
    decreases |xs|
  {
    if xs == [] {
      assert xs + ys == ys;
    } else {
      assert (xs + ys)[1..] == xs[1..] + ys;
      FoldConcat(f, f(v, xs[0].value), xs[1..], ys);
    }
  }

  /** Folding applies the reducer once for each write, the newest last. */
  lemma FoldLast<V, W>(f: (V, W) -> V, v: V, rows: seq<Row<W>>, row: Row<W>)
    ensures Fold(f, v, []) == v && Fold(f, v, rows + [row]) == f(Fold(f, v, rows), row.value)
  {
    FoldConcat(f, v, rows, [row]);
    assert Fold(f, Fold(f, v, rows), [row]) == Fold(f, f(Fold(f, v, rows), row.value), [row][1..]);
  }

  /** Forward replay from the root: the value after the writes of `cur`, which is the value at
      the checkpoints that have `cur` as parent. */
  ghost function Replay<V, W>(f: (V, W) -> V, init: V, store: Store<V, W>, ch: Channel, cur: Option<Id>, n: nat): V
    requires Ends(store, cur, n)
    decreases n
  {
    if AtEnd(store, cur) then init
    else Fold(f, Replay(f, init, store, ch, ParentOf(store, cur), n - 1), RowsOf(store, cur.value, ch))
  }

  /** Where the chain holds a seed for the channel, it is the value that replay gives there. */
  ghost predicate SeedsCorrect<V, W>(codec: Codec<V>, f: (V, W) -> V, init: V, store: Store<V, W>,
                                     ch: Channel, cur: Option<Id>, n: nat)
    requires Ends(store, cur, n)
    decreases n
  {
    AtEnd(store, cur) ||
    (var c := store.checkpoints[cur.value];
     && (ch in c.values ==>
           LoadSeed(codec, store, cur.value, c, ch).seed == Replay(f, init, store, ch, c.parent, n - 1))
     && SeedsCorrect(codec, f, init, store, ch, c.parent, n - 1))
  }

  /** The recovered value: the seed, or the channel's initial value, with the writes applied. */
  ghost function Value<V, W>(f: (V, W) -> V, init: V, r: Recovery<V, W>): V {
    Fold(f, if r.kind == NoSeed then init else r.seed, r.writes)
  }

  /** Wherever correct seeds happen to be, seed and writes give what replay from the root gives. */
  lemma {:induction false} RecoveryIsReplay<V, W>(codec: Codec<V>, f: (V, W) -> V, init: V, store: Store<V, W>,
                                                  ch: Channel, cur: Option<Id>, n: nat)
    requires Ends(store, cur, n) && SeedsCorrect(codec, f, init, store, ch, cur, n)
    ensures Value(f, init, Recovered(codec, store, ch, cur, n)) == Replay(f, init, store, ch, cur, n)
    decreases n
  {
    if !AtEnd(store, cur) {
      var c := store.checkpoints[cur.value];
      var older := if ch in c.values then LoadSeed(codec, store, cur.value, c, ch)
                   else Recovered(codec, store, ch, c.parent, n - 1);
      if ch !in c.values {
        RecoveryIsReplay(codec, f, init, store, ch, c.parent, n - 1);
      }
      FoldConcat(f, if older.kind == NoSeed then init else older.seed, older.writes, RowsOf(store, cur.value, ch));
    }
  }

  /** Replay looks at parents and writes only. */
  lemma {:induction false} ReplayIgnoresSeeds<V, W>(f: (V, W) -> V, init: V, s: Store<V, W>, t: Store<V, W>,
                                                    ch: Channel, cur: Option<Id>, n: nat)
    requires s.checkpoints.Keys == t.checkpoints.Keys && s.rows == t.rows
    requires forall id :: id in s.checkpoints ==> s.checkpoints[id].parent == t.checkpoints[id].parent
    requires Ends(s, cur, n)
    ensures Ends(t, cur, n) && Replay(f, init, s, ch, cur, n) == Replay(f, init, t, ch, cur, n)
    decreases n
  {
    if !AtEnd(s, cur) {
      ReplayIgnoresSeeds(f, init, s, t, ch, ParentOf(s, cur), n - 1);
    }
  }

  /** Two stores that differ only in which checkpoints carry seeds recover the same value. */
  lemma SnapshotIndependence<V, W>(codec: Codec<V>, f: (V, W) -> V, init: V, s: Store<V, W>, t: Store<V, W>,
                                   ch: Channel, cur: Option<Id>, n: nat)
    requires s.checkpoints.Keys == t.checkpoints.Keys && s.rows == t.rows
    requires forall id :: id in s.checkpoints ==> s.checkpoints[id].parent == t.checkpoints[id].parent
    requires Ends(s, cur, n) && Ends(t, cur, n)
    requires SeedsCorrect(codec, f, init, s, ch, cur, n) && SeedsCorrect(codec, f, init, t, ch, cur, n)
    ensures Value(f, init, Recovered(codec, s, ch, cur, n)) == Value(f, init, Recovered(codec, t, ch, cur, n))
  {
    RecoveryIsReplay(codec, f, init, s, ch, cur, n);
    RecoveryIsReplay(codec, f, init, t, ch, cur, n);
    ReplayIgnoresSeeds(f, init, s, t, ch, cur, n);
  }

  /** An older channel whose plain value is the JSON `true` cannot be told from a snapshot: it is
      read back right only if a blob happens to hold it (or it is meant to be null). */
  lemma LegacyTrue<V, W>(codec: Codec<V>, store: Store<V, W>, id: Id, c: Checkpoint<V>, ch: Channel, truth: V)
    requires ch in c.values && c.values[ch] == Sentinel && truth != codec.nil
    ensures LoadSeed(codec, store, id, c, ch).seed == truth <==>
            exists v :: VersionOf(c, ch) == Some(v) && (ch, v) in store.blobs &&
                        store.blobs[(ch, v)].Stored? && codec.unwrap(store.blobs[(ch, v)].value) == truth
  {
    var version := VersionOf(c, ch);
    if version.Some? && (ch, version.value) in store.blobs {
      assert BlobOf(store, ch, version) == Some(store.blobs[(ch, version.value)]);
    }
  }
}
