/**
 * The rolling, day-sharded vector store of `FaissManager`: one flat vector
 * index and one metadata list per date key, both mirrored on disk as
 * `index_<date>.faiss` and `metadata_<date>.json`.
 *
 * FAISS itself is foreign: an index is the list of vectors added to it, and
 * its on-disk form is an abstract `IndexFile` blob. The file system is a map
 * from path to blob plus a set of paths that cannot be written or removed.
 */
module FaissStore {
  import opened Wrappers
  import opened Json
  import Text

  type Vector = seq<real>

  /** `faiss.IndexFlatL2`: the dimension it was built with and the vectors added so far, in order. */
  datatype FlatIndex = FlatIndex(dim: nat, vectors: seq<Vector>)

  /** The dimension `_create_new_index` hard-codes, whatever the embedding model produces. */
  const NewIndexDimension: nat := 768

  /** `index.ntotal`. */
  function NTotal(ix: FlatIndex): nat {
    |ix.vectors|
  }

  /**
   * `index.add(vectors)`: the FAISS wrapper asserts that the batch has the
   * index's width, so a row of another width makes the call raise (`None`).
   */
  function AddVectors(ix: FlatIndex, vs: seq<Vector>): (r: Option<FlatIndex>)
    ensures r.Some? <==> forall i :: 0 <= i < |vs| ==> |vs[i]| == ix.dim
    ensures r.Some? ==> r.value.dim == ix.dim && r.value.vectors == ix.vectors + vs
    ensures r.Some? ==> NTotal(r.value) == NTotal(ix) + |vs|
  {
    if forall i :: 0 <= i < |vs| ==> |vs[i]| == ix.dim then Some(FlatIndex(ix.dim, ix.vectors + vs)) else None
  }

  // ---------------------------------------------------------------- paths

  /** `os.path.join(dir, name)` for a `name` that does not start with `/`. */
  function Join(dir: string, name: string): (p: string)
    ensures Text.EndsWith(p, name)
  {
    if |dir| == 0 || Text.EndsWith(dir, "/") then dir + name else dir + "/" + name
  }

  /** `os.path.basename(p)`: everything after the last `/`. */
  function Basename(p: string): (r: string)
    ensures '/' !in r
    ensures Text.EndsWith(p, r)
    decreases |p|
  {
    if |p| == 0 then ""
    else if p[|p| - 1] == '/' then ""
    else Basename(p[..|p| - 1]) + [p[|p| - 1]]
  }

  function IndexName(d: string): string {
    "index_" + d + ".faiss"
  }

  function MetadataName(d: string): string {
    "metadata_" + d + ".json"
  }

  /** `_get_index_path`. */
  function IndexPath(dir: string, d: string): string {
    Join(dir, IndexName(d))
  }

  /** `_get_metadata_path`. */
  function MetadataPath(dir: string, d: string): string {
    Join(dir, MetadataName(d))
  }

  /** The date key the startup scan recovers from a file path: `basename(p)[6:-6]`. */
  function DateKeyOf(p: string): string {
    Text.SliceDropEnds(Basename(p), 6, 6)
  }

  lemma {:induction false} BasenameOfAppend(p: string, name: string)
    requires '/' !in name
    requires |p| == 0 || p[|p| - 1] == '/'
    ensures Basename(p + name) == name
    decreases |name|
  {
    if |name| > 0 {
      var init, last := name[..|name| - 1], name[|name| - 1];
      assert '/' !in init && last != '/' by {
        assert name == init + [last];
      }
      var q := p + name;
      assert q[..|q| - 1] == p + init && q[|q| - 1] == last;
      BasenameOfAppend(p, init);
      assert init + [last] == name;
    } else {
      assert p + name == p;
    }
  }

  lemma BasenameOfJoin(dir: string, name: string)
    requires '/' !in name
    ensures Basename(Join(dir, name)) == name
  {
    if |dir| == 0 || Text.EndsWith(dir, "/") {
      BasenameOfAppend(dir, name);
    } else {
      assert dir + "/" + name == (dir + "/") + name;
      BasenameOfAppend(dir + "/", name);
    }
  }

  /** Filename round trip: the startup scan recovers exactly the key a shard was saved under. */
  lemma {:induction false} IndexPathRoundTrip(dir: string, d: string)
    requires '/' !in d
    ensures DateKeyOf(IndexPath(dir, d)) == d
  {
    var name := IndexName(d);
    assert '/' !in name by {
      assert name == "index_" + d + ".faiss";
      forall i | 0 <= i < |name| ensures name[i] != '/' {
        if i < 6 {
        } else if i < 6 + |d| {
          assert name[i] == d[i - 6];
        } else {
        }
      }
    }
    BasenameOfJoin(dir, name);
    assert name[6..|name| - 6] == d;
  }

  lemma JoinDiffer(dir: string, a: string, b: string)
    requires a != b
    ensures Join(dir, a) != Join(dir, b)
  {
    var pre := if |dir| == 0 || Text.EndsWith(dir, "/") then dir else dir + "/";
    assert Join(dir, a) == pre + a && Join(dir, b) == pre + b;
    assert (pre + a)[|pre|..] == a;
    assert (pre + b)[|pre|..] == b;
  }

  /** Two different keys never share a file, and an index file is never a metadata file. */
  lemma PathsDistinct(dir: string, d: string, e: string)
    ensures IndexPath(dir, d) != MetadataPath(dir, e)
    ensures d != e ==> IndexPath(dir, d) != IndexPath(dir, e)
    ensures d != e ==> MetadataPath(dir, d) != MetadataPath(dir, e)
  {
    var id, ie, md, me := IndexName(d), IndexName(e), MetadataName(d), MetadataName(e);
    assert id[0] == 'i' && me[0] == 'm';
    JoinDiffer(dir, id, me);
    if d != e {
      assert id[6..|id| - 6] == d && ie[6..|ie| - 6] == e;
      assert md[9..|md| - 5] == d && me[9..|me| - 5] == e;
      JoinDiffer(dir, id, ie);
      JoinDiffer(dir, md, me);
    }
  }

  // ----------------------------------------------------------------- disk

  /**
   * What a file holds: a FAISS index, a JSON list of metadata records, or
   * anything else (a truncated write, a foreign file, JSON that is not a list).
   */
  datatype Blob = IndexFile(index: FlatIndex) | MetadataFile(records: seq<Value>) | Unreadable

  /** Files by path, and the paths whose writing or removal raises. */
  datatype Disk = Disk(files: map<string, Blob>, locked: set<string>)

  /** `disk` and `disk'` hold the same files everywhere except at `paths`. */
  ghost predicate SameOutside(disk: Disk, disk': Disk, paths: set<string>) {
    && disk'.locked == disk.locked
    && (forall p :: p !in paths ==> (p in disk'.files <==> p in disk.files))
    && (forall p :: p !in paths && p in disk.files ==> disk'.files[p] == disk.files[p])
  }

  lemma SameOutsideTrans(a: Disk, b: Disk, c: Disk, ps: set<string>, qs: set<string>)
    requires SameOutside(a, b, ps) && SameOutside(b, c, qs)
    ensures SameOutside(a, c, ps + qs)
  {
  }

  // ---------------------------------------------------------------- store

  /**
   * The manager's state. `keys` is the iteration order of the `indexes`
   * dict (insertion order); `metadata` is a second dict meant to share its keys.
   */
  datatype Store = Store(
    dir: string,
    maxDays: int,
    keys: seq<string>,
    indexes: map<string, FlatIndex>,
    metadata: map<string, seq<Value>>)


  /** The representation invariant: both dicts share one key set, which `keys` lists once each. */
  predicate Inv(st: Store) {
    st.indexes.Keys == st.metadata.Keys
    && Distinct(st.keys)
    && (forall d :: d in st.keys ==> d in st.indexes)
    && (forall d :: d in st.indexes ==> d in st.keys)
  }

  /** Every shard holds exactly one metadata record per vector. */
  predicate Aligned(st: Store) {
    forall d :: d in st.indexes && d in st.metadata ==> NTotal(st.indexes[d]) == |st.metadata[d]|
  }

  function EmptyStore(dir: string, maxDays: int): (st: Store)
    ensures Inv(st) && Aligned(st)
  {
    Store(dir, maxDays, [], map[], map[])
  }

  /** `self.indexes[d] = ix; self.metadata[d] = meta`: a new key goes last, an old one keeps its place. */
  function SetShard(st: Store, d: string, ix: FlatIndex, meta: seq<Value>): (r: Store)
    ensures r.dir == st.dir && r.maxDays == st.maxDays
    ensures r.indexes == st.indexes[d := ix] && r.metadata == st.metadata[d := meta]
    ensures Inv(st) ==> Inv(r)
    ensures d in st.keys ==> r.keys == st.keys
    ensures d !in st.keys ==> r.keys == st.keys + [d]
  {
    st.(keys := if d in st.keys then st.keys else st.keys + [d],
        indexes := st.indexes[d := ix],
        metadata := st.metadata[d := meta])
  }

  /** `s` without the element `d`, order kept. */
  function Without(s: seq<string>, d: string): (r: seq<string>)
    ensures forall x :: x in r <==> x in s && x != d
    ensures |r| <= |s|
  {
    if |s| == 0 then []
    else if s[0] == d then Without(s[1..], d)
    else [s[0]] + Without(s[1..], d)
  }

  lemma {:induction false} WithoutDistinct(s: seq<string>, d: string)
    requires Distinct(s)
    ensures Distinct(Without(s, d))
  {
    if |s| > 0 {
      assert Distinct(s[1..]) by {
        forall i, j | 0 <= i < j < |s[1..]| ensures s[1..][i] != s[1..][j] {
          assert s[1..][i] == s[i + 1] && s[1..][j] == s[j + 1];
        }
      }
      WithoutDistinct(s[1..], d);
      assert s[0] !in s[1..] by {
        forall i | 0 <= i < |s[1..]| ensures s[1..][i] != s[0] {
          assert s[1..][i] == s[i + 1];
        }
      }
    }
  }

  /** `self.indexes.pop(d, None); self.metadata.pop(d, None)`. */
  function DropShard(st: Store, d: string): (r: Store)
    ensures r.dir == st.dir && r.maxDays == st.maxDays
    ensures r.indexes == st.indexes - {d} && r.metadata == st.metadata - {d}
    ensures Inv(st) ==> Inv(r)
  {
    if Distinct(st.keys) then WithoutDistinct(st.keys, d); st.(keys := Without(st.keys, d), indexes := st.indexes - {d}, metadata := st.metadata - {d})
    else st.(keys := Without(st.keys, d), indexes := st.indexes - {d}, metadata := st.metadata - {d})
  }

  /** The store and the disk together. */
  datatype State = State(store: Store, disk: Disk)

  // ----------------------------------------------------------- operations

  /** `_create_new_index`: an empty 768-wide index and an empty metadata list, replacing any shard of that key. */
  function CreateNewIndex(st: Store, d: string): (r: Store)
    ensures Inv(st) ==> Inv(r)
    ensures Aligned(st) ==> Aligned(r)
    ensures d in r.indexes && r.indexes[d] == FlatIndex(NewIndexDimension, []) && NTotal(r.indexes[d]) == 0
    ensures d in r.metadata && r.metadata[d] == []
    ensures forall e :: e != d ==> (e in r.indexes <==> e in st.indexes) && (e in r.metadata <==> e in st.metadata)
    ensures forall e :: e != d && e in st.indexes ==> r.indexes[e] == st.indexes[e]
    ensures forall e :: e != d && e in st.metadata ==> r.metadata[e] == st.metadata[e]
  {
    SetShard(st, d, FlatIndex(NewIndexDimension, []), [])
  }

  /**
   * The reading half of `_load_index`: the index file must hold an index;
   * a missing metadata file reads as `[]`, an unreadable one raises.
   */
  function ReadShard(disk: Disk, dir: string, d: string): (r: Option<(FlatIndex, seq<Value>)>)
    ensures r.Some? <==>
      IndexPath(dir, d) in disk.files && disk.files[IndexPath(dir, d)].IndexFile?
      && (MetadataPath(dir, d) in disk.files ==> disk.files[MetadataPath(dir, d)].MetadataFile?)
    ensures r.Some? && MetadataPath(dir, d) !in disk.files ==> r.value.1 == []
  {
    var ip, mp := IndexPath(dir, d), MetadataPath(dir, d);
    if ip !in disk.files || !disk.files[ip].IndexFile? then None
    else if mp !in disk.files then Some((disk.files[ip].index, []))
    else if disk.files[mp].MetadataFile? then Some((disk.files[ip].index, disk.files[mp].records))
    else None
  }

  /** `_load_index`: all or nothing; a failure is logged and leaves the store as it was. */
  function LoadIndex(st: Store, disk: Disk, d: string): (r: Store)
    ensures Inv(st) ==> Inv(r)
    ensures ReadShard(disk, st.dir, d).None? ==> r == st
    ensures ReadShard(disk, st.dir, d).Some? ==>
      r.indexes == st.indexes[d := ReadShard(disk, st.dir, d).value.0]
      && r.metadata == st.metadata[d := ReadShard(disk, st.dir, d).value.1]
    ensures r.dir == st.dir && r.maxDays == st.maxDays
  {
    match ReadShard(disk, st.dir, d)
    case None => st
    case Some((ix, meta)) => SetShard(st, d, ix, meta)
  }

  /** Writing a file: raises (`None`) when the path is locked. */
  function WriteFile(disk: Disk, p: string, b: Blob): (r: Option<Disk>)
    ensures r.None? <==> p in disk.locked
    ensures r.Some? ==> r.value.files == disk.files[p := b] && r.value.locked == disk.locked
  {
    if p in disk.locked then None else Some(disk.(files := disk.files[p := b]))
  }

  /** `json.dump(records, f)`: a record it cannot encode leaves a truncated, unreadable file. */
  function DumpRecords(records: seq<Value>): (b: Blob)
    ensures b.MetadataFile? <==> AllDumpable(records)
  {
    if AllDumpable(records) then MetadataFile(records) else Unreadable
  }

  /**
   * `_save_index`: nothing for an unknown key; otherwise the index file is
   * written, then the metadata file. A failing step is logged and stops the
   * rest, so a partial save (a new index next to old metadata) is possible.
   */
  function SaveIndex(st: Store, disk: Disk, d: string): (r: Disk)
    ensures d !in st.indexes ==> r == disk
    ensures SameOutside(disk, r, {IndexPath(st.dir, d), MetadataPath(st.dir, d)})
    ensures IndexPath(st.dir, d) in disk.locked ==> r == disk
  {
    if d !in st.indexes then disk
    else
      match WriteFile(disk, IndexPath(st.dir, d), IndexFile(st.indexes[d]))
      case None => disk
      case Some(disk1) =>
        if d !in st.metadata then disk1
        else
          match WriteFile(disk1, MetadataPath(st.dir, d), DumpRecords(st.metadata[d]))
          case None => disk1
          case Some(disk2) => disk2
  }

  /** A shard whose files are both writable and whose records all encode is saved whole. */
  predicate Saveable(st: Store, disk: Disk, d: string) {
    d in st.indexes && d in st.metadata
    && IndexPath(st.dir, d) !in disk.locked && MetadataPath(st.dir, d) !in disk.locked
    && AllDumpable(st.metadata[d])
  }

  /** Save then load round trip: loading a saveable shard right after saving it gives back the same shard. */
  lemma SaveThenRead(st: Store, disk: Disk, d: string)
    requires Saveable(st, disk, d)
    ensures ReadShard(SaveIndex(st, disk, d), st.dir, d) == Some((st.indexes[d], st.metadata[d]))
  {
    PathsDistinct(st.dir, d, d);
  }

  /**
   * `_remove_index`: both files are removed if present (a failing removal is
   * logged and skips the rest), then the key is dropped from both dicts
   * whether or not the files went away.
   */
  function RemoveIndex(s: State, d: string): (r: State)
    ensures r.store == DropShard(s.store, d)
    ensures SameOutside(s.disk, r.disk, {IndexPath(s.store.dir, d), MetadataPath(s.store.dir, d)})
    ensures IndexPath(s.store.dir, d) !in s.disk.locked && MetadataPath(s.store.dir, d) !in s.disk.locked ==>
      IndexPath(s.store.dir, d) !in r.disk.files && MetadataPath(s.store.dir, d) !in r.disk.files
  {
    PathsDistinct(s.store.dir, d, d);
    State(DropShard(s.store, d), RemoveFiles(s.disk, IndexPath(s.store.dir, d), MetadataPath(s.store.dir, d)))
  }

  /** Removing `ip` then `mp` when present; a locked one raises and stops the rest. */
  function RemoveFiles(disk: Disk, ip: string, mp: string): (r: Disk)
    requires ip != mp
    ensures SameOutside(disk, r, {ip, mp})
    ensures ip !in disk.locked && mp !in disk.locked ==> ip !in r.files && mp !in r.files
  {
    if ip in disk.files && ip in disk.locked then disk
    else
      var files1 := disk.files - {ip};
      if mp in files1 && mp in disk.locked then disk.(files := files1)
      else disk.(files := files1 - {mp})
  }

  lemma RemoveFilesIdempotent(disk: Disk, ip: string, mp: string)
    requires ip != mp
    ensures RemoveFiles(RemoveFiles(disk, ip, mp), ip, mp) == RemoveFiles(disk, ip, mp)
  {
  }

  /** Removing twice is removing once, on the store and on the disk. */
  lemma RemoveIdempotent(s: State, d: string)
    ensures RemoveIndex(RemoveIndex(s, d), d) == RemoveIndex(s, d)
  {
    DropShardIdempotent(s.store, d);
    PathsDistinct(s.store.dir, d, d);
    RemoveFilesIdempotent(s.disk, IndexPath(s.store.dir, d), MetadataPath(s.store.dir, d));
  }

  lemma DropShardIdempotent(st: Store, d: string)
    ensures DropShard(DropShard(st, d), d) == DropShard(st, d)
  {
    WithoutAbsent(Without(st.keys, d), d);
  }

  /** Removing an absent key leaves the store as it was. */
  lemma RemoveAbsent(s: State, d: string)
    requires Inv(s.store) && d !in s.store.indexes
    ensures RemoveIndex(s, d).store == s.store
  {
    DropShardAbsent(s.store, d);
  }

  lemma DropShardAbsent(st: Store, d: string)
    requires Inv(st) && d !in st.indexes
    ensures DropShard(st, d) == st
  {
    assert d !in st.keys && d !in st.metadata;
    WithoutAbsent(st.keys, d);
    assert st.indexes - {d} == st.indexes;
    assert st.metadata - {d} == st.metadata;
  }

  lemma {:induction false} WithoutAbsent(s: seq<string>, d: string)
    requires d !in s
    ensures Without(s, d) == s
  {
    if |s| > 0 {
      WithoutAbsent(s[1..], d);
      assert s == [s[0]] + s[1..];
    }
  }

  /** `save_all_indexes`: every key in dict order is saved independently. */
  function SaveAllFrom(st: Store, disk: Disk, ks: seq<string>): (r: Disk)
    decreases |ks|
  {
    if |ks| == 0 then disk else SaveAllFrom(st, SaveIndex(st, disk, ks[0]), ks[1..])
  }

  function SaveAll(st: Store, disk: Disk): Disk {
    SaveAllFrom(st, disk, st.keys)
  }

  /** Saving other keys never touches the files of `d`. */
  lemma {:induction false} SaveOthersKeepFiles(st: Store, disk: Disk, ks: seq<string>, d: string)
    requires d !in ks
    ensures SaveAllFrom(st, disk, ks).locked == disk.locked
    ensures forall p :: p == IndexPath(st.dir, d) || p == MetadataPath(st.dir, d) ==>
      (p in SaveAllFrom(st, disk, ks).files <==> p in disk.files)
      && (p in disk.files ==> SaveAllFrom(st, disk, ks).files[p] == disk.files[p])
    decreases |ks|
  {
    if |ks| > 0 {
      PathsDistinct(st.dir, d, ks[0]);
      PathsDistinct(st.dir, ks[0], d);
      SaveOthersKeepFiles(st, SaveIndex(st, disk, ks[0]), ks[1..], d);
    }
  }

  /** After `save_all_indexes`, every saveable shard reads back exactly as it is held in memory. */
  lemma {:induction false} SaveAllThenRead(st: Store, disk: Disk, ks: seq<string>, d: string)
    requires Distinct(ks) && d in ks && Saveable(st, disk, d)
    ensures ReadShard(SaveAllFrom(st, disk, ks), st.dir, d) == Some((st.indexes[d], st.metadata[d]))
    decreases |ks|
  {
    if ks[0] == d {
      SaveThenRead(st, disk, d);
      assert d !in ks[1..] by {
        forall i | 0 <= i < |ks[1..]| ensures ks[1..][i] != d {
          assert ks[1..][i] == ks[i + 1];
        }
      }
      var disk1 := SaveIndex(st, disk, d);
      SaveOthersKeepFiles(st, disk1, ks[1..], d);
    } else {
      var disk1 := SaveIndex(st, disk, ks[0]);
      PathsDistinct(st.dir, d, ks[0]);
      PathsDistinct(st.dir, ks[0], d);
      assert Saveable(st, disk1, d);
      assert Distinct(ks[1..]) by {
        forall i, j | 0 <= i < j < |ks[1..]| ensures ks[1..][i] != ks[1..][j] {
          assert ks[1..][i] == ks[i + 1] && ks[1..][j] == ks[j + 1];
        }
      }
      SaveAllThenRead(st, disk1, ks[1..], d);
    }
  }

  /**
   * `add_data` with `today` the current date key: today's shard is created
   * if missing (nothing is evicted), the batch is added to its index, the
   * records are appended to its metadata, and the shard is saved.
   * `Failure` carries the state at the moment the exception escaped.
   */
  function AddData(s: State, today: string, vs: seq<Vector>, records: seq<Value>): (r: Result<State, State>)
  {
    var st := if today in s.store.indexes then s.store else CreateNewIndex(s.store, today);
    match AddVectors(st.indexes[today], vs)
    case None => Failure(State(st, s.disk))
    case Some(ix) =>
      if today !in st.metadata then Failure(State(SetShard(st, today, ix, []).(metadata := st.metadata), s.disk))
      else
        var st' := SetShard(st, today, ix, st.metadata[today] + records);
        Success(State(st', SaveIndex(st', s.disk, today)))
  }

  /** The shard `add_data` appends to: the existing one for today, or a fresh empty one. */
  function TodayBefore(st: Store, today: string): FlatIndex {
    if today in st.indexes then st.indexes[today] else FlatIndex(NewIndexDimension, [])
  }

  function TodayRecordsBefore(st: Store, today: string): seq<Value> {
    if today in st.metadata then st.metadata[today] else []
  }

  /** Every shard other than today's holds the same records after as before. */
  predicate OtherShardsKept(before: Store, after: Store, today: string) {
    forall e :: e != today && e in before.metadata ==> e in after.metadata && after.metadata[e] == before.metadata[e]
  }

  lemma OtherShardsKeptTransitive(a: Store, b: Store, c: Store, today: string)
    requires OtherShardsKept(a, b, today) && OtherShardsKept(b, c, today)
    ensures OtherShardsKept(a, c, today)
  {
  }

  /**
   * `add_data` succeeds iff every vector has today's shard width, and then
   * changes today's shard only: the vectors and records are appended in
   * order, every other shard is untouched, and the key set gains at most today.
   */
  lemma AddDataEffect(s: State, today: string, vs: seq<Vector>, records: seq<Value>)
    requires Inv(s.store)
    ensures AddData(s, today, vs, records).Success? <==>
      forall i :: 0 <= i < |vs| ==> |vs[i]| == TodayBefore(s.store, today).dim
    ensures AddData(s, today, vs, records).Success? ==>
      var st' := AddData(s, today, vs, records).value.store;
      Inv(st')
      && st'.indexes.Keys == s.store.indexes.Keys + {today}
      && st'.indexes[today].vectors == TodayBefore(s.store, today).vectors + vs
      && st'.indexes[today].dim == TodayBefore(s.store, today).dim
      && st'.metadata[today] == TodayRecordsBefore(s.store, today) + records
      && (forall e :: e != today && e in s.store.indexes ==> st'.indexes[e] == s.store.indexes[e])
      && (forall e :: e != today && e in s.store.metadata ==> st'.metadata[e] == s.store.metadata[e])
  {
  }

  /** With one record per vector, `add_data` keeps every shard aligned. */
  lemma AddDataKeepsAligned(s: State, today: string, vs: seq<Vector>, records: seq<Value>)
    requires Inv(s.store) && Aligned(s.store) && |vs| == |records|
    requires AddData(s, today, vs, records).Success?
    ensures Aligned(AddData(s, today, vs, records).value.store)
  {
    AddDataEffect(s, today, vs, records);
  }

  /**
   * A failing `add_data` has still created today's empty shard if it was
   * missing, and has changed nothing else, the disk included.
   */
  lemma AddDataFailure(s: State, today: string, vs: seq<Vector>, records: seq<Value>)
    requires Inv(s.store)
    requires AddData(s, today, vs, records).Failure?
    ensures AddData(s, today, vs, records).error.disk == s.disk
    ensures AddData(s, today, vs, records).error.store ==
      if today in s.store.indexes then s.store else CreateNewIndex(s.store, today)
  {
  }

  /**
   * A successful `add_data` persists today's shard (when its files are
   * writable and its records encode) and touches no other file.
   */
  lemma AddDataSaves(s: State, today: string, vs: seq<Vector>, records: seq<Value>)
    requires Inv(s.store)
    requires AddData(s, today, vs, records).Success?
    ensures var r := AddData(s, today, vs, records).value;
      SameOutside(s.disk, r.disk, {IndexPath(s.store.dir, today), MetadataPath(s.store.dir, today)})
      && (Saveable(r.store, s.disk, today) ==>
          ReadShard(r.disk, s.store.dir, today) == Some((r.store.indexes[today], r.store.metadata[today])))
  {
    var r := AddData(s, today, vs, records).value;
    if Saveable(r.store, s.disk, today) {
      SaveThenRead(r.store, s.disk, today);
    }
  }

  /**
   * No runtime eviction: when the day rolls over, `add_data` adds a shard
   * without dropping one, so a store already holding `maxDays` shards ends
   * up with `maxDays + 1`.
   */
  lemma NoRuntimeEviction(s: State, today: string, vs: seq<Vector>, records: seq<Value>)
    requires Inv(s.store) && today !in s.store.indexes && |s.store.indexes| == s.store.maxDays
    requires AddData(s, today, vs, records).Success?
    ensures |AddData(s, today, vs, records).value.store.indexes| == s.store.maxDays + 1
  {
    AddDataEffect(s, today, vs, records);
    var st' := AddData(s, today, vs, records).value.store;
    assert st'.indexes.Keys == s.store.indexes.Keys + {today};
    assert |st'.indexes.Keys| == |s.store.indexes.Keys| + 1;
  }

  /**
   * Loading a shard whose metadata file is missing while its index holds
   * vectors breaks the alignment: nothing checks the two against each other.
   */
  lemma LoadWithoutMetadataMisaligns(st: Store, disk: Disk, d: string)
    requires ReadShard(disk, st.dir, d).Some? && MetadataPath(st.dir, d) !in disk.files
    requires NTotal(ReadShard(disk, st.dir, d).value.0) > 0
    ensures !Aligned(LoadIndex(st, disk, d))
  {
    var r := LoadIndex(st, disk, d);
    assert d in r.indexes && d in r.metadata && NTotal(r.indexes[d]) != |r.metadata[d]|;
  }
}
