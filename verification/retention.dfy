/**
 * Startup retention of the shard store (`_initialize_indexes`): the glob
 * listing of `index_*.faiss` files is reduced to the keys that parse as
 * dates, sorted newest first by the tuple `(date, key)`; the first
 * `max_days` of them are loaded, the rest are removed from disk, and
 * today's shard is created if it is still missing.
 */
module Retention {
  import opened Wrappers
  import opened Dates
  import Text
  import Seqs
  import opened FaissStore

  /** One scanned shard: the `(date, date_str)` tuple the source sorts. */
  datatype Dated = Dated(date: Date, key: string)

  /** Tuple `<` on `(date, date_str)`: by date, then by key. */
  predicate Older(a: Dated, b: Dated) {
    Before(a.date, b.date) || (a.date == b.date && Text.Less(a.key, b.key))
  }

  predicate NotNewer(a: Dated, b: Dated) {
    a == b || Older(a, b)
  }

  lemma OlderIrreflexive(a: Dated)
    ensures !Older(a, a)
  {
    Text.LessIrreflexive(a.key);
  }

  lemma OlderAsymmetric(a: Dated, b: Dated)
    requires Older(a, b)
    ensures !Older(b, a)
  {
    if a.date == b.date && Text.Less(a.key, b.key) {
      Text.LessAsymmetric(a.key, b.key);
    }
  }

  lemma OlderTotal(a: Dated, b: Dated)
    ensures a == b || Older(a, b) || Older(b, a)
  {
    Text.LessTotal(a.key, b.key);
  }

  lemma OlderTransitive(a: Dated, b: Dated, c: Dated)
    requires Older(a, b) && Older(b, c)
    ensures Older(a, c)
  {
    if a.date == b.date && b.date == c.date {
      Text.LessTransitive(a.key, b.key, c.key);
    }
  }

  lemma NotNewerTransitive(a: Dated, b: Dated, c: Dated)
    requires NotNewer(a, b) && NotNewer(b, c)
    ensures NotNewer(a, c)
  {
    if a != b && b != c {
      OlderTransitive(a, b, c);
    }
  }

  /** The whole sequence is newest first: no entry is newer than one before it. */
  predicate NewestFirst(s: seq<Dated>) {
    forall i, j :: 0 <= i < j < |s| ==> NotNewer(s[j], s[i])
  }

  // ----------------------------------------------------------------- scan

  /**
   * The loop over `index_files`: the key `basename(p)[6:-6]` of each path,
   * kept with its date when `strptime(key, "%Y-%m-%d")` accepts it.
   */
  function Scan(listing: seq<string>): (r: seq<Dated>)
    ensures |r| <= |listing|
  {
    if |listing| == 0 then []
    else
      var key := DateKeyOf(listing[0]);
      var rest := Scan(listing[1..]);
      match ParseDate(key)
      case None => rest
      case Some(date) => [Dated(date, key)] + rest
  }

  /** Exactly the listed paths whose key parses make it into the scan. */
  lemma {:induction false} ScanMembers(listing: seq<string>, x: Dated)
    ensures x in Scan(listing) <==>
      (exists p :: p in listing && x.key == DateKeyOf(p)) && ParseDate(x.key) == Some(x.date)
    decreases |listing|
  {
    if |listing| > 0 {
      ScanMembers(listing[1..], x);
      assert forall p :: p in listing <==> p == listing[0] || p in listing[1..];
    }
  }

  // ----------------------------------------------------------------- sort

  /** Insert `x` into a newest-first sequence. */
  function Insert(x: Dated, s: seq<Dated>): (r: seq<Dated>)
    ensures multiset(r) == multiset(s) + multiset{x}
    decreases |s|
  {
    if |s| == 0 then [x]
    else if Older(s[0], x) then [x] + s
    else
      assert s == [s[0]] + s[1..];
      [s[0]] + Insert(x, s[1..])
  }

  lemma {:induction false} InsertSorted(x: Dated, s: seq<Dated>)
    requires NewestFirst(s)
    ensures NewestFirst(Insert(x, s))
    decreases |s|
  {
    if |s| == 0 {
    } else if Older(s[0], x) {
      InsertFront(x, s);
    } else {
      var tail := s[1..];
      assert NewestFirst(tail) by {
        forall i, j | 0 <= i < j < |tail| ensures NotNewer(tail[j], tail[i]) {
          assert tail[i] == s[i + 1] && tail[j] == s[j + 1];
        }
      }
      InsertSorted(x, tail);
      InsertBehind(x, s);
    }
  }

  /** `x` newer than the head goes first. */
  lemma InsertFront(x: Dated, s: seq<Dated>)
    requires NewestFirst(s) && |s| > 0 && Older(s[0], x)
    ensures NewestFirst([x] + s)
  {
    var r := [x] + s;
    forall i, j | 0 <= i < j < |r| ensures NotNewer(r[j], r[i]) {
      if i == 0 {
        assert r[j] == s[j - 1];
        assert NotNewer(s[j - 1], s[0]);
        NotNewerTransitive(s[j - 1], s[0], x);
      } else {
        assert r[i] == s[i - 1] && r[j] == s[j - 1];
      }
    }
  }

  /** Otherwise the head stays first, ahead of `x` inserted into the rest. */
  lemma InsertBehind(x: Dated, s: seq<Dated>)
    requires NewestFirst(s) && |s| > 0 && !Older(s[0], x)
    requires NewestFirst(Insert(x, s[1..]))
    ensures NewestFirst([s[0]] + Insert(x, s[1..]))
  {
    var ins := Insert(x, s[1..]);
    var r := [s[0]] + ins;
    HeadNewest(x, s);
    forall i, j | 0 <= i < j < |r| ensures NotNewer(r[j], r[i]) {
      if i > 0 {
        assert r[i] == ins[i - 1] && r[j] == ins[j - 1];
      } else {
        assert r[j] == ins[j - 1] && ins[j - 1] in ins;
      }
    }
  }

  /** Nothing inserted behind a head that is no older than `x` is newer than that head. */
  lemma HeadNewest(x: Dated, s: seq<Dated>)
    requires NewestFirst(s) && |s| > 0 && !Older(s[0], x)
    ensures forall y :: y in Insert(x, s[1..]) ==> NotNewer(y, s[0])
  {
    var tail := s[1..];
    OlderTotal(s[0], x);
    forall y | y in Insert(x, tail) ensures NotNewer(y, s[0]) {
      assert y in multiset(Insert(x, tail));
      if y != x {
        assert y in multiset(tail);
        var k :| 0 <= k < |tail| && tail[k] == y;
        assert NotNewer(s[k + 1], s[0]);
      }
    }
  }

  /** `dates.sort(reverse=True)` on `(date, date_str)` tuples. */
  function SortNewestFirst(xs: seq<Dated>): (r: seq<Dated>)
    ensures multiset(r) == multiset(xs)
    ensures |r| == |xs|
    decreases |xs|
  {
    if |xs| == 0 then []
    else
      assert xs == [xs[0]] + xs[1..];
      Insert(xs[0], SortNewestFirst(xs[1..]))
  }

  lemma {:induction false} SortSorted(xs: seq<Dated>)
    ensures NewestFirst(SortNewestFirst(xs))
    decreases |xs|
  {
    if |xs| > 0 {
      SortSorted(xs[1..]);
      InsertSorted(xs[0], SortNewestFirst(xs[1..]));
    }
  }

  // ------------------------------------------------------------ retention

  /** The scanned shards in the order `_initialize_indexes` visits them. */
  function Sorted(listing: seq<string>): seq<Dated> {
    SortNewestFirst(Scan(listing))
  }

  /** `dates[:max_days]`: the shards kept. */
  function Recent(listing: seq<string>, maxDays: int): seq<Dated> {
    var s := Sorted(listing);
    s[..Text.SliceStop(|s|, maxDays)]
  }

  /** `dates[max_days:]`: the shards removed. */
  function Old(listing: seq<string>, maxDays: int): seq<Dated> {
    var s := Sorted(listing);
    s[Text.SliceStop(|s|, maxDays)..]
  }

  function KeysOf(ds: seq<Dated>): (ks: seq<string>)
    ensures |ks| == |ds|
    ensures forall i :: 0 <= i < |ds| ==> ks[i] == ds[i].key
  {
    if |ds| == 0 then [] else [ds[0].key] + KeysOf(ds[1..])
  }

  /** The removal loop: `_remove_index` for every key in order. */
  function RemoveAll(s: State, ks: seq<string>): (r: State)
    ensures r.store.dir == s.store.dir && r.store.maxDays == s.store.maxDays
    decreases |ks|
  {
    if |ks| == 0 then s else RemoveAll(RemoveIndex(s, ks[0]), ks[1..])
  }

  /** The loading loop: `_load_index` for every key in order; loading never writes. */
  function LoadAll(s: State, ks: seq<string>): (r: State)
    ensures r.disk == s.disk
    ensures r.store.dir == s.store.dir && r.store.maxDays == s.store.maxDays
    ensures Inv(s.store) ==> Inv(r.store)
    ensures |r.store.keys| <= |s.store.keys| + |ks|
    decreases |ks|
  {
    if |ks| == 0 then s else LoadAll(State(LoadIndex(s.store, s.disk, ks[0]), s.disk), ks[1..])
  }

  /** The store after `__init__`, given the glob listing and today's key. */
  function Initialize(dir: string, maxDays: int, disk: Disk, listing: seq<string>, today: string): (r: State)
    ensures r.store.dir == dir && r.store.maxDays == maxDays
  {
    var removed := RemoveAll(State(EmptyStore(dir, maxDays), disk), KeysOf(Old(listing, maxDays)));
    var loaded := LoadAll(removed, KeysOf(Recent(listing, maxDays)));
    if today in loaded.store.indexes then loaded
    else State(CreateNewIndex(loaded.store, today), loaded.disk)
  }

  // ------------------------------------------------------------ properties

  /** The kept and the removed shards together are the sorted scan, and `max_days` of them are kept when that many exist. */
  lemma RetentionPartition(listing: seq<string>, maxDays: int)
    ensures Recent(listing, maxDays) + Old(listing, maxDays) == Sorted(listing)
    ensures multiset(Sorted(listing)) == multiset(Scan(listing))
    ensures maxDays >= 0 ==> |Recent(listing, maxDays)| == if maxDays < |Scan(listing)| then maxDays else |Scan(listing)|
  {
    var s := Sorted(listing);
    Seqs.SplitAt(s, Text.SliceStop(|s|, maxDays));
  }

  /** The kept shards are the newest: each is at least as new as every removed one. */
  lemma RetentionNewest(listing: seq<string>, maxDays: int)
    ensures NewestFirst(Recent(listing, maxDays)) && NewestFirst(Old(listing, maxDays))
    ensures forall i, j :: 0 <= i < |Recent(listing, maxDays)| && 0 <= j < |Old(listing, maxDays)| ==>
      NotNewer(Old(listing, maxDays)[j], Recent(listing, maxDays)[i])
  {
    var s := Sorted(listing);
    SortSorted(Scan(listing));
    SplitSorted(s, Text.SliceStop(|s|, maxDays));
  }

  /** Cutting a newest-first sequence anywhere leaves two newest-first halves, the first no older than the second. */
  lemma SplitSorted(s: seq<Dated>, c: nat)
    requires NewestFirst(s) && c <= |s|
    ensures s[..c] + s[c..] == s
    ensures NewestFirst(s[..c]) && NewestFirst(s[c..])
    ensures forall i, j :: 0 <= i < c && 0 <= j < |s| - c ==> NotNewer(s[c..][j], s[..c][i])
  {
    assert s[..c] + s[c..] == s;
    forall i, j | 0 <= i < c && 0 <= j < |s| - c ensures NotNewer(s[c..][j], s[..c][i]) {
      assert s[..c][i] == s[i] && s[c..][j] == s[c + j];
    }
    assert NewestFirst(s[..c]) by {
      forall i, j | 0 <= i < j < |s[..c]| ensures NotNewer(s[..c][j], s[..c][i]) {
        assert s[..c][i] == s[i] && s[..c][j] == s[j];
      }
    }
    assert NewestFirst(s[c..]) by {
      forall i, j | 0 <= i < j < |s[c..]| ensures NotNewer(s[c..][j], s[c..][i]) {
        assert s[c..][i] == s[c + i] && s[c..][j] == s[c + j];
      }
    }
  }

  /** Removing from the empty startup store leaves it empty. */
  lemma {:induction false} RemoveAllKeepsEmpty(s: State, ks: seq<string>)
    requires s.store == EmptyStore(s.store.dir, s.store.maxDays)
    ensures RemoveAll(s, ks).store == s.store
    decreases |ks|
  {
    if |ks| > 0 {
      var s1 := RemoveIndex(s, ks[0]);
      assert s1.store.keys == [] && s1.store.indexes == map[] && s1.store.metadata == map[];
      RemoveAllKeepsEmpty(s1, ks[1..]);
    }
  }

  /** The removal loop touches only the files of the keys it removes. */
  lemma {:induction false} RemoveAllFrame(s: State, ks: seq<string>)
    ensures SameOutside(s.disk, RemoveAll(s, ks).disk, PathsOf(s.store.dir, ks))
    decreases |ks|
  {
    if |ks| > 0 {
      var s1 := RemoveIndex(s, ks[0]);
      RemoveAllFrame(s1, ks[1..]);
      assert PathsOf(s.store.dir, ks) ==
        {IndexPath(s.store.dir, ks[0]), MetadataPath(s.store.dir, ks[0])} + PathsOf(s.store.dir, ks[1..]);
      SameOutsideTrans(s.disk, s1.disk, RemoveAll(s1, ks[1..]).disk,
        {IndexPath(s.store.dir, ks[0]), MetadataPath(s.store.dir, ks[0])}, PathsOf(s.store.dir, ks[1..]));
    }
  }

  /** The two files of every key in `ks`. */
  function PathsOf(dir: string, ks: seq<string>): (ps: set<string>)
    ensures forall k :: k in ks ==> IndexPath(dir, k) in ps && MetadataPath(dir, k) in ps
    decreases |ks|
  {
    if |ks| == 0 then {} else {IndexPath(dir, ks[0]), MetadataPath(dir, ks[0])} + PathsOf(dir, ks[1..])
  }

  /** A key's files are among those of `ks` only when the key itself is. */
  lemma {:induction false} PathsOfMembers(dir: string, ks: seq<string>, d: string)
    ensures IndexPath(dir, d) in PathsOf(dir, ks) ==> d in ks
    ensures MetadataPath(dir, d) in PathsOf(dir, ks) ==> d in ks
    decreases |ks|
  {
    if |ks| > 0 {
      PathsDistinct(dir, d, ks[0]);
      PathsDistinct(dir, ks[0], d);
      PathsOfMembers(dir, ks[1..], d);
    }
  }

  /** Every removed key whose files are writable has lost both files. */
  lemma {:induction false} RemoveAllRemoves(s: State, ks: seq<string>, d: string)
    requires d in ks
    requires IndexPath(s.store.dir, d) !in s.disk.locked && MetadataPath(s.store.dir, d) !in s.disk.locked
    ensures IndexPath(s.store.dir, d) !in RemoveAll(s, ks).disk.files
    ensures MetadataPath(s.store.dir, d) !in RemoveAll(s, ks).disk.files
    decreases |ks|
  {
    var s1 := RemoveIndex(s, ks[0]);
    if ks[0] == d {
      RemoveAllFrame(s1, ks[1..]);
      RemoveAllNeverAdds(s1, ks[1..]);
    } else {
      RemoveAllRemoves(s1, ks[1..], d);
    }
  }

  /** Removal never creates a file. */
  lemma {:induction false} RemoveAllNeverAdds(s: State, ks: seq<string>)
    ensures RemoveAll(s, ks).disk.files.Keys <= s.disk.files.Keys
    ensures forall p :: p in RemoveAll(s, ks).disk.files ==> RemoveAll(s, ks).disk.files[p] == s.disk.files[p]
    decreases |ks|
  {
    if |ks| > 0 {
      RemoveAllNeverAdds(RemoveIndex(s, ks[0]), ks[1..]);
    }
  }

  /** After removal a shard reads either as before or not at all: removal can destroy a shard but never alter one. */
  lemma RemoveAllReads(s: State, ks: seq<string>, d: string)
    ensures ReadShard(RemoveAll(s, ks).disk, s.store.dir, d).Some? ==>
      ReadShard(RemoveAll(s, ks).disk, s.store.dir, d) == ReadShard(s.disk, s.store.dir, d)
  {
    RemoveAllNeverAdds(s, ks);
    var disk' := RemoveAll(s, ks).disk;
    var ip, mp := IndexPath(s.store.dir, d), MetadataPath(s.store.dir, d);
    if ReadShard(disk', s.store.dir, d).Some? && mp !in disk'.files && mp in s.disk.files {
      // The metadata file went away while the index stayed: only a locked index stops a removal,
      // and a locked index stops the metadata removal too.
      RemoveAllMetadataFollowsIndex(s, ks, d);
    }
  }

  /** A removal loop that leaves an index file in place also leaves that key's metadata file in place. */
  lemma {:induction false} RemoveAllMetadataFollowsIndex(s: State, ks: seq<string>, d: string)
    requires IndexPath(s.store.dir, d) in RemoveAll(s, ks).disk.files
    ensures MetadataPath(s.store.dir, d) in s.disk.files ==> MetadataPath(s.store.dir, d) in RemoveAll(s, ks).disk.files
    decreases |ks|
  {
    if |ks| > 0 {
      var s1 := RemoveIndex(s, ks[0]);
      RemoveAllNeverAdds(s1, ks[1..]);
      RemoveAllMetadataFollowsIndex(s1, ks[1..], d);
      PathsDistinct(s.store.dir, d, ks[0]);
      PathsDistinct(s.store.dir, ks[0], d);
    }
  }

  /** What the loading loop leaves: a key is present iff it was already, or it is loaded and its shard reads. */
  lemma {:induction false} LoadAllMembers(s: State, ks: seq<string>, d: string)
    ensures d in LoadAll(s, ks).store.indexes <==>
      d in s.store.indexes || (d in ks && ReadShard(s.disk, s.store.dir, d).Some?)
    ensures d in LoadAll(s, ks).store.metadata <==>
      d in s.store.metadata || (d in ks && ReadShard(s.disk, s.store.dir, d).Some?)
    ensures d in ks && ReadShard(s.disk, s.store.dir, d).Some? ==>
      d in LoadAll(s, ks).store.metadata
      && LoadAll(s, ks).store.indexes[d] == ReadShard(s.disk, s.store.dir, d).value.0
      && LoadAll(s, ks).store.metadata[d] == ReadShard(s.disk, s.store.dir, d).value.1
    ensures d !in ks && d in s.store.indexes ==> LoadAll(s, ks).store.indexes[d] == s.store.indexes[d]
    ensures d !in ks && d in s.store.metadata ==> LoadAll(s, ks).store.metadata[d] == s.store.metadata[d]
    decreases |ks|
  {
    if |ks| > 0 {
      var s1 := State(LoadIndex(s.store, s.disk, ks[0]), s.disk);
      LoadAllMembers(s1, ks[1..], d);
      assert forall k :: k in ks <==> k == ks[0] || k in ks[1..];
    }
  }

  /** Every loaded shard that reads aligned from disk stays aligned in memory. */
  lemma {:induction false} LoadAllAligned(s: State, ks: seq<string>)
    requires Aligned(s.store)
    requires forall k :: k in ks ==> ReadsAligned(s.disk, s.store.dir, k)
    ensures Aligned(LoadAll(s, ks).store)
    decreases |ks|
  {
    if |ks| > 0 {
      assert ReadsAligned(s.disk, s.store.dir, ks[0]);
      LoadAllAligned(State(LoadIndex(s.store, s.disk, ks[0]), s.disk), ks[1..]);
    }
  }

  /** The shard stored under `d` holds one metadata record per vector. */
  predicate ReadsAligned(disk: Disk, dir: string, d: string) {
    var r := ReadShard(disk, dir, d);
    r.Some? ==> NTotal(r.value.0) == |r.value.1|
  }

  /** After startup the invariant holds and today's shard exists; if it could not be loaded, it is empty and 768 wide. */
  lemma InitializeToday(dir: string, maxDays: int, disk: Disk, listing: seq<string>, today: string)
    ensures var r := Initialize(dir, maxDays, disk, listing, today);
      Inv(r.store) && today in r.store.indexes && today in r.store.metadata
    ensures var r := Initialize(dir, maxDays, disk, listing, today);
      today !in KeysOf(Recent(listing, maxDays)) || ReadShard(disk, dir, today).None? ==>
        r.store.indexes[today] == FlatIndex(NewIndexDimension, []) && r.store.metadata[today] == []
  {
    var s0 := State(EmptyStore(dir, maxDays), disk);
    var removed := RemoveAll(s0, KeysOf(Old(listing, maxDays)));
    RemoveAllKeepsEmpty(s0, KeysOf(Old(listing, maxDays)));
    var ks := KeysOf(Recent(listing, maxDays));
    LoadAllMembers(removed, ks, today);
    RemoveAllReads(s0, KeysOf(Old(listing, maxDays)), today);
  }

  /**
   * After startup the shards in memory are today's and those among the kept
   * keys that read from disk: a kept key that is not also listed for removal
   * is present iff its files read, and then holds exactly what they hold.
   */
  lemma InitializeLoads(dir: string, maxDays: int, disk: Disk, listing: seq<string>, today: string, d: string)
    ensures var r := Initialize(dir, maxDays, disk, listing, today);
      d in r.store.indexes ==> d == today || d in KeysOf(Recent(listing, maxDays))
    ensures var r := Initialize(dir, maxDays, disk, listing, today);
      d != today && d in KeysOf(Recent(listing, maxDays)) && d !in KeysOf(Old(listing, maxDays)) ==>
        (d in r.store.indexes <==> ReadShard(disk, dir, d).Some?)
        && (d in r.store.indexes ==>
              d in r.store.metadata
              && r.store.indexes[d] == ReadShard(disk, dir, d).value.0
              && r.store.metadata[d] == ReadShard(disk, dir, d).value.1)
  {
    var s0 := State(EmptyStore(dir, maxDays), disk);
    var olds := KeysOf(Old(listing, maxDays));
    var removed := RemoveAll(s0, olds);
    RemoveAllKeepsEmpty(s0, olds);
    LoadAllMembers(removed, KeysOf(Recent(listing, maxDays)), d);
    if d !in olds {
      RemoveAllFrame(s0, olds);
      PathsOfMembers(dir, olds, d);
      assert ReadShard(removed.disk, dir, d) == ReadShard(disk, dir, d);
    }
  }

  /** At most one shard per kept key, plus today's: startup never holds more than `max_days + 1` shards. */
  lemma InitializeBound(dir: string, maxDays: int, disk: Disk, listing: seq<string>, today: string)
    ensures |Initialize(dir, maxDays, disk, listing, today).store.keys| <= |Recent(listing, maxDays)| + 1
    ensures maxDays >= 0 ==> |Initialize(dir, maxDays, disk, listing, today).store.keys| <= maxDays + 1
  {
    var s0 := State(EmptyStore(dir, maxDays), disk);
    RemoveAllKeepsEmpty(s0, KeysOf(Old(listing, maxDays)));
    RetentionPartition(listing, maxDays);
  }

  /**
   * Startup only ever deletes the files of removed keys: every other file,
   * including those of names that do not parse as dates, is left as it was,
   * and every removed key whose files are writable has lost both of them.
   */
  lemma InitializeDisk(dir: string, maxDays: int, disk: Disk, listing: seq<string>, today: string)
    ensures SameOutside(disk, Initialize(dir, maxDays, disk, listing, today).disk, PathsOf(dir, KeysOf(Old(listing, maxDays))))
    ensures forall d :: d in KeysOf(Old(listing, maxDays)) && IndexPath(dir, d) !in disk.locked && MetadataPath(dir, d) !in disk.locked ==>
      IndexPath(dir, d) !in Initialize(dir, maxDays, disk, listing, today).disk.files
      && MetadataPath(dir, d) !in Initialize(dir, maxDays, disk, listing, today).disk.files
  {
    var s0 := State(EmptyStore(dir, maxDays), disk);
    var olds := KeysOf(Old(listing, maxDays));
    RemoveAllFrame(s0, olds);
    forall d | d in olds && IndexPath(dir, d) !in disk.locked && MetadataPath(dir, d) !in disk.locked
      ensures IndexPath(dir, d) !in RemoveAll(s0, olds).disk.files && MetadataPath(dir, d) !in RemoveAll(s0, olds).disk.files
    {
      RemoveAllRemoves(s0, olds, d);
    }
  }

  /** A name that does not parse as a date is neither loaded nor deleted. */
  lemma UnparseableUntouched(dir: string, maxDays: int, disk: Disk, listing: seq<string>, today: string, x: string)
    requires ParseDate(x).None? && x != today
    ensures var r := Initialize(dir, maxDays, disk, listing, today);
      x !in r.store.indexes
      && (IndexPath(dir, x) in r.disk.files <==> IndexPath(dir, x) in disk.files)
      && (MetadataPath(dir, x) in r.disk.files <==> MetadataPath(dir, x) in disk.files)
  {
    UnparseableNotKept(listing, maxDays, x);
    InitializeDisk(dir, maxDays, disk, listing, today);
    PathsOfMembers(dir, KeysOf(Old(listing, maxDays)), x);
    InitializeLoads(dir, maxDays, disk, listing, today, x);
  }

  /** Every sorted entry came from a listed name whose key parses to its date. */
  lemma SortedParses(listing: seq<string>, e: Dated)
    requires e in Sorted(listing)
    ensures ParseDate(e.key) == Some(e.date)
  {
    assert e in multiset(Sorted(listing));
    assert e in multiset(Scan(listing));
    ScanMembers(listing, e);
  }

  /** A name that does not parse as a date is neither kept nor removed. */
  lemma UnparseableNotKept(listing: seq<string>, maxDays: int, x: string)
    requires ParseDate(x).None?
    ensures x !in KeysOf(Old(listing, maxDays)) && x !in KeysOf(Recent(listing, maxDays))
  {
    var s, recents, olds := Sorted(listing), Recent(listing, maxDays), Old(listing, maxDays);
    RetentionPartition(listing, maxDays);
    forall i | 0 <= i < |recents| ensures KeysOf(recents)[i] != x {
      assert recents[i] == s[i];
      SortedParses(listing, recents[i]);
    }
    forall i | 0 <= i < |olds| ensures KeysOf(olds)[i] != x {
      assert olds[i] == s[|recents| + i];
      SortedParses(listing, olds[i]);
    }
  }

  /** When every kept shard reads aligned from disk, the started store is aligned. */
  lemma InitializeAligned(dir: string, maxDays: int, disk: Disk, listing: seq<string>, today: string)
    requires forall d :: d in KeysOf(Recent(listing, maxDays)) ==> ReadsAligned(disk, dir, d)
    ensures Aligned(Initialize(dir, maxDays, disk, listing, today).store)
  {
    var s0 := State(EmptyStore(dir, maxDays), disk);
    var olds := KeysOf(Old(listing, maxDays));
    var removed := RemoveAll(s0, olds);
    RemoveAllKeepsEmpty(s0, olds);
    forall d | d in KeysOf(Recent(listing, maxDays)) ensures ReadsAligned(removed.disk, dir, d) {
      RemoveAllReads(s0, olds, d);
    }
    LoadAllAligned(removed, KeysOf(Recent(listing, maxDays)));
  }
}
