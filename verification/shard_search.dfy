/**
 * `FaissManager.search`: every non-empty shard is asked for its own
 * `min(k, ntotal)` nearest vectors, the hits of all shards are concatenated
 * in dict order, sorted by distance, and cut to `k`.
 *
 * FAISS's nearest-neighbour search is foreign: it is the `knn` parameter,
 * and the lemmas that need it to be exact say so in a hypothesis.
 */
module ShardSearch {
  import opened Wrappers
  import opened Json
  import opened FaissStore
  import Text
  import TopK

  /** One row of `index.search`'s answer: a distance and a label, `-1` meaning no match. */
  datatype Hit = Hit(distance: real, idx: int)

  /** One entry of `all_results`: the record, its distance and the shard's key. */
  datatype Found = Found(meta: Value, distance: real, date: string)

  /** The nearest-neighbour search of one index: `(index, query, k)` to its hits. */
  type Oracle = (FlatIndex, Vector, int) -> seq<Hit>

  /** Squared Euclidean distance, which is what `IndexFlatL2` reports. */
  function SqL2(a: Vector, b: Vector): (r: real)
    ensures r >= 0.0
    decreases |a|
  {
    if |a| == 0 || |b| == 0 then 0.0
    else (a[0] - b[0]) * (a[0] - b[0]) + SqL2(a[1..], b[1..])
  }

  /** The distance from `q` to every vector of a shard, in label order. */
  function ShardDists(ix: FlatIndex, q: Vector): (r: seq<real>)
    ensures |r| == NTotal(ix)
    ensures forall i :: 0 <= i < |r| ==> r[i] == SqL2(ix.vectors[i], q)
  {
    seq(|ix.vectors|, i requires 0 <= i < |ix.vectors| => SqL2(ix.vectors[i], q))
  }

  /** The distance column of `index.search`'s answer. */
  function HitDists(hits: seq<Hit>): (r: seq<real>)
    ensures |r| == |hits|
    ensures forall i :: 0 <= i < |hits| ==> r[i] == hits[i].distance
  {
    seq(|hits|, i requires 0 <= i < |hits| => hits[i].distance)
  }

  /** The distances of the gathered results, in order. */
  function FoundDists(xs: seq<Found>): (r: seq<real>)
    ensures |r| == |xs|
  {
    if |xs| == 0 then [] else [xs[0].distance] + FoundDists(xs[1..])
  }

  lemma {:induction false} FoundDistsAt(xs: seq<Found>, i: int)
    requires 0 <= i < |xs|
    ensures FoundDists(xs)[i] == xs[i].distance
    decreases i
  {
    if i > 0 {
      FoundDistsAt(xs[1..], i - 1);
    }
  }

  lemma {:induction false} FoundDistsAppend(a: seq<Found>, b: seq<Found>)
    ensures FoundDists(a + b) == FoundDists(a) + FoundDists(b)
    decreases |a|
  {
    if |a| > 0 {
      assert (a + b)[1..] == a[1..] + b;
      FoundDistsAppend(a[1..], b);
    } else {
      assert a + b == b;
    }
  }

  /** Python's `xs[i]` on a list: negative indices count from the end, and `None` is an `IndexError`. */
  function PyIndex<T>(xs: seq<T>, i: int): (r: Option<T>)
    ensures 0 <= i < |xs| ==> r == Some(xs[i])
    ensures r.None? <==> i >= |xs| || i < -|xs|
  {
    if 0 <= i < |xs| then Some(xs[i])
    else if -|xs| <= i < 0 then Some(xs[|xs| + i])
    else None
  }

  /**
   * The inner loop over one shard's hits: a `-1` label is skipped, any other
   * label looks up `self.metadata[date_str][idx]`, which raises (`None`) when
   * the shard has no metadata list or the label is out of its range.
   */
  function Collect(hits: seq<Hit>, meta: Option<seq<Value>>, d: string): (r: Option<seq<Found>>)
    ensures r.Some? ==> |r.value| <= |hits|
    decreases |hits|
  {
    if |hits| == 0 then Some([])
    else
      var rest := Collect(hits[1..], meta, d);
      if hits[0].idx == -1 then rest
      else if meta.None? || PyIndex(meta.value, hits[0].idx).None? || rest.None? then None
      else Some([Found(PyIndex(meta.value, hits[0].idx).value, hits[0].distance, d)] + rest.value)
  }

  /** The number each non-empty shard is asked for: `min(k, index.ntotal)`. */
  function Ask(k: int, n: nat): int {
    if k < n then k else n
  }

  /**
   * The outer loop, over the keys in dict order. A shard is skipped when
   * empty; otherwise FAISS raises on a query of the wrong width or a
   * non-positive count, and a bad label raises in `Collect`.
   */
  function Gather(st: Store, q: Vector, k: int, knn: Oracle, ks: seq<string>): (r: Result<seq<Found>, string>)
    decreases |ks|
  {
    if |ks| == 0 then Success([])
    else
      var d := ks[0];
      var rest := Gather(st, q, k, knn, ks[1..]);
      if d !in st.indexes || NTotal(st.indexes[d]) == 0 then rest
      else
        var ix := st.indexes[d];
        if |q| != ix.dim then Failure("query width differs from the index dimension")
        else if Ask(k, NTotal(ix)) <= 0 then Failure("k must be positive")
        else
          var meta := if d in st.metadata then Some(st.metadata[d]) else None;
          match Collect(knn(ix, q, Ask(k, NTotal(ix))), meta, d)
          case None => Failure("metadata index out of range")
          case Some(found) =>
            if rest.Failure? then rest else Success(found + rest.value)
  }

  /** Insert `x` ahead of the first entry at least as far; since `x` arrived first, equal distances keep arrival order. */
  function InsertByDistance(x: Found, s: seq<Found>): (r: seq<Found>)
    ensures |r| == |s| + 1
    decreases |s|
  {
    if |s| == 0 then [x]
    else if x.distance <= s[0].distance then [x] + s
    else [s[0]] + InsertByDistance(x, s[1..])
  }

  lemma {:induction false} InsertByDistancePermutes(x: Found, s: seq<Found>)
    ensures multiset(InsertByDistance(x, s)) == multiset(s) + multiset{x}
    decreases |s|
  {
    if |s| > 0 && x.distance > s[0].distance {
      InsertByDistancePermutes(x, s[1..]);
      assert s == [s[0]] + s[1..];
    }
  }

  /** Inserting moves distances around but neither adds nor loses one. */
  lemma {:induction false} InsertByDistanceDists(x: Found, s: seq<Found>)
    ensures multiset(FoundDists(InsertByDistance(x, s))) == multiset(FoundDists(s)) + multiset{x.distance}
    decreases |s|
  {
    if |s| > 0 && x.distance > s[0].distance {
      InsertByDistanceDists(x, s[1..]);
      var r := [s[0]] + InsertByDistance(x, s[1..]);
      assert r[1..] == InsertByDistance(x, s[1..]);
    } else if |s| > 0 {
      assert ([x] + s)[1..] == s;
    }
  }

  predicate ByDistance(s: seq<Found>) {
    forall i, j :: 0 <= i <= j < |s| ==> s[i].distance <= s[j].distance
  }

  lemma {:induction false} InsertByDistanceSorted(x: Found, s: seq<Found>)
    requires ByDistance(s)
    ensures ByDistance(InsertByDistance(x, s))
    decreases |s|
  {
    if |s| > 0 && x.distance > s[0].distance {
      var tail := s[1..];
      InsertByDistanceSorted(x, tail);
      var ins := InsertByDistance(x, tail);
      InsertByDistancePermutes(x, tail);
      forall j | 0 <= j < |ins| ensures s[0].distance <= ins[j].distance {
        assert ins[j] in multiset(ins);
        if ins[j] != x {
          assert ins[j] in multiset(tail);
          var m :| 0 <= m < |tail| && tail[m] == ins[j];
          assert tail[m] == s[m + 1];
        }
      }
    }
  }

  /** `all_results.sort(key=lambda x: x["distance"])`: a stable sort by distance. */
  function SortByDistance(xs: seq<Found>): (r: seq<Found>)
    ensures |r| == |xs|
    decreases |xs|
  {
    if |xs| == 0 then [] else InsertByDistance(xs[0], SortByDistance(xs[1..]))
  }

  /** The sort is a permutation of the gathered results. */
  lemma {:induction false} SortByDistancePermutes(xs: seq<Found>)
    ensures multiset(SortByDistance(xs)) == multiset(xs)
    decreases |xs|
  {
    if |xs| > 0 {
      SortByDistancePermutes(xs[1..]);
      InsertByDistancePermutes(xs[0], SortByDistance(xs[1..]));
      assert xs == [xs[0]] + xs[1..];
    }
  }

  /** Sorting keeps the multiset of distances. */
  lemma {:induction false} SortByDistanceDists(xs: seq<Found>)
    ensures multiset(FoundDists(SortByDistance(xs))) == multiset(FoundDists(xs))
    decreases |xs|
  {
    if |xs| > 0 {
      SortByDistanceDists(xs[1..]);
      InsertByDistanceDists(xs[0], SortByDistance(xs[1..]));
    }
  }

  lemma {:induction false} SortByDistanceSorted(xs: seq<Found>)
    ensures ByDistance(SortByDistance(xs))
    decreases |xs|
  {
    if |xs| > 0 {
      SortByDistanceSorted(xs[1..]);
      InsertByDistanceSorted(xs[0], SortByDistance(xs[1..]));
    }
  }

  function Metas(xs: seq<Found>): (r: seq<Value>)
    ensures |r| == |xs|
    ensures forall i :: 0 <= i < |xs| ==> r[i] == xs[i].meta
  {
    seq(|xs|, i requires 0 <= i < |xs| => xs[i].meta)
  }

  /** `search(query_vector, k)`: parallel lists of records and distances, or the exception raised. */
  function Search(st: Store, q: Vector, k: int, knn: Oracle): (r: Result<(seq<Value>, seq<real>), string>)
  {
    match Gather(st, q, k, knn, st.keys)
    case Failure(e) => Failure(e)
    case Success(all) =>
      var sorted := SortByDistance(all);
      var top := sorted[..Text.SliceStop(|sorted|, k)];
      Success((Metas(top), FoundDists(top)))
  }

  // ------------------------------------------------------------ properties

  /** A failure-free gather with `k <= 0` found nothing: every shard was empty. */
  lemma {:induction false} GatherNonPositive(st: Store, q: Vector, k: int, knn: Oracle, ks: seq<string>)
    requires k <= 0 && Gather(st, q, k, knn, ks).Success?
    ensures Gather(st, q, k, knn, ks).value == []
    decreases |ks|
  {
    if |ks| > 0 {
      GatherNonPositive(st, q, k, knn, ks[1..]);
    }
  }

  /**
   * The two lists are parallel, at most `k` long (empty for `k <= 0`), and
   * the distances never decrease along them.
   */
  lemma SearchShape(st: Store, q: Vector, k: int, knn: Oracle)
    requires Search(st, q, k, knn).Success?
    ensures var (metas, dists) := Search(st, q, k, knn).value;
      |metas| == |dists|
      && (k > 0 ==> |dists| <= k)
      && (k <= 0 ==> |dists| == 0)
      && TopK.Ascending(dists)
  {
    var all := Gather(st, q, k, knn, st.keys).value;
    if k <= 0 {
      GatherNonPositive(st, q, k, knn, st.keys);
    }
    var sorted := SortByDistance(all);
    SortByDistanceSorted(all);
    var top := sorted[..Text.SliceStop(|sorted|, k)];
    var ds := FoundDists(top);
    forall i, j | 0 <= i <= j < |ds| ensures ds[i] <= ds[j] {
      FoundDistsAt(top, i);
      FoundDistsAt(top, j);
      assert top[i] == sorted[i] && top[j] == sorted[j];
    }
  }

  /** Every shard empty (or no shard at all): the search answers `([], [])` without asking FAISS anything. */
  lemma {:induction false} SearchAllEmpty(st: Store, q: Vector, k: int, knn: Oracle)
    requires forall d :: d in st.indexes ==> NTotal(st.indexes[d]) == 0
    ensures Search(st, q, k, knn) == Success(([], []))
  {
    GatherAllEmpty(st, q, k, knn, st.keys);
  }

  lemma {:induction false} GatherAllEmpty(st: Store, q: Vector, k: int, knn: Oracle, ks: seq<string>)
    requires forall d :: d in st.indexes ==> NTotal(st.indexes[d]) == 0
    ensures Gather(st, q, k, knn, ks) == Success([])
    decreases |ks|
  {
    if |ks| > 0 {
      GatherAllEmpty(st, q, k, knn, ks[1..]);
    }
  }

  // ------------------------------------------------------- merge theorem

  /**
   * `knn` answers exactly on one index: the distances it returns are the
   * `count` smallest of the index, and every label names one of its vectors.
   */
  ghost predicate ExactOn(knn: Oracle, ix: FlatIndex, q: Vector, count: int) {
    var hits := knn(ix, q, count);
    count >= 0
    && HitDists(hits) == TopK.Smallest(multiset(ShardDists(ix, q)), count)
    && forall i :: 0 <= i < |hits| ==> 0 <= hits[i].idx < NTotal(ix)
  }

  /** `knn` answers exactly on every non-empty shard the search will ask, and the query has every shard's width. */
  ghost predicate ExactOracle(knn: Oracle, st: Store, q: Vector, k: int) {
    forall d :: d in st.indexes && NTotal(st.indexes[d]) > 0 ==>
      |q| == st.indexes[d].dim && ExactOn(knn, st.indexes[d], q, Ask(k, NTotal(st.indexes[d])))
  }

  /** The distances of shard `d` to `q`; a key absent from the dict counts as an empty shard. */
  function Part(st: Store, q: Vector, d: string): multiset<real> {
    if d in st.indexes then multiset(ShardDists(st.indexes[d], q)) else multiset{}
  }

  function Parts(st: Store, q: Vector, ks: seq<string>): (ps: seq<multiset<real>>)
    ensures |ps| == |ks|
  {
    if |ks| == 0 then [] else [Part(st, q, ks[0])] + Parts(st, q, ks[1..])
  }

  /** All stored distances to `q` over the whole store. */
  function AllDists(st: Store, q: Vector): multiset<real> {
    TopK.Union(Parts(st, q, st.keys))
  }

  /** With valid labels no hit is dropped, and the results carry the hits' distances. */
  lemma {:induction false} CollectExact(hits: seq<Hit>, meta: seq<Value>, d: string)
    requires forall i :: 0 <= i < |hits| ==> 0 <= hits[i].idx < |meta|
    ensures Collect(hits, Some(meta), d).Some?
    ensures FoundDists(Collect(hits, Some(meta), d).value) == HitDists(hits)
    decreases |hits|
  {
    if |hits| > 0 {
      CollectExact(hits[1..], meta, d);
      var rest := Collect(hits[1..], Some(meta), d).value;
      var x := Found(meta[hits[0].idx], hits[0].distance, d);
      assert ([x] + rest)[1..] == rest;
      assert HitDists(hits) == [hits[0].distance] + HitDists(hits[1..]);
    }
  }

  /** One shard's contribution under an exact oracle: its own `k` smallest distances. */
  lemma ShardContribution(st: Store, q: Vector, k: int, knn: Oracle, d: string)
    requires k > 0 && Inv(st) && Aligned(st) && ExactOracle(knn, st, q, k)
    requires d in st.indexes && NTotal(st.indexes[d]) > 0
    ensures d in st.metadata
    ensures var ix := st.indexes[d];
      Collect(knn(ix, q, Ask(k, NTotal(ix))), Some(st.metadata[d]), d).Some?
      && FoundDists(Collect(knn(ix, q, Ask(k, NTotal(ix))), Some(st.metadata[d]), d).value)
         == TopK.Smallest(multiset(ShardDists(ix, q)), k)
  {
    var ix := st.indexes[d];
    var count := Ask(k, NTotal(ix));
    CollectExact(knn(ix, q, count), st.metadata[d], d);
    TopK.SmallestCapped(multiset(ShardDists(ix, q)), k);
    assert |multiset(ShardDists(ix, q))| == NTotal(ix);
  }

  /** One step of the gather under an exact oracle: the first shard's `k` smallest, then the rest. */
  lemma GatherCons(st: Store, q: Vector, k: int, knn: Oracle, ks: seq<string>)
    requires k > 0 && Inv(st) && Aligned(st) && ExactOracle(knn, st, q, k) && |ks| > 0
    requires Gather(st, q, k, knn, ks[1..]).Success?
    ensures Gather(st, q, k, knn, ks).Success?
    ensures FoundDists(Gather(st, q, k, knn, ks).value)
      == TopK.Smallest(Part(st, q, ks[0]), k) + FoundDists(Gather(st, q, k, knn, ks[1..]).value)
  {
    var d := ks[0];
    var rest := Gather(st, q, k, knn, ks[1..]).value;
    if d !in st.indexes || NTotal(st.indexes[d]) == 0 {
      assert Part(st, q, d) == multiset{};
      assert TopK.Smallest(multiset{}, k) == [];
    } else {
      ShardContribution(st, q, k, knn, d);
      var ix := st.indexes[d];
      var found := Collect(knn(ix, q, Ask(k, NTotal(ix))), Some(st.metadata[d]), d).value;
      assert Gather(st, q, k, knn, ks).value == found + rest;
      FoundDistsAppend(found, rest);
    }
  }

  lemma UnionCutCons(parts: seq<multiset<real>>, k: nat)
    requires |parts| > 0
    ensures TopK.Union(TopK.CutEach(parts, k)) == multiset(TopK.Smallest(parts[0], k)) + TopK.Union(TopK.CutEach(parts[1..], k))
  {
    assert TopK.CutEach(parts, k)[1..] == TopK.CutEach(parts[1..], k);
  }

  /** Under an exact oracle the gather succeeds and yields, per shard, that shard's `k` smallest distances. */
  lemma {:induction false} GatherExact(st: Store, q: Vector, k: int, knn: Oracle, ks: seq<string>)
    requires k > 0 && Inv(st) && Aligned(st) && ExactOracle(knn, st, q, k)
    ensures Gather(st, q, k, knn, ks).Success?
    ensures multiset(FoundDists(Gather(st, q, k, knn, ks).value)) == TopK.Union(TopK.CutEach(Parts(st, q, ks), k))
    decreases |ks|
  {
    if |ks| > 0 {
      GatherExact(st, q, k, knn, ks[1..]);
      GatherCons(st, q, k, knn, ks);
      UnionCutCons(Parts(st, q, ks), k);
      assert Parts(st, q, ks)[1..] == Parts(st, q, ks[1..]);
      assert Parts(st, q, ks)[0] == Part(st, q, ks[0]);
    }
  }

  /** The sorted results cut to `k` carry the `k` smallest gathered distances. */
  lemma SortedTopIsSmallest(all: seq<Found>, k: int)
    requires k > 0
    ensures var sorted := SortByDistance(all);
      FoundDists(sorted[..Text.SliceStop(|sorted|, k)]) == TopK.Smallest(multiset(FoundDists(all)), k)
  {
    var sorted := SortByDistance(all);
    SortByDistanceSorted(all);
    SortByDistanceDists(all);
    var ds := FoundDists(sorted);
    assert TopK.Ascending(ds) by {
      forall i, j | 0 <= i <= j < |ds| ensures ds[i] <= ds[j] {
        FoundDistsAt(sorted, i);
        FoundDistsAt(sorted, j);
      }
    }
    var n := Text.SliceStop(|sorted|, k);
    assert FoundDists(sorted[..n]) == ds[..n] by {
      assert sorted == sorted[..n] + sorted[n..];
      FoundDistsAppend(sorted[..n], sorted[n..]);
    }
    TopK.AscendingPrefixIsSmallest(ds, k);
  }

  /**
   * Merge correctness: when FAISS answers each shard exactly, the distances
   * `search` returns are exactly the `k` smallest distances over every
   * vector of every shard, as if all shards were one index.
   */
  lemma SearchIsGlobalTopK(st: Store, q: Vector, k: int, knn: Oracle)
    requires k > 0 && Inv(st) && Aligned(st) && ExactOracle(knn, st, q, k)
    ensures Search(st, q, k, knn).Success?
    ensures Search(st, q, k, knn).value.1 == TopK.Smallest(AllDists(st, q), k)
  {
    GatherExact(st, q, k, knn, st.keys);
    SortedTopIsSmallest(Gather(st, q, k, knn, st.keys).value, k);
    TopK.LocalThenGlobal(Parts(st, q, st.keys), k);
  }

  /**
   * Alignment cannot be dropped from the merge theorem: a non-empty shard
   * whose metadata list is empty (a missing metadata file, see
   * `FaissStore.LoadWithoutMetadataMisaligns`) makes even an exact answer's
   * first label index past the list, and the whole search raises.
   */
  lemma MisalignedShardRaises(st: Store, q: Vector, k: int, knn: Oracle, d: string)
    requires k > 0 && Inv(st) && ExactOracle(knn, st, q, k)
    requires d in st.indexes && NTotal(st.indexes[d]) > 0 && st.metadata[d] == []
    ensures Search(st, q, k, knn).Failure?
  {
    ShardRaises(st, q, k, knn, d);
    GatherRaises(st, q, k, knn, st.keys, d);
  }

  /** The exact answer on such a shard is not empty, and no label of it indexes the empty list. */
  lemma ShardRaises(st: Store, q: Vector, k: int, knn: Oracle, d: string)
    requires k > 0 && Inv(st) && ExactOracle(knn, st, q, k)
    requires d in st.indexes && NTotal(st.indexes[d]) > 0 && st.metadata[d] == []
    ensures var ix := st.indexes[d];
      Collect(knn(ix, q, Ask(k, NTotal(ix))), Some(st.metadata[d]), d).None?
  {
    var ix := st.indexes[d];
    var count := Ask(k, NTotal(ix));
    var hits := knn(ix, q, count);
    TopK.SmallestLength(multiset(ShardDists(ix, q)), count);
    assert |multiset(ShardDists(ix, q))| == NTotal(ix);
    assert |HitDists(hits)| > 0;
    assert hits[0].idx >= 0;
    assert PyIndex(st.metadata[d], hits[0].idx).None?;
  }

  /** A shard that raises makes the gather over any key list holding it raise. */
  lemma {:induction false} GatherRaises(st: Store, q: Vector, k: int, knn: Oracle, ks: seq<string>, d: string)
    requires k > 0 && ExactOracle(knn, st, q, k) && d in ks
    requires d in st.indexes && d in st.metadata && NTotal(st.indexes[d]) > 0
    requires Collect(knn(st.indexes[d], q, Ask(k, NTotal(st.indexes[d]))), Some(st.metadata[d]), d).None?
    ensures Gather(st, q, k, knn, ks).Failure?
    decreases |ks|
  {
    if ks[0] != d {
      assert d in ks[1..];
      GatherRaises(st, q, k, knn, ks[1..], d);
    }
  }
}
