/**
 * The glue between API results and the vector store: one text and one
 * metadata envelope per item on the way in, ranked and scored records on
 * the way out.
 */
module Ingest {
  import opened Wrappers
  import opened Json
  import opened FaissStore
  import ShardSearch
  import TopK

  /** `json.dumps` of one item; its exact text is left abstract. */
  type Dumps = Value -> string

  /** The sentence encoder applied to a batch of texts. */
  type Encoder = seq<string> -> seq<Vector>

  /** The texts `generate_embeddings` encodes: `json.dumps(item)` per item, or `None` when one cannot be encoded. */
  function Texts(data: seq<Value>, dumps: Dumps): (texts: Option<seq<string>>)
    ensures texts.Some? <==> AllDumpable(data)
    ensures texts.Some? ==> |texts.value| == |data|
    ensures texts.Some? ==> forall i :: 0 <= i < |data| ==> texts.value[i] == dumps(data[i])
    decreases |data|
  {
    if |data| == 0 then Some([])
    else if !Dumpable(data[0]) then None
    else match Texts(data[1..], dumps)
      case None => None
      case Some(rest) => Some([dumps(data[0])] + rest)
  }

  /** `generate_embeddings`: the encoder applied to exactly one text per item, in item order. */
  function GenerateEmbeddings(data: seq<Value>, dumps: Dumps, encode: Encoder): (r: Option<seq<Vector>>)
    ensures r.Some? <==> AllDumpable(data)
    ensures r.Some? ==> r.value == encode(Texts(data, dumps).value)
  {
    match Texts(data, dumps)
    case None => None
    case Some(texts) => Some(encode(texts))
  }

  /**
   * The metadata record for one item: `{"type": data_type, "data": item}`,
   * then `update(extras)` when extras are non-empty. Updating with no
   * extras changes nothing, so the guard is folded into `Update`.
   */
  function Envelope(item: Value, dataType: string, extras: Fields): (r: Value)
    ensures r.Obj?
    ensures |extras| == 0 ==> r == Obj([("type", Str(dataType)), ("data", item)])
  {
    Obj(Update([("type", Str(dataType)), ("data", item)], extras))
  }

  /** An extras key wins over `type` and `data`; otherwise they hold the data type and the item. */
  lemma EnvelopeLookup(item: Value, dataType: string, extras: Fields, k: string)
    requires DistinctKeys(extras)
    ensures Get(Envelope(item, dataType, extras), k) ==
      if k in Keys(extras) then Lookup(extras, k)
      else if k == "type" then Some(Str(dataType))
      else if k == "data" then Some(item)
      else None
  {
    BaseLookup(item, dataType, k);
    UpdateLookup([("type", Str(dataType)), ("data", item)], extras, k);
  }

  /** With extras that name neither `type` nor `data`, the envelope holds the data type and the item. */
  lemma EnvelopeItem(item: Value, dataType: string, ks: seq<string>, vs: seq<Value>)
    requires |ks| == |vs| && Distinct(ks) && "type" !in ks && "data" !in ks
    ensures Get(Envelope(item, dataType, Zip(ks, vs)), "type") == Some(Str(dataType))
    ensures Get(Envelope(item, dataType, Zip(ks, vs)), "data") == Some(item)
  {
    ZipKeys(ks, vs);
    EnvelopeLookup(item, dataType, Zip(ks, vs), "type");
    EnvelopeLookup(item, dataType, Zip(ks, vs), "data");
  }

  /** Each extra reads back as the value given for it. */
  lemma EnvelopeExtra(item: Value, dataType: string, ks: seq<string>, vs: seq<Value>, i: nat)
    requires |ks| == |vs| && Distinct(ks) && i < |ks|
    ensures Get(Envelope(item, dataType, Zip(ks, vs)), ks[i]) == Some(vs[i])
  {
    ZipKeys(ks, vs);
    EnvelopeLookup(item, dataType, Zip(ks, vs), ks[i]);
    LookupZip(ks, vs, i);
  }

  /** Without extras, `type` holds the data type and `data` the item. */
  lemma BaseLookup(item: Value, dataType: string, k: string)
    ensures Lookup([("type", Str(dataType)), ("data", item)], k) ==
      if k == "type" then Some(Str(dataType)) else if k == "data" then Some(item) else None
  {
    var base := [("type", Str(dataType)), ("data", item)];
    assert base[1..] == [("data", item)] && base[1..][1..] == [];
  }

  /** The encoder returns one vector per text, each `dim` wide. */
  ghost predicate EncodesWidth(encode: Encoder, dim: nat) {
    forall texts :: |encode(texts)| == |texts| && forall j :: 0 <= j < |encode(texts)| ==> |encode(texts)[j]| == dim
  }

  /** One envelope per item, in item order. */
  function Records(data: seq<Value>, dataType: string, extras: Fields): (rs: seq<Value>)
    ensures |rs| == |data|
    ensures forall i :: 0 <= i < |data| ==> rs[i] == Envelope(data[i], dataType, extras)
  {
    seq(|data|, i requires 0 <= i < |data| => Envelope(data[i], dataType, extras))
  }

  /**
   * `store_in_faiss` on the state `s` with `today` the current date key.
   * Empty data returns at once; any exception (an item `json.dumps`
   * refuses, a batch of the wrong width) is logged and swallowed, leaving
   * whatever state it reached.
   */
  function StoreInFaiss(s: State, today: string, data: seq<Value>, dataType: string, extras: Fields,
                        dumps: Dumps, encode: Encoder): (r: State)
    ensures |data| == 0 ==> r == s
    ensures !AllDumpable(data) ==> r == s
  {
    if |data| == 0 then s
    else match GenerateEmbeddings(data, dumps, encode)
      case None => s
      case Some(vs) =>
        match AddData(s, today, vs, Records(data, dataType, extras))
        case Success(s') => s'
        case Failure(s') => s'
  }

  /** Whatever happens, the two maps keep one key set. */
  lemma StoreInFaissKeepsInv(s: State, today: string, data: seq<Value>, dataType: string, extras: Fields,
                             dumps: Dumps, encode: Encoder)
    requires Inv(s.store)
    ensures Inv(StoreInFaiss(s, today, data, dataType, extras, dumps, encode).store)
  {
    if |data| > 0 && AllDumpable(data) {
      var vs := GenerateEmbeddings(data, dumps, encode).value;
      var recs := Records(data, dataType, extras);
      if AddData(s, today, vs, recs).Success? {
        AddDataEffect(s, today, vs, recs);
      } else {
        AddDataFailure(s, today, vs, recs);
      }
    }
  }

  /**
   * A successful store appends exactly one envelope per item, in item
   * order, to today's metadata and leaves every other shard as it was.
   */
  lemma StoreInFaissEffect(s: State, today: string, data: seq<Value>, dataType: string, extras: Fields,
                           dumps: Dumps, encode: Encoder, vs: seq<Vector>)
    requires Inv(s.store) && |data| > 0
    requires GenerateEmbeddings(data, dumps, encode) == Some(vs)
    requires forall i :: 0 <= i < |vs| ==> |vs[i]| == TodayBefore(s.store, today).dim
    ensures var st' := StoreInFaiss(s, today, data, dataType, extras, dumps, encode).store;
      Inv(st') && st'.metadata.Keys == s.store.metadata.Keys + {today}
      && st'.metadata[today] == TodayRecordsBefore(s.store, today) + Records(data, dataType, extras)
      && st'.indexes[today].vectors == TodayBefore(s.store, today).vectors + vs
      && st'.indexes[today].dim == TodayBefore(s.store, today).dim
      && (forall e :: e != today && e in s.store.metadata ==> st'.metadata[e] == s.store.metadata[e])
      && (forall e :: e != today && e in s.store.indexes ==> st'.indexes[e] == s.store.indexes[e])
  {
    var recs := Records(data, dataType, extras);
    AddDataEffect(s, today, vs, recs);
    assert StoreInFaiss(s, today, data, dataType, extras, dumps, encode) == AddData(s, today, vs, recs).value;
  }

  /** With one vector per text, storing keeps every shard's count equal to its record count. */
  lemma StoreInFaissKeepsAligned(s: State, today: string, data: seq<Value>, dataType: string, extras: Fields,
                                 dumps: Dumps, encode: Encoder)
    requires Inv(s.store) && Aligned(s.store)
    requires forall texts :: |encode(texts)| == |texts|
    ensures Aligned(StoreInFaiss(s, today, data, dataType, extras, dumps, encode).store)
  {
    if |data| > 0 && AllDumpable(data) {
      var vs := GenerateEmbeddings(data, dumps, encode).value;
      var recs := Records(data, dataType, extras);
      assert |vs| == |recs|;
      if AddData(s, today, vs, recs).Success? {
        AddDataKeepsAligned(s, today, vs, recs);
      } else {
        AddDataFailure(s, today, vs, recs);
      }
    }
  }

  /** `1.0 - distance / 2.0`. */
  function Similarity(d: real): (sim: real)
    ensures d >= 0.0 ==> sim <= 1.0
    ensures d <= 2.0 ==> sim >= 0.0
  {
    1.0 - d / 2.0
  }

  /** The similarity leaves the unit interval once the squared distance exceeds 2. */
  lemma SimilarityNegativePastTwo(d: real)
    requires d > 2.0
    ensures Similarity(d) < 0.0
  {
  }

  /** The formatted result at position `i` of the search output. */
  function FormatResult(i: nat, meta: Value, d: real): (r: Value)
    ensures r.Obj? && Keys(r.fields) == ["rank", "similarity_score", "type", "data"]
  {
    var fs := [("rank", Int(i + 1)), ("similarity_score", Real(Similarity(d))),
               ("type", GetOr(meta, "type", Str("unknown"))), ("data", GetOr(meta, "data", Obj([])))];
    assert fs[1..][1..][1..] == [fs[3]];
    Obj(fs)
  }

  /** The rank is one-based; `type` defaults to `"unknown"` and `data` to an empty dict. */
  lemma FormatResultLookup(i: nat, meta: Value, d: real)
    ensures var r := FormatResult(i, meta, d);
      Get(r, "rank") == Some(Int(i + 1))
      && Get(r, "similarity_score") == Some(Real(Similarity(d)))
      && Get(r, "type") == Some(GetOr(meta, "type", Str("unknown")))
      && Get(r, "data") == Some(GetOr(meta, "data", Obj([])))
  {
    var fs := FormatResult(i, meta, d).fields;
    assert fs[1..] == [fs[1], fs[2], fs[3]];
    assert fs[1..][1..] == [fs[2], fs[3]];
    assert fs[1..][1..][1..] == [fs[3]];
  }

  /** One formatted result per hit, ranked in hit order. */
  function FormatResults(metas: seq<Value>, dists: seq<real>): (rs: seq<Value>)
    requires |metas| == |dists|
    ensures |rs| == |metas|
    ensures forall i :: 0 <= i < |rs| ==> rs[i] == FormatResult(i, metas[i], dists[i])
  {
    seq(|metas|, i requires 0 <= i < |metas| => FormatResult(i, metas[i], dists[i]))
  }

  /** The formatting half of `search_in_faiss`, applied to what the store's search returned or raised. */
  function RankResults(sr: Result<(seq<Value>, seq<real>), string>): (r: Result<(seq<Value>, seq<real>), string>)
    requires sr.Success? ==> |sr.value.0| == |sr.value.1|
    ensures sr.Failure? ==> r == sr
    ensures r.Success? <==> sr.Success? && forall i :: 0 <= i < |sr.value.0| ==> sr.value.0[i].Obj?
  {
    match sr
    case Failure(e) => Failure(e)
    case Success((metas, dists)) =>
      if exists i :: 0 <= i < |metas| && !metas[i].Obj? then
        Failure("AttributeError: metadata record is not a dict")
      else
        Success((FormatResults(metas, dists), dists))
  }

  /** `search_in_faiss`: the store's search, then one ranked record per hit; exceptions propagate. */
  function SearchInFaiss(st: Store, query: string, limit: int, encodeOne: string -> Vector,
                         knn: ShardSearch.Oracle): (r: Result<(seq<Value>, seq<real>), string>)
  {
    var sr := ShardSearch.Search(st, encodeOne(query), limit, knn);
    if sr.Success? then
      ShardSearch.SearchShape(st, encodeOne(query), limit, knn);
      RankResults(sr)
    else
      RankResults(sr)
  }

  /** Formatted hits are ranked 1, 2, ... in order, and ascending distances give non-increasing similarities. */
  lemma FormatResultsRanked(metas: seq<Value>, dists: seq<real>)
    requires |metas| == |dists| && TopK.Ascending(dists)
    ensures var results := FormatResults(metas, dists);
      (forall i :: 0 <= i < |results| ==> Get(results[i], "rank") == Some(Int(i + 1)))
      && (forall i :: 0 <= i < |results| ==> Get(results[i], "similarity_score") == Some(Real(Similarity(dists[i]))))
      && (forall i, j :: 0 <= i < j < |results| ==> Similarity(dists[i]) >= Similarity(dists[j]))
  {
    var results := FormatResults(metas, dists);
    forall i | 0 <= i < |results|
      ensures Get(results[i], "rank") == Some(Int(i + 1))
      ensures Get(results[i], "similarity_score") == Some(Real(Similarity(dists[i])))
    {
      FormatResultLookup(i, metas[i], dists[i]);
    }
  }

  /**
   * On success there is one result per hit, ranked 1, 2, ... in order, with
   * similarity scores that never increase down the list, and the distances
   * are those of the store's search.
   */
  lemma SearchInFaissRanks(st: Store, query: string, limit: int, encodeOne: string -> Vector, knn: ShardSearch.Oracle)
    requires SearchInFaiss(st, query, limit, encodeOne, knn).Success?
    ensures var (results, dists) := SearchInFaiss(st, query, limit, encodeOne, knn).value;
      |results| == |dists|
      && dists == ShardSearch.Search(st, encodeOne(query), limit, knn).value.1
      && (limit > 0 ==> |results| <= limit)
      && (forall i :: 0 <= i < |results| ==> Get(results[i], "rank") == Some(Int(i + 1)))
      && (forall i :: 0 <= i < |results| ==> Get(results[i], "similarity_score") == Some(Real(Similarity(dists[i]))))
      && (forall i, j :: 0 <= i < j < |results| ==> Similarity(dists[i]) >= Similarity(dists[j]))
  {
    var sr := ShardSearch.Search(st, encodeOne(query), limit, knn);
    ShardSearch.SearchShape(st, encodeOne(query), limit, knn);
    var metas := sr.value.0;
    var dists := sr.value.1;
    assert SearchInFaiss(st, query, limit, encodeOne, knn) == RankResults(sr);
    assert RankResults(sr).value == (FormatResults(metas, dists), dists);
    FormatResultsRanked(metas, dists);
  }

  /** A stored record whose metadata is not a dict makes the whole search raise; so does a failing store search. */
  lemma SearchInFaissFails(st: Store, query: string, limit: int, encodeOne: string -> Vector, knn: ShardSearch.Oracle)
    ensures SearchInFaiss(st, query, limit, encodeOne, knn).Failure? <==>
      var sr := ShardSearch.Search(st, encodeOne(query), limit, knn);
      sr.Failure? || exists i :: 0 <= i < |sr.value.0| && !sr.value.0[i].Obj?
  {
  }
}
