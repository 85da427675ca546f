/**
 * JSON-like values as the Python code manipulates them: API responses,
 * metadata records and tool responses are all built from these.
 */
module Json {
  import opened Wrappers
  import Text

  /**
   * `Obj` keeps its fields in insertion order, as a Python `dict` does.
   * `DateTime(iso)` is a `datetime` object whose `isoformat()` is `iso`.
   */
  datatype Value =
    | Null
    | Bool(b: bool)
    | Int(i: int)
    | Real(r: real)
    | Str(s: string)
    | Arr(items: seq<Value>)
    | Obj(fields: seq<(string, Value)>)
    | DateTime(iso: string)

  type Fields = seq<(string, Value)>

  function Keys(fields: Fields): (ks: seq<string>)
    ensures |ks| == |fields|
    ensures forall i :: 0 <= i < |fields| ==> ks[i] == fields[i].0
  {
    if |fields| == 0 then [] else [fields[0].0] + Keys(fields[1..])
  }

  /** A Python dict never holds a key twice. */
  predicate DistinctKeys(fields: Fields) {
    forall i, j :: 0 <= i < j < |fields| ==> fields[i].0 != fields[j].0
  }

  /** `d.get(key)` on the fields of a dict, `None` when the key is absent. */
  function Lookup(fields: Fields, key: string): (r: Option<Value>)
    ensures r.None? <==> key !in Keys(fields)
    ensures r.Some? ==> exists i :: 0 <= i < |fields| && fields[i] == (key, r.value)
  {
    if |fields| == 0 then None
    else if fields[0].0 == key then Some(fields[0].1)
    else Lookup(fields[1..], key)
  }

  /** In a dict without repeated keys, each field is what its key looks up. */
  lemma {:induction false} LookupDistinct(fields: Fields, i: nat)
    requires DistinctKeys(fields) && i < |fields|
    ensures Lookup(fields, fields[i].0) == Some(fields[i].1)
    decreases i
  {
    if i > 0 {
      assert fields[1..][i - 1] == fields[i];
      assert DistinctKeys(fields[1..]) by {
        forall a, b | 0 <= a < b < |fields[1..]| ensures fields[1..][a].0 != fields[1..][b].0 {
          assert fields[1..][a] == fields[a + 1] && fields[1..][b] == fields[b + 1];
        }
      }
      LookupDistinct(fields[1..], i - 1);
    }
  }

  /** A field is what its key looks up when no earlier field has the same key. */
  lemma {:induction false} LookupFirst(fields: Fields, i: nat)
    requires i < |fields|
    requires forall j :: 0 <= j < i ==> fields[j].0 != fields[i].0
    ensures Lookup(fields, fields[i].0) == Some(fields[i].1)
    decreases i
  {
    if i > 0 {
      var tail := fields[1..];
      assert tail[i - 1] == fields[i];
      forall j | 0 <= j < i - 1 ensures tail[j].0 != tail[i - 1].0 {
        assert tail[j] == fields[j + 1];
      }
      LookupFirst(tail, i - 1);
    }
  }

  /** No key is listed twice. */
  predicate Distinct(ks: seq<string>) {
    forall i, j :: 0 <= i < j < |ks| ==> ks[i] != ks[j]
  }

  /** The dict literal pairing each key with the value at the same position. */
  function Zip(ks: seq<string>, vs: seq<Value>): (r: Fields)
    requires |ks| == |vs|
    ensures |r| == |ks| && forall i :: 0 <= i < |ks| ==> r[i] == (ks[i], vs[i])
  {
    seq(|ks|, i requires 0 <= i < |ks| => (ks[i], vs[i]))
  }

  /** A dict literal has the listed keys, without repetition when the list has none. */
  lemma ZipKeys(ks: seq<string>, vs: seq<Value>)
    requires |ks| == |vs|
    ensures Keys(Zip(ks, vs)) == ks
    ensures Distinct(ks) ==> DistinctKeys(Zip(ks, vs))
  {
  }

  /** In a dict literal without repeated keys, each key looks up the value written beside it. */
  lemma LookupZip(ks: seq<string>, vs: seq<Value>, i: nat)
    requires |ks| == |vs| && Distinct(ks) && i < |ks|
    ensures Lookup(Zip(ks, vs), ks[i]) == Some(vs[i])
  {
    LookupDistinct(Zip(ks, vs), i);
  }

  /** `key in v` for a dict `v`; a non-dict holds no keys (see README). */
  predicate Has(v: Value, key: string) {
    v.Obj? && key in Keys(v.fields)
  }

  /** `v.get(key)`: `None` for a missing key and for a non-dict. */
  function Get(v: Value, key: string): Option<Value> {
    if v.Obj? then Lookup(v.fields, key) else None
  }

  /** `v.get(key, default)`: a key present with value `None` still yields `Null`. */
  function GetOr(v: Value, key: string, default: Value): (r: Value)
  {
    Get(v, key).GetOr(default)
  }

  /** `v.get(key)` with Python's `None` for a missing key. */
  function GetOrNull(v: Value, key: string): Value {
    GetOr(v, key, Null)
  }

  /** The items of a list-valued read such as `v.get("results", [])`; a non-list reads as empty. */
  function ListOf(v: Value): seq<Value> {
    if v.Arr? then v.items else []
  }

  /** `d[key] = val`: replaces the value in place when the key is present, appends it otherwise. */
  function Put(fields: Fields, key: string, val: Value): (r: Fields)
    ensures key in Keys(fields) ==> Keys(r) == Keys(fields)
    ensures key !in Keys(fields) ==> Keys(r) == Keys(fields) + [key]
    ensures Lookup(r, key) == Some(val)
    ensures forall k :: k != key ==> Lookup(r, k) == Lookup(fields, k)
    decreases |fields|
  {
    if |fields| == 0 then [(key, val)]
    else if fields[0].0 == key then
      PutInFront(fields, key, val);
      [(key, val)] + fields[1..]
    else
      var rest := Put(fields[1..], key, val);
      PutBehind(fields, key, val, rest);
      [fields[0]] + rest
  }

  /** What `d[key] = val` leaves: the keys in place (the new one last), `key` reading `val`, the rest as before. */
  ghost predicate PutsValue(fields: Fields, key: string, val: Value, r: Fields) {
    && (key in Keys(fields) ==> Keys(r) == Keys(fields))
    && (key !in Keys(fields) ==> Keys(r) == Keys(fields) + [key])
    && Lookup(r, key) == Some(val)
    && forall k :: k != key ==> Lookup(r, k) == Lookup(fields, k)
  }

  lemma PutInFront(fields: Fields, key: string, val: Value)
    requires |fields| > 0 && fields[0].0 == key
    ensures PutsValue(fields, key, val, [(key, val)] + fields[1..])
  {
    var r := [(key, val)] + fields[1..];
    assert r[1..] == fields[1..];
    assert Keys(fields) == [key] + Keys(fields[1..]);
    assert Keys(r) == [key] + Keys(fields[1..]);
  }

  lemma PutBehind(fields: Fields, key: string, val: Value, rest: Fields)
    requires |fields| > 0 && fields[0].0 != key
    requires PutsValue(fields[1..], key, val, rest)
    ensures PutsValue(fields, key, val, [fields[0]] + rest)
  {
    var r := [fields[0]] + rest;
    assert r[0] == fields[0] && r[1..] == rest;
    assert Keys(fields) == [fields[0].0] + Keys(fields[1..]);
    assert Keys(r) == [fields[0].0] + Keys(rest);
    assert key in Keys(fields) <==> key in Keys(fields[1..]);
    forall k | k != key ensures Lookup(r, k) == Lookup(fields, k) {
      assert Lookup(rest, k) == Lookup(fields[1..], k);
    }
  }

  /** `a.update(b)`: every field of `b`, in order, is put into `a`. */
  function Update(a: Fields, b: Fields): (r: Fields)
    decreases |b|
  {
    if |b| == 0 then a else Update(Put(a, b[0].0, b[0].1), b[1..])
  }

  /** After `a.update(b)` a key reads as in `b` when `b` has it, else as in `a`. */
  lemma {:induction false} UpdateLookup(a: Fields, b: Fields, k: string)
    requires DistinctKeys(b)
    ensures Lookup(Update(a, b), k) == if k in Keys(b) then Lookup(b, k) else Lookup(a, k)
    decreases |b|
  {
    if |b| > 0 {
      assert DistinctKeys(b[1..]) by {
        forall i, j | 0 <= i < j < |b[1..]| ensures b[1..][i].0 != b[1..][j].0 {
          assert b[1..][i] == b[i + 1] && b[1..][j] == b[j + 1];
        }
      }
      UpdateLookup(Put(a, b[0].0, b[0].1), b[1..], k);
      assert Keys(b) == [b[0].0] + Keys(b[1..]);
      if k == b[0].0 {
        assert k !in Keys(b[1..]) by {
          forall i | 0 <= i < |b[1..]| ensures Keys(b[1..])[i] != k {
            assert b[1..][i] == b[i + 1];
          }
        }
      }
    }
  }

  /** `a.update(b)` keeps `a`'s keys in place and appends `b`'s new keys after them. */
  lemma {:induction false} UpdateKeys(a: Fields, b: Fields, k: string)
    ensures k in Keys(Update(a, b)) <==> k in Keys(a) || k in Keys(b)
    decreases |b|
  {
    if |b| > 0 {
      UpdateKeys(Put(a, b[0].0, b[0].1), b[1..], k);
      assert Keys(b) == [b[0].0] + Keys(b[1..]);
    }
  }

  /** Python truthiness: `None`, `False`, zero, and empty strings, lists and dicts are falsy. */
  predicate Truthy(v: Value) {
    match v
    case Null => false
    case Bool(b) => b
    case Int(i) => i != 0
    case Real(r) => r != 0.0
    case Str(s) => |s| > 0
    case Arr(items) => |items| > 0
    case Obj(fields) => |fields| > 0
    case DateTime(_) => true
  }

  /** `a or b`. */
  function Or(a: Value, b: Value): (r: Value)
    ensures Truthy(a) ==> r == a
    ensures !Truthy(a) ==> r == b
  {
    if Truthy(a) then a else b
  }

  /**
   * `str(v)` for the scalar values whose rendering the model fixes: `None`,
   * booleans, integers and strings. Other values render as a fixed tag
   * (see README).
   */
  function PyStr(v: Value): string {
    match v
    case Null => "None"
    case Bool(b) => if b then "True" else "False"
    case Int(i) => Text.IntToString(i)
    case Str(s) => s
    case Real(_) => "<float>"
    case Arr(_) => "<list>"
    case Obj(_) => "<dict>"
    case DateTime(_) => "<datetime>"
  }

  /** A string-valued read: the string, or `default` when absent or not a string. */
  function StrOr(v: Value, key: string, default: string): string {
    var x := GetOrNull(v, key);
    if x.Str? then x.s else default
  }

  /** `json.dump` succeeds on everything but a `datetime`, which it cannot encode. */
  predicate Dumpable(v: Value)
    decreases v
  {
    match v
    case DateTime(_) => false
    case Arr(items) => forall i :: 0 <= i < |items| ==> Dumpable(items[i])
    case Obj(fields) => forall i :: 0 <= i < |fields| ==> Dumpable(fields[i].1)
    case _ => true
  }

  predicate AllDumpable(records: seq<Value>) {
    forall i :: 0 <= i < |records| ==> Dumpable(records[i])
  }

  // ------------------------------------------------------ number conversion

  const IntValueErrorMessage: string := "ValueError: invalid literal for int() with base 10"
  const IntTypeErrorMessage: string := "TypeError: int() argument must be a string, a bytes-like object or a real number"
  const FloatValueErrorMessage: string := "ValueError: could not convert string to float"
  const FloatTypeErrorMessage: string := "TypeError: float() argument must be a string or a real number"

  /** `int(v)` for the values the model knows: a float is truncated toward zero, a string is parsed. */
  function PyInt(v: Value): (r: Result<int, string>)
    ensures v.Int? ==> r == Success(v.i)
    ensures v.Str? ==> (r.Success? <==> Text.ParseInt(v.s).Some?)
    ensures v.Null? || v.Arr? || v.Obj? || v.DateTime? ==> r.Failure?
  {
    match v
    case Int(i) => Success(i)
    case Bool(b) => Success(if b then 1 else 0)
    case Real(x) => Success(if x >= 0.0 then x.Floor else -((-x).Floor))
    case Str(s) =>
      (match Text.ParseInt(s)
       case Some(i) => Success(i)
       case None => Failure(IntValueErrorMessage))
    case _ => Failure(IntTypeErrorMessage)
  }

  /** `float(v)`: numbers convert exactly; a string is read as an optionally signed whole number. */
  function PyFloat(v: Value): (r: Result<real, string>)
    ensures v.Real? ==> r == Success(v.r)
    ensures v.Int? ==> r == Success(v.i as real)
    ensures v.Bool? ==> r == Success(if v.b then 1.0 else 0.0)
    ensures v.Str? ==> (r.Success? <==> Text.ParseInt(v.s).Some?)
    ensures v.Str? && r.Success? ==> r.value == Text.ParseInt(v.s).value as real
    ensures v.Null? || v.Arr? || v.Obj? || v.DateTime? ==> r.Failure?
  {
    match v
    case Real(x) => Success(x)
    case Int(i) => Success(i as real)
    case Bool(b) => Success(if b then 1.0 else 0.0)
    case Str(s) =>
      (match Text.ParseInt(s)
       case Some(i) => Success(i as real)
       case None => Failure(FloatValueErrorMessage))
    case _ => Failure(FloatTypeErrorMessage)
  }

  /** `int` truncates a float toward zero: never past it, and by less than one. */
  lemma PyIntTruncates(x: real)
    ensures PyInt(Real(x)).Success?
    ensures var i := PyInt(Real(x)).value;
      (x >= 0.0 ==> 0.0 <= i as real <= x && x < i as real + 1.0)
      && (x < 0.0 ==> x <= i as real <= 0.0 && i as real - 1.0 < x)
  {
  }

  /** Converting the decimal text of a number gives the number back. */
  lemma PyIntOfText(n: int)
    ensures PyInt(Str(Text.IntToString(n))) == Success(n)
    ensures PyFloat(Str(Text.IntToString(n))) == Success(n as real)
  {
    Text.ParseIntRoundTrip(n);
  }


  // ---------------------------------------------------- strict dict access

  /** `x.get(...)` on anything but a dict. */
  const NoGetMessage: string := "AttributeError: object has no attribute 'get'"

  /** `v.get(key, default)` where `v` may be of any type: only a dict has `get`. */
  function GetStrict(v: Value, key: string, default: Value): (r: Result<Value, string>)
    ensures r.Success? <==> v.Obj?
    ensures v.Obj? ==> r.value == GetOr(v, key, default)
  {
    if v.Obj? then Success(GetOr(v, key, default)) else Failure(NoGetMessage)
  }

  /**
   * What `for x in v` visits: a list's items, a dict's keys, a string's
   * characters; `None` for a value that is not iterable.
   */
  function Iterate(v: Value): (r: Option<seq<Value>>)
    ensures r.None? <==> !(v.Arr? || v.Obj? || v.Str?)
    ensures v.Arr? ==> r == Some(v.items)
    ensures v.Obj? ==> |r.value| == |v.fields| && forall i :: 0 <= i < |v.fields| ==> r.value[i] == Str(v.fields[i].0)
    ensures v.Str? ==> |r.value| == |v.s| && forall i :: 0 <= i < |v.s| ==> r.value[i] == Str([v.s[i]])
  {
    match v
    case Arr(items) => Some(items)
    case Obj(fields) => Some(seq(|fields|, i requires 0 <= i < |fields| => Str(fields[i].0)))
    case Str(s) => Some(seq(|s|, i requires 0 <= i < |s| => Str([s[i]])))
    case _ => None
  }

  /** An empty dict or string iterates like an empty list; a non-empty one visits only strings. */
  lemma IterateEmpty(v: Value)
    requires v.Arr? || v.Obj? || v.Str?
    ensures Iterate(v) == Some([]) <==> !Truthy(v)
  {
  }

  /** A field of a picked dict: output key, input key, default. */
  type FieldSpec = (string, string, Value)

  /** The output keys of a spec, in order. */
  function OutKeys(spec: seq<FieldSpec>): (ks: seq<string>)
    ensures |ks| == |spec| && forall i :: 0 <= i < |spec| ==> ks[i] == spec[i].0
  {
    seq(|spec|, i requires 0 <= i < |spec| => spec[i].0)
  }

  /** `{out: v.get(in, default) for out, in, default in spec}` on a dict `v`. */
  function Pick(v: Value, spec: seq<FieldSpec>): (r: Fields)
    ensures Keys(r) == OutKeys(spec)
  {
    seq(|spec|, i requires 0 <= i < |spec| => (spec[i].0, GetOr(v, spec[i].1, spec[i].2)))
  }

  /** Each output key of a spec with distinct output keys reads back as its input key's value or default. */
  lemma PickLookup(v: Value, spec: seq<FieldSpec>, i: nat)
    requires i < |spec| && forall j :: 0 <= j < i ==> spec[j].0 != spec[i].0
    ensures Lookup(Pick(v, spec), spec[i].0) == Some(GetOr(v, spec[i].1, spec[i].2))
  {
    LookupFirst(Pick(v, spec), i);
  }

  /** A key new to a dict, appended at the end, reads back as its value and lands last among the keys. */
  lemma {:induction false} LookupAppended(fields: Fields, k: string, v: Value)
    requires k !in Keys(fields)
    ensures Lookup(fields + [(k, v)], k) == Some(v)
    ensures Keys(fields + [(k, v)]) == Keys(fields) + [k]
    decreases |fields|
  {
    if |fields| > 0 {
      assert (fields + [(k, v)])[1..] == fields[1..] + [(k, v)];
      assert Keys(fields) == [fields[0].0] + Keys(fields[1..]);
      LookupAppended(fields[1..], k, v);
    }
  }

  /** Appending a different key leaves every other lookup as it was. */
  lemma {:induction false} LookupAppendedOther(fields: Fields, k: string, v: Value, key: string)
    requires key != k
    ensures Lookup(fields + [(k, v)], key) == Lookup(fields, key)
    decreases |fields|
  {
    if |fields| > 0 {
      assert (fields + [(k, v)])[1..] == fields[1..] + [(k, v)];
      LookupAppendedOther(fields[1..], k, v, key);
    }
  }
}
