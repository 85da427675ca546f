/** `convert_datetime_fields`: the recursive datetime-to-string pass applied to every API result. */
module Formatters {
  import opened Wrappers
  import opened Json

  /**
   * Dicts keep their keys in order with converted values, lists keep their
   * items in order with converted items, a datetime becomes its ISO string
   * and every other value is returned as it is. Afterwards nothing is left
   * that `json.dump` would refuse.
   */
  function ConvertDatetimeFields(v: Value): (r: Value)
    ensures Dumpable(r)
    ensures v.Obj? <==> r.Obj?
    ensures v.Obj? ==> Keys(r.fields) == Keys(v.fields)
    ensures v.Arr? <==> r.Arr?
    ensures v.Arr? ==> |r.items| == |v.items|
    ensures v.DateTime? ==> r == Str(v.iso)
    ensures !v.Obj? && !v.Arr? && !v.DateTime? ==> r == v
    decreases v
  {
    match v
    case Obj(fields) =>
      var fs := seq(|fields|, i requires 0 <= i < |fields| => (fields[i].0, ConvertDatetimeFields(fields[i].1)));
      assert forall i :: 0 <= i < |fs| ==> Keys(fs)[i] == Keys(fields)[i];
      Obj(fs)
    case Arr(items) => Arr(seq(|items|, i requires 0 <= i < |items| => ConvertDatetimeFields(items[i])))
    case DateTime(iso) => Str(iso)
    case _ => v
  }

  /** Every key of a converted dict reads as the converted value of the original. */
  lemma ConvertLookup(v: Value, k: string)
    requires v.Obj?
    ensures Get(ConvertDatetimeFields(v), k).None? <==> Get(v, k).None?
    ensures Get(v, k).Some? ==> Get(ConvertDatetimeFields(v), k) == Some(ConvertDatetimeFields(Get(v, k).value))
  {
    var fs := ConvertDatetimeFields(v).fields;
    LookupPointwise(v.fields, fs, k);
  }

  /** Two field lists with the same keys whose values correspond pointwise correspond under lookup too. */
  lemma {:induction false} LookupPointwise(fields: Fields, fs: Fields, k: string)
    requires |fs| == |fields|
    requires forall i :: 0 <= i < |fields| ==> fs[i] == (fields[i].0, ConvertDatetimeFields(fields[i].1))
    ensures Lookup(fs, k).None? <==> Lookup(fields, k).None?
    ensures Lookup(fields, k).Some? ==> Lookup(fs, k) == Some(ConvertDatetimeFields(Lookup(fields, k).value))
    decreases |fields|
  {
    if |fields| > 0 && fields[0].0 != k {
      LookupPointwise(fields[1..], fs[1..], k);
    }
  }

  /** A converted list holds, at each position, the converted item from that position. */
  lemma ConvertItemAt(v: Value, i: nat)
    requires v.Arr? && i < |v.items|
    ensures ConvertDatetimeFields(v).items[i] == ConvertDatetimeFields(v.items[i])
  {
  }

  /**
   * `v` is a list that `json.dumps` accepts and that holds, position by
   * position, the counterpart of each item: a dict keeps its keys, a
   * datetime becomes its ISO string, and an item with no datetime in it is
   * unchanged.
   */
  predicate ConvertedList(v: Value, items: seq<Value>) {
    v.Arr? && |v.items| == |items| && Dumpable(v)
    && forall i :: 0 <= i < |items| ==>
         (items[i].Obj? ==> v.items[i].Obj? && Keys(v.items[i].fields) == Keys(items[i].fields))
         && (items[i].DateTime? ==> v.items[i] == Str(items[i].iso))
         && (Dumpable(items[i]) ==> v.items[i] == items[i])
  }

  /** Converting a list gives such a counterpart of its items. */
  lemma ConvertList(items: seq<Value>)
    ensures ConvertedList(ConvertDatetimeFields(Arr(items)), items)
  {
    forall i | 0 <= i < |items| && Dumpable(items[i])
      ensures ConvertDatetimeFields(Arr(items)).items[i] == items[i]
    {
      ConvertItemAt(Arr(items), i);
      ConvertFixesDumpable(items[i]);
    }
  }

  /** A value with no datetime anywhere is left exactly as it was. */
  lemma {:induction false} ConvertFixesDumpable(v: Value)
    requires Dumpable(v)
    ensures ConvertDatetimeFields(v) == v
    decreases v
  {
    match v
    case Obj(fields) =>
      var fs := ConvertDatetimeFields(v).fields;
      forall i | 0 <= i < |fields| ensures fs[i] == fields[i] {
        ConvertFixesDumpable(fields[i].1);
      }
    case Arr(items) =>
      var xs := ConvertDatetimeFields(v).items;
      forall i | 0 <= i < |items| ensures xs[i] == items[i] {
        ConvertFixesDumpable(items[i]);
      }
    case _ =>
  }

  /** Converting twice is converting once. */
  lemma ConvertIdempotent(v: Value)
    ensures ConvertDatetimeFields(ConvertDatetimeFields(v)) == ConvertDatetimeFields(v)
  {
    ConvertFixesDumpable(ConvertDatetimeFields(v));
  }
}
