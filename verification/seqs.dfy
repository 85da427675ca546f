/** Generic sequence building blocks: order-preserving filter-maps and a stable sort on string keys. */
module Seqs {
  import opened Wrappers
  import Text

  /** The items of an optional value: none or one. */
  function OptionSeq<T>(o: Option<T>): (s: seq<T>)
    ensures |s| <= 1
    ensures o.Some? <==> |s| == 1
    ensures o.Some? ==> s[0] == o.value
  {
    match o
    case None => []
    case Some(v) => [v]
  }

  /** `[y for x in xs for y in f(x)]`. */
  function FlatMap<T, U>(xs: seq<T>, f: T -> seq<U>): seq<U>
    decreases |xs|
  {
    if |xs| == 0 then [] else f(xs[0]) + FlatMap(xs[1..], f)
  }

  /** Order is kept: the results for a concatenation are the concatenated results. */
  lemma {:induction false} FlatMapAppend<T, U>(a: seq<T>, b: seq<T>, f: T -> seq<U>)
    ensures FlatMap(a + b, f) == FlatMap(a, f) + FlatMap(b, f)
    decreases |a|
  {
    if |a| == 0 {
      assert a + b == b;
    } else {
      assert (a + b)[0] == a[0];
      assert (a + b)[1..] == a[1..] + b;
      FlatMapAppend(a[1..], b, f);
    }
  }

  /** A single input contributes exactly its own results. */
  lemma FlatMapOne<T, U>(x: T, f: T -> seq<U>)
    ensures FlatMap([x], f) == f(x)
  {
    assert [x][1..] == [];
    assert FlatMap([x], f) == f([x][0]) + FlatMap([x][1..], f);
  }

  /** Every result comes from some input, and every input contributes all of its results. */
  lemma {:induction false} FlatMapMembers<T, U>(xs: seq<T>, f: T -> seq<U>, y: U)
    ensures y in FlatMap(xs, f) <==> exists x :: x in xs && y in f(x)
    decreases |xs|
  {
    if |xs| > 0 {
      FlatMapMembers(xs[1..], f, y);
      assert xs == [xs[0]] + xs[1..];
    }
  }

  /** At most one result per input leaves at most as many results as inputs. */
  lemma {:induction false} FlatMapShorter<T, U>(xs: seq<T>, f: T -> seq<U>)
    requires forall x :: x in xs ==> |f(x)| <= 1
    ensures |FlatMap(xs, f)| <= |xs|
    decreases |xs|
  {
    if |xs| > 0 {
      assert xs[0] in xs;
      assert forall x :: x in xs[1..] ==> x in xs;
      FlatMapShorter(xs[1..], f);
    }
  }

  /** Exactly one result per input leaves exactly as many results as inputs. */
  lemma {:induction false} FlatMapExact<T, U>(xs: seq<T>, f: T -> seq<U>)
    requires forall x :: x in xs ==> |f(x)| == 1
    ensures |FlatMap(xs, f)| == |xs|
    decreases |xs|
  {
    if |xs| > 0 {
      assert xs[0] in xs;
      assert forall x :: x in xs[1..] ==> x in xs;
      FlatMapExact(xs[1..], f);
    }
  }

  /** Cutting a sequence anywhere and joining the halves gives it back. */
  lemma SplitAt<T>(s: seq<T>, c: nat)
    requires c <= |s|
    ensures s[..c] + s[c..] == s
    ensures |s[..c]| == c && |s[c..]| == |s| - c
  {
  }

  /** `[f(x, start + k) for k, x in enumerate(xs)]`. */
  function MapFrom<T, U>(xs: seq<T>, start: nat, f: (T, nat) -> U): (r: seq<U>)
    ensures |r| == |xs|
    decreases |xs|
  {
    if |xs| == 0 then [] else [f(xs[0], start)] + MapFrom(xs[1..], start + 1, f)
  }

  lemma MapFromCons<T, U>(xs: seq<T>, start: nat, f: (T, nat) -> U)
    requires |xs| > 0
    ensures MapFrom(xs, start, f) == [f(xs[0], start)] + MapFrom(xs[1..], start + 1, f)
  {
  }

  /** The `k`-th result is that of the `k`-th input, numbered `start + k`. */
  lemma {:induction false} MapFromAt<T, U>(xs: seq<T>, start: nat, f: (T, nat) -> U, k: nat)
    requires k < |xs|
    ensures MapFrom(xs, start, f)[k] == f(xs[k], start + k)
    decreases k
  {
    if k > 0 {
      assert xs[1..][k - 1] == xs[k];
      MapFromAt(xs[1..], start + 1, f, k - 1);
    }
  }

  /** In a concatenation the first part stays a prefix and the second part follows it. */
  lemma AppendedAt<T>(a: seq<T>, b: seq<T>, k: nat)
    requires k < |b|
    ensures |a + b| == |a| + |b| && (a + b)[..|a|] == a && (a + b)[|a| + k] == b[k]
  {
  }

  /** Appending one item and then a tail is appending the tail with that item in front. */
  lemma AppendInFront<T>(a: seq<T>, x: T, b: seq<T>)
    ensures (a + [x]) + b == a + ([x] + b)
  {
  }

  /** `[f(x) for x in xs]` where `f` may raise: the first exception, in order, escapes. */
  function MapAll<T, U, E>(xs: seq<T>, f: T -> Result<U, E>): (r: Result<seq<U>, E>)
    ensures r.Success? <==> forall i :: 0 <= i < |xs| ==> f(xs[i]).Success?
    ensures r.Success? ==> |r.value| == |xs| && forall i :: 0 <= i < |xs| ==> f(xs[i]) == Success(r.value[i])
    decreases |xs|
  {
    if |xs| == 0 then Success([])
    else match f(xs[0])
      case Failure(e) => Failure(e)
      case Success(y) =>
        match MapAll(xs[1..], f)
        case Failure(e) => Failure(e)
        case Success(ys) =>
          assert forall i :: 1 <= i < |xs| ==> xs[i] == xs[1..][i - 1];
          Success([y] + ys)
  }

  /** Ascending by `key`. */
  predicate SortedBy<T>(s: seq<T>, key: T -> string) {
    forall i, j :: 0 <= i <= j < |s| ==> Text.LessEq(key(s[i]), key(s[j]))
  }

  /** Insert `x` before the first element whose key is not smaller, so earlier equal keys stay first. */
  function InsertBy<T>(x: T, s: seq<T>, key: T -> string): (r: seq<T>)
    ensures |r| == |s| + 1
    decreases |s|
  {
    if |s| == 0 then [x]
    else if Text.LessEq(key(x), key(s[0])) then [x] + s
    else [s[0]] + InsertBy(x, s[1..], key)
  }

  /** `list.sort(key=key)` by insertion from the back. */
  function SortBy<T>(xs: seq<T>, key: T -> string): (r: seq<T>)
    ensures |r| == |xs|
    decreases |xs|
  {
    if |xs| == 0 then [] else InsertBy(xs[0], SortBy(xs[1..], key), key)
  }

  lemma {:induction false} InsertByPermutes<T>(x: T, s: seq<T>, key: T -> string)
    ensures multiset(InsertBy(x, s, key)) == multiset(s) + multiset{x}
    decreases |s|
  {
    if |s| > 0 && !Text.LessEq(key(x), key(s[0])) {
      InsertByPermutes(x, s[1..], key);
      assert s == [s[0]] + s[1..];
    }
  }

  lemma LessEqTransitive(a: string, b: string, c: string)
    requires Text.LessEq(a, b) && Text.LessEq(b, c)
    ensures Text.LessEq(a, c)
  {
    if a != b && b != c {
      Text.LessTransitive(a, b, c);
    }
  }

  lemma {:induction false} InsertBySorted<T>(x: T, s: seq<T>, key: T -> string)
    requires SortedBy(s, key)
    ensures SortedBy(InsertBy(x, s, key), key)
    decreases |s|
  {
    if |s| > 0 {
      if Text.LessEq(key(x), key(s[0])) {
        InsertInFront(x, s, key);
      } else {
        Text.LessTotal(key(x), key(s[0]));
        InsertBySorted(x, s[1..], key);
        InsertBehind(x, s, key);
      }
    }
  }

  /** A key no greater than the head's goes in front of a sorted list. */
  lemma InsertInFront<T>(x: T, s: seq<T>, key: T -> string)
    requires SortedBy(s, key) && |s| > 0 && Text.LessEq(key(x), key(s[0]))
    ensures SortedBy([x] + s, key)
  {
    var r := [x] + s;
    forall i, j | 0 <= i <= j < |r| ensures Text.LessEq(key(r[i]), key(r[j])) {
      if i == 0 && j > 0 {
        LessEqTransitive(key(x), key(s[0]), key(s[j - 1]));
      }
    }
  }

  /** Every element of the tail with `x` inserted is at least the head. */
  lemma HeadBelowInserted<T>(x: T, s: seq<T>, key: T -> string)
    requires SortedBy(s, key) && |s| > 0 && Text.LessEq(key(s[0]), key(x))
    ensures forall y :: y in InsertBy(x, s[1..], key) ==> Text.LessEq(key(s[0]), key(y))
  {
    var tail := s[1..];
    InsertByPermutes(x, tail, key);
    forall y | y in InsertBy(x, tail, key) ensures Text.LessEq(key(s[0]), key(y)) {
      assert y in multiset(InsertBy(x, tail, key));
      if y != x {
        assert y in multiset(tail);
        var m :| 0 <= m < |tail| && tail[m] == y;
        assert tail[m] == s[m + 1];
      }
    }
  }

  /** Keeping the head and inserting behind it stays sorted once the head is no greater than `x`. */
  lemma InsertBehind<T>(x: T, s: seq<T>, key: T -> string)
    requires SortedBy(s, key) && |s| > 0 && Text.LessEq(key(s[0]), key(x))
    requires SortedBy(InsertBy(x, s[1..], key), key)
    ensures SortedBy([s[0]] + InsertBy(x, s[1..], key), key)
  {
    var ins := InsertBy(x, s[1..], key);
    HeadBelowInserted(x, s, key);
    var r := [s[0]] + ins;
    forall i, j | 0 <= i <= j < |r| ensures Text.LessEq(key(r[i]), key(r[j])) {
      if i == 0 && j > 0 {
        assert r[j] == ins[j - 1] && ins[j - 1] in ins;
      }
    }
  }

  /** The sort is a permutation. */
  lemma {:induction false} SortByPermutes<T>(xs: seq<T>, key: T -> string)
    ensures multiset(SortBy(xs, key)) == multiset(xs)
    decreases |xs|
  {
    if |xs| > 0 {
      SortByPermutes(xs[1..], key);
      InsertByPermutes(xs[0], SortBy(xs[1..], key), key);
      assert xs == [xs[0]] + xs[1..];
    }
  }

  /** The sort is ascending by key. */
  lemma {:induction false} SortBySorted<T>(xs: seq<T>, key: T -> string)
    ensures SortedBy(SortBy(xs, key), key)
    decreases |xs|
  {
    if |xs| > 0 {
      SortBySorted(xs[1..], key);
      InsertBySorted(xs[0], SortBy(xs[1..], key), key);
    }
  }
}
