/**
 * The `k` smallest distances of a collection, and the fact that makes the
 * store's two-phase search exact: cutting every shard to its own `k`
 * smallest before the global cut loses nothing.
 */
module TopK {

  /** Ascending order over a whole sequence (not just neighbours). */
  predicate Ascending(t: seq<real>) {
    forall i, j :: 0 <= i <= j < |t| ==> t[i] <= t[j]
  }

  /** Membership, named so that the bound in `IsMin` is used only where a proof asks for it. */
  predicate Member(y: real, xs: multiset<real>) {
    y in xs
  }

  ghost predicate IsMin(m: real, xs: multiset<real>) {
    m in xs && forall y :: Member(y, xs) ==> m <= y
  }

  lemma {:induction false} MinExists(xs: multiset<real>)
    requires |xs| > 0
    ensures exists m :: IsMin(m, xs)
    decreases |xs|
  {
    Pick(xs);
    var x :| x in xs;
    var rest := xs - multiset{x};
    if |rest| == 0 {
      assert rest == multiset{};
      assert xs == rest + multiset{x};
      assert IsMin(x, xs);
    } else {
      MinExists(rest);
      var m :| IsMin(m, rest);
      if x <= m {
        forall y | Member(y, xs) ensures x <= y {
          if y != x {
            assert Member(y, rest);
          }
        }
        assert IsMin(x, xs);
      } else {
        forall y | Member(y, xs) ensures m <= y {
          if y != x {
            assert Member(y, rest);
          }
        }
        assert IsMin(m, xs);
      }
    }
  }

  lemma Pick(xs: multiset<real>)
    requires |xs| > 0
    ensures exists x :: x in xs
  {
    if forall x :: x !in xs {
      assert false;
    }
  }

  lemma MinUnique(a: real, b: real, xs: multiset<real>)
    requires IsMin(a, xs) && IsMin(b, xs)
    ensures a == b
  {
    assert Member(a, xs) && Member(b, xs);
  }

  ghost function Min(xs: multiset<real>): (m: real)
    requires |xs| > 0
    ensures IsMin(m, xs)
  {
    MinExists(xs);
    var m :| IsMin(m, xs); m
  }

  /** The `k` smallest elements of `xs` in ascending order (all of them when fewer). */
  ghost function Smallest(xs: multiset<real>, k: nat): seq<real>
    decreases k
  {
    if k == 0 || |xs| == 0 then []
    else
      var m := Min(xs);
      [m] + Smallest(xs - multiset{m}, k - 1)
  }

  lemma SmallestUnfold(xs: multiset<real>, k: nat, k': nat)
    requires k > 0 && |xs| > 0 && k' == k - 1
    ensures Smallest(xs, k) == [Min(xs)] + Smallest(xs - multiset{Min(xs)}, k')
  {
  }

  /** There are `min(k, |xs|)` of them. */
  lemma {:induction false} SmallestLength(xs: multiset<real>, k: nat)
    ensures |Smallest(xs, k)| == Cap(k, |xs|)
    decreases k
  {
    if k > 0 && |xs| > 0 {
      var m := Min(xs);
      RemoveOne(xs, m);
      SmallestLength(xs - multiset{m}, k - 1);
      SmallestUnfold(xs, k, k - 1);
    }
  }

  /** They are taken from `xs`. */
  lemma {:induction false} SmallestWithin(xs: multiset<real>, k: nat)
    ensures forall y :: y in Smallest(xs, k) ==> y in xs
    decreases k
  {
    if k > 0 && |xs| > 0 {
      var m := Min(xs);
      var rest := xs - multiset{m};
      SmallestWithin(rest, k - 1);
      SmallestUnfold(xs, k, k - 1);
      forall y | y in Smallest(xs, k) ensures y in xs {
        if y != m {
          assert y in Smallest(rest, k - 1);
        }
      }
    }
  }

  /** `min(k, n)`. */
  function Cap(k: nat, n: nat): (c: nat)
    ensures c <= k && c <= n && (c == k || c == n)
  {
    if k < n then k else n
  }

  /** Taking one occurrence out of a multiset and putting it back. */
  lemma RemoveOne(xs: multiset<real>, m: real)
    requires m in xs
    ensures |xs - multiset{m}| == |xs| - 1
  {
    assert xs == (xs - multiset{m}) + multiset{m};
  }

  /** Asking for more than there are is the same as asking for all of them. */
  lemma {:induction false} SmallestCapped(xs: multiset<real>, k: nat)
    ensures Smallest(xs, k) == Smallest(xs, Cap(k, |xs|))
    decreases k
  {
    if k > 0 && |xs| > 0 {
      var m := Min(xs);
      SmallestCapped(xs - multiset{m}, k - 1);
    }
  }

  /** A sorted sequence's first `k` elements are the `k` smallest of its contents. */
  lemma {:induction false} AscendingPrefixIsSmallest(t: seq<real>, k: nat)
    requires Ascending(t)
    ensures t[..Cap(k, |t|)] == Smallest(multiset(t), k)
    decreases k
  {
    if k > 0 && |t| > 0 {
      var tail := t[1..];
      TailAscending(t);
      AscendingPrefixIsSmallest(tail, k - 1);
      ConsSmallest(t, k);
    }
  }

  /** One step of the above: the head of a sorted sequence is the first of its smallest. */
  lemma ConsSmallest(t: seq<real>, k: nat)
    requires Ascending(t) && k > 0 && |t| > 0
    requires t[1..][..Cap(k - 1, |t| - 1)] == Smallest(multiset(t[1..]), k - 1)
    ensures t[..Cap(k, |t|)] == Smallest(multiset(t), k)
  {
    SmallestOfAscending(t, k);
    PrefixCons(t, Cap(k, |t|));
  }

  /** The smallest of a sorted sequence's contents start with its head, then the smallest of its tail. */
  lemma SmallestOfAscending(t: seq<real>, k: nat)
    requires Ascending(t) && k > 0 && |t| > 0
    ensures Smallest(multiset(t), k) == [t[0]] + Smallest(multiset(t[1..]), k - 1)
  {
    var xs := multiset(t);
    HeadIsMin(t);
    MinUnique(t[0], Min(xs), xs);
    DropHead(t);
    SmallestUnfold(xs, k, k - 1);
  }

  lemma PrefixCons(t: seq<real>, n: nat)
    requires 0 < n <= |t|
    ensures t[..n] == [t[0]] + t[1..][..n - 1]
  {
  }

  lemma DropHead(t: seq<real>)
    requires |t| > 0
    ensures multiset(t) - multiset{t[0]} == multiset(t[1..])
  {
    assert t == [t[0]] + t[1..];
  }

  lemma TailAscending(t: seq<real>)
    requires Ascending(t) && |t| > 0
    ensures Ascending(t[1..])
  {
    var tail := t[1..];
    forall i, j | 0 <= i <= j < |tail| ensures tail[i] <= tail[j] {
      assert tail[i] == t[i + 1] && tail[j] == t[j + 1];
    }
  }

  lemma HeadIsMin(t: seq<real>)
    requires Ascending(t) && |t| > 0
    ensures IsMin(t[0], multiset(t))
  {
    forall y | Member(y, multiset(t)) ensures t[0] <= y {
      assert y in t;
      var i :| 0 <= i < |t| && t[i] == y;
    }
  }

  /**
   * The merge step for two parts: the `j` smallest of `a + b` are the `j`
   * smallest of `b` together with only the `k >= j` smallest of `a`.
   */
  lemma {:induction false} MergeStep(a: multiset<real>, b: multiset<real>, j: nat, k: nat)
    requires j <= k
    ensures Smallest(a + b, j) == Smallest(multiset(Smallest(a, k)) + b, j)
    decreases j, 1
  {
    if j == 0 {
    } else if |a + b| == 0 {
      MergeEmpty(a, b, j, k);
    } else if Min(a + b) in a {
      MergeCaseFirst(a, b, j, k);
    } else {
      MergeCaseSecond(a, b, j, k);
    }
  }

  lemma {:induction false} MergeCaseFirst(a: multiset<real>, b: multiset<real>, j: nat, k: nat)
    requires 0 < j <= k && |a + b| > 0 && Min(a + b) in a
    ensures Smallest(a + b, j) == Smallest(multiset(Smallest(a, k)) + b, j)
    decreases j, 0
  {
    var m, j', k' := Min(a + b), j - 1, k - 1;
    MergeStep(a - multiset{m}, b, j', k');
    MergeFromFirst(a, b, j, k, m, j', k');
  }

  lemma {:induction false} MergeCaseSecond(a: multiset<real>, b: multiset<real>, j: nat, k: nat)
    requires 0 < j <= k && |a + b| > 0 && Min(a + b) !in a
    ensures Smallest(a + b, j) == Smallest(multiset(Smallest(a, k)) + b, j)
    decreases j, 0
  {
    var m, j' := Min(a + b), j - 1;
    MergeStep(a, b - multiset{m}, j', k);
    MergeFromSecond(a, b, j, k, m, j');
  }

  lemma MergeEmpty(a: multiset<real>, b: multiset<real>, j: nat, k: nat)
    requires |a + b| == 0
    ensures Smallest(a + b, j) == Smallest(multiset(Smallest(a, k)) + b, j)
  {
    assert a == multiset{} && b == multiset{};
  }

  /** The overall minimum lies in the part that gets cut: both sides start with it. */
  lemma MergeFromFirst(a: multiset<real>, b: multiset<real>, j: nat, k: nat, m: real, j': nat, k': nat)
    requires 0 < j <= k && j' == j - 1 && k' == k - 1
    requires |a + b| > 0 && m == Min(a + b) && m in a
    requires Smallest((a - multiset{m}) + b, j') == Smallest(multiset(Smallest(a - multiset{m}, k')) + b, j')
    ensures Smallest(a + b, j) == Smallest(multiset(Smallest(a, k)) + b, j)
  {
    var rhs := multiset(Smallest(a, k)) + b;
    var tail := Smallest(a - multiset{m}, k');
    CutKeepsMin(a, b, k, k', m);
    CutRemainder(a, b, k, k', m, tail);
    assert (a + b) - multiset{m} == (a - multiset{m}) + b;
    SameHeadSameSmallest(a + b, rhs, j, j', m);
  }

  /** Cutting the part holding the overall minimum keeps that minimum first. */
  lemma CutKeepsMin(a: multiset<real>, b: multiset<real>, k: nat, k': nat, m: real)
    requires k > 0 && k' == k - 1 && |a + b| > 0 && m == Min(a + b) && m in a
    ensures Smallest(a, k) == [m] + Smallest(a - multiset{m}, k')
  {
    forall y | Member(y, a) ensures m <= y {
      assert Member(y, a + b);
    }
    MinUnique(m, Min(a), a);
    SmallestUnfold(a, k, k');
  }

  /** After the cut, the minimum of the merged collection is still `m`, and removing it leaves the cut tail. */
  lemma CutRemainder(a: multiset<real>, b: multiset<real>, k: nat, k': nat, m: real, tail: seq<real>)
    requires k > 0 && k' == k - 1 && |a + b| > 0 && m == Min(a + b) && m in a
    requires Smallest(a, k) == [m] + tail
    ensures Min(multiset(Smallest(a, k)) + b) == m
    ensures (multiset(Smallest(a, k)) + b) - multiset{m} == multiset(tail) + b
  {
    var a' := multiset(Smallest(a, k));
    var rhs := a' + b;
    SmallestWithin(a, k);
    assert a' == multiset{m} + multiset(tail);
    forall y | Member(y, rhs) ensures m <= y {
      assert Member(y, a + b);
    }
    MinUnique(m, Min(rhs), rhs);
  }

  /** Two collections with the same minimum whose remainders agree on their smallest agree too. */
  lemma SameHeadSameSmallest(x: multiset<real>, y: multiset<real>, j: nat, j': nat, m: real)
    requires j > 0 && j' == j - 1 && |x| > 0 && |y| > 0
    requires Min(x) == m && Min(y) == m
    requires Smallest(x - multiset{m}, j') == Smallest(y - multiset{m}, j')
    ensures Smallest(x, j) == Smallest(y, j)
  {
    SmallestUnfold(x, j, j');
    SmallestUnfold(y, j, j');
  }

  /** The overall minimum lies only in the uncut part: again both sides start with it. */
  lemma MergeFromSecond(a: multiset<real>, b: multiset<real>, j: nat, k: nat, m: real, j': nat)
    requires 0 < j <= k && j' == j - 1
    requires |a + b| > 0 && m == Min(a + b) && m !in a
    requires Smallest(a + (b - multiset{m}), j') == Smallest(multiset(Smallest(a, k)) + (b - multiset{m}), j')
    ensures Smallest(a + b, j) == Smallest(multiset(Smallest(a, k)) + b, j)
  {
    var a' := multiset(Smallest(a, k));
    var rhs := a' + b;
    SmallestWithin(a, k);
    assert m !in a';
    assert m in b;
    forall y | Member(y, rhs) ensures m <= y {
      assert Member(y, a + b);
    }
    MinUnique(m, Min(rhs), rhs);
    assert (a + b) - multiset{m} == a + (b - multiset{m});
    assert rhs - multiset{m} == a' + (b - multiset{m});
    SameHeadSameSmallest(a + b, rhs, j, j', m);
  }

  /** The union of a sequence of parts. */
  function Union(parts: seq<multiset<real>>): multiset<real> {
    if |parts| == 0 then multiset{} else parts[0] + Union(parts[1..])
  }

  /** Every part cut to its own `k` smallest. */
  ghost function CutEach(parts: seq<multiset<real>>, k: nat): (r: seq<multiset<real>>)
    ensures |r| == |parts|
    ensures forall i :: 0 <= i < |parts| ==> r[i] == multiset(Smallest(parts[i], k))
  {
    if |parts| == 0 then [] else [multiset(Smallest(parts[0], k))] + CutEach(parts[1..], k)
  }

  /** The merge lemma: local top-`k` per part, then a global cut, is the global top-`k`. */
  lemma {:induction false} LocalThenGlobal(parts: seq<multiset<real>>, k: nat)
    ensures Smallest(Union(CutEach(parts, k)), k) == Smallest(Union(parts), k)
    decreases |parts|
  {
    if |parts| > 0 {
      var rest := Union(parts[1..]);
      var cutRest := Union(CutEach(parts[1..], k));
      var t0 := multiset(Smallest(parts[0], k));
      assert CutEach(parts, k)[1..] == CutEach(parts[1..], k);
      LocalThenGlobal(parts[1..], k);
      MergeStep(parts[0], rest, k, k);
      MergeStep(rest, t0, k, k);
      MergeStep(cutRest, t0, k, k);
      assert rest + t0 == t0 + rest;
      assert cutRest + t0 == t0 + cutRest;
    }
  }
}
