/**
 `Array.prototype.sort` with a comparator, as the dashboard uses it. The
 sort is stable, so for a comparator that orders by an integer key its
 result is determined: ascending key, ties in input order. Insertion sort
 computes exactly that result and serves as its reference definition.
 */
module StableSort {

  /** Inserts `x` after every element of `s` it does not compare below. */
  function Insert<T>(x: T, s: seq<T>, cmp: (T, T) -> int): (r: seq<T>)
    ensures |r| == |s| + 1
  {
    if s == [] then [x]
    else if cmp(x, s[0]) < 0 then [x] + s
    else
      assert s == [s[0]] + s[1..];
      [s[0]] + Insert(x, s[1..], cmp)
  }

  /** `xs.sort(cmp)`: each element in turn inserted into the sorted prefix. */
  function Sort<T>(xs: seq<T>, cmp: (T, T) -> int): (r: seq<T>)
    ensures |r| == |xs|
  {
    if xs == [] then []
    else
      assert xs == xs[..|xs| - 1] + [xs[|xs| - 1]];
      Insert(xs[|xs| - 1], Sort(xs[..|xs| - 1], cmp), cmp)
  }

  lemma {:induction false} InsertPermutes<T>(x: T, s: seq<T>, cmp: (T, T) -> int)
    ensures multiset(Insert(x, s, cmp)) == multiset(s) + multiset{x}
  {
    if s != [] && cmp(x, s[0]) >= 0 {
      InsertPermutes(x, s[1..], cmp);
      assert s == [s[0]] + s[1..];
    }
  }

  /** Sorting only reorders: the result holds the same elements, each as
      often as the input. */
  lemma {:induction false} SortPermutes<T>(xs: seq<T>, cmp: (T, T) -> int)
    ensures multiset(Sort(xs, cmp)) == multiset(xs)
  {
    if xs != [] {
      var init, last := xs[..|xs| - 1], xs[|xs| - 1];
      SortPermutes(init, cmp);
      InsertPermutes(last, Sort(init, cmp), cmp);
      assert xs == init + [last];
    }
  }

  /** `s` is in ascending order of `key`. */
  ghost predicate SortedBy<T>(s: seq<T>, key: T -> int)
  {
    forall i, j :: 0 <= i < j < |s| ==> key(s[i]) <= key(s[j])
  }

  /** On the elements of `xs`, `cmp(a, b)` is `key(a) - key(b)`. */
  ghost predicate KeyedOn<T>(cmp: (T, T) -> int, key: T -> int, xs: seq<T>)
  {
    forall a, b :: a in xs && b in xs ==> cmp(a, b) == key(a) - key(b)
  }

  lemma {:induction false} InsertKeepsLowerBound<T>(x: T, s: seq<T>, cmp: (T, T) -> int, key: T -> int, lo: int)
    requires key(x) >= lo
    requires forall i :: 0 <= i < |s| ==> key(s[i]) >= lo
    ensures forall i :: 0 <= i < |Insert(x, s, cmp)| ==> key(Insert(x, s, cmp)[i]) >= lo
  {
    if s != [] && cmp(x, s[0]) >= 0 {
      InsertKeepsLowerBound(x, s[1..], cmp, key, lo);
    }
  }

  lemma {:induction false} InsertSorted<T>(x: T, s: seq<T>, cmp: (T, T) -> int, key: T -> int)
    requires SortedBy(s, key)
    requires forall i :: 0 <= i < |s| ==> cmp(x, s[i]) == key(x) - key(s[i])
    ensures SortedBy(Insert(x, s, cmp), key)
  {
    if s != [] && cmp(x, s[0]) >= 0 {
      var rest := s[1..];
      InsertSorted(x, rest, cmp, key);
      InsertKeepsLowerBound(x, rest, cmp, key, key(s[0]));
      var tail := Insert(x, rest, cmp);
      var r := [s[0]] + tail;
      assert r == Insert(x, s, cmp);
      forall i, j | 0 <= i < j < |r| ensures key(r[i]) <= key(r[j]) {
        if i == 0 {
          assert r[j] == tail[j - 1];
        } else {
          assert r[i] == tail[i - 1] && r[j] == tail[j - 1];
        }
      }
    }
  }

  /** Under a key comparator the result is in ascending key order. */
  lemma {:induction false} SortSorted<T>(xs: seq<T>, cmp: (T, T) -> int, key: T -> int)
    requires KeyedOn(cmp, key, xs)
    ensures SortedBy(Sort(xs, cmp), key)
  {
    if xs != [] {
      var init, last := xs[..|xs| - 1], xs[|xs| - 1];
      assert xs == init + [last];
      assert KeyedOn(cmp, key, init);
      SortSorted(init, cmp, key);
      var sorted := Sort(init, cmp);
      SortPermutes(init, cmp);
      forall i | 0 <= i < |sorted| ensures cmp(last, sorted[i]) == key(last) - key(sorted[i]) {
        assert sorted[i] in multiset(sorted);
        assert sorted[i] in xs;
      }
      InsertSorted(last, sorted, cmp, key);
    }
  }

  /** A comparator that never puts a later element before an earlier one
      leaves the order unchanged. */
  lemma {:induction false} SortUnchanged<T>(xs: seq<T>, cmp: (T, T) -> int)
    requires forall a, b :: cmp(a, b) >= 0
    ensures Sort(xs, cmp) == xs
  {
    if xs != [] {
      var init, last := xs[..|xs| - 1], xs[|xs| - 1];
      SortUnchanged(init, cmp);
      InsertAtEnd(last, init, cmp);
      assert xs == init + [last];
    }
  }

  lemma {:induction false} InsertAtEnd<T>(x: T, s: seq<T>, cmp: (T, T) -> int)
    requires forall a, b :: cmp(a, b) >= 0
    ensures Insert(x, s, cmp) == s + [x]
  {
    if s != [] {
      InsertAtEnd(x, s[1..], cmp);
      assert s == [s[0]] + s[1..];
    }
  }

  /** Sum of `f` over the elements of `s`. */
  function SumBy<T>(s: seq<T>, f: T -> int): int
  {
    if s == [] then 0 else SumBy(s[..|s| - 1], f) + f(s[|s| - 1])
  }

  lemma {:induction false} SumByAppend<T>(a: seq<T>, b: seq<T>, f: T -> int)
    ensures SumBy(a + b, f) == SumBy(a, f) + SumBy(b, f)
  {
    if b != [] {
      SumByAppend(a, b[..|b| - 1], f);
      assert (a + b)[..|a + b| - 1] == a + b[..|b| - 1];
    } else {
      assert a + b == a;
    }
  }

  /** Reordering does not change a sum; in particular `SumBy(Sort(xs, cmp), f)
      == SumBy(xs, f)`. */
  lemma {:induction false} SumByPermutation<T>(a: seq<T>, b: seq<T>, f: T -> int)
    requires multiset(a) == multiset(b)
    ensures SumBy(a, f) == SumBy(b, f)
    decreases |a|
  {
    if a == [] {
      assert |b| == |multiset(b)| == 0;
    } else {
      var init, x := a[..|a| - 1], a[|a| - 1];
      assert a == init + [x];
      assert x in multiset(b);
      var k :| 0 <= k < |b| && b[k] == x;
      var rest := b[..k] + b[k + 1..];
      assert b == b[..k] + [x] + b[k + 1..];
      assert multiset(b) == multiset(b[..k]) + multiset{x} + multiset(b[k + 1..]);
      assert multiset(a) == multiset(init) + multiset{x};
      assert multiset(rest) == multiset(b[..k]) + multiset(b[k + 1..]);
      assert multiset(init) == multiset(rest) by {
        forall y ensures multiset(init)[y] == multiset(rest)[y] {
          assert (multiset(init) + multiset{x})[y] == (multiset(rest) + multiset{x})[y];
        }
      }
      SumByPermutation(init, rest, f);
      SumByAppend(b[..k] + [x], b[k + 1..], f);
      SumByAppend(b[..k], [x], f);
      SumByAppend(b[..k], b[k + 1..], f);
      assert SumBy([x], f) == f(x) by {
        assert [x][..0] == [];
      }
    }
  }
}
