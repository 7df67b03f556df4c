/**
 Counting dictionaries. The aggregators build `Record<string, number>`
 histograms by repeating `m[k] = (m[k] || 0) + 1` over a stream of keys, and
 two-level histograms `m[a][b]` the same way. This module gives those folds a
 reference definition (`Tally`, `NestedTally`), the key order that
 `Object.keys` reports for them (`FirstOccurrences`), sums over the values and
 the percentage table, and proves how the counts add up.
 */
module Counting {

  /** Every histogram in the dashboard is keyed by strings. */
  type Key = string

  /** Number of occurrences of `k` in `xs`. */
  function Count<T(==)>(xs: seq<T>, k: T): (c: nat)
    ensures c <= |xs|
    ensures c > 0 <==> k in xs
  {
    if xs == [] then 0
    else Count(xs[..|xs| - 1], k) + (if xs[|xs| - 1] == k then 1 else 0)
  }

  /** `m[k] || 0`: the count stored for `k`, absent keys reading as 0. */
  function Lookup(m: map<Key, int>, k: Key): int
  {
    if k in m then m[k] else 0
  }

  /** `m[k] = (m[k] || 0) + 1`. */
  function Increment(m: map<Key, int>, k: Key): (r: map<Key, int>)
    ensures r.Keys == m.Keys + {k}
    ensures r[k] == Lookup(m, k) + 1
    ensures forall j :: j in m && j != k ==> r[j] == m[j]
  {
    m[k := Lookup(m, k) + 1]
  }

  /** The histogram left by incrementing once per element of `xs`, in order. */
  function Tally(xs: seq<Key>): (m: map<Key, int>)
    ensures forall k :: k in m <==> k in xs
    ensures forall k :: k in m ==> m[k] == Count(xs, k)
  {
    if xs == [] then map[]
    else Increment(Tally(xs[..|xs| - 1]), xs[|xs| - 1])
  }

  lemma TallySnoc(xs: seq<Key>, x: Key)
    ensures Tally(xs + [x]) == Increment(Tally(xs), x)
  {
    assert (xs + [x])[..|xs|] == xs;
  }

  ghost predicate Distinct(xs: seq<Key>)
  {
    forall i, j :: 0 <= i < j < |xs| ==> xs[i] != xs[j]
  }

  /** The keys of `Tally(xs)` in insertion order, as `Object.keys` lists
      non-numeric keys: each key where it first occurs. */
  function FirstOccurrences(xs: seq<Key>): (ks: seq<Key>)
    ensures forall k :: k in ks <==> k in xs
  {
    if xs == [] then []
    else
      var prev := FirstOccurrences(xs[..|xs| - 1]);
      if xs[|xs| - 1] in xs[..|xs| - 1] then prev else prev + [xs[|xs| - 1]]
  }

  /** No key is listed twice. */
  lemma {:induction false} FirstOccurrencesDistinct(xs: seq<Key>)
    ensures Distinct(FirstOccurrences(xs))
  {
    if xs != [] {
      FirstOccurrencesDistinct(xs[..|xs| - 1]);
    }
  }

  lemma FirstOccurrencesSnoc(xs: seq<Key>, x: Key)
    ensures FirstOccurrences(xs + [x])
         == if x in Tally(xs) then FirstOccurrences(xs) else FirstOccurrences(xs) + [x]
  {
    assert (xs + [x])[..|xs|] == xs;
  }

  /** Sum of `m[k]` over the keys listed in `keys`. */
  function SumOver(m: map<Key, int>, keys: seq<Key>): int
    requires forall k :: k in keys ==> k in m
  {
    if keys == [] then 0
    else SumOver(m, keys[..|keys| - 1]) + m[keys[|keys| - 1]]
  }

  /** Sum of `Count(xs, k)` over the keys listed in `keys`. */
  function SumCounts(xs: seq<Key>, keys: seq<Key>): int
  {
    if keys == [] then 0
    else SumCounts(xs, keys[..|keys| - 1]) + Count(xs, keys[|keys| - 1])
  }

  lemma {:induction false} CountOfDistinct(keys: seq<Key>, x: Key)
    requires Distinct(keys) && x in keys
    ensures Count(keys, x) == 1
  {
    var init, last := keys[..|keys| - 1], keys[|keys| - 1];
    assert Distinct(init);
    if last == x {
      assert x !in init by {
        forall i | 0 <= i < |init| ensures init[i] != x {
          assert keys[i] == init[i];
        }
      }
    } else {
      assert x in init by {
        var i :| 0 <= i < |keys| && keys[i] == x;
        assert i < |init| && init[i] == x;
      }
      CountOfDistinct(init, x);
    }
  }

  lemma {:induction false} SumCountsOfEmpty(keys: seq<Key>)
    ensures SumCounts([], keys) == 0
  {
    if keys != [] {
      SumCountsOfEmpty(keys[..|keys| - 1]);
    }
  }

  lemma {:induction false} SumCountsSnoc(xs: seq<Key>, x: Key, keys: seq<Key>)
    ensures SumCounts(xs + [x], keys) == SumCounts(xs, keys) + Count(keys, x)
  {
    if keys != [] {
      var init, last := keys[..|keys| - 1], keys[|keys| - 1];
      SumCountsSnoc(xs, x, init);
      assert (xs + [x])[..|xs|] == xs;
    }
  }

  /** Over a duplicate-free list of keys that covers every element of `xs`,
      the counts add up to the length of `xs`. */
  lemma {:induction false} SumOfCounts(xs: seq<Key>, keys: seq<Key>)
    requires Distinct(keys)
    requires forall x :: x in xs ==> x in keys
    ensures SumCounts(xs, keys) == |xs|
  {
    if xs == [] {
      SumCountsOfEmpty(keys);
    } else {
      var init, last := xs[..|xs| - 1], xs[|xs| - 1];
      assert xs == init + [last];
      SumOfCounts(init, keys);
      SumCountsSnoc(init, last, keys);
      CountOfDistinct(keys, last);
    }
  }

  lemma {:induction false} SumOverIsSumCounts(m: map<Key, int>, xs: seq<Key>, keys: seq<Key>)
    requires forall k :: k in keys ==> k in m && m[k] == Count(xs, k)
    ensures SumOver(m, keys) == SumCounts(xs, keys)
  {
    if keys != [] {
      SumOverIsSumCounts(m, xs, keys[..|keys| - 1]);
    }
  }

  /** The values of a histogram, summed over any duplicate-free listing of its
      keys, add up to the number of increments that built it. */
  lemma TallySum(xs: seq<Key>, keys: seq<Key>)
    requires Distinct(keys)
    requires forall k :: k in keys <==> k in Tally(xs)
    ensures SumOver(Tally(xs), keys) == |xs|
  {
    SumOverIsSumCounts(Tally(xs), xs, keys);
    SumOfCounts(xs, keys);
  }

  /** The first and the second components of a list of pairs. */
  function Firsts(ev: seq<(Key, Key)>): (r: seq<Key>)
    ensures |r| == |ev| && forall i :: 0 <= i < |ev| ==> r[i] == ev[i].0
  {
    seq(|ev|, i requires 0 <= i < |ev| => ev[i].0)
  }

  function Seconds(ev: seq<(Key, Key)>): (r: seq<Key>)
    ensures |r| == |ev| && forall i :: 0 <= i < |ev| ==> r[i] == ev[i].1
  {
    seq(|ev|, i requires 0 <= i < |ev| => ev[i].1)
  }

  lemma FirstsSecondsSnoc(ev: seq<(Key, Key)>, e: (Key, Key))
    ensures Firsts(ev + [e]) == Firsts(ev) + [e.0]
    ensures Seconds(ev + [e]) == Seconds(ev) + [e.1]
  {
  }

  /** One more `(a, b)` in a two-level histogram, creating the inner map
      for `a` when it is missing. */
  function NestedIncrement(t: map<Key, map<Key, int>>, a: Key, b: Key): map<Key, map<Key, int>>
  {
    t[a := Increment(if a in t then t[a] else map[], b)]
  }

  /** The two-level histogram left by one nested increment per pair of `ev`. */
  function NestedTally(ev: seq<(Key, Key)>): (t: map<Key, map<Key, int>>)
    ensures forall a :: a in t <==> a in Firsts(ev)
    ensures forall a, b :: a in t ==> (b in t[a] <==> (a, b) in ev)
    ensures forall a, b :: a in t ==> Lookup(t[a], b) == Count(ev, (a, b))
  {
    if ev == [] then map[]
    else
      var init, last := ev[..|ev| - 1], ev[|ev| - 1];
      assert ev == init + [last];
      NestedIncrementStep(NestedTally(init), init, last);
      NestedIncrement(NestedTally(init), last.0, last.1)
  }

  lemma CountSnoc<T>(xs: seq<T>, x: T, k: T)
    ensures Count(xs + [x], k) == Count(xs, k) + (if x == k then 1 else 0)
  {
    assert (xs + [x])[..|xs|] == xs;
  }

  lemma FirstsHold(ev: seq<(Key, Key)>, a: Key, b: Key)
    requires (a, b) in ev
    ensures a in Firsts(ev)
  {
    var i :| 0 <= i < |ev| && ev[i] == (a, b);
    assert Firsts(ev)[i] == a;
  }

  /** A nested increment extends a two-level tally of `ev` to one of
      `ev + [e]`. */
  lemma NestedIncrementStep(t: map<Key, map<Key, int>>, ev: seq<(Key, Key)>, e: (Key, Key))
    requires forall a :: a in t <==> a in Firsts(ev)
    requires forall a, b :: a in t ==> (b in t[a] <==> (a, b) in ev)
    requires forall a, b :: a in t ==> Lookup(t[a], b) == Count(ev, (a, b))
    ensures var r := NestedIncrement(t, e.0, e.1);
      && (forall a :: a in r <==> a in Firsts(ev + [e]))
      && (forall a, b :: a in r ==> (b in r[a] <==> (a, b) in ev + [e]))
      && (forall a, b :: a in r ==> Lookup(r[a], b) == Count(ev + [e], (a, b)))
  {
    var r := NestedIncrement(t, e.0, e.1);
    FirstsSecondsSnoc(ev, e);
    forall a, b | a in r
      ensures (b in r[a] <==> (a, b) in ev + [e]) && Lookup(r[a], b) == Count(ev + [e], (a, b))
    {
      CountSnoc(ev, e, (a, b));
      if a != e.0 {
        assert r[a] == t[a];
      } else if a in t {
        assert r[a] == Increment(t[a], e.1);
      } else {
        assert r[a] == Increment(map[], e.1);
        if (a, b) in ev {
          FirstsHold(ev, a, b);
        }
        assert Count(ev, (a, b)) == 0;
      }
    }
  }

  /** Sum of `t[a][b] || 0` over the outer keys listed in `outer`. */
  function SumColumn(t: map<Key, map<Key, int>>, outer: seq<Key>, b: Key): int
    requires forall a :: a in outer ==> a in t
  {
    if outer == [] then 0
    else SumColumn(t, outer[..|outer| - 1], b) + Lookup(t[outer[|outer| - 1]], b)
  }

  /** Sum of `Count(ev, (a, b))` over the outer keys listed in `outer`. */
  function SumPairCounts(ev: seq<(Key, Key)>, outer: seq<Key>, b: Key): int
  {
    if outer == [] then 0
    else SumPairCounts(ev, outer[..|outer| - 1], b) + Count(ev, (outer[|outer| - 1], b))
  }

  lemma {:induction false} SumPairCountsOfEmpty(outer: seq<Key>, b: Key)
    ensures SumPairCounts([], outer, b) == 0
  {
    if outer != [] {
      SumPairCountsOfEmpty(outer[..|outer| - 1], b);
    }
  }

  lemma {:induction false} SumPairCountsSnoc(ev: seq<(Key, Key)>, e: (Key, Key), outer: seq<Key>, b: Key)
    ensures SumPairCounts(ev + [e], outer, b)
         == SumPairCounts(ev, outer, b) + (if e.1 == b then Count(outer, e.0) else 0)
  {
    if outer != [] {
      SumPairCountsSnoc(ev, e, outer[..|outer| - 1], b);
      assert (ev + [e])[..|ev|] == ev;
    }
  }

  lemma {:induction false} SumPairCountsIsCount(ev: seq<(Key, Key)>, outer: seq<Key>, b: Key)
    requires Distinct(outer)
    requires forall a :: a in Firsts(ev) ==> a in outer
    ensures SumPairCounts(ev, outer, b) == Count(Seconds(ev), b)
  {
    if ev == [] {
      SumPairCountsOfEmpty(outer, b);
    } else {
      var init, last := ev[..|ev| - 1], ev[|ev| - 1];
      assert ev == init + [last];
      FirstsSecondsSnoc(init, last);
      assert last.0 in Firsts(ev);
      SumPairCountsIsCount(init, outer, b);
      SumPairCountsSnoc(init, last, outer, b);
      CountOfDistinct(outer, last.0);
      assert Seconds(ev)[..|init|] == Seconds(init);
    }
  }

  lemma {:induction false} SumColumnIsSumPairCounts(ev: seq<(Key, Key)>, outer: seq<Key>, b: Key)
    requires forall a :: a in outer ==> a in NestedTally(ev)
    ensures SumColumn(NestedTally(ev), outer, b) == SumPairCounts(ev, outer, b)
  {
    if outer != [] {
      SumColumnIsSumPairCounts(ev, outer[..|outer| - 1], b);
    }
  }

  /** Summed over any duplicate-free listing of the outer keys, the inner
      counts of `b` add up to the number of pairs whose second part is `b`,
      which is `Tally(Seconds(ev))[b]` when `b` occurs. */
  lemma NestedTallyColumnSum(ev: seq<(Key, Key)>, outer: seq<Key>, b: Key)
    requires Distinct(outer)
    requires forall a :: a in outer <==> a in NestedTally(ev)
    ensures SumColumn(NestedTally(ev), outer, b) == Count(Seconds(ev), b)
    ensures b in Tally(Seconds(ev)) ==> SumColumn(NestedTally(ev), outer, b) == Tally(Seconds(ev))[b]
  {
    SumColumnIsSumPairCounts(ev, outer, b);
    SumPairCountsIsCount(ev, outer, b);
  }

  /** `pct[k] = (m[k] / total) * 100` for every key of `m`. */
  function Percentages(m: map<Key, int>, total: int): (p: map<Key, real>)
    requires total != 0 || m == map[]
    ensures p.Keys == m.Keys
  {
    map k | k in m :: (m[k] as real / total as real) * 100.0
  }

  /** The percentage table of a histogram built from `xs`, its total taken
      as the sum of its values. */
  function Shares(xs: seq<Key>): map<Key, real>
  {
    var order := FirstOccurrences(xs);
    FirstOccurrencesDistinct(xs);
    TallySum(xs, order);
    Percentages(Tally(xs), SumOver(Tally(xs), order))
  }

  /** Sum of `p[k]` over the keys listed in `keys`. */
  function SumReal(p: map<Key, real>, keys: seq<Key>): real
    requires forall k :: k in keys ==> k in p
  {
    if keys == [] then 0.0
    else SumReal(p, keys[..|keys| - 1]) + p[keys[|keys| - 1]]
  }

  lemma {:induction false} SumPercentages(m: map<Key, int>, total: int, keys: seq<Key>)
    requires total != 0
    requires forall k :: k in keys ==> k in m
    ensures SumReal(Percentages(m, total), keys) == (SumOver(m, keys) as real / total as real) * 100.0
  {
    if keys != [] {
      SumPercentages(m, total, keys[..|keys| - 1]);
    }
  }

  /** When `total` is the sum of all counts and is positive, the percentages,
      summed over any listing of the keys, make exactly 100. */
  lemma PercentagesSumTo100(m: map<Key, int>, total: int, keys: seq<Key>)
    requires total > 0
    requires forall k :: k in keys <==> k in m
    requires SumOver(m, keys) == total
    ensures SumReal(Percentages(m, total), keys) == 100.0
  {
    SumPercentages(m, total, keys);
    assert total as real / total as real == 1.0;
  }

  /** The three things a keyword or hashtag pass updates per key: the global
      histogram, the per-month histogram and the order in which keys were
      first counted (the order `Object.entries` reports non-numeric keys in). */
  datatype Counts = Counts(totals: map<Key, int>, byMonth: map<Key, map<Key, int>>, order: seq<Key>)

  /** One `(month, key)` pair counted: `m[key]++` and `t[month][key]++`. */
  function RecordPair(c: Counts, e: (Key, Key)): Counts
  {
    Counts(
      Increment(c.totals, e.1),
      NestedIncrement(c.byMonth, e.0, e.1),
      if e.1 in c.totals then c.order else c.order + [e.1])
  }

  /** The counts after recording the pairs of `ev` one at a time. */
  function CountsOf(ev: seq<(Key, Key)>): Counts
  {
    if ev == [] then Counts(map[], map[], [])
    else RecordPair(CountsOf(ev[..|ev| - 1]), ev[|ev| - 1])
  }

  lemma CountsOfSnoc(ev: seq<(Key, Key)>, e: (Key, Key))
    ensures CountsOf(ev + [e]) == RecordPair(CountsOf(ev), e)
  {
    assert (ev + [e])[..|ev|] == ev;
  }

  lemma NestedTallySnoc(ev: seq<(Key, Key)>, e: (Key, Key))
    ensures NestedTally(ev + [e]) == NestedIncrement(NestedTally(ev), e.0, e.1)
  {
    assert (ev + [e])[..|ev|] == ev;
  }

  /** Recording pairs one at a time builds exactly the tally of their keys,
      the two-level tally by month, and the first-occurrence key order. */
  lemma {:induction false} CountsAreTallies(ev: seq<(Key, Key)>)
    ensures CountsOf(ev) == Counts(Tally(Seconds(ev)), NestedTally(ev), FirstOccurrences(Seconds(ev)))
  {
    if ev != [] {
      var init, last := ev[..|ev| - 1], ev[|ev| - 1];
      assert ev == init + [last];
      CountsAreTallies(init);
      FirstsSecondsSnoc(init, last);
      TallySnoc(Seconds(init), last.1);
      FirstOccurrencesSnoc(Seconds(init), last.1);
      NestedTallySnoc(init, last);
    }
  }

  /** The pairs `(month, k)` for each `k` of `keys`, in order. */
  function MonthPairs(month: Key, keys: seq<Key>): (ev: seq<(Key, Key)>)
    ensures |ev| == |keys|
  {
    if keys == [] then []
    else MonthPairs(month, keys[..|keys| - 1]) + [(month, keys[|keys| - 1])]
  }

  lemma MonthPairsStep(seen: seq<(Key, Key)>, month: Key, keys: seq<Key>, j: nat)
    requires j < |keys|
    ensures CountsOf(seen + MonthPairs(month, keys[..j + 1]))
         == RecordPair(CountsOf(seen + MonthPairs(month, keys[..j])), (month, keys[j]))
  {
    assert keys[..j + 1][..j] == keys[..j];
    var prefix := seen + MonthPairs(month, keys[..j]);
    assert seen + MonthPairs(month, keys[..j + 1]) == prefix + [(month, keys[j])];
    CountsOfSnoc(prefix, (month, keys[j]));
  }

  /** The inner `forEach` of the keyword and hashtag passes: each key of one
      post counted globally and under the post's month. */
  method CountKeys(month: Key, keys: seq<Key>, ghost seen: seq<(Key, Key)>,
                   totals0: map<Key, int>, byMonth0: map<Key, map<Key, int>>, order0: seq<Key>)
    returns (totals: map<Key, int>, byMonth: map<Key, map<Key, int>>, order: seq<Key>)
    requires Counts(totals0, byMonth0, order0) == CountsOf(seen)
    ensures Counts(totals, byMonth, order) == CountsOf(seen + MonthPairs(month, keys))
  {
    totals, byMonth, order := totals0, byMonth0, order0;
    assert seen + MonthPairs(month, keys[..0]) == seen;
    var j := 0;
    while j < |keys|
      invariant 0 <= j <= |keys|
      invariant Counts(totals, byMonth, order) == CountsOf(seen + MonthPairs(month, keys[..j]))
    {
      var key := keys[j];
      MonthPairsStep(seen, month, keys, j);
      if key !in totals {
        order := order + [key];
      }
      totals := Increment(totals, key);
      var inner := if month in byMonth then byMonth[month] else map[];
      byMonth := byMonth[month := Increment(inner, key)];
      j := j + 1;
    }
    assert keys[..j] == keys;
  }

  /** The sum of the values of `m` (the `reduce` over `Object.values`), the
      values visited in the order of `keys`. */
  method SumValues(m: map<Key, int>, keys: seq<Key>) returns (total: int)
    requires forall k :: k in keys ==> k in m
    ensures total == SumOver(m, keys)
  {
    total := 0;
    var i := 0;
    while i < |keys|
      invariant 0 <= i <= |keys|
      invariant total == SumOver(m, keys[..i])
    {
      assert keys[..i + 1][..i] == keys[..i];
      total := total + m[keys[i]];
      i := i + 1;
    }
    assert keys[..i] == keys;
  }

  /** The percentage loop over `Object.entries(m)`: each count divided by
      `total`, times 100, the entries visited in the order of `keys`, which
      lists every key of `m`. */
  method PercentagesOf(m: map<Key, int>, total: int, keys: seq<Key>) returns (pct: map<Key, real>)
    requires total != 0 || m == map[]
    requires forall k :: k in keys <==> k in m
    ensures pct == Percentages(m, total)
  {
    pct := map[];
    var i := 0;
    while i < |keys|
      invariant 0 <= i <= |keys|
      invariant forall k :: k in pct <==> k in keys[..i]
      invariant forall k :: k in pct ==> k in m && pct[k] == (m[k] as real / total as real) * 100.0
    {
      var k := keys[i];
      assert k in m;
      pct := pct[k := (m[k] as real / total as real) * 100.0];
      assert forall j :: j in keys[..i + 1] <==> j in keys[..i] || j == k;
      i := i + 1;
    }
    assert keys[..i] == keys;
    assert pct.Keys == Percentages(m, total).Keys;
  }

  /** Each share is the key's count over the number of increments, times
      100; summed over any listing of the keys without repeats, the shares
      make exactly 100. */
  lemma SharesSumTo100(xs: seq<Key>, keys: seq<Key>)
    requires xs != []
    requires Distinct(keys)
    requires forall k :: k in keys <==> k in Tally(xs)
    ensures forall k :: k in Shares(xs) <==> k in xs
    ensures forall k :: k in Shares(xs) ==> Shares(xs)[k] == (Count(xs, k) as real / |xs| as real) * 100.0
    ensures SumReal(Shares(xs), keys) == 100.0
  {
    FirstOccurrencesDistinct(xs);
    TallySum(xs, FirstOccurrences(xs));
    TallySum(xs, keys);
    PercentagesSumTo100(Tally(xs), |xs|, keys);
  }
}
