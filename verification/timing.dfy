/**
 The timing aggregator (`processTimingAnalysis`): hour-of-day and weekday
 histograms over every post and every comment, and both histograms listed
 as entries sorted by count, most active first.
 */
module Timing {
  import opened Types
  import opened Counting
  import opened StableSort

  function DigitChar(d: int): char
    requires 0 <= d < 10
  {
    (48 + d) as char
  }

  /** `${hour}`: the decimal spelling of an hour, the key of `hourlyActivity`. */
  function HourKey(h: Hour): (k: string)
    ensures 1 <= |k| <= 2
  {
    if h < 10 then [DigitChar(h)] else [DigitChar(h / 10), DigitChar(h % 10)]
  }

  lemma HourKeyInjective(a: Hour, b: Hour)
    requires HourKey(a) == HourKey(b)
    ensures a == b
  {
    if a < 10 && b < 10 {
      assert DigitChar(a) == HourKey(a)[0] == HourKey(b)[0] == DigitChar(b);
    } else if a >= 10 && b >= 10 {
      assert DigitChar(a / 10) == DigitChar(b / 10);
      assert DigitChar(a % 10) == DigitChar(b % 10);
    }
  }

  function CommentStamps(cs: seq<Comment>): (st: seq<Stamp>)
    ensures |st| == |cs|
  {
    if cs == [] then [] else CommentStamps(cs[..|cs| - 1]) + [cs[|cs| - 1].timestamp]
  }

  lemma SnocAssoc(a: seq<Stamp>, b: seq<Stamp>, x: Stamp)
    ensures a + b + [x] == a + (b + [x])
  {
  }

  lemma CommentStampsSnoc(cs: seq<Comment>, j: nat)
    requires j < |cs|
    ensures CommentStamps(cs[..j + 1]) == CommentStamps(cs[..j]) + [cs[j].timestamp]
  {
    assert cs[..j + 1][..j] == cs[..j];
  }

  /** The timestamps one post contributes: its own, then its comments'. */
  function PostActivity(p: Post): seq<Stamp>
  {
    [p.timestamp] + CommentStamps(p.latestComments)
  }

  /** Every timestamp the histograms count, in traversal order. */
  function ActivityStamps(posts: seq<Post>): seq<Stamp>
  {
    if posts == [] then []
    else ActivityStamps(posts[..|posts| - 1]) + PostActivity(posts[|posts| - 1])
  }

  lemma {:induction false} ActivityStampsLength(posts: seq<Post>)
    ensures |ActivityStamps(posts)| == |posts| + TotalComments(posts)
  {
    if posts != [] {
      ActivityStampsLength(posts[..|posts| - 1]);
    }
  }

  function HourKeys(st: seq<Stamp>): (r: seq<string>)
    ensures |r| == |st| && forall i :: 0 <= i < |st| ==> r[i] == HourKey(st[i].hour)
  {
    seq(|st|, i requires 0 <= i < |st| => HourKey(st[i].hour))
  }

  function Weekdays(st: seq<Stamp>): (r: seq<string>)
    ensures |r| == |st| && forall i :: 0 <= i < |st| ==> r[i] == st[i].weekday
  {
    seq(|st|, i requires 0 <= i < |st| => st[i].weekday)
  }

  lemma ProjectionsSnoc(st: seq<Stamp>, s: Stamp)
    ensures HourKeys(st + [s]) == HourKeys(st) + [HourKey(s.hour)]
    ensures Weekdays(st + [s]) == Weekdays(st) + [s.weekday]
  {
  }

  /** One more timestamp: one more increment in each histogram, and the
      weekday joins the key order if it is new. */
  lemma StampStep(st: seq<Stamp>, s: Stamp)
    ensures Tally(HourKeys(st + [s])) == Increment(Tally(HourKeys(st)), HourKey(s.hour))
    ensures Tally(Weekdays(st + [s])) == Increment(Tally(Weekdays(st)), s.weekday)
    ensures FirstOccurrences(Weekdays(st + [s]))
         == if s.weekday in Tally(Weekdays(st)) then FirstOccurrences(Weekdays(st))
            else FirstOccurrences(Weekdays(st)) + [s.weekday]
  {
    ProjectionsSnoc(st, s);
    TallySnoc(HourKeys(st), HourKey(s.hour));
    TallySnoc(Weekdays(st), s.weekday);
    FirstOccurrencesSnoc(Weekdays(st), s.weekday);
  }

  /** One more post: its own timestamp, then its comments', after what was
      counted before. */
  lemma ActivityStampsSnoc(posts: seq<Post>, i: nat)
    requires i < |posts|
    ensures ActivityStamps(posts[..i + 1])
         == ActivityStamps(posts[..i]) + [posts[i].timestamp] + CommentStamps(posts[i].latestComments)
  {
    assert posts[..i + 1][..i] == posts[..i];
    var a, c := ActivityStamps(posts[..i]), CommentStamps(posts[i].latestComments);
    assert a + ([posts[i].timestamp] + c) == a + [posts[i].timestamp] + c;
  }

  /** The hours `g >= h` whose key is in `m`, in ascending order. */
  function HoursPresent(m: map<string, int>, h: nat): seq<Hour>
    decreases 24 - h
  {
    if h >= 24 then []
    else (if HourKey(h) in m then [h as Hour] else []) + HoursPresent(m, h + 1)
  }

  /** `HoursPresent(m, h)` lists exactly the hours from `h` on whose key is in
      `m`, each once and in ascending order. */
  lemma {:induction false} HoursPresentSpec(m: map<string, int>, h: nat)
    ensures forall i :: 0 <= i < |HoursPresent(m, h)| ==>
      h <= HoursPresent(m, h)[i] && HourKey(HoursPresent(m, h)[i]) in m
    ensures forall i, j :: 0 <= i < j < |HoursPresent(m, h)| ==> HoursPresent(m, h)[i] < HoursPresent(m, h)[j]
    ensures forall g: Hour :: h <= g && HourKey(g) in m ==> g in HoursPresent(m, h)
    decreases 24 - h
  {
    if h < 24 {
      HoursPresentSpec(m, h + 1);
    }
  }

  /** The keys of `m` that spell an hour, in ascending hour order: the order
      in which `Object.entries` lists integer-like keys. */
  function HourOrder(m: map<string, int>): (ks: seq<string>)
    ensures forall k :: k in ks ==> k in m
  {
    HoursPresentSpec(m, 0);
    var hs := HoursPresent(m, 0);
    seq(|hs|, i requires 0 <= i < |hs| => HourKey(hs[i]))
  }

  lemma HourOrderListsHours(m: map<string, int>, g: Hour)
    requires HourKey(g) in m
    ensures HourKey(g) in HourOrder(m)
  {
    HoursPresentSpec(m, 0);
    var hs := HoursPresent(m, 0);
    var i :| 0 <= i < |hs| && hs[i] == g;
    assert HourOrder(m)[i] == HourKey(g);
  }

  lemma HourOrderDistinct(m: map<string, int>)
    ensures Distinct(HourOrder(m))
  {
    HoursPresentSpec(m, 0);
    var hs := HoursPresent(m, 0);
    var ks := HourOrder(m);
    forall i, j | 0 <= i < j < |ks| ensures ks[i] != ks[j] {
      assert ks[i] == HourKey(hs[i]) && ks[j] == HourKey(hs[j]);
      if ks[i] == ks[j] {
        HourKeyInjective(hs[i], hs[j]);
      }
    }
  }

  /** The entries of `hourlyActivity` as `{hour, count}` records, in `order`. */
  function HourEntries(m: map<string, int>, order: seq<string>): (es: seq<HourCount>)
    requires forall k :: k in order ==> k in m
    ensures |es| == |order|
  {
    if order == [] then []
    else HourEntries(m, order[..|order| - 1]) + [HourCount(order[|order| - 1], m[order[|order| - 1]])]
  }

  /** The entries of `dayActivity` as `{day, count}` records, in `order`. */
  function DayEntries(m: map<string, int>, order: seq<string>): (es: seq<DayCount>)
    requires forall k :: k in order ==> k in m
    ensures |es| == |order|
  {
    if order == [] then []
    else DayEntries(m, order[..|order| - 1]) + [DayCount(order[|order| - 1], m[order[|order| - 1]])]
  }

  /** The comparator `(a, b) => b.count - a.count`. */
  function ByHourCountDesc(a: HourCount, b: HourCount): int { b.count - a.count }
  function ByDayCountDesc(a: DayCount, b: DayCount): int { b.count - a.count }

  function NegHourCount(e: HourCount): int { -e.count }
  function NegDayCount(e: DayCount): int { -e.count }
  function DayCountOf(e: DayCount): int { e.count }

  /** The weekday histogram (`dayActivity`), which the analysis keeps only as
      its sorted entries. */
  function DayActivity(posts: seq<Post>): map<string, int>
  {
    Tally(Weekdays(ActivityStamps(posts)))
  }

  /** Reference definition of the timing analysis of `posts`. */
  function TimingOf(posts: seq<Post>): TimingAnalysis
  {
    var st := ActivityStamps(posts);
    var hourly := Tally(HourKeys(st));
    var daily := Tally(Weekdays(st));
    TimingAnalysis(
      hourly,
      Sort(DayEntries(daily, FirstOccurrences(Weekdays(st))), ByDayCountDesc),
      Sort(HourEntries(hourly, HourOrder(hourly)), ByHourCountDesc))
  }

  lemma {:induction false} HourEntriesMembers(m: map<string, int>, order: seq<string>)
    requires forall k :: k in order ==> k in m
    requires Distinct(order)
    ensures forall e :: e in HourEntries(m, order) ==> e.hour in order && e.count == m[e.hour]
    ensures forall k :: k in order ==> multiset(HourEntries(m, order))[HourCount(k, m[k])] == 1
  {
    if order != [] {
      var init, last := order[..|order| - 1], order[|order| - 1];
      assert Distinct(init);
      HourEntriesMembers(m, init);
      assert last !in init by {
        forall i | 0 <= i < |init| ensures init[i] != last {
          assert order[i] == init[i];
        }
      }
      assert forall k :: k in order ==> k in init || k == last;
    }
  }

  lemma {:induction false} DayEntriesMembers(m: map<string, int>, order: seq<string>)
    requires forall k :: k in order ==> k in m
    requires Distinct(order)
    ensures forall e :: e in DayEntries(m, order) ==> e.day in order && e.count == m[e.day]
    ensures forall k :: k in order ==> multiset(DayEntries(m, order))[DayCount(k, m[k])] == 1
  {
    if order != [] {
      var init, last := order[..|order| - 1], order[|order| - 1];
      assert Distinct(init);
      DayEntriesMembers(m, init);
      assert last !in init by {
        forall i | 0 <= i < |init| ensures init[i] != last {
          assert order[i] == init[i];
        }
      }
      assert forall k :: k in order ==> k in init || k == last;
    }
  }

  lemma {:induction false} DayEntriesSum(m: map<string, int>, order: seq<string>)
    requires forall k :: k in order ==> k in m
    ensures SumBy(DayEntries(m, order), DayCountOf) == SumOver(m, order)
  {
    if order != [] {
      DayEntriesSum(m, order[..|order| - 1]);
    }
  }

  /** Every key of an hour histogram is the spelling of some hour, so the
      numeric key order lists all of them. */
  lemma HourOrderComplete(st: seq<Stamp>)
    ensures forall k :: k in Tally(HourKeys(st)) <==> k in HourOrder(Tally(HourKeys(st)))
  {
    var keys := HourKeys(st);
    var hourly := Tally(keys);
    forall k | k in hourly ensures k in HourOrder(hourly) {
      assert k in keys;
      var i :| 0 <= i < |keys| && keys[i] == k;
      HourOrderListsHours(hourly, st[i].hour);
    }
  }

  /** Each post and each comment adds exactly one to the hour histogram:
      its counts add up to the number of posts plus the number of comments. */
  lemma HourlyActivitySum(posts: seq<Post>, keys: seq<string>)
    requires Distinct(keys)
    requires forall k :: k in keys <==> k in TimingOf(posts).hourlyActivity
    ensures SumOver(TimingOf(posts).hourlyActivity, keys) == |posts| + TotalComments(posts)
  {
    TallySum(HourKeys(ActivityStamps(posts)), keys);
    ActivityStampsLength(posts);
  }

  /** The same for the weekday histogram, summed over `bestDaysToPost`. */
  lemma BestDaysSum(posts: seq<Post>)
    ensures SumBy(TimingOf(posts).bestDaysToPost, DayCountOf) == |posts| + TotalComments(posts)
  {
    var wd := Weekdays(ActivityStamps(posts));
    var entries := DayEntries(Tally(wd), FirstOccurrences(wd));
    FirstOccurrencesDistinct(wd);
    SortPermutes(entries, ByDayCountDesc);
    SumByPermutation(Sort(entries, ByDayCountDesc), entries, DayCountOf);
    DayEntriesSum(Tally(wd), FirstOccurrences(wd));
    TallySum(wd, FirstOccurrences(wd));
    ActivityStampsLength(posts);
  }

  /** `bestHoursToPost` holds each (hour, count) entry of `hourlyActivity`
      exactly once and nothing else, in non-increasing order of count. */
  lemma BestHours(posts: seq<Post>)
    ensures var t := TimingOf(posts);
      && (forall i, j :: 0 <= i < j < |t.bestHoursToPost| ==> t.bestHoursToPost[i].count >= t.bestHoursToPost[j].count)
      && (forall e :: e in t.bestHoursToPost ==> e.hour in t.hourlyActivity && e.count == t.hourlyActivity[e.hour])
      && (forall k :: k in t.hourlyActivity ==> multiset(t.bestHoursToPost)[HourCount(k, t.hourlyActivity[k])] == 1)
  {
    var t := TimingOf(posts);
    var hourly := t.hourlyActivity;
    var order := HourOrder(hourly);
    var entries := HourEntries(hourly, order);
    HourOrderDistinct(hourly);
    HourOrderComplete(ActivityStamps(posts));
    HourEntriesMembers(hourly, order);
    SortSorted(entries, ByHourCountDesc, NegHourCount);
    var sorted := Sort(entries, ByHourCountDesc);
    SortPermutes(entries, ByHourCountDesc);
    assert sorted == t.bestHoursToPost;
    forall i, j | 0 <= i < j < |sorted| ensures sorted[i].count >= sorted[j].count {
      assert NegHourCount(sorted[i]) <= NegHourCount(sorted[j]);
    }
    forall e | e in sorted ensures e.hour in hourly && e.count == hourly[e.hour] {
      assert e in multiset(sorted);
      assert e in entries;
    }
  }

  /** `bestDaysToPost` holds each (weekday, count) entry of the weekday
      histogram exactly once and nothing else, in non-increasing order of
      count. */
  lemma BestDays(posts: seq<Post>)
    ensures var t := TimingOf(posts);
      var days := DayActivity(posts);
      && (forall i, j :: 0 <= i < j < |t.bestDaysToPost| ==> t.bestDaysToPost[i].count >= t.bestDaysToPost[j].count)
      && (forall e :: e in t.bestDaysToPost ==> e.day in days && e.count == days[e.day])
      && (forall k :: k in days ==> multiset(t.bestDaysToPost)[DayCount(k, days[k])] == 1)
  {
    var t := TimingOf(posts);
    var wd := Weekdays(ActivityStamps(posts));
    var days := Tally(wd);
    var order := FirstOccurrences(wd);
    FirstOccurrencesDistinct(wd);
    var entries := DayEntries(days, order);
    DayEntriesMembers(days, order);
    SortSorted(entries, ByDayCountDesc, NegDayCount);
    var sorted := Sort(entries, ByDayCountDesc);
    SortPermutes(entries, ByDayCountDesc);
    assert sorted == t.bestDaysToPost;
    forall i, j | 0 <= i < j < |sorted| ensures sorted[i].count >= sorted[j].count {
      assert NegDayCount(sorted[i]) <= NegDayCount(sorted[j]);
    }
    forall e | e in sorted ensures e.day in days && e.count == days[e.day] {
      assert e in multiset(sorted);
      assert e in entries;
    }
  }

  /** The three variables `processTimingAnalysis` updates while it walks the
      timestamps: the hour histogram, the weekday histogram and the order in
      which weekdays first appeared (the order `Object.entries` lists them). */
  datatype Histograms = Histograms(hourly: map<string, int>, daily: map<string, int>, dayOrder: seq<string>)

  /** One timestamp counted: `hourlyActivity[hour]++` and `dayActivity[day]++`. */
  function Record(h: Histograms, s: Stamp): Histograms
  {
    Histograms(
      Increment(h.hourly, HourKey(s.hour)),
      Increment(h.daily, s.weekday),
      if s.weekday in h.daily then h.dayOrder else h.dayOrder + [s.weekday])
  }

  /** The histograms after counting `st` from empty ones, one stamp at a time. */
  function HistogramsOf(st: seq<Stamp>): Histograms
  {
    if st == [] then Histograms(map[], map[], [])
    else Record(HistogramsOf(st[..|st| - 1]), st[|st| - 1])
  }

  lemma HistogramsOfSnoc(st: seq<Stamp>, s: Stamp)
    ensures HistogramsOf(st + [s]) == Record(HistogramsOf(st), s)
  {
    assert (st + [s])[..|st|] == st;
  }

  /** Counting step by step builds exactly the tallies of the hour keys and
      weekdays, and lists each weekday where it first occurs. */
  lemma {:induction false} HistogramsAreTallies(st: seq<Stamp>)
    ensures HistogramsOf(st) == Histograms(Tally(HourKeys(st)), Tally(Weekdays(st)), FirstOccurrences(Weekdays(st)))
  {
    if st != [] {
      var init, last := st[..|st| - 1], st[|st| - 1];
      assert st == init + [last];
      HistogramsAreTallies(init);
      StampStep(init, last);
    }
  }

  lemma CommentStep(seen: seq<Stamp>, cs: seq<Comment>, j: nat)
    requires j < |cs|
    ensures HistogramsOf(seen + CommentStamps(cs[..j + 1]))
         == Record(HistogramsOf(seen + CommentStamps(cs[..j])), cs[j].timestamp)
  {
    CommentStampsSnoc(cs, j);
    SnocAssoc(seen, CommentStamps(cs[..j]), cs[j].timestamp);
    HistogramsOfSnoc(seen + CommentStamps(cs[..j]), cs[j].timestamp);
  }

  lemma PostStep(posts: seq<Post>, i: nat)
    requires i < |posts|
    ensures HistogramsOf(ActivityStamps(posts[..i]) + [posts[i].timestamp])
         == Record(HistogramsOf(ActivityStamps(posts[..i])), posts[i].timestamp)
    ensures ActivityStamps(posts[..i + 1])
         == ActivityStamps(posts[..i]) + [posts[i].timestamp] + CommentStamps(posts[i].latestComments)
  {
    HistogramsOfSnoc(ActivityStamps(posts[..i]), posts[i].timestamp);
    ActivityStampsSnoc(posts, i);
  }

  /** The inner `latestComments.forEach` of `processTimingAnalysis`: one
      increment of each histogram per comment. `seen` is what has been counted
      so far. */
  method CountCommentActivity(comments: seq<Comment>, ghost seen: seq<Stamp>,
                              hourly0: map<string, int>, days0: map<string, int>, order0: seq<string>)
    returns (hourlyActivity: map<string, int>, dayActivity: map<string, int>, dayOrder: seq<string>)
    requires Histograms(hourly0, days0, order0) == HistogramsOf(seen)
    ensures Histograms(hourlyActivity, dayActivity, dayOrder) == HistogramsOf(seen + CommentStamps(comments))
  {
    hourlyActivity, dayActivity, dayOrder := hourly0, days0, order0;
    assert seen + CommentStamps(comments[..0]) == seen;
    var j := 0;
    while j < |comments|
      invariant 0 <= j <= |comments|
      invariant Histograms(hourlyActivity, dayActivity, dayOrder) == HistogramsOf(seen + CommentStamps(comments[..j]))
    {
      var stamp := comments[j].timestamp;
      CommentStep(seen, comments, j);
      hourlyActivity := Increment(hourlyActivity, HourKey(stamp.hour));
      if stamp.weekday !in dayActivity {
        dayOrder := dayOrder + [stamp.weekday];
      }
      dayActivity := Increment(dayActivity, stamp.weekday);
      j := j + 1;
    }
    assert comments[..j] == comments;
  }

  /** The `posts.forEach` of `processTimingAnalysis`: one increment of each
      histogram for the post, then those of its comments. */
  method CountActivity(posts: seq<Post>)
    returns (hourlyActivity: map<string, int>, dayActivity: map<string, int>, dayOrder: seq<string>)
    ensures Histograms(hourlyActivity, dayActivity, dayOrder) == HistogramsOf(ActivityStamps(posts))
  {
    hourlyActivity, dayActivity, dayOrder := map[], map[], [];
    var i := 0;
    while i < |posts|
      invariant 0 <= i <= |posts|
      invariant Histograms(hourlyActivity, dayActivity, dayOrder) == HistogramsOf(ActivityStamps(posts[..i]))
    {
      var post := posts[i];
      PostStep(posts, i);
      hourlyActivity := Increment(hourlyActivity, HourKey(post.timestamp.hour));
      if post.timestamp.weekday !in dayActivity {
        dayOrder := dayOrder + [post.timestamp.weekday];
      }
      dayActivity := Increment(dayActivity, post.timestamp.weekday);
      hourlyActivity, dayActivity, dayOrder :=
        CountCommentActivity(post.latestComments, ActivityStamps(posts[..i]) + [post.timestamp],
                             hourlyActivity, dayActivity, dayOrder);
      i := i + 1;
    }
    assert posts[..i] == posts;
  }

  /** `processTimingAnalysis`: both histograms, then their entries sorted by
      count, most active first. */
  method ProcessTimingAnalysis(posts: seq<Post>) returns (t: TimingAnalysis)
    ensures t == TimingOf(posts)
    ensures forall i, j :: 0 <= i < j < |t.bestHoursToPost| ==> t.bestHoursToPost[i].count >= t.bestHoursToPost[j].count
    ensures forall i, j :: 0 <= i < j < |t.bestDaysToPost| ==> t.bestDaysToPost[i].count >= t.bestDaysToPost[j].count
    ensures SumBy(t.bestDaysToPost, DayCountOf) == |posts| + TotalComments(posts)
  {
    var hourlyActivity, dayActivity, dayOrder := CountActivity(posts);
    HistogramsAreTallies(ActivityStamps(posts));
    var bestDaysToPost := Sort(DayEntries(dayActivity, dayOrder), ByDayCountDesc);
    var bestHoursToPost := Sort(HourEntries(hourlyActivity, HourOrder(hourlyActivity)), ByHourCountDesc);
    t := TimingAnalysis(hourlyActivity, bestDaysToPost, bestHoursToPost);
    BestHours(posts);
    BestDays(posts);
    BestDaysSum(posts);
  }
}
