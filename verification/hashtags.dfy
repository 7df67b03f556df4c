/**
 The hashtag aggregator (`processHashtagAnalysis`): hashtag counts overall
 and per month, and the share of each hashtag in per cent.
 */
module Hashtags {
  import opened Types
  import opened Counting

  /** `!post.hashtags || post.hashtags.length === 0`: a missing or empty
      list is skipped. */
  predicate HasHashtags(p: Post)
  {
    p.hashtags.Some? && |p.hashtags.value| != 0
  }

  /** The `(yearMonth, tag)` pairs one post contributes, one per entry of its
      list, repeats included. */
  function PostTags(p: Post): seq<(Key, Key)>
  {
    if HasHashtags(p) then MonthPairs(p.timestamp.yearMonth, p.hashtags.value) else []
  }

  /** Every `(yearMonth, tag)` pair the hashtag loops count, in order. */
  function TagEvents(posts: seq<Post>): seq<(Key, Key)>
  {
    if posts == [] then []
    else TagEvents(posts[..|posts| - 1]) + PostTags(posts[|posts| - 1])
  }

  /** The total length of all posts' hashtag lists, a missing list counting
      as empty. */
  function TotalHashtags(posts: seq<Post>): nat
  {
    if posts == [] then 0
    else
      var p := posts[|posts| - 1];
      TotalHashtags(posts[..|posts| - 1]) + (if p.hashtags.Some? then |p.hashtags.value| else 0)
  }

  /** Reference definition of the hashtag analysis of `posts`. */
  function HashtagsOf(posts: seq<Post>): HashtagAnalysis
  {
    var tags := Seconds(TagEvents(posts));
    HashtagAnalysis(Tally(tags), NestedTally(TagEvents(posts)), Shares(tags))
  }

  lemma TagEventsSnoc(posts: seq<Post>, p: Post)
    ensures TagEvents(posts + [p]) == TagEvents(posts) + PostTags(p)
  {
    assert (posts + [p])[..|posts|] == posts;
  }

  /** `processHashtagAnalysis`. */
  method ProcessHashtagAnalysis(posts: seq<Post>) returns (h: HashtagAnalysis)
    ensures h == HashtagsOf(posts)
  {
    var hashtags: map<Key, int>, hashtagsOverTime: map<Key, map<Key, int>>, order: seq<Key> := map[], map[], [];
    var i := 0;
    while i < |posts|
      invariant 0 <= i <= |posts|
      invariant Counts(hashtags, hashtagsOverTime, order) == CountsOf(TagEvents(posts[..i]))
    {
      var post := posts[i];
      assert posts[..i + 1] == posts[..i] + [post];
      TagEventsSnoc(posts[..i], post);
      if HasHashtags(post) {
        hashtags, hashtagsOverTime, order :=
          CountKeys(post.timestamp.yearMonth, post.hashtags.value, TagEvents(posts[..i]),
                    hashtags, hashtagsOverTime, order);
      } else {
        assert TagEvents(posts[..i + 1]) == TagEvents(posts[..i]);
      }
      i := i + 1;
    }
    assert posts[..i] == posts;
    CountsAreTallies(TagEvents(posts));
    FirstOccurrencesDistinct(Seconds(TagEvents(posts)));
    var total := SumValues(hashtags, order);
    TallySum(Seconds(TagEvents(posts)), order);
    var hashtagsPercentage := PercentagesOf(hashtags, total, order);
    h := HashtagAnalysis(hashtags, hashtagsOverTime, hashtagsPercentage);
  }

  lemma {:induction false} TagEventsLength(posts: seq<Post>)
    ensures |TagEvents(posts)| == TotalHashtags(posts)
  {
    if posts != [] {
      TagEventsLength(posts[..|posts| - 1]);
    }
  }

  /** Every entry of every list is counted, repeats within one post each
      time: the counts add up to the total length of the lists. */
  lemma HashtagSum(posts: seq<Post>, keys: seq<Key>)
    requires Distinct(keys)
    requires forall k :: k in keys <==> k in HashtagsOf(posts).hashtags
    ensures SumOver(HashtagsOf(posts).hashtags, keys) == TotalHashtags(posts)
  {
    TallySum(Seconds(TagEvents(posts)), keys);
    TagEventsLength(posts);
  }

  /** A post with a missing or empty list adds nothing. */
  lemma UntaggedAppend(posts: seq<Post>, p: Post)
    requires !HasHashtags(p)
    ensures HashtagsOf(posts + [p]) == HashtagsOf(posts)
  {
    TagEventsSnoc(posts, p);
    assert TagEvents(posts + [p]) == TagEvents(posts);
  }

  /** For every tag, its per-month counts add up to its overall count (zero
      for a tag that was never counted). */
  lemma HashtagMonthSum(posts: seq<Post>, months: seq<Key>, tag: Key)
    requires Distinct(months)
    requires forall m :: m in months <==> m in HashtagsOf(posts).hashtagsOverTime
    ensures SumColumn(HashtagsOf(posts).hashtagsOverTime, months, tag) == Lookup(HashtagsOf(posts).hashtags, tag)
  {
    NestedTallyColumnSum(TagEvents(posts), months, tag);
  }

  /** When some post has a tag, each percentage is the tag's count over the
      total number of tags, times 100; over any listing of the tags without repeats they add up
      to exactly 100. */
  lemma HashtagPercentages(posts: seq<Post>, keys: seq<Key>)
    requires TotalHashtags(posts) > 0
    requires Distinct(keys)
    requires forall k :: k in keys <==> k in HashtagsOf(posts).hashtags
    ensures forall t :: t in HashtagsOf(posts).hashtagsPercentage <==> t in HashtagsOf(posts).hashtags
    ensures forall t :: t in HashtagsOf(posts).hashtagsPercentage ==>
      HashtagsOf(posts).hashtagsPercentage[t] == (HashtagsOf(posts).hashtags[t] as real / TotalHashtags(posts) as real) * 100.0
    ensures SumReal(HashtagsOf(posts).hashtagsPercentage, keys) == 100.0
  {
    var tags := Seconds(TagEvents(posts));
    TagEventsLength(posts);
    SharesSumTo100(tags, keys);
  }
}
