/**
 The engagement aggregator (`processEngagementData`): one record per
 (post, comment) pair, newest first.
 */
module Engagement {
  import opened Types
  import opened StableSort

  /** The record pushed for comment `c` of post `p`. */
  function MakeRecord(p: Post, c: Comment): EngagementData
  {
    EngagementData(
      c.id,
      c.ownerUsername,
      p.caption,
      c.timestamp.time,
      p.ownerUsername,
      c.text,
      c.likesCount.GetOr(0),   // `comment.likesCount || 0`
      false)
  }

  /** The records of the comments `cs` of post `p`, in order. */
  function CommentRecords(p: Post, cs: seq<Comment>): (rs: seq<EngagementData>)
    ensures |rs| == |cs|
  {
    if cs == [] then [] else CommentRecords(p, cs[..|cs| - 1]) + [MakeRecord(p, cs[|cs| - 1])]
  }

  /** The records in push order: post by post, comment by comment. */
  function Flatten(posts: seq<Post>): seq<EngagementData>
  {
    if posts == [] then []
    else Flatten(posts[..|posts| - 1]) + CommentRecords(posts[|posts| - 1], posts[|posts| - 1].latestComments)
  }

  /** The comparator `(a, b) => b.datetime - a.datetime`: most recent first. */
  function ByTimeDesc(a: EngagementData, b: EngagementData): int { b.datetime - a.datetime }

  function NegTime(r: EngagementData): int { -r.datetime }

  /** Reference definition of the engagement list of `posts`. */
  function EngagementOf(posts: seq<Post>): seq<EngagementData>
  {
    Sort(Flatten(posts), ByTimeDesc)
  }

  lemma CommentRecordsSnoc(p: Post, cs: seq<Comment>, j: nat)
    requires j < |cs|
    ensures CommentRecords(p, cs[..j + 1]) == CommentRecords(p, cs[..j]) + [MakeRecord(p, cs[j])]
  {
    assert cs[..j + 1][..j] == cs[..j];
  }

  lemma FlattenSnoc(posts: seq<Post>, i: nat)
    requires i < |posts|
    ensures Flatten(posts[..i + 1]) == Flatten(posts[..i]) + CommentRecords(posts[i], posts[i].latestComments)
  {
    assert posts[..i + 1][..i] == posts[..i];
  }

  /** The inner `post.latestComments.forEach` of `processEngagementData`. */
  method PushComments(p: Post, engagement0: seq<EngagementData>) returns (engagement: seq<EngagementData>)
    ensures engagement == engagement0 + CommentRecords(p, p.latestComments)
  {
    engagement := engagement0;
    var j := 0;
    while j < |p.latestComments|
      invariant 0 <= j <= |p.latestComments|
      invariant engagement == engagement0 + CommentRecords(p, p.latestComments[..j])
    {
      CommentRecordsSnoc(p, p.latestComments, j);
      engagement := engagement + [MakeRecord(p, p.latestComments[j])];
      j := j + 1;
    }
    assert p.latestComments[..j] == p.latestComments;
  }

  /** `processEngagementData`: flatten, then sort most recent first. */
  method ProcessEngagementData(posts: seq<Post>) returns (sorted: seq<EngagementData>)
    ensures sorted == EngagementOf(posts)
    ensures |sorted| == TotalComments(posts)
    ensures multiset(sorted) == multiset(Flatten(posts))
    ensures forall i, j :: 0 <= i < j < |sorted| ==> sorted[i].datetime >= sorted[j].datetime
  {
    var engagement := [];
    var i := 0;
    while i < |posts|
      invariant 0 <= i <= |posts|
      invariant engagement == Flatten(posts[..i])
    {
      FlattenSnoc(posts, i);
      engagement := PushComments(posts[i], engagement);
      i := i + 1;
    }
    assert posts[..i] == posts;
    sorted := Sort(engagement, ByTimeDesc);
    EngagementSorted(posts);
    EngagementLength(posts);
    SortPermutes(engagement, ByTimeDesc);
  }

  // ---------------------------------------------------------------------
  // Properties
  // ---------------------------------------------------------------------

  lemma {:induction false} FlattenLength(posts: seq<Post>)
    ensures |Flatten(posts)| == TotalComments(posts)
  {
    if posts != [] {
      FlattenLength(posts[..|posts| - 1]);
    }
  }

  /** One record per comment of every post. */
  lemma EngagementLength(posts: seq<Post>)
    ensures |EngagementOf(posts)| == TotalComments(posts)
  {
    FlattenLength(posts);
  }

  /** The list runs from the most recent comment to the oldest. */
  lemma EngagementSorted(posts: seq<Post>)
    ensures forall i, j :: 0 <= i < j < |EngagementOf(posts)| ==>
      EngagementOf(posts)[i].datetime >= EngagementOf(posts)[j].datetime
  {
    var s := EngagementOf(posts);
    SortSorted(Flatten(posts), ByTimeDesc, NegTime);
    forall i, j | 0 <= i < j < |s| ensures s[i].datetime >= s[j].datetime {
      assert NegTime(s[i]) <= NegTime(s[j]);
    }
  }

  /** Where the records of post `i` start in push order. */
  function Offset(posts: seq<Post>, i: nat): nat
    requires i <= |posts|
  {
    TotalComments(posts[..i])
  }

  lemma {:induction false} CommentRecordsAt(p: Post, cs: seq<Comment>, j: nat)
    requires j < |cs|
    ensures CommentRecords(p, cs)[j] == MakeRecord(p, cs[j])
    decreases |cs|
  {
    if j < |cs| - 1 {
      CommentRecordsAt(p, cs[..|cs| - 1], j);
    }
  }

  /** Push order has exactly one record per (post, comment) pair: the record
      of comment `j` of post `i` sits at `Offset(posts, i) + j`. */
  lemma {:induction false} FlattenAt(posts: seq<Post>, i: nat, j: nat)
    requires i < |posts| && j < |posts[i].latestComments|
    ensures Offset(posts, i) + j < |Flatten(posts)|
    ensures Flatten(posts)[Offset(posts, i) + j] == MakeRecord(posts[i], posts[i].latestComments[j])
  {
    var init := posts[..|posts| - 1];
    FlattenLength(init);
    if i == |posts| - 1 {
      assert posts[..i] == init;
      CommentRecordsAt(posts[i], posts[i].latestComments, j);
    } else {
      assert init[i] == posts[i];
      assert init[..i] == posts[..i];
      FlattenAt(init, i, j);
    }
  }

  /** Every pushed record is the record of some comment of some post. */
  lemma {:induction false} FlattenOrigin(posts: seq<Post>, r: EngagementData)
    requires r in Flatten(posts)
    ensures exists i, j ::
      0 <= i < |posts| && 0 <= j < |posts[i].latestComments| && r == MakeRecord(posts[i], posts[i].latestComments[j])
  {
    var init, last := posts[..|posts| - 1], posts[|posts| - 1];
    if r in Flatten(init) {
      FlattenOrigin(init, r);
      var i, j :| 0 <= i < |init| && 0 <= j < |init[i].latestComments|
        && r == MakeRecord(init[i], init[i].latestComments[j]);
      assert posts[i] == init[i];
    } else {
      var rs := CommentRecords(last, last.latestComments);
      var k :| 0 <= k < |rs| && rs[k] == r;
      CommentRecordsAt(last, last.latestComments, k);
      assert r == MakeRecord(posts[|posts| - 1], posts[|posts| - 1].latestComments[k]);
    }
  }

  /** Every record comes from some comment of some post: its id, author,
      text, time and likes are the comment's (likes 0 when absent), its
      influencer and caption are the parent post's, and it is not in the
      cart. */
  lemma EngagementOrigin(posts: seq<Post>, r: EngagementData)
    requires r in EngagementOf(posts)
    ensures exists i, j ::
      (0 <= i < |posts| && 0 <= j < |posts[i].latestComments| &&
       var p, c := posts[i], posts[i].latestComments[j];
       r.id == c.id && r.username == c.ownerUsername && r.commentText == c.text &&
       r.datetime == c.timestamp.time &&
       r.influencer == p.ownerUsername && r.postCaption == p.caption &&
       r.likesCount == (if c.likesCount.Some? then c.likesCount.value else 0) &&
       !r.isInCart)
  {
    SortPermutes(Flatten(posts), ByTimeDesc);
    assert r in multiset(EngagementOf(posts));
    FlattenOrigin(posts, r);
  }
}
