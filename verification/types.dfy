/**
 The records of the analytics dashboard: posts and their nested comments as
 they arrive from an uploaded export, the five derived analyses, and the
 entries of the selection cart.

 Dates are not modelled as calendar values. Every post and comment carries an
 abstract `Stamp` holding what the aggregators extract from its timestamp:
 the local hour, the weekday name, the year-month bucket and a comparable
 instant.
 */
module Types {

  datatype Option<+T> = None | Some(value: T) {
    function GetOr(default: T): T {
      match this
      case Some(v) => v
      case None => default
    }
  }

  /** Local hour of day, as `Date.getHours` returns it. */
  type Hour = h: int | 0 <= h < 24

  /** What the aggregators read from one ISO-8601 timestamp. */
  datatype Stamp = Stamp(
    hour: Hour,          // local hour of day
    weekday: string,     // long English weekday name ("Monday", ...)
    yearMonth: string,   // "<year>-<month 1..12>"
    time: int            // the instant, in whole seconds
  )

  datatype Comment = Comment(
    id: string,
    text: string,
    ownerUsername: string,
    likesCount: Option<int>,   // None when the export omits it
    timestamp: Stamp
  )

  datatype Post = Post(
    id: string,
    shortCode: string,
    caption: Option<string>,          // None when the export omits it
    hashtags: Option<seq<string>>,    // None when the export omits it
    mentions: seq<string>,
    url: string,
    commentsCount: int,
    likesCount: int,
    ownerUsername: string,
    latestComments: seq<Comment>,
    timestamp: Stamp
  )

  /** Number of comments over all posts. */
  function TotalComments(posts: seq<Post>): nat
  {
    if posts == [] then 0
    else TotalComments(posts[..|posts| - 1]) + |posts[|posts| - 1].latestComments|
  }

  /** The owner of each post, in order. */
  function Owners(posts: seq<Post>): (r: seq<string>)
    ensures |r| == |posts|
    ensures forall i :: 0 <= i < |posts| ==> r[i] == posts[i].ownerUsername
  {
    if posts == [] then [] else Owners(posts[..|posts| - 1]) + [posts[|posts| - 1].ownerUsername]
  }

  datatype DayCount = DayCount(day: string, count: int)
  datatype HourCount = HourCount(hour: string, count: int)

  datatype TimingAnalysis = TimingAnalysis(
    hourlyActivity: map<string, int>,
    bestDaysToPost: seq<DayCount>,
    bestHoursToPost: seq<HourCount>
  )

  datatype ContentAnalysis = ContentAnalysis(
    keywords: map<string, int>,
    keywordsOverTime: map<string, map<string, int>>,
    keywordsPercentage: map<string, real>,
    postingFrequency: map<string, int>,
    totalPosts: int
  )

  /** One (post, comment) pair, flattened. */
  datatype EngagementData = EngagementData(
    id: string,                 // the comment's id
    username: string,           // the commenter
    postCaption: Option<string>,
    datetime: int,              // the comment's instant
    influencer: string,         // the post's owner
    commentText: string,
    likesCount: int,
    isInCart: bool
  )

  datatype HashtagAnalysis = HashtagAnalysis(
    hashtags: map<string, int>,
    hashtagsOverTime: map<string, map<string, int>>,
    hashtagsPercentage: map<string, real>
  )

  datatype NodeKind = Influencer | PostNode | Commenter

  datatype NetworkNode = NetworkNode(id: string, labelText: string, kind: NodeKind)  // `label` in the source

  datatype NetworkLink = NetworkLink(source: string, target: string, value: int)

  datatype NetworkData = NetworkData(nodes: seq<NetworkNode>, links: seq<NetworkLink>)

  /** The `type` tag of a cart entry. */
  datatype ItemKind = PostItem | CommentItem

  /** The snapshot a cart entry keeps: a post or an engagement record. */
  datatype ItemData = PostData(post: Post) | EngagementItem(record: EngagementData)

  datatype CartItem = CartItem(id: string, kind: ItemKind, data: ItemData)
}
