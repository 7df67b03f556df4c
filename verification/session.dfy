/**
 The dashboard's data state (`DataProvider`): the loaded posts, the five
 analyses derived from them, and the operations that load, clear and export
 them.
 */
module DataSession {
  import opened Types
  import opened Timing
  import opened Content
  import opened Engagement
  import opened Hashtags
  import opened Network

  /** What `JSON.parse` of the uploaded text gives: a syntax error, a value
      that is not an array, or an array of posts. */
  datatype ParseOutcome = ParseError | NotArray | Parsed(posts: seq<Post>)

  /** The object `exportReport` serialises. */
  datatype Report = Report(
    timing: Option<TimingAnalysis>,
    content: Option<ContentAnalysis>,
    engagement: seq<EngagementData>,
    hashtags: Option<HashtagAnalysis>,
    network: Option<NetworkData>,
    exportedAt: string)

  /** `filteredData || engagementData`: a supplied list is exported even when
      it is empty, since every array is truthy. */
  function ExportedEngagement(filteredData: Option<seq<EngagementData>>, engagementData: seq<EngagementData>)
    : (r: seq<EngagementData>)
    ensures filteredData.Some? ==> r == filteredData.value
    ensures filteredData.None? ==> r == engagementData
  {
    filteredData.GetOr(engagementData)
  }

  /** The five analyses `loadPosts` derives from one list of posts. */
  datatype Analyses = Analyses(
    timing: TimingAnalysis,
    content: ContentAnalysis,
    engagement: seq<EngagementData>,
    hashtags: HashtagAnalysis,
    network: NetworkData)

  /** Reference definition of what `loadPosts` derives from `posts`. */
  function AnalysesOf(posts: seq<Post>): Analyses
  {
    Analyses(TimingOf(posts), ContentOf(posts), EngagementOf(posts), HashtagsOf(posts), NetworkOf(posts))
  }

  /** The five `process*` calls of `loadPosts`, in the order it makes them. */
  method Analyse(posts: seq<Post>) returns (a: Analyses)
    ensures a == AnalysesOf(posts)
  {
    var timing := ProcessTimingAnalysis(posts);
    var content := ProcessContentAnalysis(posts);
    var engagement := ProcessEngagementData(posts);
    var tags := ProcessHashtagAnalysis(posts);
    var network := ProcessNetworkData(posts);
    a := Analyses(timing, content, engagement, tags, network);
  }

  class Session {
    var posts: seq<Post>
    var isLoading: bool
    var timingAnalysis: Option<TimingAnalysis>
    var contentAnalysis: Option<ContentAnalysis>
    var engagementData: seq<EngagementData>
    var hashtagAnalysis: Option<HashtagAnalysis>
    var networkData: Option<NetworkData>
    /** Whether the last change was a successful load rather than a reset. */
    ghost var loaded: bool

    /** Nothing loaded: no posts, every analysis null, no engagement. */
    ghost predicate Empty()
      reads this`posts, this`timingAnalysis, this`contentAnalysis, this`engagementData,
        this`hashtagAnalysis, this`networkData
    {
      && posts == []
      && timingAnalysis == None && contentAnalysis == None && hashtagAnalysis == None
      && networkData == None && engagementData == []
    }

    /** Every analysis is the one derived from `ps`. */
    ghost predicate DerivedFrom(ps: seq<Post>)
      reads this`timingAnalysis, this`contentAnalysis, this`engagementData,
        this`hashtagAnalysis, this`networkData
    {
      var a := AnalysesOf(ps);
      && timingAnalysis == Some(a.timing)
      && contentAnalysis == Some(a.content)
      && engagementData == a.engagement
      && hashtagAnalysis == Some(a.hashtags)
      && networkData == Some(a.network)
    }

    /** Every analysis is the one derived from the current posts. */
    ghost predicate Derived()
      reads this`posts, this`timingAnalysis, this`contentAnalysis, this`engagementData,
        this`hashtagAnalysis, this`networkData
    {
      // Stated over every list equal to `posts`, so that the derivation is
      // only unfolded where some `DerivedFrom` term is already in view.
      forall ps :: ps == posts ==> DerivedFrom(ps)
    }

    /** The analyses never go stale: either nothing is loaded, or all of them
        are derived from the posts on display. */
    ghost predicate Consistent()
      reads this`loaded, this`posts, this`timingAnalysis, this`contentAnalysis, this`engagementData,
        this`hashtagAnalysis, this`networkData
    {
      if loaded then Derived() else Empty()
    }

    /** Between operations no load is in progress and the state is
        consistent. */
    ghost predicate Valid()
      reads this
    {
      !isLoading && Consistent()
    }

    /** `hasData`. */
    function HasData(): bool
      reads this
    {
      |posts| > 0
    }

    constructor()
      ensures Valid() && Empty() && !HasData()
    {
      posts := [];
      isLoading := false;
      timingAnalysis := None;
      contentAnalysis := None;
      engagementData := [];
      hashtagAnalysis := None;
      networkData := None;
      loaded := false;
    }

    /** `loadPosts`: on a parse error or a non-array nothing but the loading
        flag is touched; otherwise the posts are stored and every analysis is
        recomputed from them. */
    method LoadPosts(outcome: ParseOutcome)
      requires Valid()
      modifies this
      ensures Valid()
      ensures !outcome.Parsed? ==> unchanged(this)
      ensures outcome.Parsed? ==> posts == outcome.posts && loaded && DerivedFrom(outcome.posts)
    {
      // `isLoading` is raised at the start and lowered in `finally`; a
      // failed parse leaves every other field as it was.
      if outcome.Parsed? {
        isLoading := true;
        var a := Analyse(outcome.posts);
        Store(outcome.posts, a);
        isLoading := false;
        StoredIsDerived(outcome.posts, a);
      }
    }

    /** The successful branch of `loadPosts`: `setPosts` and the five
        `set*` calls. */
    method Store(parsed: seq<Post>, a: Analyses)
      modifies this
      ensures isLoading == old(isLoading) && loaded
      ensures posts == parsed
      ensures timingAnalysis == Some(a.timing) && contentAnalysis == Some(a.content)
      ensures engagementData == a.engagement
      ensures hashtagAnalysis == Some(a.hashtags) && networkData == Some(a.network)
    {
      posts := parsed;
      timingAnalysis := Some(a.timing);
      contentAnalysis := Some(a.content);
      engagementData := a.engagement;
      hashtagAnalysis := Some(a.hashtags);
      networkData := Some(a.network);
      loaded := true;
    }

    /** Storing the analyses of `ps` makes the state consistent. (Kept apart
        from `Store` so that neither proof unfolds the other's state.) */
    lemma StoredIsDerived(ps: seq<Post>, a: Analyses)
      requires a == AnalysesOf(ps) && loaded && posts == ps
      requires timingAnalysis == Some(a.timing) && contentAnalysis == Some(a.content)
      requires engagementData == a.engagement
      requires hashtagAnalysis == Some(a.hashtags) && networkData == Some(a.network)
      ensures DerivedFrom(ps) && Consistent()
    {
    }

    /** `clearData`: no posts, every analysis null, no engagement, and so no
        data. */
    method ClearData()
      requires Valid()
      modifies this
      ensures Valid() && Empty() && !HasData()
      ensures isLoading == old(isLoading)
    {
      posts := [];
      timingAnalysis := None;
      contentAnalysis := None;
      engagementData := [];
      hashtagAnalysis := None;
      networkData := None;
      loaded := false;
    }

    /** The report `exportReport` downloads: the current analyses, with the
        caller's engagement list in place of the full one when given.
        `exportedAt` is the clock reading. */
    method ExportReport(filteredData: Option<seq<EngagementData>>, exportedAt: string) returns (report: Report)
      ensures report.engagement == ExportedEngagement(filteredData, engagementData)
      ensures report.timing == timingAnalysis && report.content == contentAnalysis
      ensures report.hashtags == hashtagAnalysis && report.network == networkData
      ensures report.exportedAt == exportedAt
    {
      report := Report(timingAnalysis, contentAnalysis, filteredData.GetOr(engagementData),
                       hashtagAnalysis, networkData, exportedAt);
    }
  }

  /** Loading `ps` into a session and then exporting without a supplied
      list: the report carries every analysis of `ps`, and its engagement
      list is the sorted flattening of their comments, one record per
      comment. */
  method LoadedExport(ps: seq<Post>, exportedAt: string) returns (report: Report)
    ensures report.engagement == EngagementOf(ps) && |report.engagement| == TotalComments(ps)
    ensures report.timing == Some(TimingOf(ps)) && report.content == Some(ContentOf(ps))
    ensures report.hashtags == Some(HashtagsOf(ps)) && report.network == Some(NetworkOf(ps))
    ensures report.exportedAt == exportedAt
  {
    var session := new Session();
    session.LoadPosts(Parsed(ps));
    report := session.ExportReport(None, exportedAt);
    EngagementLength(ps);
  }
}
