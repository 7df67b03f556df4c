/**
 The network aggregator (`processNetworkData`): one node per distinct post
 owner, one per post, one per distinct commenter, and a link from each owner
 to each of their posts and from each commenter to each post they commented
 on. `nodeMap`, which only ever maps ids to `true`, is modelled as the set of
 ids it holds.
 */
module Network {
  import opened Types
  import opened Counting

  function InfluencerId(u: string): string { "influencer-" + u }
  function PostId(id: string): string { "post-" + id }
  function CommenterId(u: string): string { "commenter-" + u }

  lemma IdsDistinguish(u: string, v: string)
    ensures InfluencerId(u) == InfluencerId(v) ==> u == v
    ensures CommenterId(u) == CommenterId(v) ==> u == v
    ensures InfluencerId(u) != CommenterId(v)
  {
    if InfluencerId(u) == InfluencerId(v) {
      assert u == InfluencerId(u)[11..] == InfluencerId(v)[11..] == v;
    }
    if CommenterId(u) == CommenterId(v) {
      assert u == CommenterId(u)[10..] == CommenterId(v)[10..] == v;
    }
    assert InfluencerId(u)[0] != CommenterId(v)[0];
  }

  /** The three collections `processNetworkData` builds. */
  datatype Graph = Graph(nodes: seq<NetworkNode>, links: seq<NetworkLink>, nodeMap: set<string>)

  /** Pushes a node for `id` unless `nodeMap` already has it. */
  function AddOnce(g: Graph, id: string, labelText: string, kind: NodeKind): Graph
  {
    if id in g.nodeMap then g
    else Graph(g.nodes + [NetworkNode(id, labelText, kind)], g.links, g.nodeMap + {id})
  }

  /** One comment of the post `postId`: its author's node if new, then the
      link from the author to the post. */
  function AddComment(g: Graph, c: Comment, postId: string): Graph
  {
    var commenterId := CommenterId(c.ownerUsername);
    var g1 := AddOnce(g, commenterId, c.ownerUsername, Commenter);
    Graph(g1.nodes, g1.links + [NetworkLink(commenterId, postId, 1)], g1.nodeMap)
  }

  function AddComments(g: Graph, cs: seq<Comment>, postId: string): Graph
  {
    if cs == [] then g else AddComment(AddComments(g, cs[..|cs| - 1], postId), cs[|cs| - 1], postId)
  }

  /** The node of post `p`, which is pushed for every post. */
  function PostNodeOf(p: Post): NetworkNode
  {
    NetworkNode(PostId(p.id), p.shortCode, PostNode)
  }

  /** One post: its owner's node if new, its own node, the owner-to-post
      link, then its comments. */
  function AddPost(g: Graph, p: Post): Graph
  {
    var influencerId := InfluencerId(p.ownerUsername);
    var g1 := AddOnce(g, influencerId, p.ownerUsername, Influencer);
    AddComments(AddPostNode(g1, p), p.latestComments, PostId(p.id))
  }

  /** The post's node and the link from its owner. */
  function AddPostNode(g: Graph, p: Post): Graph
  {
    Graph(g.nodes + [PostNodeOf(p)], g.links + [NetworkLink(InfluencerId(p.ownerUsername), PostId(p.id), 1)], g.nodeMap)
  }

  function GraphOf(posts: seq<Post>): Graph
  {
    if posts == [] then Graph([], [], {}) else AddPost(GraphOf(posts[..|posts| - 1]), posts[|posts| - 1])
  }

  /** Reference definition of the network of `posts`. */
  function NetworkOf(posts: seq<Post>): NetworkData
  {
    NetworkData(GraphOf(posts).nodes, GraphOf(posts).links)
  }

  // ---------------------------------------------------------------------
  // The loops
  // ---------------------------------------------------------------------

  lemma AddCommentsSnoc(g: Graph, cs: seq<Comment>, postId: string, j: nat)
    requires j < |cs|
    ensures AddComments(g, cs[..j + 1], postId) == AddComment(AddComments(g, cs[..j], postId), cs[j], postId)
  {
    assert cs[..j + 1][..j] == cs[..j];
  }

  /** The inner `post.latestComments.forEach` of `processNetworkData`. */
  method AddCommentNodes(cs: seq<Comment>, postId: string,
                         nodes0: seq<NetworkNode>, links0: seq<NetworkLink>, nodeMap0: set<string>)
    returns (nodes: seq<NetworkNode>, links: seq<NetworkLink>, nodeMap: set<string>)
    ensures Graph(nodes, links, nodeMap) == AddComments(Graph(nodes0, links0, nodeMap0), cs, postId)
  {
    nodes, links, nodeMap := nodes0, links0, nodeMap0;
    var j := 0;
    while j < |cs|
      invariant 0 <= j <= |cs|
      invariant Graph(nodes, links, nodeMap) == AddComments(Graph(nodes0, links0, nodeMap0), cs[..j], postId)
    {
      AddCommentsSnoc(Graph(nodes0, links0, nodeMap0), cs, postId, j);
      var commenterId := CommenterId(cs[j].ownerUsername);
      if commenterId !in nodeMap {
        nodes := nodes + [NetworkNode(commenterId, cs[j].ownerUsername, Commenter)];
        nodeMap := nodeMap + {commenterId};
      }
      links := links + [NetworkLink(commenterId, postId, 1)];
      j := j + 1;
    }
    assert cs[..j] == cs;
  }

  /** `processNetworkData`. */
  method ProcessNetworkData(posts: seq<Post>) returns (network: NetworkData)
    ensures network == NetworkOf(posts)
    ensures |network.links| == |posts| + TotalComments(posts)
    ensures forall l :: l in network.links ==> HasNode(network.nodes, l.source) && HasNode(network.nodes, l.target)
  {
    var nodes: seq<NetworkNode>, links: seq<NetworkLink>, nodeMap: set<string> := [], [], {};
    var i := 0;
    while i < |posts|
      invariant 0 <= i <= |posts|
      invariant Graph(nodes, links, nodeMap) == GraphOf(posts[..i])
    {
      var post := posts[i];
      assert posts[..i + 1][..i] == posts[..i];
      var influencerId := InfluencerId(post.ownerUsername);
      if influencerId !in nodeMap {
        nodes := nodes + [NetworkNode(influencerId, post.ownerUsername, Influencer)];
        nodeMap := nodeMap + {influencerId};
      }
      var postId := PostId(post.id);
      nodes := nodes + [NetworkNode(postId, post.shortCode, PostNode)];
      links := links + [NetworkLink(influencerId, postId, 1)];
      nodes, links, nodeMap := AddCommentNodes(post.latestComments, postId, nodes, links, nodeMap);
      i := i + 1;
    }
    assert posts[..i] == posts;
    network := NetworkData(nodes, links);
    LinkCount(posts);
    GraphTracked(posts);
  }

  // ---------------------------------------------------------------------
  // Properties
  // ---------------------------------------------------------------------

  /** Some node has id `id`. */
  ghost predicate HasNode(nodes: seq<NetworkNode>, id: string)
  {
    exists n :: n in nodes && n.id == id
  }

  /** The labels of the nodes of kind `kind`, in order. */
  function Labels(nodes: seq<NetworkNode>, kind: NodeKind): seq<string>
  {
    if nodes == [] then []
    else
      var n := nodes[|nodes| - 1];
      Labels(nodes[..|nodes| - 1], kind) + (if n.kind == kind then [n.labelText] else [])
  }

  /** The post nodes, in order. */
  function PostNodes(nodes: seq<NetworkNode>): seq<NetworkNode>
  {
    if nodes == [] then []
    else
      var n := nodes[|nodes| - 1];
      PostNodes(nodes[..|nodes| - 1]) + (if n.kind == PostNode then [n] else [])
  }

  /** An influencer or commenter id is in `nodeMap` exactly when a node of
      that kind carries the name as its label. */
  ghost predicate NodeMapMatches(g: Graph)
  {
    && (forall u :: InfluencerId(u) in g.nodeMap <==> u in Labels(g.nodes, Influencer))
    && (forall u :: CommenterId(u) in g.nodeMap <==> u in Labels(g.nodes, Commenter))
  }

  /** Influencer and commenter nodes take their ids from their labels. */
  ghost predicate IdsFromLabels(nodes: seq<NetworkNode>)
  {
    && (forall n :: n in nodes && n.kind == Influencer ==> n.id == InfluencerId(n.labelText))
    && (forall n :: n in nodes && n.kind == Commenter ==> n.id == CommenterId(n.labelText))
  }

  /** Every link joins two existing nodes. */
  ghost predicate LinksClosed(nodes: seq<NetworkNode>, links: seq<NetworkLink>)
  {
    forall l :: l in links ==> HasNode(nodes, l.source) && HasNode(nodes, l.target)
  }

  /** What `processNetworkData` keeps true of its collections; besides the
      above, no label repeats within either kind. */
  ghost predicate Tracked(g: Graph)
  {
    && NodeMapMatches(g)
    && IdsFromLabels(g.nodes)
    && Distinct(Labels(g.nodes, Influencer))
    && Distinct(Labels(g.nodes, Commenter))
    && LinksClosed(g.nodes, g.links)
  }

  /** What pushing one node does to the derived views of the node list. */
  lemma PushNode(nodes: seq<NetworkNode>, links: seq<NetworkLink>, n: NetworkNode)
    ensures forall k :: Labels(nodes + [n], k) == Labels(nodes, k) + (if n.kind == k then [n.labelText] else [])
    ensures PostNodes(nodes + [n]) == PostNodes(nodes) + (if n.kind == PostNode then [n] else [])
    ensures HasNode(nodes + [n], n.id)
    ensures forall x :: HasNode(nodes, x) ==> HasNode(nodes + [n], x)
    ensures LinksClosed(nodes, links) ==> LinksClosed(nodes + [n], links)
    ensures IdsFromLabels(nodes) && (n.kind == Influencer ==> n.id == InfluencerId(n.labelText))
            && (n.kind == Commenter ==> n.id == CommenterId(n.labelText))
            ==> IdsFromLabels(nodes + [n])
  {
    assert (nodes + [n])[..|nodes|] == nodes;
    assert n in nodes + [n];
    forall x | HasNode(nodes, x) ensures HasNode(nodes + [n], x) {
      var m :| m in nodes && m.id == x;
      assert m in nodes + [n];
    }
  }

  lemma LinksClosedPush(nodes: seq<NetworkNode>, links: seq<NetworkLink>, l: NetworkLink)
    requires LinksClosed(nodes, links) && HasNode(nodes, l.source) && HasNode(nodes, l.target)
    ensures LinksClosed(nodes, links + [l])
  {
  }

  lemma {:induction false} LabelsHaveNodes(nodes: seq<NetworkNode>, kind: NodeKind, u: string)
    requires u in Labels(nodes, kind)
    ensures exists n :: n in nodes && n.kind == kind && n.labelText == u
  {
    var init, last := nodes[..|nodes| - 1], nodes[|nodes| - 1];
    if u in Labels(init, kind) {
      LabelsHaveNodes(init, kind, u);
      var n :| n in init && n.kind == kind && n.labelText == u;
      assert n in nodes;
    } else {
      assert last in nodes;
    }
  }

  lemma DistinctSnoc(xs: seq<string>, x: string)
    requires Distinct(xs) && x !in xs
    ensures Distinct(xs + [x])
  {
  }

  /** The id of the influencer or commenter node for `u`. */
  function IdFor(u: string, kind: NodeKind): string
  {
    if kind == Influencer then InfluencerId(u) else CommenterId(u)
  }

  lemma NodeMapAdd(g: Graph, u: string, kind: NodeKind)
    requires NodeMapMatches(g)
    requires kind == Influencer || kind == Commenter
    requires IdFor(u, kind) !in g.nodeMap
    ensures NodeMapMatches(AddOnce(g, IdFor(u, kind), u, kind))
  {
    var g1 := AddOnce(g, IdFor(u, kind), u, kind);
    PushNode(g.nodes, g.links, NetworkNode(IdFor(u, kind), u, kind));
    forall v ensures (InfluencerId(v) in g1.nodeMap <==> v in Labels(g1.nodes, Influencer))
                  && (CommenterId(v) in g1.nodeMap <==> v in Labels(g1.nodes, Commenter)) {
      IdsDistinguish(v, u);
      IdsDistinguish(u, v);
    }
  }

  /** `AddOnce` for an influencer or commenter node keeps `Tracked`, and
      afterwards a node with that id exists. */
  lemma AddOnceTracked(g: Graph, u: string, kind: NodeKind)
    requires Tracked(g)
    requires kind == Influencer || kind == Commenter
    ensures var g1 := AddOnce(g, IdFor(u, kind), u, kind);
      && Tracked(g1) && HasNode(g1.nodes, IdFor(u, kind)) && g1.links == g.links
      && (forall x :: HasNode(g.nodes, x) ==> HasNode(g1.nodes, x))
      && PostNodes(g1.nodes) == PostNodes(g.nodes)
      && (forall v :: v in Labels(g1.nodes, kind) <==> v in Labels(g.nodes, kind) || v == u)
      && (forall k :: k != kind ==> Labels(g1.nodes, k) == Labels(g.nodes, k))
  {
    var id := IdFor(u, kind);
    if id in g.nodeMap {
      assert u in Labels(g.nodes, kind);
      LabelsHaveNodes(g.nodes, kind, u);
    } else {
      PushNode(g.nodes, g.links, NetworkNode(id, u, kind));
      assert u !in Labels(g.nodes, kind);
      DistinctSnoc(Labels(g.nodes, kind), u);
      NodeMapAdd(g, u, kind);
    }
  }

  /** One comment keeps `Tracked`, adds one link, and adds its author to the
      commenter labels; nothing else changes. */
  lemma AddCommentTracked(g: Graph, c: Comment, postId: string)
    requires Tracked(g) && HasNode(g.nodes, postId)
    ensures var g1 := AddComment(g, c, postId);
      && Tracked(g1) && HasNode(g1.nodes, postId)
      && |g1.links| == |g.links| + 1
      && PostNodes(g1.nodes) == PostNodes(g.nodes)
      && Labels(g1.nodes, Influencer) == Labels(g.nodes, Influencer)
      && (forall v :: v in Labels(g1.nodes, Commenter) <==> v in Labels(g.nodes, Commenter) || v == c.ownerUsername)
  {
    AddOnceTracked(g, c.ownerUsername, Commenter);
    var g1 := AddOnce(g, CommenterId(c.ownerUsername), c.ownerUsername, Commenter);
    LinksClosedPush(g1.nodes, g1.links, NetworkLink(CommenterId(c.ownerUsername), postId, 1));
  }

  /** The commenters of `cs`, in order. */
  function CommentAuthors(cs: seq<Comment>): seq<string>
  {
    if cs == [] then [] else CommentAuthors(cs[..|cs| - 1]) + [cs[|cs| - 1].ownerUsername]
  }

  lemma {:induction false} AddCommentsTracked(g: Graph, cs: seq<Comment>, postId: string)
    requires Tracked(g) && HasNode(g.nodes, postId)
    ensures var g1 := AddComments(g, cs, postId);
      && Tracked(g1) && HasNode(g1.nodes, postId)
      && |g1.links| == |g.links| + |cs|
      && PostNodes(g1.nodes) == PostNodes(g.nodes)
      && Labels(g1.nodes, Influencer) == Labels(g.nodes, Influencer)
      && (forall v :: v in Labels(g1.nodes, Commenter) <==> v in Labels(g.nodes, Commenter) || v in CommentAuthors(cs))
  {
    if cs != [] {
      var init := cs[..|cs| - 1];
      AddCommentsTracked(g, init, postId);
      AddCommentTracked(AddComments(g, init, postId), cs[|cs| - 1], postId);
    }
  }

  /** The author of every comment of every post, in order. */
  function Commenters(posts: seq<Post>): seq<string>
  {
    if posts == [] then [] else Commenters(posts[..|posts| - 1]) + CommentAuthors(posts[|posts| - 1].latestComments)
  }

  /** The post nodes, one per post, in order. */
  function PostNodeList(posts: seq<Post>): (r: seq<NetworkNode>)
    ensures |r| == |posts|
  {
    if posts == [] then [] else PostNodeList(posts[..|posts| - 1]) + [PostNodeOf(posts[|posts| - 1])]
  }

  lemma AddPostNodeTracked(g: Graph, p: Post)
    requires Tracked(g) && HasNode(g.nodes, InfluencerId(p.ownerUsername))
    ensures var g1 := AddPostNode(g, p);
      && Tracked(g1) && HasNode(g1.nodes, PostId(p.id))
      && |g1.links| == |g.links| + 1
      && PostNodes(g1.nodes) == PostNodes(g.nodes) + [PostNodeOf(p)]
      && Labels(g1.nodes, Influencer) == Labels(g.nodes, Influencer)
      && Labels(g1.nodes, Commenter) == Labels(g.nodes, Commenter)
  {
    var pn := PostNodeOf(p);
    PushNode(g.nodes, g.links, pn);
    LinksClosedPush(g.nodes + [pn], g.links, NetworkLink(InfluencerId(p.ownerUsername), PostId(p.id), 1));
  }

  lemma AddPostTracked(g: Graph, p: Post)
    requires Tracked(g)
    ensures var g1 := AddPost(g, p);
      && Tracked(g1)
      && |g1.links| == |g.links| + 1 + |p.latestComments|
      && PostNodes(g1.nodes) == PostNodes(g.nodes) + [PostNodeOf(p)]
      && (forall v :: v in Labels(g1.nodes, Influencer) <==> v in Labels(g.nodes, Influencer) || v == p.ownerUsername)
      && (forall v :: v in Labels(g1.nodes, Commenter) <==> v in Labels(g.nodes, Commenter) || v in CommentAuthors(p.latestComments))
  {
    var g1 := AddOnce(g, IdFor(p.ownerUsername, Influencer), p.ownerUsername, Influencer);
    AddOnceTracked(g, p.ownerUsername, Influencer);
    AddPostNodeTracked(g1, p);
    AddCommentsTracked(AddPostNode(g1, p), p.latestComments, PostId(p.id));
  }

  /** The network of any posts keeps `Tracked`, and its influencer labels,
      commenter labels, post nodes and link count are as the posts dictate. */
  lemma {:induction false} GraphTracked(posts: seq<Post>)
    ensures var g := GraphOf(posts);
      && Tracked(g)
      && PostNodes(g.nodes) == PostNodeList(posts)
      && (forall v :: v in Labels(g.nodes, Influencer) <==> v in Owners(posts))
      && (forall v :: v in Labels(g.nodes, Commenter) <==> v in Commenters(posts))
      && |g.links| == |posts| + TotalComments(posts)
  {
    if posts != [] {
      var init := posts[..|posts| - 1];
      GraphTracked(init);
      AddPostTracked(GraphOf(init), posts[|posts| - 1]);
    }
  }

  /** One link per post and one per comment. */
  lemma LinkCount(posts: seq<Post>)
    ensures |NetworkOf(posts).links| == |posts| + TotalComments(posts)
  {
    GraphTracked(posts);
  }

  /** Exactly one influencer node per distinct post owner, with id
      `influencer-<owner>`. */
  lemma InfluencerNodes(posts: seq<Post>)
    ensures Distinct(Labels(NetworkOf(posts).nodes, Influencer))
    ensures forall u :: u in Labels(NetworkOf(posts).nodes, Influencer) <==> u in Owners(posts)
    ensures forall n :: n in NetworkOf(posts).nodes && n.kind == Influencer ==> n.id == InfluencerId(n.labelText)
  {
    GraphTracked(posts);
  }

  /** Exactly one commenter node per distinct comment author, with id
      `commenter-<author>`. */
  lemma CommenterNodes(posts: seq<Post>)
    ensures Distinct(Labels(NetworkOf(posts).nodes, Commenter))
    ensures forall u :: u in Labels(NetworkOf(posts).nodes, Commenter) <==> u in Commenters(posts)
    ensures forall n :: n in NetworkOf(posts).nodes && n.kind == Commenter ==> n.id == CommenterId(n.labelText)
  {
    GraphTracked(posts);
  }

  /** One post node per post, in order, even when two posts share an id. */
  lemma PostNodesOnePerPost(posts: seq<Post>)
    ensures PostNodes(NetworkOf(posts).nodes) == PostNodeList(posts)
    ensures forall i :: 0 <= i < |posts| ==>
      PostNodes(NetworkOf(posts).nodes)[i] == NetworkNode(PostId(posts[i].id), posts[i].shortCode, PostNode)
  {
    GraphTracked(posts);
    PostNodeListAt(posts);
  }

  lemma {:induction false} PostNodeListAt(posts: seq<Post>)
    ensures forall i :: 0 <= i < |posts| ==> PostNodeList(posts)[i] == PostNodeOf(posts[i])
  {
    if posts != [] {
      PostNodeListAt(posts[..|posts| - 1]);
    }
  }

  /** Every link joins two nodes of the network. */
  lemma LinksJoinNodes(posts: seq<Post>)
    ensures forall l :: l in NetworkOf(posts).links ==>
      HasNode(NetworkOf(posts).nodes, l.source) && HasNode(NetworkOf(posts).nodes, l.target)
  {
    GraphTracked(posts);
  }
}
