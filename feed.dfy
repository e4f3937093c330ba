// getVideoComments of src/controllers/comment.controller.js: the read-only
// aggregation over the Comment collection, stage by stage ($match, two
// $lookup, $addFields, $sort, $project), followed by aggregatePaginate.

module CommentFeed {
  import opened Wrappers
  import opened Api
  import opened Validation
  import opened Users
  import opened Likes
  import opened Comments
  import opened Pagination

  /** A comment after both lookups and `$addFields`, still carrying the raw
      `likes` array. */
  datatype Joined = Joined(comment: Comment, commenter: Option<Profile>, likes: seq<Like>,
                           likesCount: nat, isLiked: bool)

  /** A feed entry after `$project: { likes: 0 }`: the comment's own fields
      and the derived ones, without the raw likes. `commenter` is None when
      `$first` found no user. */
  datatype FeedItem = FeedItem(id: Id, content: string, video: Id, owner: UserId, createdAt: int,
                               commenter: Option<Profile>, likesCount: nat, isLiked: bool)

  // ---- S1 $match: { video: videoId } ----

  function MatchVideo(comments: seq<Comment>, videoId: Id): (r: seq<Comment>)
    ensures forall c :: multiset(r)[c] == if c.video == videoId then multiset(comments)[c] else 0
  {
    if comments == [] then []
    else
      assert comments == [comments[0]] + comments[1..];
      if comments[0].video == videoId then [comments[0]] + MatchVideo(comments[1..], videoId)
      else MatchVideo(comments[1..], videoId)
  }

  // ---- S3 $lookup: likes whose `comment` field is the comment's _id ----

  function LikesOn(likes: seq<Like>, commentId: Id): (r: seq<Like>)
    ensures forall l :: l in r <==> l in likes && l.target == Target(OnComment, commentId)
  {
    if likes == [] then []
    else if likes[0].target == Target(OnComment, commentId) then [likes[0]] + LikesOn(likes[1..], commentId)
    else LikesOn(likes[1..], commentId)
  }

  function TargetsOf(likes: seq<Like>): (r: seq<Target>)
    ensures |r| == |likes| && forall i :: 0 <= i < |likes| ==> r[i] == likes[i].target
  {
    seq(|likes|, i requires 0 <= i < |likes| => likes[i].target)
  }

  /** The number of likes in the collection that point at comment `commentId`. */
  function LikeCount(likes: seq<Like>, commentId: Id): nat
  {
    multiset(TargetsOf(likes))[Target(OnComment, commentId)]
  }

  /** The joined like array is as long as the number of likes on the comment. */
  lemma {:induction false} LikesOnCount(likes: seq<Like>, commentId: Id)
    ensures |LikesOn(likes, commentId)| == LikeCount(likes, commentId)
  {
    if likes != [] {
      LikesOnCount(likes[1..], commentId);
      assert TargetsOf(likes) == [likes[0].target] + TargetsOf(likes[1..]);
    }
  }

  // ---- S2 $lookup of the commenter, then S4 $addFields ----

  /** `$in: [req.user?._id, '$likes.likedBy']`; an absent viewer matches nothing. */
  function ViewerIn(viewer: Option<UserId>, ls: seq<Like>): bool
  {
    viewer.Some? && viewer.value in seq(|ls|, i requires 0 <= i < |ls| => ls[i].likedBy)
  }

  /** Both lookups and `$addFields` for one comment: the commenter is the
      first user with the owner's id, `likesCount` is the number of likes in
      the collection that point at the comment, and `isLiked` holds exactly
      when a viewer is present and wrote one of them. */
  function Join(c: Comment, users: seq<User>, likes: seq<Like>, viewer: Option<UserId>): (r: Joined)
    ensures r.comment == c && r.commenter == FirstProfile(users, c.owner)
    ensures r.likesCount == LikeCount(likes, c.id)
    ensures r.isLiked <==>
      viewer.Some? && exists l :: l in likes && l.target == Target(OnComment, c.id) && l.likedBy == viewer.value
  {
    var ls := LikesOn(likes, c.id);
    LikesOnCount(likes, c.id);
    assert ViewerIn(viewer, ls) <==>
      viewer.Some? && exists l :: l in likes && l.target == Target(OnComment, c.id) && l.likedBy == viewer.value
    by {
      if viewer.Some? && exists l :: l in likes && l.target == Target(OnComment, c.id) && l.likedBy == viewer.value {
        var l :| l in likes && l.target == Target(OnComment, c.id) && l.likedBy == viewer.value;
        var i :| 0 <= i < |ls| && ls[i] == l;
        assert seq(|ls|, k requires 0 <= k < |ls| => ls[k].likedBy)[i] == viewer.value;
      }
    }
    Joined(c, FirstProfile(users, c.owner), ls, |ls|, ViewerIn(viewer, ls))
  }

  /** The lookups and `$addFields` over a sequence of comments: position by
      position, each joined document projects to its comment's reference
      entry. */
  function JoinAll(cs: seq<Comment>, users: seq<User>, likes: seq<Like>, viewer: Option<UserId>)
    : (r: seq<Joined>)
    ensures |r| == |cs|
    ensures forall i :: 0 <= i < |cs| ==> Strip(r[i]) == ItemOf(cs[i], users, likes, viewer)
  {
    if cs == [] then [] else [Join(cs[0], users, likes, viewer)] + JoinAll(cs[1..], users, likes, viewer)
  }

  // ---- S5 $sort: { createdAt: 1 } ----

  predicate SortedByDate(js: seq<Joined>)
  {
    forall i, j :: 0 <= i < j < |js| ==> js[i].comment.createdAt <= js[j].comment.createdAt
  }

  /** Putting a document no later than any of a sorted sequence in front of
      it keeps the sequence sorted. */
  lemma ConsSorted(h: Joined, rest: seq<Joined>)
    requires SortedByDate(rest)
    requires forall y :: y in rest ==> h.comment.createdAt <= y.comment.createdAt
    ensures SortedByDate([h] + rest)
  {
    forall i, j | 0 <= i < j < |[h] + rest|
      ensures ([h] + rest)[i].comment.createdAt <= ([h] + rest)[j].comment.createdAt
    {
      assert ([h] + rest)[j] == rest[j - 1];
      if i > 0 {
        assert ([h] + rest)[i] == rest[i - 1];
      }
    }
  }

  function InsertByDate(x: Joined, js: seq<Joined>): (r: seq<Joined>)
    requires SortedByDate(js)
    ensures SortedByDate(r)
    ensures multiset(r) == multiset(js) + multiset{x}
    ensures forall y :: y in r <==> y in js || y == x
  {
    if js == [] || x.comment.createdAt <= js[0].comment.createdAt then
      ConsSorted(x, js);
      [x] + js
    else
      var rest := InsertByDate(x, js[1..]);
      assert js == [js[0]] + js[1..];
      HeadIsEarliest(js);
      ConsSorted(js[0], rest);
      assert multiset([js[0]] + rest) == multiset{js[0]} + multiset(rest);
      [js[0]] + rest
  }

  /** The head of a sorted sequence is no later than anything after it. */
  lemma HeadIsEarliest(js: seq<Joined>)
    requires SortedByDate(js) && js != []
    ensures forall y :: y in js[1..] ==> js[0].comment.createdAt <= y.comment.createdAt
  {
    forall y | y in js[1..] ensures js[0].comment.createdAt <= y.comment.createdAt {
      var k :| 0 <= k < |js| - 1 && js[1..][k] == y;
      assert js[k + 1] == y;
    }
  }

  /** Oldest first; an earlier document stays ahead of a later one with the
      same `createdAt`. */
  function SortByDate(js: seq<Joined>): (r: seq<Joined>)
    ensures SortedByDate(r)
    ensures multiset(r) == multiset(js)
  {
    if js == [] then []
    else
      assert js == [js[0]] + js[1..];
      InsertByDate(js[0], SortByDate(js[1..]))
  }

  // ---- S6 $project: { likes: 0 } ----

  function Strip(j: Joined): FeedItem
  {
    var c := j.comment;
    FeedItem(c.id, c.content, c.video, c.owner, c.createdAt, j.commenter, j.likesCount, j.isLiked)
  }

  function Project(js: seq<Joined>): (r: seq<FeedItem>)
    ensures |r| == |js| && forall i :: 0 <= i < |js| ==> r[i] == Strip(js[i])
  {
    if js == [] then [] else [Strip(js[0])] + Project(js[1..])
  }

  /** The whole aggregation, before paging: one entry per comment on the
      video, oldest first. */
  function Feed(comments: seq<Comment>, users: seq<User>, likes: seq<Like>, videoId: Id,
                viewer: Option<UserId>): (r: seq<FeedItem>)
    ensures |r| == |MatchVideo(comments, videoId)|
    ensures forall i, j :: 0 <= i < j < |r| ==> r[i].createdAt <= r[j].createdAt
  {
    var joined := JoinAll(MatchVideo(comments, videoId), users, likes, viewer);
    var sorted := SortByDate(joined);
    assert |sorted| == |multiset(sorted)| == |multiset(joined)| == |joined|;
    Project(sorted)
  }

  // ---- The reference each feed entry is checked against ----

  /** What the feed promises about one comment: its own fields, the profile
      of the first user with the owner's id, the number of likes that point
      at it, and whether one of them is the viewer's. */
  function ItemOf(c: Comment, users: seq<User>, likes: seq<Like>, viewer: Option<UserId>): FeedItem
  {
    FeedItem(c.id, c.content, c.video, c.owner, c.createdAt, FirstProfile(users, c.owner),
             LikeCount(likes, c.id),
             viewer.Some? && exists l :: l in likes && l.target == Target(OnComment, c.id) && l.likedBy == viewer.value)
  }

  function ItemsOf(cs: seq<Comment>, users: seq<User>, likes: seq<Like>, viewer: Option<UserId>)
    : seq<FeedItem>
  {
    if cs == [] then [] else [ItemOf(cs[0], users, likes, viewer)] + ItemsOf(cs[1..], users, likes, viewer)
  }

  /** Join and projection compute exactly the reference entry: likesCount
      counts the likes on the comment and isLiked holds exactly when the
      viewer is among their authors. */
  lemma JoinIsItemOf(c: Comment, users: seq<User>, likes: seq<Like>, viewer: Option<UserId>)
    ensures Strip(Join(c, users, likes, viewer)) == ItemOf(c, users, likes, viewer)
  {
  }

  lemma {:induction false} JoinAllIsItemsOf(cs: seq<Comment>, users: seq<User>, likes: seq<Like>,
                                            viewer: Option<UserId>)
    ensures Project(JoinAll(cs, users, likes, viewer)) == ItemsOf(cs, users, likes, viewer)
  {
    if cs != [] {
      JoinIsItemOf(cs[0], users, likes, viewer);
      JoinAllIsItemsOf(cs[1..], users, likes, viewer);
    }
  }

  /** Cancelling one occurrence of the same element on both sides. */
  lemma MultisetCancel<T>(x: T, p: multiset<T>, q: multiset<T>)
    requires multiset{x} + p == multiset{x} + q
    ensures p == q
  {
    forall y ensures p[y] == q[y] {
      assert (multiset{x} + p)[y] == (multiset{x} + q)[y];
    }
  }

  /** Taking the element at position k out of a sequence. */
  lemma RemoveAt<T>(b: seq<T>, k: nat)
    requires k < |b|
    ensures multiset(b) == multiset{b[k]} + multiset(b[..k] + b[k + 1..])
  {
    assert b == b[..k] + [b[k]] + b[k + 1..];
  }

  /** Projection commutes with taking out position k. */
  lemma ProjectRemoveAt(b: seq<Joined>, k: nat)
    requires k < |b|
    ensures Project(b[..k] + b[k + 1..]) == Project(b)[..k] + Project(b)[k + 1..]
  {
    var l, r := Project(b[..k] + b[k + 1..]), Project(b)[..k] + Project(b)[k + 1..];
    assert |l| == |r|;
    forall i | 0 <= i < |l| ensures l[i] == r[i] {
      if i < k {
        assert (b[..k] + b[k + 1..])[i] == b[i];
      } else {
        assert (b[..k] + b[k + 1..])[i] == b[i + 1];
      }
    }
  }

  /** Projecting two orderings of the same documents gives two orderings of
      the same entries. */
  lemma {:induction false} ProjectKeepsPermutation(a: seq<Joined>, b: seq<Joined>)
    requires multiset(a) == multiset(b)
    ensures multiset(Project(a)) == multiset(Project(b))
  {
    if a == [] {
      assert |b| == |multiset(b)| == 0;
    } else {
      var x := a[0];
      assert x in multiset(b);
      var k :| 0 <= k < |b| && b[k] == x;
      var rest := b[..k] + b[k + 1..];
      RemoveAt(b, k);
      assert a == [x] + a[1..];
      MultisetCancel(x, multiset(a[1..]), multiset(rest));
      ProjectKeepsPermutation(a[1..], rest);
      ProjectRemoveAt(b, k);
      RemoveAt(Project(b), k);
      assert Project(a) == [Strip(x)] + Project(a[1..]);
    }
  }

  /** The feed before paging: ordered oldest first, and, as a multiset,
      exactly the reference entries of the video's comments. */
  lemma FeedIsSortedPermutation(comments: seq<Comment>, users: seq<User>, likes: seq<Like>,
                                videoId: Id, viewer: Option<UserId>)
    ensures var feed := Feed(comments, users, likes, videoId, viewer);
      forall i, j :: 0 <= i < j < |feed| ==> feed[i].createdAt <= feed[j].createdAt
    ensures multiset(Feed(comments, users, likes, videoId, viewer))
         == multiset(ItemsOf(MatchVideo(comments, videoId), users, likes, viewer))
  {
    var joined := JoinAll(MatchVideo(comments, videoId), users, likes, viewer);
    ProjectKeepsPermutation(SortByDate(joined), joined);
    JoinAllIsItemsOf(MatchVideo(comments, videoId), users, likes, viewer);
  }

  lemma {:induction false} ItemsOfMembers(cs: seq<Comment>, users: seq<User>, likes: seq<Like>,
                                          viewer: Option<UserId>)
    ensures forall x :: x in ItemsOf(cs, users, likes, viewer) <==> exists c :: c in cs && x == ItemOf(c, users, likes, viewer)
  {
    if cs != [] {
      ItemsOfMembers(cs[1..], users, likes, viewer);
      assert cs == [cs[0]] + cs[1..];
    }
  }

  lemma MatchVideoMembers(comments: seq<Comment>, videoId: Id)
    ensures forall c :: c in MatchVideo(comments, videoId) <==> c in comments && c.video == videoId
  {
    var m := MatchVideo(comments, videoId);
    forall c ensures c in m <==> c in comments && c.video == videoId {
      assert c in m <==> multiset(m)[c] > 0;
      assert c in comments <==> multiset(comments)[c] > 0;
    }
  }

  /** Exactly the comments on the video appear, each as its reference entry;
      comments on other videos never do. */
  lemma FeedMembers(comments: seq<Comment>, users: seq<User>, likes: seq<Like>, videoId: Id,
                    viewer: Option<UserId>)
    ensures forall x :: x in Feed(comments, users, likes, videoId, viewer) <==>
      exists c :: c in comments && c.video == videoId && x == ItemOf(c, users, likes, viewer)
  {
    var matched := MatchVideo(comments, videoId);
    var feed := Feed(comments, users, likes, videoId, viewer);
    var items := ItemsOf(matched, users, likes, viewer);
    FeedIsSortedPermutation(comments, users, likes, videoId, viewer);
    ItemsOfMembers(matched, users, likes, viewer);
    MatchVideoMembers(comments, videoId);
    forall x ensures x in feed <==> x in items {
      assert x in feed <==> multiset(feed)[x] > 0;
      assert x in items <==> multiset(items)[x] > 0;
    }
  }

  /** The example of two comments on one video, stored newer first, with one
      like from the viewer on the older: the feed lists the older first,
      with one like and isLiked, then the newer, with none. */
  lemma TwoCommentExample(c1: Comment, c2: Comment, users: seq<User>, viewer: UserId, likeId: Id)
    requires c1.video == c2.video && c1.id != c2.id && c1.createdAt < c2.createdAt
    ensures var feed := Feed([c2, c1], users, [Like(likeId, viewer, Target(OnComment, c1.id))], c1.video, Some(viewer));
      && |feed| == 2
      && feed[0].id == c1.id && feed[0].likesCount == 1 && feed[0].isLiked
      && feed[1].id == c2.id && feed[1].likesCount == 0 && !feed[1].isLiked
  {
    var likes := [Like(likeId, viewer, Target(OnComment, c1.id))];
    var j1 := Join(c1, users, likes, Some(viewer));
    var j2 := Join(c2, users, likes, Some(viewer));
    ExampleJoins(c1, c2, users, viewer, likeId);
    SortTwo(j1, j2);
    var joined := JoinAll(MatchVideo([c2, c1], c1.video), users, likes, Some(viewer));
    FeedStages([c2, c1], users, likes, c1.video, Some(viewer));
    assert SortByDate(joined) == [j1, j2];
    var feed := Feed([c2, c1], users, likes, c1.video, Some(viewer));
    assert feed == Project([j1, j2]);
    assert feed[0] == Strip(j1) && feed[1] == Strip(j2);
  }

  /** The feed is the stages composed. */
  lemma FeedStages(comments: seq<Comment>, users: seq<User>, likes: seq<Like>, videoId: Id,
                   viewer: Option<UserId>)
    ensures Feed(comments, users, likes, videoId, viewer)
         == Project(SortByDate(JoinAll(MatchVideo(comments, videoId), users, likes, viewer)))
  {
  }

  lemma ExampleJoins(c1: Comment, c2: Comment, users: seq<User>, viewer: UserId, likeId: Id)
    requires c1.video == c2.video && c1.id != c2.id
    ensures var likes := [Like(likeId, viewer, Target(OnComment, c1.id))];
      var j1 := Join(c1, users, likes, Some(viewer));
      var j2 := Join(c2, users, likes, Some(viewer));
      && JoinAll(MatchVideo([c2, c1], c1.video), users, likes, Some(viewer)) == [j2, j1]
      && j1.likesCount == 1 && j1.isLiked && j2.likesCount == 0 && !j2.isLiked
  {
    var likes := [Like(likeId, viewer, Target(OnComment, c1.id))];
    ExampleJoinFields(c1, c2, users, viewer, likeId);
    assert MatchVideo([c1], c1.video) == [c1];
    assert MatchVideo([c2, c1], c1.video) == [c2, c1];
    assert JoinAll([c1], users, likes, Some(viewer)) == [Join(c1, users, likes, Some(viewer))];
  }

  lemma ExampleJoinFields(c1: Comment, c2: Comment, users: seq<User>, viewer: UserId, likeId: Id)
    requires c1.id != c2.id
    ensures var likes := [Like(likeId, viewer, Target(OnComment, c1.id))];
      var j1 := Join(c1, users, likes, Some(viewer));
      var j2 := Join(c2, users, likes, Some(viewer));
      j1.likesCount == 1 && j1.isLiked && j2.likesCount == 0 && !j2.isLiked
  {
    var likes := [Like(likeId, viewer, Target(OnComment, c1.id))];
    assert TargetsOf(likes) == [Target(OnComment, c1.id)];
    assert likes[0] in likes;
  }

  lemma SortTwo(j1: Joined, j2: Joined)
    requires j1.comment.createdAt < j2.comment.createdAt
    ensures SortByDate([j2, j1]) == [j1, j2]
  {
    assert SortByDate([j1]) == [j1];
    assert InsertByDate(j2, []) == [j2];
    assert InsertByDate(j2, [j1]) == [j1, j2];
  }

  // ---- The handler ----

  /** getVideoComments for `viewer`, over the Comment, User and Like
      collections in their natural order. `page` and `limit` are the parsed
      query values, defaulting to 1 and 10. */
  function GetVideoComments(videoId: string, viewer: Option<UserId>, page: Option<int>, limit: Option<int>,
                            comments: seq<Comment>, users: seq<User>, likes: seq<Like>)
    : (r: Response<Page<FeedItem>>)
    requires page.Some? ==> page.value >= 1
    requires limit.Some? ==> limit.value >= 1
    ensures !ValidId(videoId) ==> r == Fail(400, "Invalid or missing video ID")
    ensures ValidId(videoId) ==>
      && r.Ok? && r.status == 200
      && r.message == "All comments for videoID: " + videoId + " fetched successfully"
      && r.data.page == (if page.Some? then page.value else 1)
      && r.data.limit == (if limit.Some? then limit.value else 10)
      && r.data.totalDocs == |MatchVideo(comments, Canonical(videoId))|
      && |r.data.docs| <= r.data.limit
      && r.data == Paginate(Feed(comments, users, likes, Canonical(videoId), viewer), r.data.page, r.data.limit)
  {
    if !ValidId(videoId) then Fail(400, "Invalid or missing video ID")
    else
      var p := if page.Some? then page.value else 1;
      var l := if limit.Some? then limit.value else 10;
      var feed := Feed(comments, users, likes, Canonical(videoId), viewer);
      Ok(200, Paginate(feed, p, l), "All comments for videoID: " + videoId + " fetched successfully")
  }
}
