// getLikedVideos of src/controllers/like.controller.js: the aggregation over
// the Like collection that joins each of the caller's video likes with its
// video and that video's owner, unwinds both and promotes the video.

module LikedVideos {
  import opened Api
  import opened Validation
  import opened Users
  import opened Likes

  /** A Video document; `details` stands for every field besides `_id` and
      `owner`, which the pipeline passes through untouched. */
  datatype Video = Video(id: Id, owner: UserId, details: string)

  /** A promoted video document: `owner` replaced by the owner's profile. */
  datatype LikedVideo = LikedVideo(id: Id, owner: Profile, details: string)

  /** The inner pipeline run on one video: `$lookup` of its owner with the
      profile projection, then `$unwind: '$owner'`, one document per
      matching user and none when the owner is missing. */
  function WithOwner(v: Video, ps: seq<Profile>): (r: seq<LikedVideo>)
    ensures |r| == |ps| && forall k :: 0 <= k < |ps| ==> r[k] == LikedVideo(v.id, ps[k], v.details)
  {
    if ps == [] then [] else [LikedVideo(v.id, ps[0], v.details)] + WithOwner(v, ps[1..])
  }

  /** `$lookup` from videos on `_id` with the inner pipeline, then
      `$unwind: '$video'`: the unwound documents for one liked video id, each
      a video with that id. Exactly which ones is `LookupVideoExactly`. */
  function LookupVideo(videos: seq<Video>, users: seq<User>, id: Id): (r: seq<LikedVideo>)
    ensures forall v :: v in r ==> v.id == id
  {
    if videos == [] then []
    else
      (if videos[0].id == id then WithOwner(videos[0], LookupProfiles(users, videos[0].owner)) else [])
      + LookupVideo(videos[1..], users, id)
  }

  /** `$match: { likedBy: caller, video: { $exists: true } }`, then the
      lookup, `$unwind` and `$replaceRoot`, like by like in natural order.
      Every document comes from a video like of the caller; exactly which
      documents come out is `PipelineExactly`. */
  function Pipeline(likes: seq<Like>, videos: seq<Video>, users: seq<User>, caller: UserId)
    : (r: seq<LikedVideo>)
    ensures forall v :: v in r ==>
      exists l :: l in likes && l.likedBy == caller && l.target == Target(OnVideo, v.id)
  {
    if likes == [] then []
    else
      (if likes[0].likedBy == caller && likes[0].target.kind == OnVideo
       then LookupVideo(videos, users, likes[0].target.id) else [])
      + Pipeline(likes[1..], videos, users, caller)
  }

  /** `r` is video `v` with its owner replaced by the profile of a user who
      has the owner's id. */
  predicate WithOwnerProfile(users: seq<User>, v: Video, r: LikedVideo)
  {
    exists u :: u in users && u.id == v.owner && r == LikedVideo(v.id, ProfileOf(u), v.details)
  }

  /** A document the pipeline may emit for video id `id`: an existing video
      with that id, whose owner exists. */
  predicate Produces(videos: seq<Video>, users: seq<User>, id: Id, r: LikedVideo)
  {
    exists v :: v in videos && v.id == id && WithOwnerProfile(users, v, r)
  }

  lemma WithOwnerExactly(v: Video, users: seq<User>)
    ensures forall r :: r in WithOwner(v, LookupProfiles(users, v.owner)) <==> WithOwnerProfile(users, v, r)
  {
    var ps := LookupProfiles(users, v.owner);
    var here := WithOwner(v, ps);
    forall r ensures r in here <==> WithOwnerProfile(users, v, r) {
      if r in here {
        var k :| 0 <= k < |here| && here[k] == r;
        assert ps[k] in ps;
      }
      if WithOwnerProfile(users, v, r) {
        var u :| u in users && u.id == v.owner && r == LikedVideo(v.id, ProfileOf(u), v.details);
        var k :| 0 <= k < |ps| && ps[k] == ProfileOf(u);
        assert here[k] == r;
      }
    }
  }

  lemma {:induction false} LookupVideoExactly(videos: seq<Video>, users: seq<User>, id: Id)
    ensures forall r :: r in LookupVideo(videos, users, id) <==> Produces(videos, users, id, r)
  {
    if videos != [] {
      LookupVideoExactly(videos[1..], users, id);
      WithOwnerExactly(videos[0], users);
      assert videos == [videos[0]] + videos[1..];
    }
  }

  /** The query's result, member by member: a video appears exactly when some
      like of the caller points at it, the video exists, and its owner exists;
      it appears with the owner's profile. */
  lemma {:induction false} PipelineExactly(likes: seq<Like>, videos: seq<Video>, users: seq<User>,
                                           caller: UserId)
    ensures forall r :: r in Pipeline(likes, videos, users, caller) <==>
      exists l :: l in likes && l.likedBy == caller && l.target == Target(OnVideo, r.id)
                  && Produces(videos, users, r.id, r)
  {
    if likes != [] {
      PipelineExactly(likes[1..], videos, users, caller);
      LookupVideoExactly(videos, users, likes[0].target.id);
      assert likes == [likes[0]] + likes[1..];
      forall r | r in LookupVideo(videos, users, likes[0].target.id)
        ensures r.id == likes[0].target.id
      {
      }
    }
  }

  /** getLikedVideos for the authenticated `caller`. It never fails. */
  function GetLikedVideos(caller: UserId, likes: seq<Like>, videos: seq<Video>, users: seq<User>)
    : (r: Response<seq<LikedVideo>>)
    ensures r.Ok? && r.status == 200 && r.message == "All liked videos fetched successfully"
    ensures forall v :: v in r.data ==>
      && (exists l :: l in likes && l.likedBy == caller && l.target == Target(OnVideo, v.id))
      && Produces(videos, users, v.id, v)
    ensures forall l, vid, u ::
              && l in likes && l.likedBy == caller && l.target.kind == OnVideo
              && vid in videos && vid.id == l.target.id && u in users && u.id == vid.owner
              ==> LikedVideo(vid.id, ProfileOf(u), vid.details) in r.data
  {
    PipelineExactly(likes, videos, users, caller);
    Ok(200, Pipeline(likes, videos, users, caller), "All liked videos fetched successfully")
  }

  /** A like whose video is gone, or whose video's owner is gone, contributes
      nothing: no document comes out for that video id. */
  lemma DanglingLikesDropped(likes: seq<Like>, videos: seq<Video>, users: seq<User>, caller: UserId, id: Id)
    requires forall v :: v in videos && v.id == id ==> forall u :: u in users ==> u.id != v.owner
    ensures forall r :: r in GetLikedVideos(caller, likes, videos, users).data ==> r.id != id
  {
  }
}
