// The Like collection and the three toggle handlers of
// src/controllers/like.controller.js (toggleVideoLike, toggleCommentLike,
// toggleTweetLike), written once and parameterised by the target kind.

module Likes {
  import opened Wrappers
  import opened Api
  import opened Validation

  /** Which of the Like document's reference fields (`video`, `comment`,
      `tweet`) is set. */
  datatype Kind = OnVideo | OnComment | OnTweet

  datatype Target = Target(kind: Kind, id: Id)

  datatype Like = Like(id: Id, likedBy: UserId, target: Target)

  /** The toggle's payload. The tweet handler answers an unlike with the key
      `likedBy` where the other two use `isLiked`. */
  datatype LikeFlag = IsLiked(isLiked: bool) | LikedBy(likedBy: bool)

  /** The filter `{ <kind>: id, likedBy: user }` of `Like.findOne`. */
  predicate Matches(l: Like, t: Target, u: UserId)
  {
    l.target == t && l.likedBy == u
  }

  /** `Like.findOne`: the position of the first matching like, in the
      collection's natural order. */
  function FindLike(likes: seq<Like>, t: Target, u: UserId): (r: Option<nat>)
    ensures r.Some? ==> r.value < |likes| && Matches(likes[r.value], t, u)
    ensures r.Some? ==> forall j :: 0 <= j < r.value ==> !Matches(likes[j], t, u)
    ensures r.None? <==> forall j :: 0 <= j < |likes| ==> !Matches(likes[j], t, u)
  {
    if likes == [] then None
    else if Matches(likes[0], t, u) then Some(0)
    else
      match FindLike(likes[1..], t, u)
      case None => None
      case Some(i) => Some(i + 1)
  }

  /** `a` is `b` with some likes dropped and the rest kept in order. */
  predicate DroppedFrom(a: seq<Like>, b: seq<Like>)
  {
    if a == [] then true
    else if b == [] then false
    else if a[0] == b[0] then DroppedFrom(a[1..], b[1..])
    else DroppedFrom(a, b[1..])
  }

  /** How many likes carry document id `id`. */
  function CountId(likes: seq<Like>, id: Id): nat
  {
    if likes == [] then 0
    else (if likes[0].id == id then 1 else 0) + CountId(likes[1..], id)
  }

  /** `Like.findByIdAndDelete(id)`: only deletes, keeping the order of the
      rest, and deletes exactly the likes whose id is `id`, every one of them.
      That this is exactly one like when ids are distinct is
      `DeleteByIdRemovesIndex`. */
  function DeleteById(likes: seq<Like>, id: Id): (r: seq<Like>)
    ensures DroppedFrom(r, likes)
    ensures forall j :: 0 <= j < |r| ==> r[j].id != id
    ensures |r| == |likes| - CountId(likes, id)
  {
    if likes == [] then []
    else
      var rest := DeleteById(likes[1..], id);
      assert rest != [] ==> rest[0].id != id;
      if likes[0].id == id then rest else [likes[0]] + rest
  }

  /** All likes matching one filter, in order. */
  function MatchesOf(likes: seq<Like>, t: Target, u: UserId): seq<Like>
  {
    if likes == [] then []
    else if Matches(likes[0], t, u) then [likes[0]] + MatchesOf(likes[1..], t, u)
    else MatchesOf(likes[1..], t, u)
  }

  /** The store hands out every document id once. */
  ghost predicate DistinctIds(likes: seq<Like>)
  {
    forall i, j :: 0 <= i < j < |likes| ==> likes[i].id != likes[j].id
  }

  /** The central invariant of the toggle: at most one like per
      (user, target kind, target id). */
  ghost predicate AtMostOnePerKey(likes: seq<Like>)
  {
    forall i, j :: 0 <= i < j < |likes| ==>
      likes[i].likedBy != likes[j].likedBy || likes[i].target != likes[j].target
  }

  /** The like store after one toggle of `t` by `u`: delete the like findOne
      returns, or create one with the new document id. The store grows exactly
      when `u` had not liked `t`, and then keeps every old like in place and
      ends with `{newId, u, t}`; otherwise it keeps exactly the likes whose id
      differs from the found one. */
  function Toggled(likes: seq<Like>, t: Target, u: UserId, newId: Id): (r: seq<Like>)
    ensures |r| > |likes| <==> FindLike(likes, t, u).None?
    ensures FindLike(likes, t, u).None? ==>
      |r| == |likes| + 1 && r[..|likes|] == likes && r[|likes|] == Like(newId, u, t)
    ensures FindLike(likes, t, u).Some? ==>
      var found := likes[FindLike(likes, t, u).value].id;
      DroppedFrom(r, likes) && |r| == |likes| - CountId(likes, found)
      && forall j :: 0 <= j < |r| ==> r[j].id != found
  {
    match FindLike(likes, t, u)
    case Some(i) => DeleteById(likes, likes[i].id)
    case None => likes + [Like(newId, u, t)]
  }

  /** Deleting by the id of the like at `i` removes that like and nothing else. */
  lemma {:induction false} DeleteByIdRemovesIndex(likes: seq<Like>, i: nat)
    requires DistinctIds(likes) && i < |likes|
    ensures DeleteById(likes, likes[i].id) == likes[..i] + likes[i + 1..]
  {
    if i == 0 {
      DeleteByIdAbsent(likes[1..], likes[0].id);
    } else {
      DeleteByIdRemovesIndex(likes[1..], i - 1);
      assert likes[1..][i - 1].id == likes[i].id;
      assert likes[1..][..i - 1] == likes[1..i];
      assert likes[1..][i..] == likes[i + 1..];
      assert likes[..i] == [likes[0]] + likes[1..i];
    }
  }

  lemma {:induction false} DeleteByIdAbsent(likes: seq<Like>, id: Id)
    requires forall j :: 0 <= j < |likes| ==> likes[j].id != id
    ensures DeleteById(likes, id) == likes
  {
    if likes != [] {
      DeleteByIdAbsent(likes[1..], id);
    }
  }

  /** What one toggle does, position by position: it removes exactly the
      matching like, or appends one new like and leaves the others in place. */
  lemma ToggledShape(likes: seq<Like>, t: Target, u: UserId, newId: Id)
    requires DistinctIds(likes)
    ensures FindLike(likes, t, u).Some? ==>
      var i := FindLike(likes, t, u).value;
      Toggled(likes, t, u, newId) == likes[..i] + likes[i + 1..]
    ensures FindLike(likes, t, u).None? ==>
      Toggled(likes, t, u, newId) == likes + [Like(newId, u, t)]
  {
    if FindLike(likes, t, u).Some? {
      DeleteByIdRemovesIndex(likes, FindLike(likes, t, u).value);
    }
  }

  lemma RemoveAtKeepsDistinct(likes: seq<Like>, i: nat)
    requires DistinctIds(likes) && AtMostOnePerKey(likes) && i < |likes|
    ensures DistinctIds(likes[..i] + likes[i + 1..])
    ensures AtMostOnePerKey(likes[..i] + likes[i + 1..])
  {
    var r := likes[..i] + likes[i + 1..];
    forall a, b | 0 <= a < b < |r|
      ensures r[a].id != r[b].id
      ensures r[a].likedBy != r[b].likedBy || r[a].target != r[b].target
    {
      var a' := if a < i then a else a + 1;
      var b' := if b < i then b else b + 1;
      assert r[a] == likes[a'] && r[b] == likes[b'];
    }
  }

  /** Toggling keeps document ids distinct when the new id is fresh. */
  lemma ToggleKeepsDistinctIds(likes: seq<Like>, t: Target, u: UserId, newId: Id)
    requires DistinctIds(likes)
    requires forall j :: 0 <= j < |likes| ==> likes[j].id != newId
    ensures DistinctIds(Toggled(likes, t, u, newId))
  {
    ToggledShape(likes, t, u, newId);
    if FindLike(likes, t, u).Some? {
      var i := FindLike(likes, t, u).value;
      var r := likes[..i] + likes[i + 1..];
      forall a, b | 0 <= a < b < |r| ensures r[a].id != r[b].id {
        var a' := if a < i then a else a + 1;
        var b' := if b < i then b else b + 1;
        assert r[a] == likes[a'] && r[b] == likes[b'];
      }
    }
  }

  /** Sequential toggles preserve "at most one like per (user, kind, id)". */
  lemma ToggleKeepsAtMostOne(likes: seq<Like>, t: Target, u: UserId, newId: Id)
    requires DistinctIds(likes) && AtMostOnePerKey(likes)
    ensures AtMostOnePerKey(Toggled(likes, t, u, newId))
  {
    ToggledShape(likes, t, u, newId);
    if FindLike(likes, t, u).Some? {
      RemoveAtKeepsDistinct(likes, FindLike(likes, t, u).value);
    }
  }

  /** The two-state machine absent <-> present: under the invariant, a toggle
      flips whether (u, t) is liked. */
  lemma ToggleFlips(likes: seq<Like>, t: Target, u: UserId, newId: Id)
    requires DistinctIds(likes) && AtMostOnePerKey(likes)
    ensures FindLike(Toggled(likes, t, u, newId), t, u).Some? <==> FindLike(likes, t, u).None?
  {
    ToggledShape(likes, t, u, newId);
    var r := Toggled(likes, t, u, newId);
    match FindLike(likes, t, u)
    case None =>
      assert Matches(r[|likes|], t, u);
    case Some(i) =>
      var rest := likes[..i] + likes[i + 1..];
      assert r == rest;
      forall j | 0 <= j < |rest| ensures !Matches(rest[j], t, u) {
        var j' := if j < i then j else j + 1;
        assert rest[j] == likes[j'];
      }
  }

  /** Like then unlike: from a state where `u` has not liked `t`, two toggles
      answer "liked" then "unliked" and give back the original store. */
  lemma ToggleTwiceRestores(likes: seq<Like>, t: Target, u: UserId, n1: Id, n2: Id)
    requires DistinctIds(likes)
    requires forall j :: 0 <= j < |likes| ==> likes[j].id != n1
    requires FindLike(likes, t, u).None?
    ensures FindLike(Toggled(likes, t, u, n1), t, u) == Some(|likes|)
    ensures Toggled(Toggled(likes, t, u, n1), t, u, n2) == likes
  {
    var once := Toggled(likes, t, u, n1);
    ToggledShape(likes, t, u, n1);
    assert Matches(once[|likes|], t, u);
    ToggleKeepsDistinctIds(likes, t, u, n1);
    ToggledShape(once, t, u, n2);
    assert once[..|likes|] == likes;
  }

  /** The (user, target) pair each like records. */
  function Keys(likes: seq<Like>): (r: seq<(UserId, Target)>)
    ensures |r| == |likes|
    ensures forall j :: 0 <= j < |likes| ==> r[j] == (likes[j].likedBy, likes[j].target)
  {
    seq(|likes|, j requires 0 <= j < |likes| => (likes[j].likedBy, likes[j].target))
  }

  /** Unlike then like: from a state where `u` has liked `t`, two toggles
      answer "unliked" then "liked"; the store then records the same
      (user, target) pairs as before, the re-created like under a new id. */
  lemma ToggleTwiceFromLiked(likes: seq<Like>, t: Target, u: UserId, n1: Id, n2: Id)
    requires DistinctIds(likes) && AtMostOnePerKey(likes)
    requires FindLike(likes, t, u).Some?
    ensures FindLike(Toggled(likes, t, u, n1), t, u).None?
    ensures multiset(Keys(Toggled(Toggled(likes, t, u, n1), t, u, n2))) == multiset(Keys(likes))
  {
    var i := FindLike(likes, t, u).value;
    ToggleFlips(likes, t, u, n1);
    ToggledShape(likes, t, u, n1);
    var once := likes[..i] + likes[i + 1..];
    RemoveAtKeepsDistinct(likes, i);
    ToggledShape(once, t, u, n2);
    var twice := once + [Like(n2, u, t)];
    var pre, post := likes[..i], likes[i + 1..];
    assert likes == pre + [likes[i]] + post;
    KeysAppend(pre + [likes[i]], post);
    KeysAppend(pre, [likes[i]]);
    KeysAppend(pre + post, [Like(n2, u, t)]);
    KeysAppend(pre, post);
    assert Keys([likes[i]]) == Keys([Like(n2, u, t)]) == [(u, t)];
    assert Keys(likes) == Keys(pre) + [(u, t)] + Keys(post);
    assert Keys(twice) == Keys(pre) + Keys(post) + [(u, t)];
  }

  lemma KeysAppend(a: seq<Like>, b: seq<Like>)
    ensures Keys(a + b) == Keys(a) + Keys(b)
  {
  }

  /** Every other (user, target) filter sees the same likes before and after a
      toggle: a toggle finds, creates or deletes nothing but its own key. */
  lemma ToggleIndependent(likes: seq<Like>, t: Target, u: UserId, newId: Id, t': Target, u': UserId)
    requires DistinctIds(likes)
    requires (t', u') != (t, u)
    ensures MatchesOf(Toggled(likes, t, u, newId), t', u') == MatchesOf(likes, t', u')
  {
    ToggledShape(likes, t, u, newId);
    match FindLike(likes, t, u)
    case None =>
      assert Toggled(likes, t, u, newId) == likes + [Like(newId, u, t)];
      MatchesOfAppend(likes, [Like(newId, u, t)], t', u');
    case Some(i) =>
      assert Toggled(likes, t, u, newId) == likes[..i] + likes[i + 1..];
      assert likes == likes[..i] + [likes[i]] + likes[i + 1..];
      MatchesOfAppend(likes[..i] + [likes[i]], likes[i + 1..], t', u');
      MatchesOfAppend(likes[..i], [likes[i]], t', u');
      MatchesOfAppend(likes[..i], likes[i + 1..], t', u');
  }

  /** Kinds are separate: a comment or tweet toggle on id X never touches a
      video like on X, and likewise for every pair of distinct kinds. */
  lemma OtherKindUntouched(likes: seq<Like>, k: Kind, x: Id, u: UserId, newId: Id, k': Kind, u': UserId)
    requires DistinctIds(likes) && k != k'
    ensures MatchesOf(Toggled(likes, Target(k, x), u, newId), Target(k', x), u')
         == MatchesOf(likes, Target(k', x), u')
  {
    ToggleIndependent(likes, Target(k, x), u, newId, Target(k', x), u');
  }

  lemma {:induction false} MatchesOfAppend(a: seq<Like>, b: seq<Like>, t: Target, u: UserId)
    ensures MatchesOf(a + b, t, u) == MatchesOf(a, t, u) + MatchesOf(b, t, u)
  {
    if a != [] {
      assert (a + b)[1..] == a[1..] + b;
      MatchesOfAppend(a[1..], b, t, u);
    } else {
      assert a + b == b;
    }
  }

  function InvalidIdMessage(k: Kind): string
  {
    match k
    case OnVideo => "The provided video ID is invalid or missing"
    case OnComment => "The provided comment ID is invalid or missing"
    case OnTweet => "The provided tweet ID is invalid or missing"
  }

  function Noun(k: Kind): string
  {
    match k
    case OnVideo => "Video"
    case OnComment => "Comment"
    case OnTweet => "Tweet"
  }

  /** The payload of an unlike: `{isLiked: false}`, but `{likedBy: false}` for tweets. */
  function UnlikedFlag(k: Kind): LikeFlag
  {
    if k == OnTweet then LikedBy(false) else IsLiked(false)
  }

  /** Two valid spellings of one ObjectId toggle the same like: liking under
      one spelling and toggling under another gives back the original store. */
  lemma ToggleAcrossSpellings(likes: seq<Like>, k: Kind, s1: string, s2: string, u: UserId, n1: Id, n2: Id)
    requires ValidId(s1) && ValidId(s2) && DigitValues(s1) == DigitValues(s2)
    requires DistinctIds(likes)
    requires forall j :: 0 <= j < |likes| ==> likes[j].id != n1
    requires FindLike(likes, Target(k, Canonical(s1)), u).None?
    ensures Toggled(Toggled(likes, Target(k, Canonical(s1)), u, n1), Target(k, Canonical(s2)), u, n2) == likes
  {
    SameObjectId(s1, s2);
    ToggleTwiceRestores(likes, Target(k, Canonical(s1)), u, n1, n2);
  }

  /** The Like collection. */
  class LikeStore {
    var likes: seq<Like>

    /** Document ids are distinct, the toggle's invariant holds, and target
        ids are spelled the way ObjectId prints them. */
    ghost predicate Valid()
      reads this
    {
      && DistinctIds(likes) && AtMostOnePerKey(likes)
      && forall j :: 0 <= j < |likes| ==> IsCanonical(likes[j].target.id)
    }

    constructor ()
      ensures Valid() && likes == []
    {
      likes := [];
    }

    /** toggleVideoLike / toggleCommentLike / toggleTweetLike for the
        authenticated `caller`; `newId` is the id the store gives a created like.
        The path id is cast to an ObjectId, so the toggle works on its
        canonical spelling. */
    method Toggle(kind: Kind, targetId: string, caller: UserId, newId: Id) returns (r: Response<LikeFlag>)
      requires Valid()
      requires forall j :: 0 <= j < |likes| ==> likes[j].id != newId
      modifies this
      ensures Valid()
      ensures !ValidId(targetId) ==>
        r == Fail(400, InvalidIdMessage(kind)) && likes == old(likes)
      ensures ValidId(targetId) ==> likes == Toggled(old(likes), Target(kind, Canonical(targetId)), caller, newId)
      ensures ValidId(targetId) && FindLike(old(likes), Target(kind, Canonical(targetId)), caller).Some? ==>
        var i := FindLike(old(likes), Target(kind, Canonical(targetId)), caller).value;
        && likes == old(likes)[..i] + old(likes)[i + 1..]
        && r == Ok(200, UnlikedFlag(kind), Noun(kind) + " unliked successfully")
      ensures ValidId(targetId) && FindLike(old(likes), Target(kind, Canonical(targetId)), caller).None? ==>
        && likes == old(likes) + [Like(newId, caller, Target(kind, Canonical(targetId)))]
        && r == Ok(200, IsLiked(true), Noun(kind) + " liked successfully")
    {
      if !ValidId(targetId) {
        return Fail(400, InvalidIdMessage(kind));
      }
      var target := Target(kind, Canonical(targetId));
      ToggledShape(likes, target, caller, newId);
      ToggleKeepsDistinctIds(likes, target, caller, newId);
      ToggleKeepsAtMostOne(likes, target, caller, newId);
      var existing := FindLike(likes, target, caller);
      if existing.Some? {
        likes := DeleteById(likes, likes[existing.value].id);
        return Ok(200, UnlikedFlag(kind), Noun(kind) + " unliked successfully");
      }
      likes := likes + [Like(newId, caller, target)];
      r := Ok(200, IsLiked(true), Noun(kind) + " liked successfully");
    }
  }
}
