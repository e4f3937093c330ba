# Comments, likes and tweets of a video-sharing backend, in Dafny

This project models the social-interaction core of the youtube-alike-js-server
backend. That core is the three Express controllers for comments, likes and
tweets. Each handler reads and writes a MongoDB collection. Here every collection
is in-memory state, and every handler ends in a result envelope
(`Api.Response`): `Ok(status, data, message)` for an `ApiResponse`, or
`Err(status, reason)` for a thrown `ApiError`.

- **Comments** (`comments.dfy`): class `CommentStore` holds the Comment
  collection as a map from id to `{id, content, video, owner, createdAt}`.
  Its methods are `AddComment`, `UpdateComment` and `DeleteComment`. The two
  mutations share the ownership guard `Authorize`. It answers 404 for a
  missing comment and 403 for someone else's comment, checked in that order.
- **Comment feed** (`feed.dfy`, `pagination.dfy`, `users.dfy`):
  `getVideoComments` is a pure pipeline, with one function per aggregation
  stage. `MatchVideo` filters by video. `FirstProfile` joins the commenter's
  profile and `LikesOn` joins the likes. `Join` derives `likesCount` and
  `isLiked`. `SortByDate` sorts oldest first and `Project` drops the raw likes.
  `Paginate` pages the result. Each entry is checked against the independent
  reference `ItemOf`.
- **Likes** (`likes.dfy`): class `LikeStore` holds the Like collection as a
  sequence. `Toggle` is the one toggle handler, parameterised by the target
  kind (video, comment or tweet). It is specified by the function `Toggled`.
  The toggle's invariant (at most one like per user, kind and id), the
  toggle-twice laws and the independence of kinds are lemmas about `Toggled`.
- **Liked videos** (`liked_videos.dfy`): `getLikedVideos` is a pure pipeline
  (filter, two lookups, two unwinds, replaceRoot).
- **Tweets** (`tweets.dfy`): class `TweetStore` with `CreateTweet`.
- **Shared** (`common.dfy`): the response envelope, mongoose's
  `isValidObjectId` as `ValidId`, the ObjectId cast as `Canonical`, and
  JavaScript's `trim` as `Trim` (`TrimStart` then `TrimEnd`).

Path ids are handled the way mongoose handles them. The handler casts each
one to an ObjectId, and the cast ignores the letter case of the hex digits.
So the model looks every path id up, and stores it, under its canonical
spelling (`Validation.Canonical`): lower-case, the way `ObjectId.toString`
prints it. The stores keep every id in that spelling.

Values outside the program's control are parameters: the store's new
document ids, the creation time, the caller's identity, and whether the
store's `create` returned a document. The handlers are sequential and atomic.

Behaviour of the source kept as written:
- `updateComment` with blank content passes the message as ApiError's status
  argument, so its status is the string, not 400
  (`Err(Text("Content is required to update a comment"), None)`).
- Unliking a tweet answers `{likedBy: false}`; the other two kinds answer
  `{isLiked: false}` (`Likes.UnlikedFlag`).
- Content is validated with `trim` but stored untrimmed.
- Neither `addComment` nor a toggle checks that its target exists.
- Deleting a comment leaves the likes on it in place: `DeleteComment` modifies
  only the comment store.

`aggregatePaginate` comes from a plugin whose code is not part of this model.
The model assumes it skips `(page - 1) * limit` documents, takes the next
`limit`, and reports `totalPages = ceil(totalDocs / limit)`.

## Model

| member | source | states |
|---|---|---|
| Validation.TrimStart | src/controllers/comment.controller.js:26 | the result is the suffix of the input left after dropping its leading white space; it is empty or starts with a non-white-space character |
| Validation.TrimEnd | src/controllers/comment.controller.js:26 | the result is the prefix of the input left after dropping its trailing white space; it is empty or ends with a non-white-space character |
| Validation.TrimBothEnds | src/controllers/comment.controller.js:26 | trimming both ends leaves nothing exactly when every character is white space, and otherwise leaves a non-white-space first character |
| Validation.Trim | src/controllers/comment.controller.js:26 | `trim` returns the empty string exactly when the input is white space only; otherwise its result starts and ends with a non-white-space character |
| Validation.IsBlank | src/controllers/comment.controller.js:26-28 | `!content \|\| content.trim() === ''` holds exactly when the field is missing or every character is white space (the empty string included) |
| Validation.Canonical | src/controllers/comment.controller.js:206 | the canonical spelling has no upper-case letter, is unchanged for a spelling that has none, and for a valid id stays valid and keeps every hex digit's value |
| Validation.SameObjectId | src/controllers/comment.controller.js:206 | two valid spellings are cast to the same ObjectId (same digit values) exactly when their canonical spellings are equal |
| Users.LookupProfiles | src/controllers/comment.controller.js:212-228 | the user lookup yields the projected profile of every user with the id and nothing else |
| Users.LookupProfilesHead | src/controllers/comment.controller.js:212-228 | a non-empty lookup starts with the profile of the first user in collection order who has the id |
| Users.FirstProfile | src/controllers/comment.controller.js:246-248 | `$first` of that lookup is absent exactly when no user has the owner's id, else the profile of the first user who has it |
| Comments.Authorize | src/controllers/comment.controller.js:85-96 | the mutation may proceed exactly when the comment exists and the caller is its owner; a missing comment gives 404, and someone else's comment gives 403 |
| Comments.AbsentCallerIsRejected | src/controllers/comment.controller.js:154 | with no caller (`req.user?._id` undefined) the guard always rejects |
| Comments.AnySpellingReachesStored | src/controllers/comment.controller.js:85-89 | for any valid spelling of a stored comment's id, whatever its letter case, the guard answers exactly as for the stored key |
| Comments.CommentStore.AddComment | src/controllers/comment.controller.js:10-57 | invalid video id gives 400; blank content gives 400; a create that yields nothing gives 500; every failure leaves the store unchanged; otherwise exactly one comment is added under the new id, with the content as sent, the video id in canonical spelling and the caller as owner, and 201 returns it |
| Comments.CommentStore.UpdateComment | src/controllers/comment.controller.js:61-122 | the checks run in order: id format (400), blank content (status is the message string), existence (404), ownership (403), the last two on the id's canonical spelling; a failure changes nothing; success replaces only `content`, keeps owner, video and the other comments, and returns the updated record with 200 |
| Comments.CommentStore.DeleteComment | src/controllers/comment.controller.js:126-172 | id format (400), existence (404), ownership (403) in order, the last two on the id's canonical spelling, each leaving the store unchanged; success removes exactly that comment and returns 200 with an empty payload; the like store is outside its frame |
| Likes.FindLike | src/controllers/like.controller.js:29-32 | `findOne` gives the first like with that target and `likedBy`, or nothing exactly when no like matches |
| Likes.DeleteById | src/controllers/like.controller.js:40 | `findByIdAndDelete` only deletes: the result is the store with likes dropped and the rest in their order, no like with that id survives, and exactly as many likes are dropped as carry that id; with distinct ids that is one like (`DeleteByIdRemovesIndex`) |
| Likes.Toggled | src/controllers/like.controller.js:29-54 | the store grows exactly when the user had not liked the target, and then keeps every old like in place and ends with `{newId, user, target}`; otherwise it only deletes, dropping exactly the likes that carry the found like's id, the rest in order; the position-by-position shape is `ToggledShape` |
| Likes.DeleteByIdRemovesIndex | src/controllers/like.controller.js:40 | with distinct document ids, `findByIdAndDelete` of the found like's id removes that like and no other |
| Likes.ToggledShape | src/controllers/like.controller.js:39-54 | a toggle either removes exactly the matching like, keeping the others in order, or appends one like `{newId, caller, target}` after the unchanged existing ones |
| Likes.ToggleKeepsDistinctIds | src/controllers/like.controller.js:51-54 | a toggle with a fresh id keeps document ids distinct |
| Likes.ToggleKeepsAtMostOne | src/controllers/like.controller.js:29-62 | sequential toggles preserve "at most one like per (user, kind, id)" |
| Likes.ToggleFlips | src/controllers/like.controller.js:29-62 | under that invariant a toggle moves (user, target) from absent to present or from present to absent |
| Likes.ToggleTwiceRestores | src/controllers/like.controller.js:29-62 | from "not liked", the first toggle creates a like the second one finds, and the second toggle restores the original store exactly |
| Likes.ToggleTwiceFromLiked | src/controllers/like.controller.js:29-62 | from "liked", the first toggle leaves no match, and after the second the store records the same multiset of (user, target) pairs as before |
| Likes.ToggleIndependent | src/controllers/like.controller.js:29-32 | for every other (target, user) filter, a toggle leaves the matching likes exactly as they were |
| Likes.OtherKindUntouched | src/controllers/like.controller.js:88-91 | a toggle of one kind on id X never changes the likes of another kind on X, because each handler filters on its own field |
| Likes.ToggleAcrossSpellings | src/controllers/like.controller.js:29-32 | liking under one spelling of an id and toggling under another spelling of the same ObjectId gives back the original store |
| Likes.LikeStore.Toggle | src/controllers/like.controller.js:10-178 | an invalid id gives 400 with the kind's message and no change; otherwise the store becomes `Toggled(old)` on the id's canonical spelling; a found like is deleted and the answer is 200 with `{isLiked: false}` (`{likedBy: false}` for tweets); otherwise one like is appended and the answer is 200 with `{isLiked: true}`; invariants kept |
| Pagination.PageCount | src/controllers/comment.controller.js:287-292 | the page count is the least n with n * limit >= total (ceil) |
| Pagination.Window | src/controllers/comment.controller.js:287-292 | the window holds the items at positions lo, lo+1, ..., at most n of them, fewer only at the end of the result |
| Pagination.Paginate | src/controllers/comment.controller.js:287-292 | page p of size l holds the items at positions (p-1)*l up to p*l, at most l of them, and reports the total and ceil(total / l) pages |
| Pagination.PageNonEmptyIffInRange | src/controllers/comment.controller.js:287-292 | a page has items exactly when its number is at most the page count |
| Pagination.PagesUpToIsPrefix | src/controllers/comment.controller.js:287-292 | pages 1..k read in turn are the first k * l items in order, so no item is skipped or shown twice |
| Pagination.AllPagesCoverResult | src/controllers/comment.controller.js:287-292 | all pages together are exactly the whole sorted result |
| Pagination.FifteenByTen | src/controllers/comment.controller.js:287-292 | with 15 results and limit 10, page 1 holds 10, page 2 the last 5, and there are 2 pages |
| CommentFeed.MatchVideo | src/controllers/comment.controller.js:204-208 | `$match` keeps every comment on the video as often as it occurs and no comment on another video |
| CommentFeed.MatchVideoMembers | src/controllers/comment.controller.js:204-208 | a comment passes the match exactly when it is stored and is on that video |
| CommentFeed.LikesOn | src/controllers/comment.controller.js:232-239 | the like lookup holds exactly the likes whose `comment` field is the comment's id |
| CommentFeed.LikesOnCount | src/controllers/comment.controller.js:251-253 | `$size` of that array is the number of likes in the collection that point at the comment |
| CommentFeed.Join | src/controllers/comment.controller.js:212-265 | the joined document's commenter is the first user with the owner's id, `likesCount` is the number of likes in the collection on the comment, and `isLiked` holds exactly when a viewer is present and wrote one of them |
| CommentFeed.JoinAll | src/controllers/comment.controller.js:212-265 | position by position, each joined document projects to its comment's reference entry `ItemOf` |
| CommentFeed.InsertByDate | src/controllers/comment.controller.js:269-273 | inserting into an oldest-first sequence keeps it oldest first and adds exactly that one document |
| CommentFeed.SortByDate | src/controllers/comment.controller.js:269-273 | `$sort: {createdAt: 1}` yields an oldest-first permutation of its input |
| CommentFeed.Project | src/controllers/comment.controller.js:277-281 | `$project: {likes: 0}` keeps order and every field but the raw likes, which the entry type no longer has |
| CommentFeed.Feed | src/controllers/comment.controller.js:202-283 | the aggregation yields one entry per comment on the video, ordered by ascending `createdAt`; which entries is `FeedIsSortedPermutation` |
| CommentFeed.JoinIsItemOf | src/controllers/comment.controller.js:243-265 | the entry's commenter is the first matching user's profile, `likesCount` is the number of likes on the comment, and `isLiked` holds exactly when a viewer is present and one of those likes is theirs |
| CommentFeed.JoinAllIsItemsOf | src/controllers/comment.controller.js:212-265 | joining and projecting a sequence of comments gives their reference entries, in the same order |
| CommentFeed.ProjectKeepsPermutation | src/controllers/comment.controller.js:269-281 | projecting two orderings of the same joined documents gives two orderings of the same entries |
| CommentFeed.FeedIsSortedPermutation | src/controllers/comment.controller.js:202-283 | the aggregation's output is ordered by ascending `createdAt`, and as a multiset it is exactly the reference entries of the video's comments |
| CommentFeed.FeedMembers | src/controllers/comment.controller.js:202-283 | an entry appears exactly when it is the reference entry of some stored comment on the video |
| CommentFeed.TwoCommentExample | src/controllers/comment.controller.js:202-283 | two comments stored newer first, with the viewer's like on the older: the feed lists the older (1 like, isLiked) then the newer (0 likes, not liked) |
| CommentFeed.GetVideoComments | src/controllers/comment.controller.js:176-304 | an invalid video id gives 400; otherwise 200 with the page (default 1) of the given size (default 10) of the feed for the id's canonical spelling, at most `limit` entries, `totalDocs` the number of comments on the video |
| LikedVideos.WithOwner | src/controllers/like.controller.js:215-235 | the owner `$unwind` emits one copy of the video per matched owner profile, in order |
| LikedVideos.WithOwnerExactly | src/controllers/like.controller.js:215-235 | those copies are exactly the video with its owner replaced by the profile of a user with the owner's id; none when no such user exists |
| LikedVideos.LookupVideo | src/controllers/like.controller.js:205-245 | every document the video lookup and `$unwind` emit for a liked id is a video with that id; exactly which is `LookupVideoExactly` |
| LikedVideos.LookupVideoExactly | src/controllers/like.controller.js:205-245 | the video lookup and `$unwind` yield exactly the stored videos with the liked id whose owner exists, each with the owner's profile |
| LikedVideos.Pipeline | src/controllers/like.controller.js:193-255 | every document the aggregation emits comes from a video like of the caller; exactly which is `PipelineExactly` |
| LikedVideos.PipelineExactly | src/controllers/like.controller.js:193-255 | a document is in the output exactly when some like by the caller points at that video id, the video exists and its owner exists |
| LikedVideos.GetLikedVideos | src/controllers/like.controller.js:182-267 | always 200; every returned video is liked by the caller, exists and carries its owner's profile, and every such (like, video, owner) combination is returned |
| LikedVideos.DanglingLikesDropped | src/controllers/like.controller.js:233-245 | a like whose video is missing, or whose video's owner is missing, yields no document for that video id |
| Tweets.TweetStore.CreateTweet | src/controllers/tweet.controller.js:10-51 | blank content gives 400 and a create that yields nothing gives 500, both with the store unchanged; there is no id validation; otherwise exactly one tweet is added with the content as sent (untrimmed) and the caller as owner, and 201 returns it |

## Left out

- Validation.ValidId: mongoose's `isValidObjectId` is taken as "24 hexadecimal digits", in either letter case. Mongoose also accepts any 12-character string and ObjectId instances; those spellings are not modelled.
- Comments.CommentStore.AddComment: requires the store's new id to be in canonical spelling, as every id the store generates is.
- CommentFeed.GetVideoComments, LikedVideos.GetLikedVideos: the collections are passed as sequences in the collection's natural order. For comments and likes these are the documents of `CommentStore.comments` and `LikeStore.likes`. The model does not fix the order of a map's values, so no lemma ties a store's state to a particular sequence.
- Comments.IsOwner: a stored comment always has an owner here. In the source, a comment stored without an owner would make `comment.owner.toString()` throw a TypeError.
- Comments.CommentStore.AddComment, Tweets.TweetStore.CreateTweet, Likes.LikeStore.Toggle: the caller is an authenticated user id. Every route applies `verifyJWT`, so the undefined `req.user?._id` case is not modelled here. For likes, the like routes are not part of this model.
- LikedVideos.GetLikedVideos: takes a present caller. With no user, `createFromHexString(req.user?._id.toString())` throws, and that exception is not modelled.
- CommentFeed.GetVideoComments: requires `page` and `limit` to be at least 1 when given. `parseInt` of a non-numeric query gives NaN, and the paging plugin's handling of that, or of zero and negative values, is not part of this model. The plugin's metadata beyond docs, totalDocs, limit, page and totalPages is also left out.
- CommentFeed.SortByDate: MongoDB's `$sort` promises no order among comments with equal `createdAt`. The model keeps their stored order.
- CommentFeed.ViewerIn: an absent viewer is treated as liking nothing. MongoDB's `$in` with an undefined operand is not modelled further.
- A request body `content` that is present but not a string (where `trim` would throw) is not modelled. Content is `Option<string>`.
- `updatedAt` timestamps, and `createdAt` on tweets and likes, are not modelled. No handler reads them.
- ApiError's default message is not part of this model: an `Err` whose reason is `None` stands for it. `asyncHandler`, `ApiResponse` and the HTTP `res` plumbing become the `Response` value. `console.log` is dropped.
- The race between `findOne` and `create`/`findByIdAndDelete` in the toggles is a concurrency concern. Each handler runs atomically here.
- Express routing and JWT wiring (src/routes), the Cloudinary upload (src/utils/cloudinary.js), the database bootstrap (src/index.js) and the constants (src/constants.js) are not part of this model. The tweet routes also import `updateTweet`, `deleteTweet` and `getUserTweets`, which tweet.controller.js does not export.
