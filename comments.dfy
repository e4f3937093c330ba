// The Comment collection and the three mutating handlers of
// src/controllers/comment.controller.js: addComment, updateComment and
// deleteComment.

module Comments {
  import opened Wrappers
  import opened Api
  import opened Validation

  datatype Comment = Comment(id: Id, content: string, video: Id, owner: UserId, createdAt: int)

  /** The ownership guard `comment.owner.toString() !== req.user?._id.toString()`,
      negated: the caller is present and is the owner. With no caller the
      right-hand side short-circuits to undefined, which never equals an owner. */
  predicate IsOwner(owner: UserId, caller: Option<UserId>)
  {
    caller == Some(owner)
  }

  /** Steps 2 and 3 shared by updateComment and deleteComment, for an id that
      already passed validation: None lets the mutation proceed, otherwise the
      error to answer with. Absence (404) is decided before ownership (403),
      so the two are never confused. */
  function Authorize<T>(comments: map<Id, Comment>, commentId: Id, caller: Option<UserId>, verb: string)
    : (r: Option<Response<T>>)
    ensures r.None? <==> commentId in comments && IsOwner(comments[commentId].owner, caller)
    ensures commentId !in comments ==> r == Some(Fail(404, "Comment not found"))
    ensures commentId in comments && !IsOwner(comments[commentId].owner, caller) ==>
      r == Some(Fail(403, "Unauthorized! You do not have permission to " + verb + " this comment!"))
    ensures r.Some? ==> r.value.Err?
  {
    if commentId !in comments then Some(Fail(404, "Comment not found"))
    else if !IsOwner(comments[commentId].owner, caller) then
      Some(Fail(403, "Unauthorized! You do not have permission to " + verb + " this comment!"))
    else None
  }

  /** An absent caller is never authorised, whatever the comment. */
  lemma AbsentCallerIsRejected<T>(comments: map<Id, Comment>, commentId: Id, verb: string)
    ensures Authorize<T>(comments, commentId, None, verb).Some?
  {
  }

  /** Every valid spelling of a stored comment's id reaches it: the guard
      answers for the canonical spelling exactly as for the stored key. */
  lemma AnySpellingReachesStored<T>(comments: map<Id, Comment>, key: Id, commentId: string,
                                    caller: Option<UserId>, verb: string)
    requires key in comments && ValidId(key) && IsCanonical(key)
    requires ValidId(commentId) && DigitValues(commentId) == DigitValues(key)
    ensures Authorize<T>(comments, Canonical(commentId), caller, verb)
         == Authorize<T>(comments, key, caller, verb)
  {
    SameObjectId(commentId, key);
  }

  /** The message updateComment passes as ApiError's status argument. */
  const ContentRequiredForUpdate := "Content is required to update a comment"

  /** The Comment collection. */
  class CommentStore {
    var comments: map<Id, Comment>

    /** Every document is stored under its own id, ids are spelled the way
        ObjectId prints them, and no stored content is blank: both handlers
        that write content validate it first. */
    ghost predicate Valid()
      reads this
    {
      forall k :: k in comments ==>
        && comments[k].id == k && IsCanonical(k) && IsCanonical(comments[k].video)
        && !IsBlank(Some(comments[k].content))
    }

    constructor ()
      ensures Valid() && comments == map[]
    {
      comments := map[];
    }

    /** addComment for the authenticated `caller`. `newId` and `now` are the id
        and creation time the store gives the new document; `persisted` is
        false when `Comment.create` yields nothing. The video id is stored as
        the ObjectId it is cast to, in its canonical spelling. */
    method AddComment(videoId: string, content: Option<string>, caller: UserId,
                      newId: Id, now: int, persisted: bool) returns (r: Response<Comment>)
      requires Valid() && newId !in comments && IsCanonical(newId)
      modifies this
      ensures Valid()
      ensures !ValidId(videoId) ==>
        r == Fail(400, "Invalid or missing video ID") && comments == old(comments)
      ensures ValidId(videoId) && IsBlank(content) ==>
        r == Fail(400, "Comment is required") && comments == old(comments)
      ensures ValidId(videoId) && !IsBlank(content) && !persisted ==>
        r == Fail(500, "Failed to add comment") && comments == old(comments)
      ensures ValidId(videoId) && !IsBlank(content) && persisted ==>
        var c := Comment(newId, content.value, Canonical(videoId), caller, now);
        && r == Ok(201, c, "Comment created successfully")
        && comments == old(comments)[newId := c]
    {
      if !ValidId(videoId) {
        return Fail(400, "Invalid or missing video ID");
      }
      if IsBlank(content) {
        return Fail(400, "Comment is required");
      }
      if !persisted {
        return Fail(500, "Failed to add comment");
      }
      var comment := Comment(newId, content.value, Canonical(videoId), caller, now);
      comments := comments[newId := comment];
      r := Ok(201, comment, "Comment created successfully");
    }

    /** updateComment. Checks run in the source's order: id format, content,
        existence, ownership; only a request passing all four changes the store.
        `findById` looks the id up by the ObjectId it is cast to, so any letter
        case reaches the document. */
    method UpdateComment(commentId: string, content: Option<string>, caller: Option<UserId>)
      returns (r: Response<Comment>)
      requires Valid()
      modifies this
      ensures Valid()
      ensures r.Err? ==> comments == old(comments)
      ensures !ValidId(commentId) ==> r == Fail(400, "Invalid or missing comment ID")
      ensures ValidId(commentId) && IsBlank(content) ==>
        r == Err(Text(ContentRequiredForUpdate), None)
      ensures ValidId(commentId) && !IsBlank(content) ==>
        r.Err? == Authorize<Comment>(old(comments), Canonical(commentId), caller, "edit").Some?
      ensures ValidId(commentId) && !IsBlank(content) && r.Err? ==>
        r == Authorize<Comment>(old(comments), Canonical(commentId), caller, "edit").value
      ensures r.Ok? ==>
        && Canonical(commentId) in old(comments)
        && var c := old(comments)[Canonical(commentId)].(content := content.value);
        && r == Ok(200, c, "Comment updated successfully")
        && comments == old(comments)[Canonical(commentId) := c]
    {
      if !ValidId(commentId) {
        return Fail(400, "Invalid or missing comment ID");
      }
      if IsBlank(content) {
        return Err(Text(ContentRequiredForUpdate), None);
      }
      var id := Canonical(commentId);
      var denied := Authorize<Comment>(comments, id, caller, "edit");
      if denied.Some? {
        return denied.value;
      }
      var updated := comments[id].(content := content.value);
      comments := comments[id := updated];
      r := Ok(200, updated, "Comment updated successfully");
    }

    /** deleteComment, looking the id up as updateComment does. Only the
        comment itself is removed: likes that refer to it live in another
        collection and are left in place. */
    method DeleteComment(commentId: string, caller: Option<UserId>) returns (r: Response<()>)
      requires Valid()
      modifies this
      ensures Valid()
      ensures r.Err? ==> comments == old(comments)
      ensures !ValidId(commentId) ==> r == Fail(400, "Invalid or missing comment ID")
      ensures ValidId(commentId) ==>
        r.Err? == Authorize<()>(old(comments), Canonical(commentId), caller, "delete").Some?
      ensures ValidId(commentId) && r.Err? ==>
        r == Authorize<()>(old(comments), Canonical(commentId), caller, "delete").value
      ensures r.Ok? ==>
        && Canonical(commentId) in old(comments)
        && r == Ok(200, (), "Comment deleted successfully")
        && comments == old(comments) - {Canonical(commentId)}
    {
      if !ValidId(commentId) {
        return Fail(400, "Invalid or missing comment ID");
      }
      var id := Canonical(commentId);
      var denied := Authorize<()>(comments, id, caller, "delete");
      if denied.Some? {
        return denied.value;
      }
      comments := comments - {id};
      r := Ok(200, (), "Comment deleted successfully");
    }
  }
}
