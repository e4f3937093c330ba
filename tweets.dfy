// The Tweet collection and createTweet of src/controllers/tweet.controller.js,
// the only handler that file exports.

module Tweets {
  import opened Wrappers
  import opened Api
  import opened Validation

  datatype Tweet = Tweet(id: Id, content: string, owner: UserId)

  /** The Tweet collection. */
  class TweetStore {
    var tweets: map<Id, Tweet>

    /** Every document is stored under its own id, and no stored content is
        blank. */
    ghost predicate Valid()
      reads this
    {
      forall k :: k in tweets ==> tweets[k].id == k && !IsBlank(Some(tweets[k].content))
    }

    constructor ()
      ensures Valid() && tweets == map[]
    {
      tweets := map[];
    }

    /** createTweet for the authenticated `caller`. There is no path id, so
        nothing but the content is validated. `newId` is the id the store
        gives the new document; `persisted` is false when `Tweet.create`
        yields nothing. The content is stored as sent, untrimmed. */
    method CreateTweet(content: Option<string>, caller: UserId, newId: Id, persisted: bool)
      returns (r: Response<Tweet>)
      requires Valid() && newId !in tweets
      modifies this
      ensures Valid()
      ensures IsBlank(content) ==>
        r == Fail(400, "Tweet content is required") && tweets == old(tweets)
      ensures !IsBlank(content) && !persisted ==>
        r == Fail(500, "Failed to add tweet") && tweets == old(tweets)
      ensures !IsBlank(content) && persisted ==>
        var t := Tweet(newId, content.value, caller);
        && r == Ok(201, t, "Tweet created successfully")
        && tweets == old(tweets)[newId := t]
    {
      if IsBlank(content) {
        return Fail(400, "Tweet content is required");
      }
      if !persisted {
        return Fail(500, "Failed to add tweet");
      }
      var tweet := Tweet(newId, content.value, caller);
      tweets := tweets[newId := tweet];
      r := Ok(201, tweet, "Tweet created successfully");
    }
  }
}
