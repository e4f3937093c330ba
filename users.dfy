// The User documents the two read pipelines join with, and the public
// profile projection `{ fullName: 1, username: 1, avatar: 1 }` they apply.

module Users {
  import opened Wrappers
  import opened Validation

  datatype User = User(id: UserId, username: string, email: string, fullName: string,
                       avatar: string, coverImage: string)

  /** A user document after `$project: { fullName: 1, username: 1, avatar: 1 }`,
      which keeps `_id` as MongoDB projections do. */
  datatype Profile = Profile(id: UserId, fullName: string, username: string, avatar: string)

  function ProfileOf(u: User): Profile
  {
    Profile(u.id, u.fullName, u.username, u.avatar)
  }

  /** `$lookup` from users on `_id` with the profile projection as its
      pipeline: the projected profile of every user with that id, in the
      collection's order. */
  function LookupProfiles(users: seq<User>, id: UserId): (r: seq<Profile>)
    ensures |r| <= |users|
    ensures forall u :: u in users && u.id == id ==> ProfileOf(u) in r
    ensures forall p :: p in r ==> exists u :: u in users && u.id == id && p == ProfileOf(u)
  {
    if users == [] then []
    else
      var rest := LookupProfiles(users[1..], id);
      if users[0].id == id then
        [ProfileOf(users[0])] + rest
      else
        rest
  }

  /** The lookup's first element comes from the first user with the id. */
  lemma {:induction false} LookupProfilesHead(users: seq<User>, id: UserId)
    requires LookupProfiles(users, id) != []
    ensures exists i :: && 0 <= i < |users| && users[i].id == id
                        && LookupProfiles(users, id)[0] == ProfileOf(users[i])
                        && forall j :: 0 <= j < i ==> users[j].id != id
  {
    if users[0].id == id {
      assert users[0].id == id && LookupProfiles(users, id)[0] == ProfileOf(users[0]);
    } else {
      var tail := users[1..];
      LookupProfilesHead(tail, id);
      var i :| && 0 <= i < |tail| && tail[i].id == id
               && LookupProfiles(tail, id)[0] == ProfileOf(tail[i])
               && forall j :: 0 <= j < i ==> tail[j].id != id;
      forall j | 0 <= j < i + 1
        ensures users[j].id != id
      {
        if j > 0 {
          assert users[j] == tail[j - 1];
        }
      }
      assert users[i + 1] == tail[i];
    }
  }

  /** `$first` of that lookup: the profile of the first user whose id is
      `id`, or nothing when no user has it. */
  function FirstProfile(users: seq<User>, id: UserId): (r: Option<Profile>)
    ensures r.None? <==> forall j :: 0 <= j < |users| ==> users[j].id != id
    ensures r.Some? ==> exists i :: 0 <= i < |users| && users[i].id == id && r.value == ProfileOf(users[i])
                                   && forall j :: 0 <= j < i ==> users[j].id != id
  {
    var ps := LookupProfiles(users, id);
    if ps == [] then None
    else
      LookupProfilesHead(users, id);
      Some(ps[0])
  }
}
