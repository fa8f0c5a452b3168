/**
 * `SuggestedFriends`: the first four profiles other than the user's, and an
 * unguarded friend request to one of them.
 */
module SuggestedFriends {
  import opened Common
  import opened Tables

  /** The panel shows at most this many profiles (`.limit(4)`). */
  const Limit: nat := 4

  /** `.neq('id', user.id).limit(4)`: the first four other profiles, in table order. */
  function Suggestions(profiles: seq<Profile>, userId: Id): (r: seq<Profile>)
    ensures |r| <= Limit
    ensures forall p :: p in r ==> p in profiles && p.id != userId
    ensures |r| < Limit ==> forall p :: p in profiles && p.id != userId ==> p in r
  {
    var others := Filter(profiles, (p: Profile) => p.id != userId);
    var r := Take(others, Limit);
    assert forall p :: p in r ==> p in others by {
      forall p | p in r
        ensures p in others
      {
        var i :| 0 <= i < |r| && r[i] == p;
        assert others[i] == p;
      }
    }
    r
  }

  /**
   * Friends and people already asked are not excluded: with fewer than
   * four other profiles, an existing friend is suggested.
   */
  lemma FriendsAreSuggested(t: Db, userId: Id, f: Friendship, p: Profile)
    requires f in t.friends && f.userId1 == userId && p in t.profiles && p.id == f.userId2 && p.id != userId
    requires |Filter(t.profiles, (x: Profile) => x.id != userId)| < Limit
    ensures p in Suggestions(t.profiles, userId)
  {
  }

  class SuggestedFriends {
    var suggestions: seq<Profile>
    var loading: bool

    constructor ()
      ensures suggestions == [] && loading
    {
      suggestions, loading := [], true;
    }

    /** `fetchSuggestions`: nothing without a user; an error keeps the list; `loading` ends otherwise. */
    method FetchSuggestions(db: Store, user: Option<Account>, queryFails: bool)
      modifies this`suggestions, this`loading
      ensures user.None? ==> suggestions == old(suggestions) && loading == old(loading)
      ensures user.Some? ==> !loading && suggestions == if queryFails then old(suggestions) else Suggestions(db.profiles, user.value.id)
    {
      if user.None? {
        return;
      }
      if !queryFails {
        suggestions := Suggestions(db.profiles, user.value.id);
      }
      loading := false;
    }

    /**
     * `sendFriendRequest(receiverId)`: nothing without a user; otherwise a
     * pending request from the user, whatever already exists between the
     * two, and on success the receiver leaves the list.
     */
    method SendFriendRequest(db: Store, user: Option<Account>, receiverId: Id, newId: Id, insertFails: bool)
      modifies db`friendRequests, this`suggestions
      ensures user.None? || insertFails ==> db.friendRequests == old(db.friendRequests) && suggestions == old(suggestions)
      ensures user.Some? && !insertFails ==>
        && db.friendRequests == old(db.friendRequests) + [NewFriendRequest(newId, user.value.id, receiverId)]
        && (forall p :: p in suggestions <==> p in old(suggestions) && p.id != receiverId)
        && |suggestions| <= |old(suggestions)|
    {
      if user.None? || insertFails {
        return;
      }
      db.friendRequests := db.friendRequests + [NewFriendRequest(newId, user.value.id, receiverId)];
      suggestions := Filter(suggestions, (p: Profile) => p.id != receiverId);
    }
  }
}
