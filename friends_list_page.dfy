/**
 * `FriendsList` (the friends page): the profiles at the other end of the
 * user's edges, and removal of the edge to one friend in both orientations.
 */
module FriendsListPage {
  import opened Common
  import opened Tables

  /** `friendship.user_id1 === user.id ? friendship.user_id2 : friendship.user_id1`. */
  function OtherEnd(f: Friendship, userId: Id): (id: Id)
    ensures Involves(f, userId) ==> Connects(f, userId, id)
    ensures f.userId1 != userId ==> id == f.userId1
  {
    if f.userId1 == userId then f.userId2 else f.userId1
  }

  /** `friendIds`: one entry per edge, the end that is not the user. */
  function FriendIds(fs: seq<Friendship>, userId: Id): (r: seq<Id>)
    ensures |r| == |fs|
    ensures forall i :: 0 <= i < |fs| ==> Involves(fs[i], userId) ==> Connects(fs[i], userId, r[i])
  {
    Map(fs, (f: Friendship) => OtherEnd(f, userId))
  }

  /** `.or('user_id1.eq.u,user_id2.eq.u')`: the user's edges, in table order. */
  function EdgesOf(fs: seq<Friendship>, userId: Id): (r: seq<Friendship>)
    ensures forall f :: f in r <==> f in fs && Involves(f, userId)
  {
    Filter(fs, (f: Friendship) => Involves(f, userId))
  }

  /** `.in('id', friendIds)`: the profiles with one of the ids, in table order. */
  function ProfilesIn(profiles: seq<Profile>, ids: seq<Id>): (r: seq<Profile>)
    ensures forall p :: p in r <==> p in profiles && p.id in ids
  {
    Filter(profiles, (p: Profile) => p.id in ids)
  }

  /** Every listed id is joined to the user by an edge; every edge of the user yields one. */
  lemma FriendIdsAreFriends(fs: seq<Friendship>, userId: Id)
    ensures forall id :: id in FriendIds(EdgesOf(fs, userId), userId) <==>
      exists f :: f in fs && Connects(f, userId, id)
  {
    var es := EdgesOf(fs, userId);
    var ids := FriendIds(es, userId);
    forall id | id in ids
      ensures exists f :: f in fs && Connects(f, userId, id)
    {
      var i :| 0 <= i < |ids| && ids[i] == id;
      assert es[i] in es;
    }
    forall id | exists f :: f in fs && Connects(f, userId, id)
      ensures id in ids
    {
      var f :| f in fs && Connects(f, userId, id);
      var i :| 0 <= i < |es| && es[i] == f;
      assert ids[i] == id;
    }
  }

  /** Once the edge in both orientations is gone, a reload no longer lists that friend. */
  lemma RemovedFriendNotReloaded(fs: seq<Friendship>, userId: Id, friendId: Id)
    requires friendId != userId
    ensures friendId !in FriendIds(EdgesOf(WithoutFriendship(fs, userId, friendId), userId), userId)
  {
    FriendIdsAreFriends(WithoutFriendship(fs, userId, friendId), userId);
  }

  class FriendsListPage {
    var friends: seq<Profile>
    var loading: bool

    constructor ()
      ensures friends == [] && loading
    {
      friends, loading := [], true;
    }

    /**
     * The mount effect's `fetchFriends`: nothing without a user. With no
     * edge the profile read is skipped and the list stays as it was; an
     * error in either read keeps it too.
     */
    method FetchFriends(db: Store, user: Option<Account>, edgesFail: bool, profilesFail: bool)
      modifies this`friends, this`loading
      ensures user.None? ==> friends == old(friends) && loading == old(loading)
      ensures user.Some? ==>
        var ids := FriendIds(EdgesOf(db.friends, user.value.id), user.value.id);
        && !loading
        && friends == if edgesFail || ids == [] || profilesFail then old(friends) else ProfilesIn(db.profiles, ids)
    {
      if user.None? {
        return;
      }
      if !edgesFail {
        var ids := FriendIds(EdgesOf(db.friends, user.value.id), user.value.id);
        if |ids| > 0 && !profilesFail {
          friends := ProfilesIn(db.profiles, ids);
        }
      }
      loading := false;
    }

    /**
     * `handleRemoveFriend(friendId)` for the signed-in `userId`: the edge
     * goes in both orientations and, on success, exactly that friend leaves
     * the list.
     */
    method HandleRemoveFriend(db: Store, userId: Id, friendId: Id, deleteFails: bool)
      modifies db`friends, this`friends
      ensures deleteFails ==> db.friends == old(db.friends) && friends == old(friends)
      ensures !deleteFails ==>
        && db.friends == WithoutFriendship(old(db.friends), userId, friendId)
        && (forall f :: f in db.friends ==> !Connects(f, userId, friendId))
        && (forall p :: p in friends <==> p in old(friends) && p.id != friendId)
    {
      if deleteFails {
        return;
      }
      db.friends := WithoutFriendship(db.friends, userId, friendId);
      friends := Filter(friends, (p: Profile) => p.id != friendId);
    }
  }
}
