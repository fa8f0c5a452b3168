/**
 * `FriendRequests` (the friends page): lists the senders of the user's
 * pending received requests and accepts or rejects every request from one
 * sender, by status alone.
 */
module FriendRequestsPage {
  import opened Common
  import opened Tables

  /** A pending request addressed to `userId`. */
  predicate Pending(q: FriendRequest, userId: Id)
  {
    q.receiverId == userId && q.status == FriendPending
  }

  /**
   * The listed senders: the profiles of the senders of the user's pending
   * received requests (`rows`), one entry per request, in table order.
   */
  function Senders(profiles: seq<Profile>, rows: seq<FriendRequest>, userId: Id): (r: seq<Profile>)
    ensures forall p :: p in r ==> p in profiles && exists q :: q in rows && Pending(q, userId) && q.senderId == p.id
    ensures forall q :: q in rows && Pending(q, userId) && ProfileWithId(profiles, q.senderId).Some? ==>
      ProfileWithId(profiles, q.senderId).value in r
  {
    if rows == [] then []
    else
      var q := rows[0];
      var rest := Senders(profiles, rows[1..], userId);
      assert forall x :: x in rows <==> x == q || x in rows[1..] by {
        assert rows == [q] + rows[1..];
      }
      match ProfileWithId(profiles, q.senderId)
      case Some(p) => if Pending(q, userId) then [p] + rest else rest
      case None => rest
  }

  class FriendRequestsPage {
    var requests: seq<Profile>
    var loading: bool

    constructor ()
      ensures requests == [] && loading
    {
      requests, loading := [], true;
    }

    /** The mount effect's `fetchRequests`: nothing without a user; an error keeps the list. */
    method FetchRequests(db: Store, user: Option<Account>, queryFails: bool)
      modifies this`requests, this`loading
      ensures user.None? ==> requests == old(requests) && loading == old(loading)
      ensures user.Some? ==> !loading && requests == if queryFails then old(requests) else Senders(db.profiles, db.friendRequests, user.value.id)
    {
      if user.None? {
        return;
      }
      if !queryFails {
        requests := Senders(db.profiles, db.friendRequests, user.value.id);
      }
      loading := false;
    }

    /**
     * `handleRequest(senderId, status)` for the signed-in `userId`, with
     * `accepted` for `status === 'accepted'`. Every request from that sender
     * to the user takes the status, no friend edge is written, and on
     * success that sender's entries leave the list.
     */
    method HandleRequest(db: Store, userId: Id, senderId: Id, accepted: bool, updateFails: bool)
      modifies db`friendRequests, this`requests
      ensures db.friendRequests == if updateFails then old(db.friendRequests)
        else SetFriendStatusFrom(old(db.friendRequests), senderId, userId, if accepted then FriendAccepted else FriendRejected)
      ensures updateFails ==> requests == old(requests)
      ensures !updateFails ==> forall p :: p in requests <==> p in old(requests) && p.id != senderId
      ensures |requests| <= |old(requests)|
    {
      if updateFails {
        return;
      }
      db.friendRequests := SetFriendStatusFrom(db.friendRequests, senderId, userId, if accepted then FriendAccepted else FriendRejected);
      requests := Filter(requests, (p: Profile) => p.id != senderId);
    }
  }

  /**
   * After a successful decision, reloading lists no entry for that sender:
   * none of their requests to the user is pending any more.
   */
  lemma DecidedSenderNotRelisted(t: Db, userId: Id, senderId: Id, accepted: bool)
    ensures var t1 := t.(friendRequests := SetFriendStatusFrom(t.friendRequests, senderId, userId,
                                                              if accepted then FriendAccepted else FriendRejected));
      forall p :: p in Senders(t1.profiles, t1.friendRequests, userId) ==> p.id != senderId
  {
    var t1 := t.(friendRequests := SetFriendStatusFrom(t.friendRequests, senderId, userId,
                                                      if accepted then FriendAccepted else FriendRejected));
    forall p | p in Senders(t1.profiles, t1.friendRequests, userId)
      ensures p.id != senderId
    {
      var q :| q in t1.friendRequests && Pending(q, userId) && q.senderId == p.id;
      var i :| 0 <= i < |t1.friendRequests| && t1.friendRequests[i] == q;
      assert q.senderId != senderId;
    }
  }
}
