/**
 * `FriendRequests` (the friends panel): lists the user's pending received
 * and sent requests, and accepts or rejects a received one: the status
 * first, then, for an acceptance, the friend edge, then a refetch.
 */
module FriendRequests {
  import opened Common
  import opened Tables

  /** A pending request addressed to `userId` (`.eq('receiver_id', user.id).eq('status', 'pending')`). */
  predicate ReceivedBy(q: FriendRequest, userId: Id)
  {
    q.receiverId == userId && q.status == FriendPending
  }

  /** A pending request sent by `userId`. */
  predicate SentBy(q: FriendRequest, userId: Id)
  {
    q.senderId == userId && q.status == FriendPending
  }

  /** The received list: the pending requests addressed to the user, in table order. */
  function Received(rows: seq<FriendRequest>, userId: Id): (r: seq<FriendRequest>)
    ensures forall q :: q in r <==> q in rows && ReceivedBy(q, userId)
  {
    Filter(rows, (q: FriendRequest) => ReceivedBy(q, userId))
  }

  /** The sent list: the pending requests from the user, in table order. */
  function Sent(rows: seq<FriendRequest>, userId: Id): (r: seq<FriendRequest>)
    ensures forall q :: q in r <==> q in rows && SentBy(q, userId)
  {
    Filter(rows, (q: FriendRequest) => SentBy(q, userId))
  }

  /** The status that `status === 'accepted'` or `'rejected'` writes. */
  function FriendDecision(accepted: bool): (s: FriendStatus)
    ensures s == FriendAccepted <==> accepted
    ensures s != FriendPending
  {
    if accepted then FriendAccepted else FriendRejected
  }

  /** `receivedRequests.find(r => r.id === requestId)`. */
  function RequestWithId(requests: seq<FriendRequest>, requestId: Id): (r: Option<FriendRequest>)
    ensures r.Some? ==> r.value in requests && r.value.id == requestId
    ensures r.None? <==> forall q :: q in requests ==> q.id != requestId
  {
    Find(requests, (q: FriendRequest) => q.id == requestId)
  }

  /** Which awaited step of `handleRequest` reports an error; each one throws. */
  datatype Failure = NoFailure | UpdateStatus | InsertFriend

  /** The tables after `handleRequest`, and whether it refetches and calls `onUpdate`. */
  datatype Outcome = Outcome(tables: Db, refreshes: bool)

  function Handled(t: Db, received: seq<FriendRequest>, requestId: Id, accepted: bool, failing: Failure): (o: Outcome)
    ensures o.tables.(friendRequests := t.friendRequests, friends := t.friends) == t
  {
    match RequestWithId(received, requestId)
    case None => Outcome(t, false)
    case Some(q) =>
      if failing == UpdateStatus then Outcome(t, false)
      else
        var t1 := t.(friendRequests := SetFriendStatus(t.friendRequests, requestId, FriendDecision(accepted)));
        if !accepted then Outcome(t1, true)
        else if failing == InsertFriend then Outcome(t1, false)
        else Outcome(t1.(friends := t.friends + [Friendship(q.senderId, q.receiverId)]), true)
  }

  /**
   * An id outside the received list, or a failed status update, changes
   * nothing. Otherwise every row with that id takes the decision. An edge
   * is added only for a successful acceptance: exactly one, from the
   * request's sender to its receiver; a rejection adds none. The refetch
   * and `onUpdate` follow exactly when no step failed.
   */
  lemma HandledEffects(t: Db, received: seq<FriendRequest>, requestId: Id, accepted: bool, failing: Failure, o: Outcome)
    requires o == Handled(t, received, requestId, accepted, failing)
    ensures RequestWithId(received, requestId).None? || failing == UpdateStatus ==> o.tables == t && !o.refreshes
    ensures RequestWithId(received, requestId).Some? && failing != UpdateStatus ==>
      o.tables.friendRequests == SetFriendStatus(t.friendRequests, requestId, FriendDecision(accepted))
    ensures !accepted ==> o.tables.friends == t.friends
    ensures o.tables.friends != t.friends <==> accepted && failing == NoFailure && RequestWithId(received, requestId).Some?
    ensures o.tables.friends != t.friends ==>
      var q := RequestWithId(received, requestId).value;
      o.tables.friends == t.friends + [Friendship(q.senderId, q.receiverId)]
    ensures o.refreshes <==> RequestWithId(received, requestId).Some? && (failing == NoFailure || (!accepted && failing == InsertFriend))
  {
    if accepted && failing == NoFailure && RequestWithId(received, requestId).Some? {
      assert |o.tables.friends| == |t.friends| + 1;
    }
  }

  /** Once its status is written, a request is in neither pending list of anybody. */
  lemma HandledLeavesLists(t: Db, received: seq<FriendRequest>, requestId: Id, accepted: bool, failing: Failure, userId: Id)
    requires RequestWithId(received, requestId).Some? && failing != UpdateStatus
    ensures var rows := Handled(t, received, requestId, accepted, failing).tables.friendRequests;
      && (forall q :: q in Received(rows, userId) ==> q.id != requestId)
      && (forall q :: q in Sent(rows, userId) ==> q.id != requestId)
  {
    var rows := Handled(t, received, requestId, accepted, failing).tables.friendRequests;
    assert rows == SetFriendStatus(t.friendRequests, requestId, FriendDecision(accepted));
    forall q | q in rows
      ensures q.id == requestId ==> q.status != FriendPending
    {
      var i :| 0 <= i < |rows| && rows[i] == q;
      assert rows[i].(status := t.friendRequests[i].status) == t.friendRequests[i];
    }
  }

  class FriendRequests {
    var receivedRequests: seq<FriendRequest>
    var sentRequests: seq<FriendRequest>
    var loading: bool

    constructor ()
      ensures receivedRequests == [] && sentRequests == [] && loading
    {
      receivedRequests, sentRequests, loading := [], [], true;
    }

    /**
     * `fetchRequests`: nothing without a user; an error in the first query
     * skips the second; `loading` ends once a user is present.
     */
    method FetchRequests(db: Store, user: Option<Account>, receivedFails: bool, sentFails: bool)
      modifies this`receivedRequests, this`sentRequests, this`loading
      ensures user.None? ==>
        receivedRequests == old(receivedRequests) && sentRequests == old(sentRequests) && loading == old(loading)
      ensures user.Some? ==>
        && !loading
        && receivedRequests == (if receivedFails then old(receivedRequests) else Received(db.friendRequests, user.value.id))
        && sentRequests == (if receivedFails || sentFails then old(sentRequests) else Sent(db.friendRequests, user.value.id))
    {
      if user.None? {
        return;
      }
      if !receivedFails {
        receivedRequests := Received(db.friendRequests, user.value.id);
        if !sentFails {
          sentRequests := Sent(db.friendRequests, user.value.id);
        }
      }
      loading := false;
    }

    /**
     * `handleRequest`, with `accepted` for `status === 'accepted'`; returns
     * whether `onUpdate` is called. The refetch sees the tables as left by
     * the handler.
     */
    method HandleRequest(db: Store, user: Option<Account>, requestId: Id, accepted: bool, failing: Failure,
                         receivedFails: bool, sentFails: bool)
      returns (updated: bool)
      modifies db`friendRequests, db`friends, this`receivedRequests, this`sentRequests, this`loading
      ensures var o := Handled(old(db.Tables()), old(receivedRequests), requestId, accepted, failing);
        && db.Tables() == o.tables
        && updated == o.refreshes
      ensures !updated || user.None? ==>
        receivedRequests == old(receivedRequests) && sentRequests == old(sentRequests) && loading == old(loading)
      ensures updated && user.Some? ==>
        && !loading
        && receivedRequests == (if receivedFails then old(receivedRequests) else Received(db.friendRequests, user.value.id))
        && sentRequests == (if receivedFails || sentFails then old(sentRequests) else Sent(db.friendRequests, user.value.id))
    {
      updated := false;
      var request := RequestWithId(receivedRequests, requestId);
      if request.None? || failing == UpdateStatus {
        return;
      }
      db.friendRequests := SetFriendStatus(db.friendRequests, requestId, FriendDecision(accepted));
      if accepted {
        if failing == InsertFriend {
          return;
        }
        db.friends := db.friends + [Friendship(request.value.senderId, request.value.receiverId)];
      }
      FetchRequests(db, user, receivedFails, sentFails);
      updated := true;
    }
  }
}
