/**
 * `SearchUsers`: a username/university search over the other profiles, and
 * a friend request guarded by two `.single()` reads, one for an existing
 * request in either direction and one for an existing edge in either
 * orientation.
 */
module SearchUsers {
  import opened Common
  import opened Tables

  /** The search shows at most this many profiles (`.limit(5)`). */
  const Limit: nat := 5

  /**
   * `username.ilike.%term%` or `university.ilike.%term%`: one of the two
   * includes the term, ignoring case.
   */
  predicate Matches(p: Profile, term: string)
  {
    ContainsIgnoringCase(p.username, term) || ContainsIgnoringCase(p.university, term)
  }

  /** The search's rows: the first five matching profiles other than the user's, in table order. */
  function Results(profiles: seq<Profile>, userId: Id, term: string): (r: seq<Profile>)
    ensures |r| <= Limit
    ensures forall p :: p in r ==> p in profiles && p.id != userId && Matches(p, term)
    ensures |r| < Limit ==> forall p :: p in profiles && p.id != userId && Matches(p, term) ==> p in r
  {
    var all := Filter(profiles, (p: Profile) => p.id != userId && Matches(p, term));
    var r := Take(all, Limit);
    assert forall p :: p in r ==> p in all by {
      forall p | p in r
        ensures p in all
      {
        var i :| 0 <= i < |r| && r[i] == p;
        assert all[i] == p;
      }
    }
    r
  }

  /** The `friend_requests` rows between the two users, in either direction. */
  function RequestsBetween(rows: seq<FriendRequest>, a: Id, b: Id): seq<FriendRequest>
  {
    Filter(rows, (q: FriendRequest) => Between(q, a, b))
  }

  /** The `friends` rows joining the two users, in either orientation. */
  function EdgesBetween(rows: seq<Friendship>, a: Id, b: Id): seq<Friendship>
  {
    Filter(rows, (f: Friendship) => Connects(f, a, b))
  }

  /** What `sendFriendRequest` tells the user. */
  datatype Alert = AlreadyRequested | AlreadyFriends | RequestSent | RequestFailed

  class SearchUsers {
    var searchTerm: string
    var results: seq<Profile>
    var loading: bool

    constructor ()
      ensures searchTerm == "" && results == [] && !loading
    {
      searchTerm, results, loading := "", [], false;
    }

    /**
     * `handleSearch`: nothing for a blank term or without a user; an error
     * keeps the results; `loading` ends in every other case. The term is
     * matched untrimmed.
     */
    method HandleSearch(db: Store, user: Option<Account>, queryFails: bool)
      modifies this`results, this`loading
      ensures Blank(searchTerm) || user.None? ==> results == old(results) && loading == old(loading)
      ensures !Blank(searchTerm) && user.Some? ==>
        && !loading
        && results == if queryFails then old(results) else Results(db.profiles, user.value.id, searchTerm)
      ensures !Blank(searchTerm) && user.Some? && !queryFails ==>
        |results| <= Limit && forall p :: p in results ==> p.id != user.value.id
    {
      if Blank(searchTerm) || user.None? {
        return;
      }
      loading := true;
      if !queryFails {
        results := Results(db.profiles, user.value.id, searchTerm);
      }
      loading := false;
    }

    /**
     * `sendFriendRequest(receiverId)`: nothing without a user. A single
     * request between the two, in either direction, or failing that a
     * single edge, stops it with an alert; otherwise a pending request from
     * the user is inserted and, on success, the receiver leaves the results.
     * Neither guard read checks its error: a failed read (`requestReadFails`,
     * `edgeReadFails`) has no data and lets the handler go on.
     */
    method SendFriendRequest(db: Store, user: Option<Account>, receiverId: Id, newId: Id,
                             requestReadFails: bool, edgeReadFails: bool, insertFails: bool)
      returns (alert: Option<Alert>)
      modifies db`friendRequests, this`results
      ensures user.None? ==> alert.None? && db.friendRequests == old(db.friendRequests) && results == old(results)
      ensures user.Some? ==>
        var u := user.value.id;
        var requested := !requestReadFails && |RequestsBetween(old(db.friendRequests), u, receiverId)| == 1;
        var befriended := !edgeReadFails && |EdgesBetween(db.friends, u, receiverId)| == 1;
        && (alert == Some(AlreadyRequested) <==> requested)
        && (alert == Some(AlreadyFriends) <==> !requested && befriended)
        && (db.friendRequests != old(db.friendRequests) <==> !requested && !befriended && !insertFails)
        && (!requested && !befriended && insertFails ==> alert == Some(RequestFailed))
        && (db.friendRequests != old(db.friendRequests) ==>
             db.friendRequests == old(db.friendRequests) + [NewFriendRequest(newId, u, receiverId)] &&
             alert == Some(RequestSent) &&
             forall p :: p in results <==> p in old(results) && p.id != receiverId)
        && (db.friendRequests == old(db.friendRequests) ==> results == old(results))
    {
      if user.None? {
        return None;
      }
      var u := user.value.id;
      var existingRequest := if requestReadFails then None else Single(db.friendRequests, (q: FriendRequest) => Between(q, u, receiverId));
      if existingRequest.Some? {
        return Some(AlreadyRequested);
      }
      var existingFriend := if edgeReadFails then None else Single(db.friends, (f: Friendship) => Connects(f, u, receiverId));
      if existingFriend.Some? {
        return Some(AlreadyFriends);
      }
      if insertFails {
        return Some(RequestFailed);
      }
      db.friendRequests := db.friendRequests + [NewFriendRequest(newId, u, receiverId)];
      results := Filter(results, (p: Profile) => p.id != receiverId);
      alert := Some(RequestSent);
    }
  }

  /** With no request and no edge between the two, the guard lets the insert through. */
  lemma FreshPairIsRequested(rows: seq<FriendRequest>, edges: seq<Friendship>, a: Id, b: Id)
    requires forall q :: q in rows ==> !Between(q, a, b)
    requires forall f :: f in edges ==> !Connects(f, a, b)
    ensures |RequestsBetween(rows, a, b)| != 1 && |EdgesBetween(edges, a, b)| != 1
  {
    FilterDropsAll(rows, (q: FriendRequest) => Between(q, a, b));
    FilterDropsAll(edges, (f: Friendship) => Connects(f, a, b));
  }

  /**
   * The guard is `.single()`'s: two earlier requests between the same pair
   * (a rejected one and its reverse, say) no longer stop a third.
   */
  lemma TwoRequestsDoNotBlock()
    ensures var rows := [FriendRequest("r1", "a", "b", FriendRejected), FriendRequest("r2", "b", "a", FriendPending)];
      |RequestsBetween(rows, "a", "b")| == 2
  {
    var rows := [FriendRequest("r1", "a", "b", FriendRejected), FriendRequest("r2", "b", "a", FriendPending)];
    assert rows[1..] == [rows[1]];
    assert rows[1..][1..] == [];
  }
}
