/**
 * `FriendsList` (the chat sidebar): each of the user's edges shows the
 * profile embedded at its other end, entries with an empty id are dropped,
 * and a search term narrows the list by username or university.
 */
module ChatFriendsList {
  import opened Common
  import opened Tables

  /** `friend.user_id1 === user.id ? friend.profile2 : friend.profile1`, each embed null when no profile matches. */
  function Embedded(profiles: seq<Profile>, f: Friendship, userId: Id): (r: Option<Profile>)
    ensures r.Some? ==> r.value in profiles
    ensures f.userId1 == userId ==> r == ProfileWithId(profiles, f.userId2)
    ensures f.userId1 != userId ==> r == ProfileWithId(profiles, f.userId1)
  {
    if f.userId1 == userId then ProfileWithId(profiles, f.userId2) else ProfileWithId(profiles, f.userId1)
  }

  /**
   * The `map` over the fetched edges: the chosen embed of each, in order;
   * a null embed makes `friendProfile.id` throw, which is `None`.
   */
  function Projected(profiles: seq<Profile>, es: seq<Friendship>, userId: Id): (r: Option<seq<Profile>>)
    ensures r.None? <==> exists i :: 0 <= i < |es| && Embedded(profiles, es[i], userId).None?
    ensures r.Some? ==> |r.value| == |es| && forall i :: 0 <= i < |es| ==> Embedded(profiles, es[i], userId) == Some(r.value[i])
  {
    if es == [] then Some([])
    else
      var n := |es| - 1;
      var rest := Projected(profiles, es[..n], userId);
      assert forall i :: 0 <= i < n ==> es[..n][i] == es[i];
      match Embedded(profiles, es[n], userId)
      case None => None
      case Some(p) => if rest.None? then None else Some(rest.value + [p])
  }

  /** A projection succeeds exactly when every edge has its embed, and then holds exactly those embeds. */
  lemma ProjectedMembers(profiles: seq<Profile>, es: seq<Friendship>, userId: Id)
    ensures Projected(profiles, es, userId).None? <==> exists f :: f in es && Embedded(profiles, f, userId).None?
    ensures Projected(profiles, es, userId).Some? ==>
      forall p :: p in Projected(profiles, es, userId).value <==> exists f :: f in es && Embedded(profiles, f, userId) == Some(p)
  {
    var r := Projected(profiles, es, userId);
    if r.None? {
      var i :| 0 <= i < |es| && Embedded(profiles, es[i], userId).None?;
      assert es[i] in es;
    } else {
      var ps := r.value;
      forall f | f in es
        ensures Embedded(profiles, f, userId).Some?
      {
        var i :| 0 <= i < |es| && es[i] == f;
      }
      forall p
        ensures p in ps <==> exists f :: f in es && Embedded(profiles, f, userId) == Some(p)
      {
        if p in ps {
          var i :| 0 <= i < |ps| && ps[i] == p;
          assert es[i] in es;
        }
        if f :| f in es && Embedded(profiles, f, userId) == Some(p) {
          var i :| 0 <= i < |es| && es[i] == f;
          assert ps[i] == p;
        }
      }
    }
  }

  /**
   * `transformedFriends` for the user's edges (`.or(user_id1.eq.u,user_id2.eq.u)`):
   * the projected profiles whose id is not the empty string.
   */
  function Friends(t: Db, userId: Id): (r: Option<seq<Profile>>)
    ensures r.None? <==> exists f :: f in t.friends && Involves(f, userId) && Embedded(t.profiles, f, userId).None?
    ensures r.Some? ==> forall p :: p in r.value <==>
      p.id != "" && exists f :: f in t.friends && Involves(f, userId) && Embedded(t.profiles, f, userId) == Some(p)
    ensures r.Some? ==> forall p :: p in r.value ==> p in t.profiles
  {
    var es := Filter(t.friends, (f: Friendship) => Involves(f, userId));
    ProjectedMembers(t.profiles, es, userId);
    match Projected(t.profiles, es, userId)
    case None => None
    case Some(ps) => Some(Filter(ps, (p: Profile) => p.id != ""))
  }

  /**
   * Every edge of the user whose other end has a profile with a non-empty
   * id shows that profile, once the list loads.
   */
  lemma OtherEndsAreFriends(t: Db, userId: Id, f: Friendship)
    requires f in t.friends && Involves(f, userId)
    requires Friends(t, userId).Some?
    ensures Embedded(t.profiles, f, userId).Some?
    ensures Embedded(t.profiles, f, userId).value.id != "" ==> Embedded(t.profiles, f, userId).value in Friends(t, userId).value
  {
  }

  /**
   * Every shown friend is the profile at the other end of one of the
   * user's edges: the second one when the user is `user_id1`, the first
   * otherwise.
   */
  lemma FriendsAreOtherEnds(t: Db, userId: Id, p: Profile)
    requires Friends(t, userId).Some? && p in Friends(t, userId).value
    ensures exists f :: (f in t.friends && Involves(f, userId) &&
                         Some(p) == if f.userId1 == userId then ProfileWithId(t.profiles, f.userId2)
                                    else ProfileWithId(t.profiles, f.userId1))
  {
    var es := Filter(t.friends, (f: Friendship) => Involves(f, userId));
    var ps := Projected(t.profiles, es, userId).value;
    assert p in ps;
    var i :| 0 <= i < |ps| && ps[i] == p;
    assert es[i] in es;
  }

  /** The search keeps a friend whose username or university includes the term, ignoring case. */
  predicate MatchesSearch(p: Profile, term: string)
  {
    ContainsIgnoringCase(p.username, term) || ContainsIgnoringCase(p.university, term)
  }

  /** `filteredFriends`. */
  function FilteredFriends(friends: seq<Profile>, term: string): (r: seq<Profile>)
    ensures forall p :: p in r <==> p in friends && MatchesSearch(p, term)
    ensures |r| <= |friends|
  {
    Filter(friends, (p: Profile) => MatchesSearch(p, term))
  }

  /** An empty search term keeps every friend, in order. */
  lemma EmptySearchKeepsAll(friends: seq<Profile>)
    ensures FilteredFriends(friends, "") == friends
  {
    forall i | 0 <= i < |friends|
      ensures MatchesSearch(friends[i], "")
    {
      ContainsEmpty(ToLower(friends[i].username));
    }
    FilterKeepsAll(friends, (p: Profile) => MatchesSearch(p, ""));
  }

  /** The search ignores case in the term. */
  lemma SearchIgnoresTermCase(friends: seq<Profile>, term: string)
    ensures FilteredFriends(friends, ToLower(term)) == FilteredFriends(friends, term)
  {
    ToLowerIdempotent(term);
    FilterCongruent(friends, (p: Profile) => MatchesSearch(p, ToLower(term)), (p: Profile) => MatchesSearch(p, term));
  }
  class ChatFriendsList {
    var friends: seq<Profile>
    var loading: bool

    constructor ()
      ensures friends == [] && loading
    {
      friends, loading := [], true;
    }

    /**
     * `fetchFriends`: nothing without a user; a failed query or a missing
     * embedded profile throws and keeps the list; `loading` ends otherwise.
     */
    method FetchFriends(db: Store, user: Option<Account>, queryFails: bool)
      modifies this`friends, this`loading
      ensures user.None? ==> friends == old(friends) && loading == old(loading)
      ensures user.Some? ==> !loading
      ensures user.Some? && (queryFails || Friends(db.Tables(), user.value.id).None?) ==> friends == old(friends)
      ensures user.Some? && !queryFails && Friends(db.Tables(), user.value.id).Some? ==>
        friends == Friends(db.Tables(), user.value.id).value &&
        forall p :: p in friends ==> p.id != "" && p in db.profiles
    {
      if user.None? {
        return;
      }
      if !queryFails {
        var r := Friends(db.Tables(), user.value.id);
        if r.Some? {
          friends := r.value;
        }
      }
      loading := false;
    }
  }
}
