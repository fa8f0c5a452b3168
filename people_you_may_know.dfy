/**
 * `PeopleYouMayKnow`: up to twenty profiles outside the user's friendships
 * and friend requests, same-university profiles first, and an unguarded
 * friend request that drops the person from the list.
 */
module PeopleYouMayKnow {
  import opened Common
  import opened Tables

  /** The list shows at most this many profiles (`.limit(20)`). */
  const Limit: nat := 20

  // ---------------------------------------------------------------------------
  // The exclusion set

  /** Both endpoints of every edge, added one edge at a time as `friendships.forEach` does. */
  function FriendEndpoints(fs: seq<Friendship>): (r: set<Id>)
    ensures forall id :: id in r <==> exists f :: f in fs && (f.userId1 == id || f.userId2 == id)
  {
    if fs == [] then {}
    else
      var rest := fs[..|fs| - 1];
      assert fs == rest + [fs[|fs| - 1]];
      FriendEndpoints(rest) + {fs[|fs| - 1].userId1, fs[|fs| - 1].userId2}
  }

  /** Both ends of every request, added one request at a time as `requests.forEach` does. */
  function RequestEndpoints(qs: seq<FriendRequest>): (r: set<Id>)
    ensures forall id :: id in r <==> exists q :: q in qs && (q.senderId == id || q.receiverId == id)
  {
    if qs == [] then {}
    else
      var rest := qs[..|qs| - 1];
      assert qs == rest + [qs[|qs| - 1]];
      RequestEndpoints(rest) + {qs[|qs| - 1].senderId, qs[|qs| - 1].receiverId}
  }

  /** `excludeIds`: the user, and both ends of every fetched edge and request. */
  function Excluded(userId: Id, fs: seq<Friendship>, qs: seq<FriendRequest>): set<Id>
  {
    {userId} + FriendEndpoints(fs) + RequestEndpoints(qs)
  }

  /** The building of `excludeIds` by the two `forEach` loops. */
  method ExcludedIds(userId: Id, fs: seq<Friendship>, qs: seq<FriendRequest>) returns (ex: set<Id>)
    ensures ex == Excluded(userId, fs, qs)
    ensures userId in ex
    ensures forall f :: f in fs ==> f.userId1 in ex && f.userId2 in ex
    ensures forall q :: q in qs ==> q.senderId in ex && q.receiverId in ex
  {
    ex := {userId};
    for i := 0 to |fs|
      invariant ex == {userId} + FriendEndpoints(fs[..i])
    {
      assert fs[..i + 1][..i] == fs[..i];
      ex := ex + {fs[i].userId1, fs[i].userId2};
    }
    assert fs[..|fs|] == fs;
    for i := 0 to |qs|
      invariant ex == {userId} + FriendEndpoints(fs) + RequestEndpoints(qs[..i])
    {
      assert qs[..i + 1][..i] == qs[..i];
      ex := ex + {qs[i].senderId, qs[i].receiverId};
    }
    assert qs[..|qs|] == qs;
  }

  /** `.or('user_id1.eq.u,user_id2.eq.u')`: the user's edges; a failed read leaves `data` null and adds nothing. */
  function FetchedFriendships(t: Db, userId: Id, fails: bool): (r: seq<Friendship>)
    ensures forall f :: f in r ==> f in t.friends && Involves(f, userId)
    ensures !fails ==> forall f :: f in t.friends && Involves(f, userId) ==> f in r
  {
    if fails then [] else Filter(t.friends, (f: Friendship) => Involves(f, userId))
  }

  /** `.or('sender_id.eq.u,receiver_id.eq.u')`: the user's requests of any status. */
  function FetchedRequests(t: Db, userId: Id, fails: bool): (r: seq<FriendRequest>)
    ensures forall q :: q in r ==> q in t.friendRequests && (q.senderId == userId || q.receiverId == userId)
    ensures !fails ==> forall q :: q in t.friendRequests && (q.senderId == userId || q.receiverId == userId) ==> q in r
  {
    if fails then [] else Filter(t.friendRequests, (q: FriendRequest) => q.senderId == userId || q.receiverId == userId)
  }

  // ---------------------------------------------------------------------------
  // Same university first

  predicate SameUniversity(p: Profile, university: string)
  {
    p.university == university
  }

  function SameOnes(ps: seq<Profile>, university: string): seq<Profile>
  {
    Filter(ps, (p: Profile) => SameUniversity(p, university))
  }

  function Others(ps: seq<Profile>, university: string): seq<Profile>
  {
    Filter(ps, (p: Profile) => !SameUniversity(p, university))
  }

  /** No profile from another university comes before one from the user's. */
  predicate SameFirst(ps: seq<Profile>, university: string)
  {
    forall i, j :: 0 <= i < j < |ps| && !SameUniversity(ps[i], university) ==> !SameUniversity(ps[j], university)
  }

  /**
   * `profiles.sort(comparator)`: the comparator puts same-university
   * profiles first and returns 0 inside each class; `Array.prototype.sort`
   * is stable, so each class keeps its order.
   */
  function SameUniversityFirst(ps: seq<Profile>, university: string): seq<Profile>
  {
    SameOnes(ps, university) + Others(ps, university)
  }

  /** The sort rearranges the fetched profiles and loses none. */
  lemma {:induction false} SortPermutes(ps: seq<Profile>, university: string)
    ensures multiset(SameUniversityFirst(ps, university)) == multiset(ps)
  {
    if ps != [] {
      var x, rest := ps[0], ps[1..];
      SortPermutes(rest, university);
      assert ps == [x] + rest;
      if SameUniversity(x, university) {
        assert SameOnes(ps, university) == [x] + SameOnes(rest, university);
        assert Others(ps, university) == Others(rest, university);
      } else {
        assert SameOnes(ps, university) == SameOnes(rest, university);
        assert Others(ps, university) == [x] + Others(rest, university);
      }
    }
  }

  /** After the sort, every same-university profile precedes every other one. */
  lemma SortOrders(ps: seq<Profile>, university: string)
    ensures SameFirst(SameUniversityFirst(ps, university), university)
  {
    var a, b := SameOnes(ps, university), Others(ps, university);
    var r := a + b;
    assert forall k :: 0 <= k < |a| ==> r[k] == a[k];
    assert forall k :: |a| <= k < |r| ==> r[k] == b[k - |a|];
  }

  /** Within each class, the sort keeps the fetched order. */
  lemma SortIsStable(ps: seq<Profile>, university: string)
    ensures SameOnes(SameUniversityFirst(ps, university), university) == SameOnes(ps, university)
    ensures Others(SameUniversityFirst(ps, university), university) == Others(ps, university)
  {
    var a, b := SameOnes(ps, university), Others(ps, university);
    var same := (p: Profile) => SameUniversity(p, university);
    var other := (p: Profile) => !SameUniversity(p, university);
    FilterAppend(a, b, same);
    FilterAppend(a, b, other);
    FilterKeepsAll(a, same);
    FilterDropsAll(b, same);
    FilterDropsAll(a, other);
    FilterKeepsAll(b, other);
  }

  /** Dropping the head keeps a sequence same-first. */
  lemma SameFirstTail(r: seq<Profile>, university: string)
    requires r != [] && SameFirst(r, university)
    ensures SameFirst(r[1..], university)
  {
    assert forall k :: 0 <= k < |r| - 1 ==> r[1..][k] == r[k + 1];
  }

  /** A profile may head a same-first sequence when it is same-university, or when nothing after it is. */
  lemma SameFirstCons(x: Profile, r: seq<Profile>, university: string)
    requires SameFirst(r, university)
    requires !SameUniversity(x, university) ==> forall p :: p in r ==> !SameUniversity(p, university)
    ensures SameFirst([x] + r, university)
  {
    assert forall k :: 0 < k < |r| + 1 ==> ([x] + r)[k] == r[k - 1];
  }

  /** A same-first sequence is its same-university part followed by the rest. */
  lemma {:induction false} SameFirstSplits(r: seq<Profile>, university: string)
    requires SameFirst(r, university)
    ensures r == SameOnes(r, university) + Others(r, university)
  {
    if r != [] {
      var x, rest := r[0], r[1..];
      if SameUniversity(x, university) {
        SameFirstTail(r, university);
        SameFirstSplits(rest, university);
        SameHeadSplits(r, university);
        HeadAndTail(r);
        Regroup(r[..1], SameOnes(rest, university), Others(rest, university));
      } else {
        OtherHeadSplits(r, university);
      }
    }
  }

  /** A non-empty sequence is its head followed by its tail. */
  lemma HeadAndTail(r: seq<Profile>)
    requires r != []
    ensures r == r[..1] + r[1..]
  {
  }

  /** Concatenation regroups. */
  lemma Regroup(x: seq<Profile>, a: seq<Profile>, b: seq<Profile>)
    ensures x + (a + b) == (x + a) + b
  {
  }

  /** A same-university head joins the same-university part. */
  lemma SameHeadSplits(r: seq<Profile>, university: string)
    requires r != [] && SameUniversity(r[0], university)
    ensures SameOnes(r, university) == r[..1] + SameOnes(r[1..], university)
    ensures Others(r, university) == Others(r[1..], university)
  {
  }

  /** A same-first sequence headed by another university's profile holds no same-university profile. */
  lemma OtherHeadSplits(r: seq<Profile>, university: string)
    requires r != [] && SameFirst(r, university) && !SameUniversity(r[0], university)
    ensures SameOnes(r, university) == [] && Others(r, university) == r
  {
    assert forall k :: 0 <= k < |r| ==> !SameUniversity(r[k], university);
    FilterDropsAll(r, (p: Profile) => SameUniversity(p, university));
    FilterKeepsAll(r, (p: Profile) => !SameUniversity(p, university));
  }

  /**
   * The sort is the only same-first arrangement that keeps each class in
   * its fetched order: any such sequence equals it.
   */
  lemma SortIsUnique(ps: seq<Profile>, r: seq<Profile>, university: string)
    requires SameFirst(r, university)
    requires SameOnes(r, university) == SameOnes(ps, university)
    requires Others(r, university) == Others(ps, university)
    ensures r == SameUniversityFirst(ps, university)
  {
    SameFirstSplits(r, university);
  }

  /** Dropping people keeps a same-first list same-first. */
  lemma {:induction false} FilterKeepsSameFirst(ps: seq<Profile>, university: string, keep: Profile -> bool)
    requires SameFirst(ps, university)
    ensures SameFirst(Filter(ps, keep), university)
  {
    if ps != [] {
      var x, rest := ps[0], ps[1..];
      SameFirstTail(ps, university);
      FilterKeepsSameFirst(rest, university, keep);
      if keep(x) {
        assert Filter(ps, keep) == [x] + Filter(rest, keep);
        assert !SameUniversity(x, university) ==> forall p :: p in rest ==> !SameUniversity(p, university) by {
          assert forall k :: 0 <= k < |rest| ==> rest[k] == ps[k + 1];
        }
        SameFirstCons(x, Filter(rest, keep), university);
      } else {
        assert Filter(ps, keep) == Filter(rest, keep);
      }
    }
  }

  /** The sort lists exactly the profiles it is given. */
  lemma SortKeepsMembers(ps: seq<Profile>, university: string)
    ensures |SameUniversityFirst(ps, university)| == |ps|
    ensures forall p :: p in SameUniversityFirst(ps, university) <==> p in ps
  {
    SortPermutes(ps, university);
    var r := SameUniversityFirst(ps, university);
    assert |r| == |multiset(r)| == |multiset(ps)| == |ps|;
    forall p
      ensures p in r <==> p in ps
    {
      assert p in r <==> p in multiset(r);
      assert p in ps <==> p in multiset(ps);
    }
  }

  // ---------------------------------------------------------------------------
  // The list

  /**
   * The first twenty profiles outside the exclusion set, in table order,
   * same university first; with no more than twenty such profiles, all of
   * them.
   */
  function People(t: Db, userId: Id, university: string, friendsFail: bool, requestsFail: bool): (r: seq<Profile>)
    ensures |r| <= Limit
    ensures forall p :: p in r ==>
      (p in t.profiles &&
       p.id !in Excluded(userId, FetchedFriendships(t, userId, friendsFail), FetchedRequests(t, userId, requestsFail)))
    ensures var ex := Excluded(userId, FetchedFriendships(t, userId, friendsFail), FetchedRequests(t, userId, requestsFail));
      |Filter(t.profiles, (p: Profile) => p.id !in ex)| <= Limit ==>
        forall p :: p in t.profiles && p.id !in ex ==> p in r
  {
    var ex := Excluded(userId, FetchedFriendships(t, userId, friendsFail), FetchedRequests(t, userId, requestsFail));
    var kept := Filter(t.profiles, (p: Profile) => p.id !in ex);
    var candidates := Take(kept, Limit);
    SortKeepsMembers(candidates, university);
    assert forall p :: p in candidates ==> p in kept by {
      forall p | p in candidates
        ensures p in kept
      {
        var i :| 0 <= i < |candidates| && candidates[i] == p;
        assert kept[i] == p;
      }
    }
    assert |kept| <= Limit ==> candidates == kept;
    SameUniversityFirst(candidates, university)
  }

  /**
   * When both exclusion reads succeed, nobody listed is the user, one of
   * their friends, or at either end of one of their requests.
   */
  lemma PeopleAreStrangers(t: Db, userId: Id, university: string, p: Profile)
    requires p in People(t, userId, university, false, false)
    ensures p.id != userId
    ensures forall f :: f in t.friends && Involves(f, userId) ==> p.id != f.userId1 && p.id != f.userId2
    ensures forall q :: q in t.friendRequests && (q.senderId == userId || q.receiverId == userId) ==>
      p.id != q.senderId && p.id != q.receiverId
  {
    var fs, qs := FetchedFriendships(t, userId, false), FetchedRequests(t, userId, false);
    forall f | f in t.friends && Involves(f, userId)
      ensures p.id != f.userId1 && p.id != f.userId2
    {
      assert f in fs;
    }
    forall q | q in t.friendRequests && (q.senderId == userId || q.receiverId == userId)
      ensures p.id != q.senderId && p.id != q.receiverId
    {
      assert q in qs;
    }
  }

  /** The list is same-first for the university it was sorted by. */
  lemma PeopleSameFirst(t: Db, userId: Id, university: string, friendsFail: bool, requestsFail: bool)
    ensures SameFirst(People(t, userId, university, friendsFail, requestsFail), university)
  {
    var ex := Excluded(userId, FetchedFriendships(t, userId, friendsFail), FetchedRequests(t, userId, requestsFail));
    SortOrders(Take(Filter(t.profiles, (p: Profile) => p.id !in ex), Limit), university);
  }

  /** The "Same University" badge: the person's university is the signed-in profile's. */
  predicate Badge(person: Profile, userProfile: Option<Profile>)
  {
    userProfile.Some? && person.university == userProfile.value.university
  }

  /** Which checked read of the mount effect reports an error; each one throws. */
  datatype Failure = NoFailure | ProfileQuery | PeopleQuery

  class PeopleYouMayKnow {
    var people: seq<Profile>
    var loading: bool
    var userProfile: Option<Profile>

    constructor ()
      ensures people == [] && loading && userProfile.None?
    {
      people, loading, userProfile := [], true, None;
    }

    /** Every badge-bearing entry precedes every entry without one. */
    predicate BadgesFirst()
      reads this
    {
      forall i, j :: 0 <= i < j < |people| && !Badge(people[i], userProfile) ==> !Badge(people[j], userProfile)
    }

    /**
     * `fetchUserProfileAndPeople`: nothing without a user. A missing own
     * profile (`.single()`) or a failed read throws; the two exclusion reads
     * are unchecked. `loading` ends once a user is present.
     */
    method FetchUserProfileAndPeople(db: Store, user: Option<Account>, failing: Failure,
                                     friendsFail: bool, requestsFail: bool)
      modifies this`people, this`loading, this`userProfile
      ensures user.None? ==> people == old(people) && loading == old(loading) && userProfile == old(userProfile)
      ensures user.Some? ==>
        var profile := ProfileWithId(db.profiles, user.value.id);
        && !loading
        && (failing == ProfileQuery || profile.None? ==> people == old(people) && userProfile == old(userProfile))
        && (failing != ProfileQuery && profile.Some? ==> userProfile == profile)
        && (failing == PeopleQuery ==> people == old(people))
        && (failing == NoFailure && profile.Some? ==>
              people == People(db.Tables(), user.value.id, profile.value.university, friendsFail, requestsFail) &&
              BadgesFirst())
    {
      if user.None? {
        return;
      }
      var u := user.value.id;
      var profile := ProfileWithId(db.profiles, u);
      if failing == ProfileQuery || profile.None? {
        loading := false;
        return;
      }
      userProfile := profile;
      var fs := FetchedFriendships(db.Tables(), u, friendsFail);
      var qs := FetchedRequests(db.Tables(), u, requestsFail);
      var ex := ExcludedIds(u, fs, qs);
      if failing == PeopleQuery {
        loading := false;
        return;
      }
      var candidates := Take(Filter(db.profiles, (p: Profile) => p.id !in ex), Limit);
      people := SameUniversityFirst(candidates, profile.value.university);
      PeopleSameFirst(db.Tables(), u, profile.value.university, friendsFail, requestsFail);
      loading := false;
    }

    /**
     * `handleSendRequest(receiverId)` for the signed-in `userId`: a pending
     * request, and on success exactly that person leaves the list, which
     * stays badge-first.
     */
    method HandleSendRequest(db: Store, userId: Id, receiverId: Id, newId: Id, insertFails: bool)
      modifies db`friendRequests, this`people
      ensures insertFails ==> db.friendRequests == old(db.friendRequests) && people == old(people)
      ensures !insertFails ==>
        && db.friendRequests == old(db.friendRequests) + [NewFriendRequest(newId, userId, receiverId)]
        && people == Filter(old(people), (p: Profile) => p.id != receiverId)
        && (forall p :: p in people <==> p in old(people) && p.id != receiverId)
      ensures old(BadgesFirst()) ==> BadgesFirst()
    {
      if insertFails {
        return;
      }
      db.friendRequests := db.friendRequests + [NewFriendRequest(newId, userId, receiverId)];
      ghost var before := people;
      people := Filter(people, (p: Profile) => p.id != receiverId);
      if userProfile.Some? {
        if forall i, j :: 0 <= i < j < |before| && !Badge(before[i], userProfile) ==> !Badge(before[j], userProfile) {
          assert SameFirst(before, userProfile.value.university);
          FilterKeepsSameFirst(before, userProfile.value.university, (p: Profile) => p.id != receiverId);
        }
      }
    }
  }
}
