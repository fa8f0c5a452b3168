/**
 * The group admin's list of pending join requests, and the approve / reject
 * handler that writes the request's status, adds the member and notifies the
 * people concerned.
 *
 * Every awaited step of `handleRequest` throws on error, so at most the
 * first failing step matters: the handler takes it as `failing`.
 */
module JoinRequestsManager {
  import opened Common
  import opened Tables

  /** A list entry: the request with its requester's username and avatar. */
  datatype RequestView = RequestView(
    id: Id,
    userId: Id,
    status: RequestStatus,
    createdAt: Time,
    username: string,
    avatarUrl: string)

  // ---------------------------------------------------------------------------
  // fetchJoinRequests

  /** The group's pending requests, newest first. */
  function PendingNewestFirst(rows: seq<JoinRequest>, groupId: Id): (r: seq<JoinRequest>)
    ensures NewestFirst(r, RequestTime)
    ensures multiset(r) == multiset(PendingRequestsOf(rows, groupId)) && |r| == |PendingRequestsOf(rows, groupId)|
    ensures forall q :: q in r <==> q in rows && q.groupId == groupId && q.status == Pending
  {
    SortNewestFirst(PendingRequestsOf(rows, groupId), RequestTime)
  }

  function RequesterIds(qs: seq<JoinRequest>): (ids: seq<Id>)
    ensures |ids| == |qs| && forall i :: 0 <= i < |qs| ==> ids[i] == qs[i].userId
  {
    Map(qs, (q: JoinRequest) => q.userId)
  }

  /** `.from('profiles').in('id', ids)`. */
  function ProfilesAmong(profiles: seq<Profile>, ids: seq<Id>): (r: seq<Profile>)
    ensures forall p :: p in r <==> p in profiles && p.id in ids
  {
    Filter(profiles, (p: Profile) => p.id in ids)
  }

  /** One request joined with its requester's profile; `''` stands in for anything missing. */
  function WithProfile(q: JoinRequest, profiles: seq<Profile>): (v: RequestView)
    ensures v.id == q.id && v.userId == q.userId && v.status == q.status && v.createdAt == q.createdAt
  {
    match ProfileWithId(profiles, q.userId)
    case None => RequestView(q.id, q.userId, q.status, q.createdAt, "", "")
    case Some(p) => RequestView(q.id, q.userId, q.status, q.createdAt, p.username,
                                if p.avatarUrl.Some? then p.avatarUrl.value else "")
  }

  /**
   * The profile join: one entry per request, in request order, each carrying
   * the request's own columns, and the username and avatar of the
   * requester's profile, each `''` when the profile query returned none or
   * the avatar is null.
   */
  function Joined(qs: seq<JoinRequest>, profiles: seq<Profile>): (r: seq<RequestView>)
    ensures |r| == |qs|
    ensures forall i :: 0 <= i < |qs| ==>
      r[i].id == qs[i].id && r[i].userId == qs[i].userId && r[i].status == qs[i].status && r[i].createdAt == qs[i].createdAt
    ensures forall i :: 0 <= i < |qs| ==>
      r[i].username == match ProfileWithId(profiles, qs[i].userId) case None => "" case Some(p) => p.username
    ensures forall i :: 0 <= i < |qs| ==>
      r[i].avatarUrl == match ProfileWithId(profiles, qs[i].userId)
                        case None => ""
                        case Some(p) => if p.avatarUrl.Some? then p.avatarUrl.value else ""
  {
    Map(qs, (q: JoinRequest) => WithProfile(q, profiles))
  }

  /**
   * What `fetchJoinRequests` puts in the list, or `None` when a query errors
   * and the list is left as it was. An empty result needs no profile query.
   */
  function FetchedRequests(t: Db, groupId: Id, requestsFail: bool, profilesFail: bool): (r: Option<seq<RequestView>>)
    ensures requestsFail ==> r.None?
    ensures !requestsFail && PendingRequestsOf(t.joinRequests, groupId) == [] ==> r == Some([])
    ensures !requestsFail && PendingRequestsOf(t.joinRequests, groupId) != [] ==>
      r == if profilesFail then None else Some(Joined(PendingNewestFirst(t.joinRequests, groupId), t.profiles))
    ensures r.Some? ==> forall v :: v in r.value ==> exists q :: q in t.joinRequests && q.groupId == groupId && q.status == Pending && q.id == v.id
  {
    if requestsFail then None
    else
      var qs := PendingNewestFirst(t.joinRequests, groupId);
      if qs == [] then Some([])
      else if profilesFail then None
      else
        var r := Joined(qs, ProfilesAmong(t.profiles, RequesterIds(qs)));
        JoinedAmongRequesters(qs, t.profiles);
        assert forall v :: v in r ==> exists q :: q in qs && q.id == v.id by {
          forall v | v in r ensures exists q :: q in qs && q.id == v.id {
            var i :| 0 <= i < |r| && r[i] == v;
            assert qs[i] in qs;
          }
        }
        Some(r)
  }

  /** Restricting the profiles to the requesters' ids leaves every requester's lookup as it is. */
  lemma {:induction false} JoinedAmongRequesters(qs: seq<JoinRequest>, profiles: seq<Profile>)
    ensures Joined(qs, ProfilesAmong(profiles, RequesterIds(qs))) == Joined(qs, profiles)
  {
    var ids := RequesterIds(qs);
    var a, b := Joined(qs, ProfilesAmong(profiles, ids)), Joined(qs, profiles);
    forall i | 0 <= i < |qs|
      ensures a[i] == b[i]
    {
      assert qs[i].userId in ids by {
        assert ids[i] == qs[i].userId;
      }
      ProfileWithIdAmong(profiles, (p: Profile) => p.id in ids, qs[i].userId);
      assert a[i] == WithProfile(qs[i], ProfilesAmong(profiles, ids));
    }
    assert a == b;
  }

  // ---------------------------------------------------------------------------
  // handleRequest

  /**
   * Which awaited step of `handleRequest` reports an error: every step
   * throws on error, so only the first failing one matters.
   */
  datatype Failure = NoFailure | UpdateStatus | FetchGroup | FetchAdmin | FetchUser | InsertMember | NotifyAdmin | NotifyRequester

  /** The awaited step `s` is the one that reports an error. */
  predicate Fails(failing: Failure, s: Failure)
  {
    failing == s
  }

  /** The steps the handler awaits for a decision: rejection inserts no member and notifies only the requester. */
  predicate Awaited(s: Failure, approved: bool)
  {
    approved || (s != InsertMember && s != NotifyAdmin)
  }

  /** Some step that the handler awaits reports an error. */
  predicate StepFails(failing: Failure, approved: bool)
  {
    failing != NoFailure && Awaited(failing, approved)
  }

  /** What the three lookups return when each finds its row. */
  datatype Context = Context(groupName: string, adminId: Id, username: string)

  /**
   * The group's name, its admin's id and the requester's username. Each
   * lookup throws when its query errors, when `.single()` finds no row, or
   * when the value it needs is empty.
   */
  function LookUp(t: Db, groupId: Id, userId: Id, failing: Failure): (r: Option<Context>)
    ensures r.Some? ==> r.value.groupName != "" && r.value.adminId != "" && r.value.username != ""
    ensures r.Some? ==> !Fails(failing, FetchGroup) && !Fails(failing, FetchAdmin) && !Fails(failing, FetchUser)
    ensures r.Some? ==> GroupWithId(t.groups, groupId).Some? && GroupWithId(t.groups, groupId).value.name == r.value.groupName
    ensures r.Some? ==> PrimaryAdminOf(t.groupMembers, groupId).Some? && PrimaryAdminOf(t.groupMembers, groupId).value.userId == r.value.adminId
    ensures r.Some? ==> ProfileWithId(t.profiles, userId).Some? && ProfileWithId(t.profiles, userId).value.username == r.value.username
    ensures && !Fails(failing, FetchGroup) && !Fails(failing, FetchAdmin) && !Fails(failing, FetchUser)
            && GroupWithId(t.groups, groupId).Some? && GroupWithId(t.groups, groupId).value.name != ""
            && PrimaryAdminOf(t.groupMembers, groupId).Some? && PrimaryAdminOf(t.groupMembers, groupId).value.userId != ""
            && ProfileWithId(t.profiles, userId).Some? && ProfileWithId(t.profiles, userId).value.username != ""
            ==> r.Some?
  {
    var g := GroupWithId(t.groups, groupId);
    var a := PrimaryAdminOf(t.groupMembers, groupId);
    var u := ProfileWithId(t.profiles, userId);
    if Fails(failing, FetchGroup) || g.None? || g.value.name == "" then None
    else if Fails(failing, FetchAdmin) || a.None? || a.value.userId == "" then None
    else if Fails(failing, FetchUser) || u.None? || u.value.username == "" then None
    else Some(Context(g.value.name, a.value.userId, u.value.username))
  }

  /** The lookups do not read `join_requests`, so the status write does not change what they find. */
  lemma LookUpIgnoresRequests(t: Db, rows: seq<JoinRequest>, groupId: Id, userId: Id, failing: Failure)
    ensures LookUp(t.(joinRequests := rows), groupId, userId, failing) == LookUp(t, groupId, userId, failing)
  {
    var t1 := t.(joinRequests := rows);
    assert t1.groups == t.groups && t1.groupMembers == t.groupMembers && t1.profiles == t.profiles;
  }

  function GroupNotice(id: Id, to: Id, title: string, content: string, groupId: Id, userId: Id, action: string, now: Time): Notification
  {
    Notification(id, to, title, content, GroupMember, false, now, Some(Metadata(Some(groupId), Some(userId), None, Some(action))))
  }

  /**
   * The notifications the decision produces: on approval one to the group's
   * admin and one to the requester, on rejection one to the requester. All
   * are unread `group_member` notices about this group and this requester.
   */
  function Notices(c: Context, groupId: Id, userId: Id, approved: bool, ids: nat -> Id, now: Time): (r: seq<Notification>)
    ensures |r| == if approved then 2 else 1
    ensures forall n :: n in r ==> n.kind == GroupMember && !n.read && n.createdAt == now
    ensures forall n :: n in r ==> n.metadata.Some? && n.metadata.value.groupId == Some(groupId) && n.metadata.value.userId == Some(userId)
    ensures approved ==> r[0].userId == c.adminId && r[0].metadata.value.action == Some("join_approved")
    ensures approved ==> r[1].userId == userId && r[1].metadata.value.action == Some("join_request_approved")
    ensures !approved ==> r[0].userId == userId && r[0].metadata.value.action == Some("join_request_rejected")
  {
    if approved then
      [GroupNotice(ids(0), c.adminId, "New Group Member", c.username + " has joined " + c.groupName, groupId, userId, "join_approved", now),
       GroupNotice(ids(1), userId, "Join Request Approved",
                   "Your request to join " + c.groupName + " has been approved", groupId, userId, "join_request_approved", now)]
    else
      [GroupNotice(ids(0), userId, "Join Request Rejected",
                   "Your request to join " + c.groupName + " has been rejected", groupId, userId, "join_request_rejected", now)]
  }

  datatype Outcome = Outcome(tables: Db, thrown: bool)

  /** The steps of the approve / reject branch that the decision awaits. */
  predicate DecisionStepFails(failing: Failure, approved: bool)
  {
    Fails(failing, NotifyRequester) || (approved && (Fails(failing, InsertMember) || Fails(failing, NotifyAdmin)))
  }

  /** `group_members` after the branch: the requester's row, added only by an approval. */
  function DecidedMembers(ms: seq<Membership>, groupId: Id, userId: Id, approved: bool, now: Time, failing: Failure): seq<Membership>
  {
    if approved && !Fails(failing, InsertMember) then ms + [NewMember(groupId, userId, now)] else ms
  }

  /**
   * `notifications` after the branch: on approval the admin's notice after
   * the member insert and then the requester's, on rejection the
   * requester's; each insert only once the ones before it succeeded.
   */
  function DecidedNotices(ns: seq<Notification>, notices: seq<Notification>, approved: bool, failing: Failure): seq<Notification>
    requires |notices| == if approved then 2 else 1
  {
    if approved then
      if Fails(failing, InsertMember) || Fails(failing, NotifyAdmin) then ns
      else if Fails(failing, NotifyRequester) then ns + [notices[0]]
      else ns + [notices[0]] + [notices[1]]
    else if Fails(failing, NotifyRequester) then ns
    else ns + [notices[0]]
  }

  /**
   * The approve / reject branch of `handleRequest`, once the lookups found
   * `c`: on approval the member row and then the two notifications, on
   * rejection the one notification.
   */
  function Decided(t: Db, c: Context, groupId: Id, userId: Id, approved: bool,
                   ids: nat -> Id, now: Time, failing: Failure): (o: Outcome)
    ensures o.tables.(groupMembers := t.groupMembers, notifications := t.notifications) == t
  {
    Outcome(t.(groupMembers := DecidedMembers(t.groupMembers, groupId, userId, approved, now, failing),
               notifications := DecidedNotices(t.notifications, Notices(c, groupId, userId, approved, ids, now), approved, failing)),
            DecisionStepFails(failing, approved))
  }

  /**
   * The tables after `handleRequest`, and whether it throws: it succeeds
   * exactly when no awaited step fails and all three lookups find their rows.
   */
  function Processed(t: Db, groupId: Id, requestId: Id, userId: Id, approved: bool,
                     ids: nat -> Id, now: Time, failing: Failure): (o: Outcome)
    ensures o.tables.(joinRequests := t.joinRequests, groupMembers := t.groupMembers, notifications := t.notifications) == t
    ensures o.thrown <==> Fails(failing, UpdateStatus) || LookUp(t, groupId, userId, failing).None? || DecisionStepFails(failing, approved)
  {
    if Fails(failing, UpdateStatus) then Outcome(t, true)
    else
      var t1 := t.(joinRequests := SetRequestStatus(t.joinRequests, requestId, Decision(approved), None));
      match LookUp(t, groupId, userId, failing)
      case None => Outcome(t1, true)
      case Some(c) => Decided(t1, c, groupId, userId, approved, ids, now, failing)
  }

  /**
   * The approve / reject branch: at most the one member row is added, and
   * only on approval; a failed member insert stops both notifications; on
   * success the member is in the group and the decision's notifications are
   * appended in order.
   */
  lemma DecidedEffects(t: Db, c: Context, groupId: Id, userId: Id, approved: bool,
                       ids: nat -> Id, now: Time, failing: Failure, o: Outcome)
    requires o == Decided(t, c, groupId, userId, approved, ids, now, failing)
    ensures o.tables.groupMembers == t.groupMembers || o.tables.groupMembers == t.groupMembers + [NewMember(groupId, userId, now)]
    ensures o.tables.groupMembers != t.groupMembers ==> approved
    ensures approved && Fails(failing, InsertMember) ==> o.tables.notifications == t.notifications
    ensures !o.thrown <==> !DecisionStepFails(failing, approved)
    ensures !o.thrown ==> o.tables.notifications == t.notifications + Notices(c, groupId, userId, approved, ids, now)
    ensures !o.thrown && approved ==> IsMember(o.tables.groupMembers, groupId, userId)
  {
    var ns := Notices(c, groupId, userId, approved, ids, now);
    if !o.thrown {
      if approved {
        assert ns == [ns[0]] + [ns[1]];
        assert NewMember(groupId, userId, now) in o.tables.groupMembers;
      } else {
        assert ns == [ns[0]];
      }
    }
  }

  /**
   * `handleRequest` succeeds exactly when no awaited step fails and all
   * three lookups find their rows.
   */
  lemma ProcessedStatus(t: Db, groupId: Id, requestId: Id, userId: Id, approved: bool,
                        ids: nat -> Id, now: Time, failing: Failure, o: Outcome)
    requires o == Processed(t, groupId, requestId, userId, approved, ids, now, failing)
    ensures !o.thrown <==> !StepFails(failing, approved) && LookUp(t, groupId, userId, failing).Some?
  {
    ThrownSteps(t, groupId, userId, approved, failing);
  }

  /** An awaited step fails exactly when the status write, a lookup, or a step of the decision fails. */
  lemma ThrownSteps(t: Db, groupId: Id, userId: Id, approved: bool, failing: Failure)
    ensures !StepFails(failing, approved) && LookUp(t, groupId, userId, failing).Some? <==>
            !Fails(failing, UpdateStatus) && LookUp(t, groupId, userId, failing).Some? && !DecisionStepFails(failing, approved)
  {
    var r := LookUp(t, groupId, userId, failing);
    assert r.Some? ==> !Fails(failing, FetchGroup) && !Fails(failing, FetchAdmin) && !Fails(failing, FetchUser);
  }

  /**
   * What `handleRequest` does to the tables. The decision's status is
   * written first, so it persists whatever fails afterwards. A failed
   * status write or lookup adds no other row; at most the one member row
   * is added, only on an approval whose lookups succeeded; a failed member
   * insert stops both notifications; on success the requester is a member
   * (after an approval) and the decision's notifications are appended.
   */
  lemma ProcessedRows(t: Db, groupId: Id, requestId: Id, userId: Id, approved: bool,
                      ids: nat -> Id, now: Time, failing: Failure, o: Outcome)
    requires o == Processed(t, groupId, requestId, userId, approved, ids, now, failing)
    ensures o.tables.joinRequests ==
      if Fails(failing, UpdateStatus) then t.joinRequests else SetRequestStatus(t.joinRequests, requestId, Decision(approved), None)
    ensures Fails(failing, UpdateStatus) || LookUp(t, groupId, userId, failing).None? ==>
      o.thrown && o.tables.groupMembers == t.groupMembers && o.tables.notifications == t.notifications
    ensures o.tables.groupMembers == t.groupMembers || o.tables.groupMembers == t.groupMembers + [NewMember(groupId, userId, now)]
    ensures o.tables.groupMembers != t.groupMembers ==> approved && LookUp(t, groupId, userId, failing).Some?
    ensures approved && Fails(failing, InsertMember) ==> o.tables.notifications == t.notifications
    ensures !o.thrown ==>
      o.tables.notifications == t.notifications + Notices(LookUp(t, groupId, userId, failing).value, groupId, userId, approved, ids, now)
    ensures !o.thrown && approved ==> IsMember(o.tables.groupMembers, groupId, userId)
  {
    var c := LookUp(t, groupId, userId, failing);
    if Fails(failing, UpdateStatus) {
      assert o == Outcome(t, true);
    } else {
      var t1 := t.(joinRequests := SetRequestStatus(t.joinRequests, requestId, Decision(approved), None));
      if c.None? {
        assert o == Outcome(t1, true);
      } else {
        assert o == Decided(t1, c.value, groupId, userId, approved, ids, now, failing);
        DecidedEffects(t1, c.value, groupId, userId, approved, ids, now, failing, o);
      }
    }
  }

  /** The component's list after a decision: the request leaves it only when the handler succeeds. */
  function AfterDecision(requests: seq<RequestView>, requestId: Id, thrown: bool): (r: seq<RequestView>)
    ensures thrown ==> r == requests
    ensures !thrown ==> forall v :: v in r <==> v in requests && v.id != requestId
  {
    if thrown then requests else Filter(requests, (v: RequestView) => v.id != requestId)
  }

  // ---------------------------------------------------------------------------
  // The component

  class JoinRequestsManager {
    const groupId: Id
    var requests: seq<RequestView>
    var loading: bool

    constructor (groupId: Id)
      ensures this.groupId == groupId && requests == [] && loading
    {
      this.groupId := groupId;
      requests, loading := [], true;
    }

    /** `fetchJoinRequests`: errors are logged, and `loading` ends in every case. */
    method FetchJoinRequests(db: Store, requestsFail: bool, profilesFail: bool)
      modifies this`requests, this`loading
      ensures !loading
      ensures var r := FetchedRequests(db.Tables(), groupId, requestsFail, profilesFail);
              requests == if r.Some? then r.value else old(requests)
    {
      if requestsFail {
        loading := false;
        return;
      }
      var qs := PendingNewestFirst(db.joinRequests, groupId);
      if qs == [] {
        requests, loading := [], false;
        return;
      }
      if profilesFail {
        loading := false;
        return;
      }
      var profiles := ProfilesAmong(db.profiles, RequesterIds(qs));
      requests := Joined(qs, profiles);
      loading := false;
    }

    /**
     * `handleRequest`: the status write and the three lookups, then the
     * decision's inserts, then the list update. `thrown` is the rethrown
     * error; `onRequestProcessed` runs exactly when it is false.
     */
    method HandleRequest(db: Store, requestId: Id, userId: Id, approved: bool,
                         ids: nat -> Id, now: Time, failing: Failure) returns (thrown: bool)
      modifies db`joinRequests, db`groupMembers, db`notifications, this`requests
      ensures var o := Processed(old(db.Tables()), groupId, requestId, userId, approved, ids, now, failing);
              db.Tables() == o.tables && thrown == o.thrown
      ensures requests == AfterDecision(old(requests), requestId, thrown)
    {
      thrown := Process(db, requestId, userId, approved, ids, now, failing);
      requests := AfterDecision(requests, requestId, thrown);
    }

    /** The status write, the three lookups and the decision's inserts of `handleRequest`. */
    method Process(db: Store, requestId: Id, userId: Id, approved: bool,
                   ids: nat -> Id, now: Time, failing: Failure) returns (thrown: bool)
      modifies db`joinRequests, db`groupMembers, db`notifications
      ensures var o := Processed(old(db.Tables()), groupId, requestId, userId, approved, ids, now, failing);
              db.joinRequests == o.tables.joinRequests && db.groupMembers == o.tables.groupMembers &&
              db.notifications == o.tables.notifications && thrown == o.thrown
    {
      thrown := true;
      if !Fails(failing, UpdateStatus) {
        ghost var t := db.Tables();
        db.joinRequests := SetRequestStatus(db.joinRequests, requestId, Decision(approved), None);
        ghost var t1 := db.Tables();
        LookUpIgnoresRequests(t, t1.joinRequests, groupId, userId, failing);
        var found := LookUp(db.Tables(), groupId, userId, failing);
        if found.Some? {
          thrown := RecordDecision(db, found.value, userId, approved, ids, now, failing);
        }
      }
    }

    /** The inserts of the approve / reject branch, in source order. */
    method RecordDecision(db: Store, c: Context, userId: Id, approved: bool,
                          ids: nat -> Id, now: Time, failing: Failure) returns (thrown: bool)
      modifies db`groupMembers, db`notifications
      ensures db.groupMembers == DecidedMembers(old(db.groupMembers), groupId, userId, approved, now, failing)
      ensures db.notifications == DecidedNotices(old(db.notifications), Notices(c, groupId, userId, approved, ids, now), approved, failing)
      ensures thrown == DecisionStepFails(failing, approved)
    {
      var ns := Notices(c, groupId, userId, approved, ids, now);
      thrown := true;
      if approved {
        if !Fails(failing, InsertMember) {
          db.groupMembers := db.groupMembers + [NewMember(groupId, userId, now)];
          if !Fails(failing, NotifyAdmin) {
            db.notifications := db.notifications + [ns[0]];
            if !Fails(failing, NotifyRequester) {
              db.notifications := db.notifications + [ns[1]];
              thrown := false;
            }
          }
        }
      } else if !Fails(failing, NotifyRequester) {
        db.notifications := db.notifications + [ns[0]];
        thrown := false;
      }
    }
  }
}
