/**
 * `GroupProfile`: a group's page as seen by one user. It derives the user's
 * standing in the group from their membership row, sends a join request and
 * tells the group's administrators about it, lets a member leave, and lets an
 * administrator rename the group and tell every member.
 *
 * Every handler swallows its errors (they are only logged), so a failing step
 * is an input that stops the handler where the source's `throw` would; the
 * results of the notification inserts are never checked, so a failure there
 * only means the rows are not written.
 */
module GroupProfile {
  import opened Common
  import opened Tables

  // ---------------------------------------------------------------------------
  // checkMembershipStatus

  /** The three flags the page keeps about the user's place in the group. */
  datatype Standing = Standing(isMember: bool, isAdmin: bool, isSecondaryAdmin: bool)

  /**
   * The flags read off the user's membership row: a row makes the user a
   * member, and its `role` says whether they are the admin or a secondary
   * admin; without a row every flag is false. The admin flags never hold
   * together, and neither holds of a non-member.
   */
  function StandingOf(row: Option<Membership>): (s: Standing)
    ensures s.isMember <==> row.Some?
    ensures s.isAdmin <==> row.Some? && row.value.role == Some(Admin)
    ensures s.isSecondaryAdmin <==> row.Some? && row.value.role == Some(SecondaryAdmin)
    ensures s.isAdmin || s.isSecondaryAdmin <==> row.Some? && AdminRole(row.value.role)
    ensures (s.isAdmin ==> s.isMember) && (s.isSecondaryAdmin ==> s.isMember)
    ensures !(s.isAdmin && s.isSecondaryAdmin)
  {
    match row
    case None => Standing(false, false, false)
    case Some(m) => Standing(true, m.role == Some(Admin), m.role == Some(SecondaryAdmin))
  }

  // ---------------------------------------------------------------------------
  // handleJoinRequest

  /**
   * The notices `handleJoinRequest` builds: one `info` notice per
   * administrator row, in the order of the rows, whose metadata names the
   * requester and the new request. The text goes under the key `message`, not
   * `content`, so nothing is written to `content`; a database that refuses
   * the unknown key is the `InsertNotices` failure.
   */
  function JoinNotices(admins: seq<Membership>, groupId: Id, requester: Account,
                       requestId: Id, ids: nat -> Id, now: Time): (r: seq<Notification>)
    ensures |r| == |admins|
    ensures forall i :: 0 <= i < |r| ==> r[i].userId == admins[i].userId
    ensures forall n :: n in r ==> n.kind == Info && !n.read && n.createdAt == now
    ensures forall n :: n in r ==> n.title == "New Join Request" && n.content == ""
    ensures forall n :: n in r ==> n.metadata == Some(Metadata(Some(groupId), Some(requester.id), Some(requestId), None))
  {
    seq(|admins|, i requires 0 <= i < |admins| =>
      Notification(ids(i), admins[i].userId, "New Join Request", "",
                   Info, false, now, Some(Metadata(Some(groupId), Some(requester.id), Some(requestId), None))))
  }

  /**
   * Which step of `handleJoinRequest` reports an error. Only the request
   * insert is checked; a failed admin query (no data) or a failed notice
   * insert leaves the notices unwritten and the handler carries on.
   */
  datatype JoinFailure = JoinSucceeds | InsertRequest | FetchAdmins | InsertNotices

  /** The pending row the request inserts. */
  function PendingRow(requestId: Id, groupId: Id, userId: Id, now: Time): JoinRequest
  {
    JoinRequest(requestId, groupId, userId, Pending, now, None)
  }

  /** The tables after `handleJoinRequest` has passed its guard. */
  function JoinRequested(t: Db, groupId: Id, requester: Account,
                         requestId: Id, ids: nat -> Id, now: Time, failing: JoinFailure): (r: Db)
    ensures r.(joinRequests := t.joinRequests, notifications := t.notifications) == t
  {
    if failing == InsertRequest then t
    else
      var t1 := t.(joinRequests := t.joinRequests + [PendingRow(requestId, groupId, requester.id, now)]);
      if failing == FetchAdmins || failing == InsertNotices then t1
      else t1.(notifications := t.notifications + JoinNotices(AdminsOf(t.groupMembers, groupId), groupId, requester, requestId, ids, now))
  }

  /**
   * A failed request insert changes nothing. Otherwise exactly one pending
   * request of this user for this group is added, and the only notices
   * added, when any, go one each to the group's admin and secondary-admin
   * rows and carry the new request's id and the requester's id.
   */
  lemma JoinRequestedEffects(t: Db, groupId: Id, requester: Account,
                             requestId: Id, ids: nat -> Id, now: Time, failing: JoinFailure, r: Db)
    requires r == JoinRequested(t, groupId, requester, requestId, ids, now, failing)
    ensures failing == InsertRequest ==> r == t
    ensures failing != InsertRequest ==> r.joinRequests == t.joinRequests + [PendingRow(requestId, groupId, requester.id, now)]
    ensures var added := r.notifications[|t.notifications|..];
            && |t.notifications| <= |r.notifications| && r.notifications[..|t.notifications|] == t.notifications
            && (failing == JoinSucceeds ==> |added| == |AdminsOf(t.groupMembers, groupId)|)
            && (failing != JoinSucceeds ==> added == [])
            && forall n :: n in added ==>
                 && (exists m :: m in t.groupMembers && m.groupId == groupId && AdminRole(m.role) && m.userId == n.userId)
                 && n.metadata.Some? && n.metadata.value.requestId == Some(requestId) && n.metadata.value.userId == Some(requester.id)
  {
    var admins := AdminsOf(t.groupMembers, groupId);
    var ns := JoinNotices(admins, groupId, requester, requestId, ids, now);
    if failing == JoinSucceeds {
      assert r.notifications == t.notifications + ns;
      assert r.notifications[|t.notifications|..] == ns;
      forall n | n in ns
        ensures exists m :: m in t.groupMembers && m.groupId == groupId && AdminRole(m.role) && m.userId == n.userId
      {
        var i :| 0 <= i < |ns| && ns[i] == n;
        assert admins[i] in admins;
      }
    } else {
      assert r.notifications == t.notifications;
    }
  }

  // ---------------------------------------------------------------------------
  // checkPendingRequest

  /**
   * The `.single()` read of the user's pending request for the group: a
   * row only when there is exactly one; none, or several, read as none.
   */
  function PendingRequestOf(rows: seq<JoinRequest>, groupId: Id, userId: Id): (r: Option<JoinRequest>)
    ensures r.Some? <==> |Filter(rows, (q: JoinRequest) => q.groupId == groupId && q.userId == userId && q.status == Pending)| == 1
    ensures r.Some? ==> r.value in rows && r.value.groupId == groupId && r.value.userId == userId && r.value.status == Pending
  {
    Single(rows, (q: JoinRequest) => q.groupId == groupId && q.userId == userId && q.status == Pending)
  }

  /**
   * Two pending requests of one user for one group, which nothing in the
   * client prevents, are not found, so the page offers "Request to Join"
   * again.
   */
  lemma TwoPendingRequestsAreNotFound()
    ensures var rows := [PendingRow("r1", "g", "u", 1), PendingRow("r2", "g", "u", 2)];
      PendingRequestOf(rows, "g", "u").None?
  {
    var rows := [PendingRow("r1", "g", "u", 1), PendingRow("r2", "g", "u", 2)];
    assert rows[1..] == [rows[1]];
    assert rows[1..][1..] == [];
  }

  // ---------------------------------------------------------------------------
  // handleRenameGroup

  /** The notice `handleRenameGroup` sends each member row: no title, read left at its default. */
  function RenameNotices(members: seq<Membership>, groupId: Id, name: string, ids: nat -> Id, now: Time): (r: seq<Notification>)
    ensures |r| == |members|
    ensures forall i :: 0 <= i < |r| ==> r[i].userId == members[i].userId
    ensures forall n :: n in r ==> n.kind == GroupRenamed && n.metadata == Some(Metadata(Some(groupId), None, None, None))
  {
    seq(|members|, i requires 0 <= i < |members| =>
      Notification(ids(i), members[i].userId, "", "Group has been renamed to \"" + name + "\"",
                   GroupRenamed, false, now, Some(Metadata(Some(groupId), None, None, None))))
  }

  /**
   * Which step of `handleRenameGroup` reports an error. Only the name
   * update is checked; a failed member query or notice insert leaves the
   * notices unwritten.
   */
  datatype RenameFailure = RenameSucceeds | UpdateName | FetchMembers | InsertRenameNotices

  /** The tables after `handleRenameGroup` has passed its guard, `name` being the trimmed new name. */
  function Renamed(t: Db, groupId: Id, name: string, ids: nat -> Id, now: Time, failing: RenameFailure): (r: Db)
    ensures r.(groups := t.groups, notifications := t.notifications) == t
  {
    if failing == UpdateName then t
    else
      var t1 := t.(groups := RenameGroup(t.groups, groupId, name));
      if failing == FetchMembers || failing == InsertRenameNotices then t1
      else t1.(notifications := t.notifications + RenameNotices(MembersOf(t.groupMembers, groupId), groupId, name, ids, now))
  }

  /**
   * A failed update changes nothing. Otherwise the group, and no other,
   * takes the trimmed name, which is not blank; and on success one
   * `group_renamed` notice goes to each member row of the group.
   */
  lemma RenamedEffects(t: Db, groupId: Id, newName: string, ids: nat -> Id, now: Time, failing: RenameFailure, r: Db)
    requires !Blank(newName)
    requires r == Renamed(t, groupId, Trim(newName), ids, now, failing)
    ensures failing == UpdateName ==> r == t
    ensures failing != UpdateName ==>
      var g := GroupWithId(t.groups, groupId);
      && GroupWithId(r.groups, groupId) == (if g.Some? then Some(g.value.(name := Trim(newName))) else None)
      && Trim(newName) != "" && Trim(Trim(newName)) == Trim(newName)
      && forall i :: 0 <= i < |t.groups| && t.groups[i].id != groupId ==> r.groups[i] == t.groups[i]
    ensures failing == RenameSucceeds ==>
      var added := r.notifications[|t.notifications|..];
      && |t.notifications| <= |r.notifications| && r.notifications[..|t.notifications|] == t.notifications
      && |added| == |MembersOf(t.groupMembers, groupId)|
      && forall n :: n in added ==> n.kind == GroupRenamed && IsMember(t.groupMembers, groupId, n.userId)
  {
    var name := Trim(newName);
    if failing != UpdateName {
      RenamedGroupWithId(t.groups, groupId, name);
      TrimIdempotent(newName);
    }
    if failing == RenameSucceeds {
      var ns := RenameNotices(MembersOf(t.groupMembers, groupId), groupId, name, ids, now);
      assert r.notifications[|t.notifications|..] == ns;
      RenameNoticesReachMembers(t.groupMembers, groupId, name, ids, now);
    }
  }

  /** Each rename notice goes to a member of the group. */
  lemma RenameNoticesReachMembers(rows: seq<Membership>, groupId: Id, name: string, ids: nat -> Id, now: Time)
    ensures forall n :: n in RenameNotices(MembersOf(rows, groupId), groupId, name, ids, now) ==> IsMember(rows, groupId, n.userId)
  {
    var members := MembersOf(rows, groupId);
    var ns := RenameNotices(members, groupId, name, ids, now);
    forall n | n in ns
      ensures IsMember(rows, groupId, n.userId)
    {
      var i :| 0 <= i < |ns| && ns[i] == n;
      assert members[i] in members;
    }
  }

  // ---------------------------------------------------------------------------
  // The component

  class GroupProfile {
    const groupId: Id
    var group: Option<Group>
    var isAdmin: bool
    var isSecondaryAdmin: bool
    var isMember: bool
    var hasRequestPending: bool
    var loading: bool
    var showRenameModal: bool
    var newGroupName: string

    /** The flags agree with each other: the admin is a member. */
    predicate Valid()
      reads this
    {
      isAdmin ==> isMember
    }

    constructor (groupId: Id)
      ensures this.groupId == groupId && group.None? && loading && !showRenameModal && newGroupName == ""
      ensures !isAdmin && !isSecondaryAdmin && !isMember && !hasRequestPending
      ensures Valid()
    {
      this.groupId := groupId;
      group, loading, showRenameModal, newGroupName := None, true, false, "";
      isAdmin, isSecondaryAdmin, isMember, hasRequestPending := false, false, false, false;
    }

    /** The "Request to Join" button is shown. */
    predicate OffersJoinRequest()
      reads this
    {
      !isMember && !hasRequestPending
    }

    /** `fetchGroupDetails`: `.single()` reports an error when the group is missing, and errors leave `group` as it was. */
    method FetchGroupDetails(db: Store, queryFails: bool)
      modifies this`group
      ensures var g := GroupWithId(db.groups, groupId);
              group == if !queryFails && g.Some? then g else old(group)
    {
      var g := GroupWithId(db.groups, groupId);
      if !queryFails && g.Some? {
        group := g;
      }
    }

    /**
     * `checkMembershipStatus`: without a user nothing happens, not even
     * the end of `loading`; a failed query keeps the flags.
     */
    method CheckMembershipStatus(db: Store, user: Option<Account>, queryFails: bool)
      modifies this`isMember, this`isAdmin, this`isSecondaryAdmin, this`loading
      ensures user.None? ==> loading == old(loading)
      ensures user.Some? ==> !loading
      ensures Standing(isMember, isAdmin, isSecondaryAdmin) ==
        if user.Some? && !queryFails then StandingOf(MembershipOf(db.groupMembers, groupId, user.value.id))
        else Standing(old(isMember), old(isAdmin), old(isSecondaryAdmin))
      ensures old(Valid()) ==> Valid()
    {
      if user.None? {
        return;
      }
      if !queryFails {
        var s := StandingOf(MembershipOf(db.groupMembers, groupId, user.value.id));
        isMember, isAdmin, isSecondaryAdmin := s.isMember, s.isAdmin, s.isSecondaryAdmin;
      }
      loading := false;
    }

    /**
     * `checkPendingRequest`: `.single()` reports an error unless the user
     * has exactly one pending request here, and an error keeps the flag, so
     * the check can raise `hasRequestPending` but never lower it.
     */
    method CheckPendingRequest(db: Store, user: Option<Account>, queryFails: bool)
      modifies this`hasRequestPending
      ensures hasRequestPending ==
        (old(hasRequestPending) ||
         (user.Some? && !queryFails && PendingRequestOf(db.joinRequests, groupId, user.value.id).Some?))
    {
      if user.None? || queryFails {
        return;
      }
      var found := PendingRequestOf(db.joinRequests, groupId, user.value.id);
      if found.Some? {
        hasRequestPending := true;
      }
    }

    /**
     * `handleJoinRequest`: only a signed-in user who is offered the button
     * gets past the guard; then the request, the notices to the
     * administrators, and the pending flag, which rises exactly when the
     * request was inserted.
     */
    method HandleJoinRequest(db: Store, user: Option<Account>, requestId: Id, ids: nat -> Id, now: Time, failing: JoinFailure)
      modifies db`joinRequests, db`notifications, this`hasRequestPending
      ensures user.None? || !old(OffersJoinRequest()) ==> db.Tables() == old(db.Tables()) && hasRequestPending == old(hasRequestPending)
      ensures user.Some? && old(OffersJoinRequest()) ==>
        && db.Tables() == JoinRequested(old(db.Tables()), groupId, user.value, requestId, ids, now, failing)
        && hasRequestPending == (failing != InsertRequest)
    {
      if user.None? || isMember || hasRequestPending {
        return;
      }
      if failing == InsertRequest {
        return;
      }
      var admins := AdminsOf(db.groupMembers, groupId);
      db.joinRequests := db.joinRequests + [PendingRow(requestId, groupId, user.value.id, now)];
      if failing != FetchAdmins && failing != InsertNotices {
        db.notifications := db.notifications + JoinNotices(admins, groupId, user.value, requestId, ids, now);
      }
      hasRequestPending := true;
    }

    /**
     * `handleExitGroup`: a signed-in member who is not the admin and
     * confirms leaves the group: their row is deleted and `isMember`
     * drops. The secondary-admin flag is left as it was.
     */
    method HandleExitGroup(db: Store, user: Option<Account>, confirmed: bool, deleteFails: bool)
      modifies db`groupMembers, this`isMember
      ensures var leaves := user.Some? && old(isMember) && !isAdmin && confirmed && !deleteFails;
              && db.groupMembers == (if leaves then WithoutMembership(old(db.groupMembers), groupId, user.value.id) else old(db.groupMembers))
              && isMember == (old(isMember) && !leaves)
      ensures old(Valid()) ==> Valid()
    {
      if user.None? || !isMember || isAdmin {
        return;
      }
      if !confirmed || deleteFails {
        return;
      }
      db.groupMembers := WithoutMembership(db.groupMembers, groupId, user.value.id);
      isMember := false;
    }

    /** The guard of `handleRenameGroup`: an admin or secondary admin, signed in, with a name that is not blank. */
    predicate MayRename(user: Option<Account>)
      reads this
    {
      (isAdmin || isSecondaryAdmin) && user.Some? && !Blank(newGroupName)
    }

    /**
     * `handleRenameGroup`: past the guard, the group is renamed to the
     * trimmed name and the members are notified; once the update has
     * succeeded the modal closes, the field is cleared and the group is
     * fetched again.
     */
    method HandleRenameGroup(db: Store, user: Option<Account>, ids: nat -> Id, now: Time,
                             failing: RenameFailure, detailsFail: bool)
      modifies db`groups, db`notifications, this`showRenameModal, this`newGroupName, this`group
      ensures db.Tables() ==
        if old(MayRename(user)) then Renamed(old(db.Tables()), groupId, Trim(old(newGroupName)), ids, now, failing) else old(db.Tables())
      ensures old(MayRename(user)) && failing != UpdateName ==>
        && !showRenameModal && newGroupName == ""
        && group == (if !detailsFail && GroupWithId(db.groups, groupId).Some? then GroupWithId(db.groups, groupId) else old(group))
      ensures !(old(MayRename(user)) && failing != UpdateName) ==>
        showRenameModal == old(showRenameModal) && newGroupName == old(newGroupName) && group == old(group)
    {
      if !MayRename(user) {
        return;
      }
      if failing == UpdateName {
        return;
      }
      RenameRows(db, Trim(newGroupName), ids, now, failing);
      showRenameModal, newGroupName := false, "";
      FetchGroupDetails(db, detailsFail);
    }

    /** The writes of `handleRenameGroup`, in source order. */
    method RenameRows(db: Store, name: string, ids: nat -> Id, now: Time, failing: RenameFailure)
      modifies db`groups, db`notifications
      ensures db.Tables() == Renamed(old(db.Tables()), groupId, name, ids, now, failing)
    {
      if failing == UpdateName {
        return;
      }
      var members := MembersOf(db.groupMembers, groupId);
      db.groups := RenameGroup(db.groups, groupId, name);
      if failing != FetchMembers && failing != InsertRenameNotices {
        db.notifications := db.notifications + RenameNotices(members, groupId, name, ids, now);
      }
    }
  }
}
