/**
 * `NotificationList`: the notification panel over the client-wide store. It
 * finds out for which groups the user is an administrator, shows the
 * accept / decline actions of a join request only there, carries out such a
 * decision, and opens the group of a clicked `group_member` notice.
 */
module NotificationList {
  import opened Common
  import opened Tables
  import opened NotificationStore
  import GroupProfile
  import JoinRequestsManager

  // ---------------------------------------------------------------------------
  // checkGroupAdminStatus

  /** A `group_member` notice with a truthy `metadata.group_id`: the notices whose group is checked. */
  predicate NamesGroup(n: Notification)
  {
    n.kind == GroupMember && n.metadata.Some? && Truthy(n.metadata.value.groupId)
  }

  /** The group ids of the notices that name a group, in list order, repeats kept. */
  function GroupIds(ns: seq<Notification>): (r: seq<Id>)
    ensures forall g :: g in r ==> g != ""
    ensures forall g :: g in r <==> exists n :: n in ns && NamesGroup(n) && n.metadata.value.groupId == Some(g)
  {
    if ns == [] then []
    else
      var rest := GroupIds(ns[1..]);
      assert forall n :: n in ns <==> n == ns[0] || n in ns[1..];
      if NamesGroup(ns[0]) then [ns[0].metadata.value.groupId.value] + rest else rest
  }

  /**
   * `[...new Set(groupIds)]`: every group named by a notice, each once.
   * None is empty, so the loop's `if (!groupId) continue` never skips one.
   */
  function CheckedGroups(ns: seq<Notification>): (r: seq<Id>)
    ensures forall g :: g in r <==> exists n :: n in ns && NamesGroup(n) && n.metadata.value.groupId == Some(g)
    ensures forall g :: g in r ==> g != ""
    ensures forall i, j :: 0 <= i < j < |r| ==> r[i] != r[j]
  {
    Dedupe(GroupIds(ns))
  }

  /** `data?.role === 'admin' || data?.role === 'secondary_admin'` for the user's row in the group. */
  predicate IsGroupAdmin(rows: seq<Membership>, groupId: Id, userId: Id)
  {
    var m := MembershipOf(rows, groupId, userId);
    m.Some? && AdminRole(m.value.role)
  }

  /**
   * The map the loop builds over `groups`: a key for each group, true
   * exactly when that group's query succeeds and finds the user as admin
   * or secondary admin (a failed `.single()` yields no data).
   */
  function AdminStatus(rows: seq<Membership>, groups: seq<Id>, userId: Id, queryFails: Id -> bool): (m: map<Id, bool>)
    ensures forall g :: g in m <==> g in groups
    ensures forall g :: g in m ==> (m[g] <==> !queryFails(g) && IsGroupAdmin(rows, g, userId))
  {
    if groups == [] then map[]
    else
      var g := groups[|groups| - 1];
      var m := AdminStatus(rows, groups[..|groups| - 1], userId, queryFails);
      assert forall x :: x in groups <==> x in groups[..|groups| - 1] || x == g by {
        assert groups == groups[..|groups| - 1] + [g];
      }
      m[g := !queryFails(g) && IsGroupAdmin(rows, g, userId)]
  }

  /** One more query: the map over a longer prefix adds that group's answer. */
  lemma AdminStatusExtend(rows: seq<Membership>, groups: seq<Id>, i: nat, userId: Id, queryFails: Id -> bool)
    requires i < |groups|
    ensures AdminStatus(rows, groups[..i + 1], userId, queryFails)
         == AdminStatus(rows, groups[..i], userId, queryFails)[groups[i] := !queryFails(groups[i]) && IsGroupAdmin(rows, groups[i], userId)]
  {
    assert groups[..i + 1][..i] == groups[..i];
  }

  // ---------------------------------------------------------------------------
  // The actions shown for a notice

  /** `isGroupAdmin`: the map's entry for the notice's group; a missing entry reads as `undefined`, which is false. */
  predicate AdminOfNoticeGroup(status: map<Id, bool>, n: Notification)
  {
    n.metadata.Some? && Truthy(n.metadata.value.groupId) &&
    var g := n.metadata.value.groupId.value;
    g in status && status[g]
  }

  /** The accept / decline buttons are shown for the notice. */
  predicate OffersJoinActions(status: map<Id, bool>, n: Notification)
  {
    n.kind == GroupMember && n.metadata.Some? && n.metadata.value.action == Some("join_request") && AdminOfNoticeGroup(status, n)
  }

  /** The mark-as-read button is shown for the notice. */
  predicate OffersMarkRead(n: Notification)
  {
    !n.read
  }

  /**
   * No notice this client creates offers the accept / decline actions: the
   * join-request notices of the group page are `info` notices without an
   * action, the rename notices are `group_renamed`, and the decision
   * notices carry other actions.
   */
  lemma NoCreatedNoticeOffersJoinActions(status: map<Id, bool>, admins: seq<Membership>, members: seq<Membership>,
                                         groupId: Id, requester: Account, name: string, requestId: Id,
                                         c: JoinRequestsManager.Context, userId: Id, approved: bool, ids: nat -> Id, now: Time)
    ensures forall n :: n in GroupProfile.JoinNotices(admins, groupId, requester, requestId, ids, now) ==> !OffersJoinActions(status, n)
    ensures forall n :: n in GroupProfile.RenameNotices(members, groupId, name, ids, now) ==> !OffersJoinActions(status, n)
    ensures forall n :: n in JoinRequestsManager.Notices(c, groupId, userId, approved, ids, now) ==> !OffersJoinActions(status, n)
  {
    var ns := JoinRequestsManager.Notices(c, groupId, userId, approved, ids, now);
    assert "join_approved" != "join_request" by {
      assert "join_approved"[5] != "join_request"[5];
    }
    assert "join_request_approved" != "join_request" by {
      assert |"join_request_approved"| != |"join_request"|;
    }
    assert "join_request_rejected" != "join_request" by {
      assert |"join_request_rejected"| != |"join_request"|;
    }
    assert approved ==> ns == [ns[0], ns[1]];
    assert !approved ==> ns == [ns[0]];
  }

  // ---------------------------------------------------------------------------
  // handleJoinRequest

  /** The handler acts only on a notice with a truthy `request_id` and `group_id`. */
  predicate Decidable(n: Notification)
  {
    n.metadata.Some? && Truthy(n.metadata.value.requestId) && Truthy(n.metadata.value.groupId)
  }

  /**
   * The tables after `handleJoinRequest`. Only the status update's error is
   * checked (`updateFails`); the member insert's result is ignored
   * (`insertFails` only decides whether the row is written), and the
   * notice's delete is the store's, which logs its errors (`deleteFails`).
   * The insert writes the notice's `metadata.user_id`; without one the row
   * has no user and the table refuses it.
   */
  function JoinDecided(t: Db, n: Notification, approved: bool, now: Time,
                       updateFails: bool, insertFails: bool, deleteFails: bool): (r: Db)
    ensures r.(joinRequests := t.joinRequests, groupMembers := t.groupMembers, notifications := t.notifications) == t
  {
    if !Decidable(n) || updateFails then t
    else
      var md := n.metadata.value;
      var t1 := t.(joinRequests := SetRequestStatus(t.joinRequests, md.requestId.value, Decision(approved), None));
      var t2 := if approved && !insertFails && md.userId.Some?
                then t1.(groupMembers := t.groupMembers + [NewMember(md.groupId.value, md.userId.value, now)])
                else t1;
      if deleteFails then t2 else t2.(notifications := WithoutNotification(t.notifications, n.id))
  }

  /**
   * A notice without a request or group id, or a failed status update,
   * changes nothing: no member and the notice stays. Otherwise the request
   * takes the decision's status; an approval adds one `member` row for the
   * notice's user and a rejection adds none; and the notice is deleted in
   * both cases, even when the member insert failed.
   */
  lemma JoinDecidedEffects(t: Db, n: Notification, approved: bool, now: Time,
                           updateFails: bool, insertFails: bool, deleteFails: bool, r: Db)
    requires r == JoinDecided(t, n, approved, now, updateFails, insertFails, deleteFails)
    ensures !Decidable(n) || updateFails ==> r == t
    ensures Decidable(n) && !updateFails ==>
      var md := n.metadata.value;
      && r.joinRequests == SetRequestStatus(t.joinRequests, md.requestId.value, Decision(approved), None)
      && (approved && !insertFails && md.userId.Some? ==>
            r.groupMembers == t.groupMembers + [NewMember(md.groupId.value, md.userId.value, now)])
      && (!approved || insertFails ==> r.groupMembers == t.groupMembers)
      && (!deleteFails ==> NoticeWithId(r.notifications, n.id).None? && |r.notifications| <= |t.notifications|)
    ensures r.groupMembers != t.groupMembers ==> approved && !updateFails && !insertFails
  {
  }

  // ---------------------------------------------------------------------------
  // handleNotificationClick

  /** A click opens the notice's group only for a `group_member` notice naming one. */
  predicate OpensGroup(n: Notification)
  {
    NamesGroup(n)
  }

  // ---------------------------------------------------------------------------
  // The component

  class NotificationList {
    var groupAdminStatus: map<Id, bool>

    constructor ()
      ensures groupAdminStatus == map[]
    {
      groupAdminStatus := map[];
    }

    predicate OffersJoinActionsFor(n: Notification)
      reads this
    {
      OffersJoinActions(groupAdminStatus, n)
    }

    /**
     * `checkGroupAdminStatus` over the store's list `ns`: without a user
     * nothing happens; otherwise one query per distinct group named by a
     * `group_member` notice, and the map is replaced by their answers.
     */
    method CheckGroupAdminStatus(db: Store, ns: seq<Notification>, user: Option<Account>, queryFails: Id -> bool)
      modifies this`groupAdminStatus
      ensures user.None? ==> groupAdminStatus == old(groupAdminStatus)
      ensures user.Some? ==> groupAdminStatus == AdminStatus(db.groupMembers, CheckedGroups(ns), user.value.id, queryFails)
    {
      if user.None? {
        return;
      }
      var groups := CheckedGroups(ns);
      var rows := db.groupMembers;
      var uid := user.value.id;
      var status: map<Id, bool> := map[];
      var i := 0;
      while i < |groups|
        invariant 0 <= i <= |groups|
        invariant status == AdminStatus(rows, groups[..i], uid, queryFails)
      {
        var g := groups[i];
        var row := if queryFails(g) then None else MembershipOf(rows, g, uid);
        var isAdmin := row.Some? && AdminRole(row.value.role);
        assert isAdmin == (!queryFails(g) && IsGroupAdmin(rows, g, uid));
        AdminStatusExtend(rows, groups, i, uid, queryFails);
        status := status[g := isAdmin];
        i := i + 1;
      }
      assert groups[..i] == groups;
      groupAdminStatus := status;
    }

    /** `handleMarkAsRead`: the store's action; `closes` is the panel's `onClose`, judged on the count before it. */
    method HandleMarkAsRead(db: Store, store: NotificationStore, id: Id, updateFails: bool) returns (closes: bool)
      modifies store, db`notifications
      ensures closes == (old(store.unreadCount) <= 1)
      ensures updateFails ==> store.Snapshot() == old(store.Snapshot()) && db.notifications == old(db.notifications)
      ensures !updateFails ==> store.Snapshot() == MarkedRead(old(store.Snapshot()), id) && db.notifications == MarkRead(old(db.notifications), id)
    {
      closes := store.unreadCount <= 1;
      store.MarkAsRead(db, id, updateFails);
    }

    /** `handleClearNotification`: the store's action; `closes` is judged on the list before it. */
    method HandleClearNotification(db: Store, store: NotificationStore, id: Id, deleteFails: bool) returns (closes: bool)
      modifies store, db`notifications
      ensures closes == (|old(store.notifications)| <= 1)
      ensures deleteFails ==> store.Snapshot() == old(store.Snapshot()) && db.notifications == old(db.notifications)
      ensures !deleteFails ==> store.Snapshot() == Cleared(old(store.Snapshot()), id) && db.notifications == WithoutNotification(old(db.notifications), id)
    {
      closes := |store.notifications| <= 1;
      store.ClearNotification(db, id, deleteFails);
    }

    /**
     * `handleJoinRequest`: the status update, then for an approval the
     * member insert, then the notice's removal through the store.
     */
    method HandleJoinRequest(db: Store, store: NotificationStore, n: Notification, approved: bool, now: Time,
                             updateFails: bool, insertFails: bool, deleteFails: bool)
      modifies db`joinRequests, db`groupMembers, db`notifications, store
      ensures var r := JoinDecided(old(db.Tables()), n, approved, now, updateFails, insertFails, deleteFails);
              db.joinRequests == r.joinRequests && db.groupMembers == r.groupMembers && db.notifications == r.notifications
      ensures store.Snapshot() ==
        if Decidable(n) && !updateFails && !deleteFails then Cleared(old(store.Snapshot()), n.id) else old(store.Snapshot())
    {
      if !Decidable(n) || updateFails {
        return;
      }
      var md := n.metadata.value;
      db.joinRequests := SetRequestStatus(db.joinRequests, md.requestId.value, Decision(approved), None);
      if approved && !insertFails && md.userId.Some? {
        db.groupMembers := db.groupMembers + [NewMember(md.groupId.value, md.userId.value, now)];
      }
      var _ := HandleClearNotification(db, store, n.id, deleteFails);
    }

    /** `handleNotificationClick`: only a notice that opens a group is marked read, and the panel closes. */
    method HandleNotificationClick(db: Store, store: NotificationStore, n: Notification, updateFails: bool) returns (closes: bool)
      modifies store, db`notifications
      ensures closes == OpensGroup(n)
      ensures store.Snapshot() ==
        if OpensGroup(n) && !updateFails then MarkedRead(old(store.Snapshot()), n.id) else old(store.Snapshot())
      ensures db.notifications ==
        if OpensGroup(n) && !updateFails then MarkRead(old(db.notifications), n.id) else old(db.notifications)
    {
      closes := false;
      if OpensGroup(n) {
        var _ := HandleMarkAsRead(db, store, n.id, updateFails);
        closes := true;
      }
    }
  }
}
