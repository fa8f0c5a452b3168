/**
 * `GroupList`: every group with the user's membership and the member count,
 * and direct joining and leaving, which bypass join requests.
 */
module GroupList {
  import opened Common
  import opened Tables

  /** A listed group with `is_member` and `member_count` attached. */
  datatype ListedGroup = ListedGroup(group: Group, isMember: bool, memberCount: nat)

  /**
   * `checkMembership(groupId)`: false without a user id or on a query
   * error, otherwise whether the user has a row in the group.
   */
  function CheckMembership(rows: seq<Membership>, groupId: Id, user: Option<Account>, queryFails: bool): (b: bool)
    ensures b <==> user.Some? && user.value.id != "" && !queryFails && IsMember(rows, groupId, user.value.id)
  {
    if user.None? || user.value.id == "" then false
    else if queryFails then false
    else MembershipOf(rows, groupId, user.value.id).Some?
  }

  /**
   * `fetchGroups`'s list: every group, in table order, with the user's
   * membership and `member_count:group_members(count)` (a count, so the
   * `|| 0` default is the count itself).
   */
  function Listed(t: Db, user: Option<Account>, membershipFails: Id -> bool): (r: seq<ListedGroup>)
    ensures |r| == |t.groups|
    ensures forall i :: 0 <= i < |r| ==> r[i].group == t.groups[i]
    ensures forall i :: 0 <= i < |r| ==>
      r[i].isMember == CheckMembership(t.groupMembers, t.groups[i].id, user, membershipFails(t.groups[i].id))
    ensures forall i :: 0 <= i < |r| ==> r[i].memberCount == |MembersOf(t.groupMembers, t.groups[i].id)|
    ensures forall i :: 0 <= i < |r| && r[i].isMember ==> r[i].memberCount > 0
  {
    var r := Map(t.groups, (g: Group) =>
      ListedGroup(g, CheckMembership(t.groupMembers, g.id, user, membershipFails(g.id)), |MembersOf(t.groupMembers, g.id)|));
    forall i | 0 <= i < |r| && r[i].isMember
      ensures r[i].memberCount > 0
    {
      var g := t.groups[i];
      assert r[i].isMember == CheckMembership(t.groupMembers, g.id, user, membershipFails(g.id));
      assert user.Some?;
      assert IsMember(t.groupMembers, g.id, user.value.id);
      var m :| m in t.groupMembers && m.groupId == g.id && m.userId == user.value.id;
      assert m in MembersOf(t.groupMembers, g.id);
    }
    r
  }

  class GroupList {
    var groups: seq<ListedGroup>
    var loading: bool

    constructor ()
      ensures groups == [] && loading
    {
      groups, loading := [], true;
    }

    /** `fetchGroups`: a failed group query keeps the list; `loading` ends in every case. */
    method FetchGroups(db: Store, user: Option<Account>, groupsFail: bool, membershipFails: Id -> bool)
      modifies this`groups, this`loading
      ensures !loading
      ensures groups == if groupsFail then old(groups) else Listed(db.Tables(), user, membershipFails)
    {
      if !groupsFail {
        groups := Listed(db.Tables(), user, membershipFails);
      }
      loading := false;
    }

    /**
     * `joinGroup` for the signed-in `user`: a `member` row is inserted
     * directly, without a join request, then the list is fetched again.
     */
    method JoinGroup(db: Store, user: Account, groupId: Id, now: Time, insertFails: bool,
                     groupsFail: bool, membershipFails: Id -> bool)
      modifies db`groupMembers, this`groups, this`loading
      ensures db.groupMembers == if insertFails then old(db.groupMembers) else old(db.groupMembers) + [NewMember(groupId, user.id, now)]
      ensures insertFails ==> groups == old(groups) && loading == old(loading)
      ensures !insertFails ==> !loading && groups == if groupsFail then old(groups) else Listed(db.Tables(), Some(user), membershipFails)
      ensures !insertFails && !groupsFail && user.id != "" ==>
        forall i :: 0 <= i < |groups| && groups[i].group.id == groupId && !membershipFails(groupId) ==> groups[i].isMember
    {
      if insertFails {
        return;
      }
      db.groupMembers := db.groupMembers + [NewMember(groupId, user.id, now)];
      assert NewMember(groupId, user.id, now) in db.groupMembers;
      FetchGroups(db, Some(user), groupsFail, membershipFails);
    }

    /** `leaveGroup` for the signed-in `user`: only that user's rows in that group go, then the list is fetched again. */
    method LeaveGroup(db: Store, user: Account, groupId: Id, deleteFails: bool, groupsFail: bool, membershipFails: Id -> bool)
      modifies db`groupMembers, this`groups, this`loading
      ensures db.groupMembers == if deleteFails then old(db.groupMembers) else WithoutMembership(old(db.groupMembers), groupId, user.id)
      ensures deleteFails ==> groups == old(groups) && loading == old(loading)
      ensures !deleteFails ==> !loading && groups == if groupsFail then old(groups) else Listed(db.Tables(), Some(user), membershipFails)
      ensures !deleteFails && !groupsFail ==> forall i :: 0 <= i < |groups| && groups[i].group.id == groupId ==> !groups[i].isMember
    {
      if deleteFails {
        return;
      }
      db.groupMembers := WithoutMembership(db.groupMembers, groupId, user.id);
      FetchGroups(db, Some(user), groupsFail, membershipFails);
    }
  }
}
