/**
 * `GroupMembers`: the member list of a group with the administrator's
 * remove action.
 */
module GroupMembers {
  import opened Common
  import opened Tables

  /** A row of the list: the profile's id, name and avatar, the row's role, and `joined_at` from `created_at`. */
  datatype MemberEntry = MemberEntry(id: Id, username: string, avatarUrl: Option<string>, role: Option<Role>, joinedAt: Time)

  /**
   * `fetchMembers`'s list: one entry per member row of the group, in row
   * order, each naming the row's user with that profile's name and avatar. A row whose user has no profile
   * makes `member.profiles.id` throw, so the whole fetch fails (`None`).
   */
  function Formatted(t: Db, groupId: Id): (r: Option<seq<MemberEntry>>)
    ensures var rows := MembersOf(t.groupMembers, groupId);
      && (r.None? <==> exists m :: m in rows && ProfileWithId(t.profiles, m.userId).None?)
      && (r.Some? ==> |r.value| == |rows|)
      && (r.Some? ==>
            forall i :: 0 <= i < |rows| ==>
              && r.value[i].id == rows[i].userId
              && r.value[i].role == rows[i].role
              && r.value[i].joinedAt == rows[i].createdAt
              && r.value[i].username == ProfileWithId(t.profiles, rows[i].userId).value.username
              && r.value[i].avatarUrl == ProfileWithId(t.profiles, rows[i].userId).value.avatarUrl)
  {
    var rows := MembersOf(t.groupMembers, groupId);
    if exists m :: m in rows && ProfileWithId(t.profiles, m.userId).None? then None
    else
      assert forall i :: 0 <= i < |rows| ==> ProfileWithId(t.profiles, rows[i].userId).Some? by {
        forall i | 0 <= i < |rows|
          ensures ProfileWithId(t.profiles, rows[i].userId).Some?
        {
          assert rows[i] in rows;
        }
      }
      Some(seq(|rows|, i requires 0 <= i < |rows| =>
        var p := ProfileWithId(t.profiles, rows[i].userId).value;
        MemberEntry(p.id, p.username, p.avatarUrl, rows[i].role, rows[i].createdAt)))
  }

  /** `prev.filter(member => member.id !== memberId)`. */
  function WithoutEntry(members: seq<MemberEntry>, memberId: Id): (r: seq<MemberEntry>)
    ensures forall e :: e in r <==> e in members && e.id != memberId
  {
    Filter(members, (e: MemberEntry) => e.id != memberId)
  }

  /** The remove button is shown to an administrator, for every member but themselves. */
  predicate OffersRemove(isAdmin: bool, e: MemberEntry, user: Option<Account>)
  {
    isAdmin && (user.None? || e.id != user.value.id)
  }

  /**
   * Removing an offered member leaves the user's own membership, and every
   * other pair's, as it was: an administrator cannot remove themselves
   * from the list.
   */
  lemma OfferedRemovalSparesUser(rows: seq<Membership>, groupId: Id, isAdmin: bool, e: MemberEntry, user: Account)
    requires OffersRemove(isAdmin, e, Some(user))
    ensures IsMember(WithoutMembership(rows, groupId, e.id), groupId, user.id) == IsMember(rows, groupId, user.id)
  {
  }

  class GroupMembers {
    const groupId: Id
    const isAdmin: bool
    var members: seq<MemberEntry>
    var loading: bool

    constructor (groupId: Id, isAdmin: bool)
      ensures this.groupId == groupId && this.isAdmin == isAdmin && members == [] && loading
    {
      this.groupId, this.isAdmin := groupId, isAdmin;
      members, loading := [], true;
    }

    /** `fetchMembers`: a query error or a missing profile keeps the list; `loading` ends in every case. */
    method FetchMembers(db: Store, queryFails: bool)
      modifies this`members, this`loading
      ensures !loading
      ensures var f := Formatted(db.Tables(), groupId);
              members == if !queryFails && f.Some? then f.value else old(members)
    {
      if !queryFails {
        var f := Formatted(db.Tables(), groupId);
        if f.Some? {
          members := f.value;
        }
      }
      loading := false;
    }

    /** `removeMember`: exactly the `(groupId, memberId)` rows go, and the list drops that member only after success. */
    method RemoveMember(db: Store, memberId: Id, deleteFails: bool)
      modifies db`groupMembers, this`members
      ensures deleteFails ==> db.groupMembers == old(db.groupMembers) && members == old(members)
      ensures !deleteFails ==>
        db.groupMembers == WithoutMembership(old(db.groupMembers), groupId, memberId) &&
        members == WithoutEntry(old(members), memberId)
    {
      if deleteFails {
        return;
      }
      db.groupMembers := WithoutMembership(db.groupMembers, groupId, memberId);
      members := WithoutEntry(members, memberId);
    }
  }
}
