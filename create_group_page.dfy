/**
 * `CreateGroup` (the groups page form): creates the group with the name and
 * description as typed and adds the creator as a member without a role.
 */
module CreateGroupPage {
  import opened Common
  import opened Tables
  import GroupProfile

  /** The group row the form inserts: name and description untrimmed; the other columns are left to the database. */
  function PageGroup(groupId: Id, user: Account, name: string, description: string): (g: Group)
    ensures g.id == groupId && g.createdBy == user.id && g.name == name && g.description == description
  {
    Group(groupId, name, description, None, user.id, None, None, [])
  }

  /** The creator's row: neither `role` nor the flags are written. */
  function CreatorRow(groupId: Id, userId: Id, now: Time): Membership
  {
    Membership(groupId, userId, None, None, None, now)
  }

  /** Which awaited step of `handleSubmit` reports an error; each one throws. */
  datatype Failure = NoFailure | InsertGroup | InsertMember

  function Submitted(t: Db, groupId: Id, user: Account, name: string, description: string, now: Time, failing: Failure): (r: Db)
    ensures r.(groups := t.groups, groupMembers := t.groupMembers) == t
  {
    if failing == InsertGroup then t
    else
      var t1 := t.(groups := t.groups + [PageGroup(groupId, user, name, description)]);
      if failing == InsertMember then t1
      else t1.(groupMembers := t.groupMembers + [CreatorRow(groupId, user.id, now)])
  }

  /**
   * A failed group insert writes nothing. On success the creator is a
   * member of the new group, but, having no role, neither its admin nor a
   * secondary admin on the group page.
   */
  lemma SubmittedEffects(t: Db, groupId: Id, user: Account, name: string, description: string, now: Time, failing: Failure, r: Db)
    requires r == Submitted(t, groupId, user, name, description, now, failing)
    ensures failing == InsertGroup ==> r == t
    ensures r.groupMembers != t.groupMembers ==> r.groups == t.groups + [PageGroup(groupId, user, name, description)]
    ensures failing == NoFailure ==>
      && r.groupMembers == t.groupMembers + [CreatorRow(groupId, user.id, now)]
      && IsMember(r.groupMembers, groupId, user.id)
      && GroupProfile.StandingOf(Some(CreatorRow(groupId, user.id, now))) == GroupProfile.Standing(true, false, false)
  {
    if failing == NoFailure {
      assert CreatorRow(groupId, user.id, now) in r.groupMembers;
    }
  }

  class CreateGroupPage {
    var name: string
    var description: string
    var loading: bool

    constructor ()
      ensures name == "" && description == "" && !loading
    {
      name, description, loading := "", "", false;
    }

    /** `handleSubmit` for a new group with id `groupId`: on success both fields are cleared. */
    method HandleSubmit(db: Store, user: Option<Account>, groupId: Id, now: Time, failing: Failure)
      modifies db`groups, db`groupMembers, this`name, this`description, this`loading
      ensures Blank(old(name)) || user.None? ==>
        db.Tables() == old(db.Tables()) && name == old(name) && description == old(description) && loading == old(loading)
      ensures !Blank(old(name)) && user.Some? ==>
        && db.Tables() == Submitted(old(db.Tables()), groupId, user.value, old(name), old(description), now, failing)
        && !loading
        && (failing == NoFailure ==> name == "" && description == "")
        && (failing != NoFailure ==> name == old(name) && description == old(description))
    {
      if Blank(name) || user.None? {
        return;
      }
      loading := true;
      if failing == InsertGroup {
        loading := false;
        return;
      }
      db.groups := db.groups + [PageGroup(groupId, user.value, name, description)];
      if failing == InsertMember {
        loading := false;
        return;
      }
      db.groupMembers := db.groupMembers + [CreatorRow(groupId, user.value.id, now)];
      name, description := "", "";
      loading := false;
    }
  }
}
