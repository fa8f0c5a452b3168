/**
 * `GroupChat`: a group's chat room. It loads the group and its member list,
 * works out the user's standing, sends, receives and deletes messages, and
 * carries the administrator's actions: renaming and deleting the group,
 * naming up to three secondary admins and adding users.
 *
 * Errors are logged and end the handler where the source's `throw` would;
 * the results of the awaited writes the source does not inspect are inputs
 * that only decide whether that row change happens.
 */
module GroupChat {
  import opened Common
  import opened Tables

  // ---------------------------------------------------------------------------
  // fetchGroupInfo and fetchAvailableUsers

  /**
   * A row of the members list: `id`, `username` and `avatar_url` read from
   * `member.profiles[0]`, and the row's two flags. The embed
   * `profiles:user_id(...)` follows a to-one key, so the database returns
   * one object, not an array, and `profiles[0]` is `undefined`: the three
   * profile fields are always absent.
   */
  datatype MemberView = MemberView(
    id: Option<Id>,
    username: Option<string>,
    avatarUrl: Option<string>,
    isAdmin: Option<bool>,
    isSecondaryAdmin: Option<bool>)

  /** The projection of one member row: only the row's own flags survive. */
  function MemberViewOf(m: Membership): MemberView
  {
    MemberView(None, None, None, m.isAdmin, m.isSecondaryAdmin)
  }

  /** The members list: one entry per member row of the group, in row order. */
  function MemberViews(t: Db, groupId: Id): (r: seq<MemberView>)
    ensures |r| == |MembersOf(t.groupMembers, groupId)|
    ensures forall v :: v in r ==> v.id.None? && v.username.None? && v.avatarUrl.None?
    ensures forall i :: 0 <= i < |r| ==>
      r[i].isAdmin == MembersOf(t.groupMembers, groupId)[i].isAdmin &&
      r[i].isSecondaryAdmin == MembersOf(t.groupMembers, groupId)[i].isSecondaryAdmin
  {
    Map(MembersOf(t.groupMembers, groupId), MemberViewOf)
  }

  /** `groupMembers.map(member => member.id).filter(Boolean)`. */
  function MemberIds(members: seq<MemberView>): (r: seq<Id>)
    ensures forall x :: x in r <==> exists v :: v in members && v.id == Some(x) && x != ""
    decreases |members|
  {
    if members == [] then []
    else
      var rest := MemberIds(members[1..]);
      assert forall v :: v in members <==> v == members[0] || v in members[1..];
      if Truthy(members[0].id) then [members[0].id.value] + rest else rest
  }

  /** The profiles offered for adding: all of them when the list is empty, else those whose id is not a member id. */
  function AvailableUsers(profiles: seq<Profile>, members: seq<MemberView>): (r: seq<Profile>)
    ensures forall p :: p in r <==> p in profiles && p.id !in MemberIds(members)
  {
    if |members| > 0 then
      var ids := MemberIds(members);
      Filter(profiles, (p: Profile) => p.id !in ids)
    else profiles
  }

  /**
   * Since the members list never carries an id, the exclusion removes
   * nobody: every profile, members included, is offered.
   */
  lemma {:induction false} AvailableUsersExcludeNobody(t: Db, groupId: Id)
    ensures AvailableUsers(t.profiles, MemberViews(t, groupId)) == t.profiles
  {
    var members := MemberViews(t, groupId);
    var ids := MemberIds(members);
    if |members| > 0 {
      FilterKeepsAll(t.profiles, (p: Profile) => p.id !in MemberIds(members));
    }
  }

  // ---------------------------------------------------------------------------
  // checkAdminStatus

  /** `groupInfo.created_by === user?.id`: only a signed-in user can match, `undefined` never equals an id. */
  predicate CreatedBy(g: Group, user: Option<Account>)
  {
    user.Some? && g.createdBy == user.value.id
  }

  /**
   * The `else if` of `checkAdminStatus` repeats the first test under a
   * stronger guard, so it is reached only when it must fail: the
   * secondary-admin flag is never set there.
   */
  lemma SecondaryAdminBranchUnreachable(g: Group, user: Option<Account>)
    ensures !CreatedBy(g, user) ==> !(user.Some? && user.value.id != "" && g.createdBy == user.value.id)
  {
  }

  // ---------------------------------------------------------------------------
  // handleDeleteGroup

  /**
   * The tables after `handleDeleteGroup`: the group's messages, then its
   * member rows, then the group. Only the last delete's error is looked
   * at, so the first two happen or not on their own.
   */
  function DeletedGroup(t: Db, groupId: Id, messagesFail: bool, membersFail: bool, groupFails: bool): (r: Db)
    ensures r.(groupMessages := t.groupMessages, groupMembers := t.groupMembers, groups := t.groups) == t
    ensures !messagesFail ==> forall m :: m in r.groupMessages ==> m.groupId != groupId
    ensures !membersFail ==> forall u :: !IsMember(r.groupMembers, groupId, u)
    ensures !groupFails ==> GroupWithId(r.groups, groupId).None?
  {
    var t1 := if messagesFail then t else t.(groupMessages := WithoutGroupMessages(t.groupMessages, groupId));
    var t2 := if membersFail then t1 else t1.(groupMembers := WithoutGroupMembers(t.groupMembers, groupId));
    if groupFails then t2 else t2.(groups := WithoutGroup(t.groups, groupId))
  }

  /**
   * A failed group delete still leaves the group's messages and member
   * rows deleted unless their own deletes failed: the group can survive
   * without members or messages. Other groups' rows are untouched.
   */
  lemma DeletedGroupEffects(t: Db, groupId: Id, messagesFail: bool, membersFail: bool, groupFails: bool, r: Db)
    requires r == DeletedGroup(t, groupId, messagesFail, membersFail, groupFails)
    ensures groupFails && !membersFail && GroupWithId(t.groups, groupId).Some? ==>
      GroupWithId(r.groups, groupId).Some? && MembersOf(r.groupMembers, groupId) == []
    ensures forall m :: m in t.groupMessages && m.groupId != groupId ==> m in r.groupMessages
    ensures forall m :: m in t.groupMembers && m.groupId != groupId ==> m in r.groupMembers
    ensures forall g :: g in t.groups && g.id != groupId ==> g in r.groups
  {
    if groupFails && !membersFail {
      var ms := MembersOf(r.groupMembers, groupId);
      assert |ms| == 0 || !IsMember(r.groupMembers, groupId, ms[0].userId);
    }
  }

  // ---------------------------------------------------------------------------
  // handleAssignSecondaryAdmin

  /**
   * The value of a member's `<option value={member.username}>`: the
   * username, or, when it is `undefined`, the option's text, which is then
   * empty. The selection holds these values, not user ids.
   */
  function OptionValue(v: MemberView): (r: string)
    ensures v.username.None? ==> r == ""
  {
    if v.username.Some? then v.username.value else ""
  }

  /** Every option of the fetched members list has the empty value. */
  lemma OptionValuesAreEmpty(t: Db, groupId: Id)
    ensures forall v :: v in MemberViews(t, groupId) ==> OptionValue(v) == ""
  {
  }

  /**
   * The member rows after the per-value updates of `handleAssignSecondaryAdmin`,
   * `.eq('user_id', username)` for each selected value in order; an update
   * whose error is ignored (`fails`) changes nothing.
   */
  function FlaggedAll(rows: seq<Membership>, groupId: Id, users: seq<string>, fails: string -> bool): seq<Membership>
    decreases |users|
  {
    if users == [] then rows
    else
      var prev := FlaggedAll(rows, groupId, users[..|users| - 1], fails);
      var u := users[|users| - 1];
      if fails(u) then prev else FlagSecondaryAdmin(prev, groupId, u)
  }

  /**
   * After the updates, exactly the group's rows whose `user_id` equals a
   * selected value whose update went through have `is_secondary_admin`
   * set; no row is added or removed and no other column changes.
   */
  lemma {:induction false} FlaggedAllEffects(rows: seq<Membership>, groupId: Id, users: seq<string>, fails: string -> bool)
    ensures var r := FlaggedAll(rows, groupId, users, fails);
      && |r| == |rows|
      && (forall i :: 0 <= i < |r| ==> r[i].(isSecondaryAdmin := rows[i].isSecondaryAdmin) == rows[i])
      && (forall i :: 0 <= i < |r| ==>
            r[i].isSecondaryAdmin ==
              if rows[i].groupId == groupId && rows[i].userId in users && !fails(rows[i].userId) then Some(true)
              else rows[i].isSecondaryAdmin)
    decreases |users|
  {
    if users != [] {
      var init := users[..|users| - 1];
      var u := users[|users| - 1];
      FlaggedAllEffects(rows, groupId, init, fails);
      assert forall x :: x in users <==> x in init || x == u by {
        assert users == init + [u];
      }
    }
  }

  /**
   * When no row of the group has a `user_id` equal to a selected value,
   * as with usernames that are not ids, the updates flag nobody.
   */
  lemma FlaggingUnmatchedChangesNothing(rows: seq<Membership>, groupId: Id, users: seq<string>, fails: string -> bool)
    requires forall m :: m in rows && m.groupId == groupId ==> m.userId !in users
    ensures FlaggedAll(rows, groupId, users, fails) == rows
  {
    var r := FlaggedAll(rows, groupId, users, fails);
    FlaggedAllEffects(rows, groupId, users, fails);
    forall i | 0 <= i < |r|
      ensures r[i] == rows[i]
    {
      assert rows[i] in rows;
    }
  }

  /**
   * With the selection taken from the fetched members list, whose options
   * all have the empty value, no member row with a non-empty `user_id` is
   * flagged.
   */
  lemma SelectionFromListFlagsNobody(t: Db, groupId: Id, users: seq<string>, fails: string -> bool)
    requires forall u :: u in users ==> exists v :: v in MemberViews(t, groupId) && OptionValue(v) == u
    requires forall m :: m in t.groupMembers && m.groupId == groupId ==> m.userId != ""
    ensures FlaggedAll(t.groupMembers, groupId, users, fails) == t.groupMembers
  {
    OptionValuesAreEmpty(t, groupId);
    FlaggingUnmatchedChangesNothing(t.groupMembers, groupId, users, fails);
  }

  // ---------------------------------------------------------------------------
  // handleAddUsers and the message subscription

  /** `handleAddUsers`'s rows: one per id, in input order, both flags false and no role. */
  function NewMembers(groupId: Id, userIds: seq<Id>, now: Time): (r: seq<Membership>)
    ensures |r| == |userIds|
    ensures forall i :: 0 <= i < |r| ==> r[i].userId == userIds[i] && r[i].groupId == groupId
    ensures forall m :: m in r ==> m.isAdmin == Some(false) && m.isSecondaryAdmin == Some(false) && m.role.None?
  {
    Map(userIds, (u: Id) => Membership(groupId, u, None, Some(false), Some(false), now))
  }

  /**
   * The subscription's reducer `[...current, payload.new]`: the list gains
   * one message at the end, even one it already holds.
   */
  function Appended(messages: seq<GroupMessage>, m: GroupMessage): (r: seq<GroupMessage>)
    ensures |r| == |messages| + 1 && r[..|messages|] == messages && r[|messages|] == m
    ensures multiset(r)[m] == multiset(messages)[m] + 1
  {
    messages + [m]
  }

  /** Which step of `handleSendMessage` reports an error; each ends the handler. */
  datatype SendFailure = SendSucceeds | MembershipQuery | Upload | InsertMessage

  // ---------------------------------------------------------------------------
  // The component

  class GroupChat {
    const groupId: Id
    var messages: seq<GroupMessage>
    var newMessage: string
    var hasImage: bool
    var groupInfo: Option<Group>
    var groupMembers: seq<MemberView>
    var isAdmin: bool
    var isSecondaryAdmin: bool
    var newGroupName: string
    var selectedUsers: seq<string>
    var availableUsers: seq<Profile>
    var isMember: bool

    constructor (groupId: Id)
      ensures this.groupId == groupId && messages == [] && newMessage == "" && !hasImage && groupInfo.None?
      ensures groupMembers == [] && !isAdmin && !isSecondaryAdmin && newGroupName == ""
      ensures selectedUsers == [] && availableUsers == [] && !isMember
    {
      this.groupId := groupId;
      messages, newMessage, hasImage, groupInfo := [], "", false, None;
      groupMembers, isAdmin, isSecondaryAdmin, newGroupName := [], false, false, "";
      selectedUsers, availableUsers, isMember := [], [], false;
    }

    /** `fetchGroupInfo`: the group, then its members; each query's error ends the fetch. */
    method FetchGroupInfo(db: Store, groupFails: bool, membersFail: bool)
      modifies this`groupInfo, this`groupMembers
      ensures var g := GroupWithId(db.groups, groupId);
              && groupInfo == (if !groupFails && g.Some? then g else old(groupInfo))
              && groupMembers == (if !groupFails && g.Some? && !membersFail then MemberViews(db.Tables(), groupId) else old(groupMembers))
    {
      var g := GroupWithId(db.groups, groupId);
      if groupFails || g.None? {
        return;
      }
      groupInfo := g;
      if membersFail {
        return;
      }
      groupMembers := MemberViews(db.Tables(), groupId);
    }

    /** `fetchAvailableUsers`, run whenever the members list changes; an error keeps the list. */
    method FetchAvailableUsers(db: Store, queryFails: bool)
      modifies this`availableUsers
      ensures availableUsers == if queryFails then old(availableUsers) else AvailableUsers(db.profiles, groupMembers)
    {
      if !queryFails {
        availableUsers := AvailableUsers(db.profiles, groupMembers);
      }
    }

    /**
     * `checkAdminStatus`: the creator of the loaded group becomes admin;
     * the secondary-admin flag is never set (see
     * `SecondaryAdminBranchUnreachable`).
     */
    method CheckAdminStatus(user: Option<Account>)
      modifies this`isAdmin
      ensures isAdmin == (old(isAdmin) || (groupInfo.Some? && CreatedBy(groupInfo.value, user)))
    {
      if groupInfo.None? {
        return;
      }
      if CreatedBy(groupInfo.value, user) {
        isAdmin := true;
      }
    }

    /**
     * `checkGroupMembership`: false without a user id or on a query error,
     * which change nothing; otherwise whether the user has a row here.
     * `isAdmin` follows the row's `is_admin` flag, not its role, and is
     * only ever raised.
     */
    method CheckGroupMembership(db: Store, user: Option<Account>, queryFails: bool) returns (member: bool)
      modifies this`isMember, this`isAdmin
      ensures user.None? || user.value.id == "" || queryFails ==>
        !member && isMember == old(isMember) && isAdmin == old(isAdmin)
      ensures user.Some? && user.value.id != "" && !queryFails ==>
        var row := MembershipOf(db.groupMembers, groupId, user.value.id);
        && member == row.Some? && isMember == row.Some?
        && isAdmin == (old(isAdmin) || (row.Some? && row.value.isAdmin == Some(true)))
      ensures member ==> IsMember(db.groupMembers, groupId, user.value.id)
    {
      if user.None? || user.value.id == "" || queryFails {
        return false;
      }
      var row := MembershipOf(db.groupMembers, groupId, user.value.id);
      isMember := row.Some?;
      if row.Some? && row.value.isAdmin == Some(true) {
        isAdmin := true;
      }
      return row.Some?;
    }

    /** The guard of `handleSendMessage`: something to send and a signed-in user. */
    predicate WantsToSend(user: Option<Account>)
      reads this
    {
      (!Blank(newMessage) || hasImage) && user.Some?
    }

    /** The row `handleSendMessage` inserts: the trimmed text and the uploaded image's path, if any. */
    function Outgoing(messageId: Id, user: Account, imageUrl: Option<string>, now: Time): (m: GroupMessage)
      reads this
      ensures m.groupId == groupId && m.senderId == user.id && m.content == Trim(newMessage)
    {
      GroupMessage(messageId, groupId, user.id, Trim(newMessage), imageUrl, now)
    }

    /**
     * `handleSendMessage`: past the guard, the membership check, the
     * upload of the chosen image (its path is `imagePath`), the insert, and
     * then the form is cleared. Only a current member's message is
     * inserted; the message reaches the list through the subscription.
     */
    method HandleSendMessage(db: Store, user: Option<Account>, messageId: Id, imagePath: string, now: Time, failing: SendFailure)
      modifies db`groupMessages, this`isMember, this`isAdmin, this`newMessage, this`hasImage
      ensures !old(WantsToSend(user)) ==>
        && db.groupMessages == old(db.groupMessages) && isMember == old(isMember) && isAdmin == old(isAdmin)
        && newMessage == old(newMessage) && hasImage == old(hasImage)
      ensures old(WantsToSend(user)) ==>
        var member := user.value.id != "" && failing != MembershipQuery && IsMember(db.groupMembers, groupId, user.value.id);
        var sent := member && !(old(hasImage) && failing == Upload) && failing != InsertMessage;
        && db.groupMessages ==
             (if sent then old(db.groupMessages) + [old(Outgoing(messageId, user.value, if hasImage then Some(imagePath) else None, now))]
              else old(db.groupMessages))
        && newMessage == (if sent then "" else old(newMessage))
        && hasImage == (old(hasImage) && !sent)
      ensures old(WantsToSend(user)) && user.value.id != "" && failing != MembershipQuery ==>
        isMember == IsMember(db.groupMembers, groupId, user.value.id)
    {
      if !WantsToSend(user) {
        return;
      }
      var member := CheckGroupMembership(db, user, failing == MembershipQuery);
      if !member {
        return;
      }
      var imageUrl: Option<string> := None;
      if hasImage {
        if failing == Upload {
          return;
        }
        imageUrl := Some(imagePath);
      }
      if failing == InsertMessage {
        return;
      }
      db.groupMessages := db.groupMessages + [Outgoing(messageId, user.value, imageUrl, now)];
      newMessage, hasImage := "", false;
    }

    /** `handleDeleteGroup`: the three deletes in order; `redirects` is the move to the group list after the last one succeeds. */
    method HandleDeleteGroup(db: Store, messagesFail: bool, membersFail: bool, groupFails: bool) returns (redirects: bool)
      modifies db`groupMessages, db`groupMembers, db`groups
      ensures db.Tables() == DeletedGroup(old(db.Tables()), groupId, messagesFail, membersFail, groupFails)
      ensures redirects == !groupFails
    {
      if !messagesFail {
        db.groupMessages := WithoutGroupMessages(db.groupMessages, groupId);
      }
      if !membersFail {
        db.groupMembers := WithoutGroupMembers(db.groupMembers, groupId);
      }
      if groupFails {
        return false;
      }
      db.groups := WithoutGroup(db.groups, groupId);
      return true;
    }

    /**
     * `handleRenameGroup`: unlike the group page's, it checks no role and
     * stores the name as typed, untrimmed, and it sends no notice.
     */
    method HandleRenameGroup(db: Store, updateFails: bool)
      modifies db`groups, this`groupInfo, this`newGroupName
      ensures var renames := !Blank(old(newGroupName)) && !updateFails;
        && db.groups == (if renames then RenameGroup(old(db.groups), groupId, old(newGroupName)) else old(db.groups))
        && groupInfo == (if renames && old(groupInfo).Some? then Some(old(groupInfo).value.(name := old(newGroupName))) else old(groupInfo))
        && newGroupName == (if renames then "" else old(newGroupName))
    {
      if Blank(newGroupName) || updateFails {
        return;
      }
      db.groups := RenameGroup(db.groups, groupId, newGroupName);
      if groupInfo.Some? {
        groupInfo := Some(groupInfo.value.(name := newGroupName));
      }
      newGroupName := "";
    }

    /** `handleDeleteMessage`: the list drops exactly that message, and only after the delete succeeds. */
    method HandleDeleteMessage(db: Store, messageId: Id, deleteFails: bool)
      modifies db`groupMessages, this`messages
      ensures deleteFails ==> db.groupMessages == old(db.groupMessages) && messages == old(messages)
      ensures !deleteFails ==>
        db.groupMessages == WithoutMessage(old(db.groupMessages), messageId) && messages == WithoutMessage(old(messages), messageId)
    {
      if deleteFails {
        return;
      }
      db.groupMessages := WithoutMessage(db.groupMessages, messageId);
      messages := WithoutMessage(messages, messageId);
    }

    /**
     * The select's `onChange`: the selection becomes the values of the
     * chosen options, in list order; with the fetched list they are all
     * empty.
     */
    method SelectOptions(chosen: seq<nat>)
      requires forall j :: 0 <= j < |chosen| ==> chosen[j] < |groupMembers|
      modifies this`selectedUsers
      ensures |selectedUsers| == |chosen|
      ensures forall j :: 0 <= j < |chosen| ==> selectedUsers[j] == OptionValue(groupMembers[chosen[j]])
      ensures (forall v :: v in groupMembers ==> v.username.None?) ==> forall u :: u in selectedUsers ==> u == ""
    {
      var views := groupMembers;
      selectedUsers := seq(|chosen|, j requires 0 <= j < |chosen| => if chosen[j] < |views| then OptionValue(views[chosen[j]]) else "");
      if forall v :: v in views ==> v.username.None? {
        forall j | 0 <= j < |chosen|
          ensures selectedUsers[j] == ""
        {
          assert views[chosen[j]] in views;
        }
      }
    }

    /**
     * `handleAssignSecondaryAdmin`: with the group loaded and at most three
     * values selected, the selection is stored on the group and then the
     * group's rows whose `user_id` equals a selected value are flagged; the
     * selection is then cleared. A selection of empty values, which is what
     * the fetched list offers, flags no row with a non-empty `user_id`.
     */
    method HandleAssignSecondaryAdmin(db: Store, updateFails: bool, flagFails: string -> bool)
      modifies db`groups, db`groupMembers, this`selectedUsers
      ensures var go := old(groupInfo).Some? && |old(selectedUsers)| <= 3;
        && db.groups == (if go && !updateFails then SetSecondaryAdmins(old(db.groups), groupId, old(selectedUsers)) else old(db.groups))
        && db.groupMembers == (if go && !updateFails then FlaggedAll(old(db.groupMembers), groupId, old(selectedUsers), flagFails) else old(db.groupMembers))
        && selectedUsers == (if go && !updateFails then [] else old(selectedUsers))
      ensures (forall u :: u in old(selectedUsers) ==> u == "") &&
              (forall m :: m in old(db.groupMembers) && m.groupId == groupId ==> m.userId != "") ==>
        db.groupMembers == old(db.groupMembers)
    {
      if (forall u :: u in selectedUsers ==> u == "") &&
         (forall m :: m in db.groupMembers && m.groupId == groupId ==> m.userId != "") {
        FlaggingUnmatchedChangesNothing(db.groupMembers, groupId, selectedUsers, flagFails);
      }
      if groupInfo.None? || |selectedUsers| > 3 {
        return;
      }
      if updateFails {
        return;
      }
      db.groups := SetSecondaryAdmins(db.groups, groupId, selectedUsers);
      var rows := db.groupMembers;
      var i := 0;
      while i < |selectedUsers|
        invariant 0 <= i <= |selectedUsers|
        invariant db.groupMembers == FlaggedAll(rows, groupId, selectedUsers[..i], flagFails)
        invariant db.groups == SetSecondaryAdmins(old(db.groups), groupId, old(selectedUsers))
        invariant selectedUsers == old(selectedUsers) && rows == old(db.groupMembers)
      {
        var u := selectedUsers[i];
        if !flagFails(u) {
          db.groupMembers := FlagSecondaryAdmin(db.groupMembers, groupId, u);
        }
        assert selectedUsers[..i + 1][..i] == selectedUsers[..i];
        i := i + 1;
      }
      assert selectedUsers[..i] == selectedUsers;
      selectedUsers := [];
    }

    /** `handleAddUsers`: one insert of all the rows, then the members list is fetched again. */
    method HandleAddUsers(db: Store, userIds: seq<Id>, now: Time, insertFails: bool, groupFails: bool, membersFail: bool)
      modifies db`groupMembers, this`groupInfo, this`groupMembers
      ensures db.groupMembers == if insertFails then old(db.groupMembers) else old(db.groupMembers) + NewMembers(groupId, userIds, now)
      ensures insertFails ==> groupInfo == old(groupInfo) && groupMembers == old(groupMembers)
      ensures !insertFails ==>
        var g := GroupWithId(db.groups, groupId);
        && groupInfo == (if !groupFails && g.Some? then g else old(groupInfo))
        && groupMembers == (if !groupFails && g.Some? && !membersFail then MemberViews(db.Tables(), groupId) else old(groupMembers))
    {
      if insertFails {
        return;
      }
      db.groupMembers := db.groupMembers + NewMembers(groupId, userIds, now);
      FetchGroupInfo(db, groupFails, membersFail);
    }

    /** A message inserted into this group, as the subscription delivers it. */
    method OnMessageInserted(m: GroupMessage)
      modifies this`messages
      ensures messages == Appended(old(messages), m)
    {
      messages := Appended(messages, m);
    }
  }
}
