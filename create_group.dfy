/**
 * `CreateGroup` (the modal): picks an image file, creates the group with its
 * fixed defaults and makes the creator its admin through the `role` column.
 */
module CreateGroup {
  import opened Common
  import opened Tables
  import GroupProfile
  import GroupChat

  /** The chosen file's name and MIME type. */
  datatype FileInfo = FileInfo(name: string, mimeType: string)

  /** The largest group a new group allows. */
  const MaxMembers: nat := 120

  /** The settings a new group starts with: no member invites, deletion and member visibility allowed. */
  const DefaultSettings: Settings := Settings(false, true, true)

  /**
   * The group row `handleSubmit` inserts: trimmed name and description, the
   * uploaded image's public URL or null, the creator, 120 members at most
   * and the default settings.
   */
  function NewGroup(groupId: Id, user: Account, name: string, description: string, imageUrl: Option<string>): (g: Group)
    ensures g.id == groupId && g.createdBy == user.id
    ensures g.name == Trim(name) && g.description == Trim(description) && g.imageUrl == imageUrl
    ensures g.maxMembers == Some(MaxMembers) && g.settings == Some(DefaultSettings)
  {
    Group(groupId, Trim(name), Trim(description), imageUrl, user.id, Some(MaxMembers), Some(DefaultSettings), [])
  }

  /** The creator's row: `role = 'admin'`, the two flags left out. */
  function AdminRow(groupId: Id, userId: Id, now: Time): Membership
  {
    Membership(groupId, userId, Some(Admin), None, None, now)
  }

  /** Which awaited step of `handleSubmit` reports an error; each one throws. */
  datatype Failure = NoFailure | Upload | InsertGroup | InsertAdmin

  /**
   * The tables after `handleSubmit` has passed its guard; `imageUrl` is
   * present exactly when an image was chosen, so only then can the upload
   * fail.
   */
  function Submitted(t: Db, groupId: Id, user: Account, name: string, description: string,
                     imageUrl: Option<string>, now: Time, failing: Failure): (r: Db)
    ensures r.(groups := t.groups, groupMembers := t.groupMembers) == t
  {
    if (failing == Upload && imageUrl.Some?) || failing == InsertGroup then t
    else
      var t1 := t.(groups := t.groups + [NewGroup(groupId, user, name, description, imageUrl)]);
      if failing == InsertAdmin then t1
      else t1.(groupMembers := t.groupMembers + [AdminRow(groupId, user.id, now)])
  }

  /**
   * A failed upload or group insert writes nothing: in particular no
   * membership. The creator's row uses the id of the inserted group and
   * comes only after it. On success the creator is the group's only new
   * member, and the group page counts them as its admin while the chat's
   * `is_admin` check does not.
   */
  lemma SubmittedEffects(t: Db, groupId: Id, user: Account, name: string, description: string,
                         imageUrl: Option<string>, now: Time, failing: Failure, r: Db)
    requires r == Submitted(t, groupId, user, name, description, imageUrl, now, failing)
    ensures (failing == Upload && imageUrl.Some?) || failing == InsertGroup ==> r == t
    ensures failing == Upload && imageUrl.None? ==> r == Submitted(t, groupId, user, name, description, imageUrl, now, NoFailure)
    ensures r.groupMembers != t.groupMembers ==> r.groups == t.groups + [NewGroup(groupId, user, name, description, imageUrl)]
    ensures failing == NoFailure || (failing == Upload && imageUrl.None?) ==>
      && r.groupMembers == t.groupMembers + [AdminRow(groupId, user.id, now)]
      && GroupProfile.StandingOf(Some(AdminRow(groupId, user.id, now))).isAdmin
      && AdminRow(groupId, user.id, now).isAdmin != Some(true)
      && GroupChat.CreatedBy(NewGroup(groupId, user, name, description, imageUrl), Some(user))
  {
  }

  /** The `image_url` column: the upload's public URL when an image was chosen, else null. */
  function ImageUrl(image: Option<FileInfo>, publicUrl: string): (u: Option<string>)
    ensures u.Some? <==> image.Some?
  {
    if image.Some? then Some(publicUrl) else None
  }

  /** `file.type.startsWith('image/')`. */
  predicate IsImage(f: FileInfo)
  {
    StartsWith(f.mimeType, "image/")
  }

  class CreateGroup {
    var name: string
    var description: string
    var image: Option<FileInfo>
    var loading: bool

    constructor ()
      ensures name == "" && description == "" && image.None? && !loading
    {
      name, description, image, loading := "", "", None, false;
    }

    /** `handleImageChange`: only an image file replaces the chosen one. */
    method HandleImageChange(file: Option<FileInfo>)
      modifies this`image
      ensures image == if file.Some? && IsImage(file.value) then file else old(image)
      ensures image.Some? ==> IsImage(image.value) || image == old(image)
    {
      if file.Some? && IsImage(file.value) {
        image := file;
      }
    }

    /**
     * `handleSubmit` for a new group with id `groupId`, `publicUrl` being
     * the uploaded image's address. `created` is the group handed to
     * `onSuccess`.
     */
    method HandleSubmit(db: Store, user: Option<Account>, groupId: Id, publicUrl: string, now: Time, failing: Failure)
      returns (created: Option<Group>)
      modifies db`groups, db`groupMembers, this`loading
      ensures user.None? || Blank(name) ==> db.Tables() == old(db.Tables()) && loading == old(loading) && created.None?
      ensures user.Some? && !Blank(name) ==>
        db.Tables() == Submitted(old(db.Tables()), groupId, user.value, name, description, ImageUrl(image, publicUrl), now, failing)
      ensures user.Some? && !Blank(name) ==> !loading
      ensures created.Some? <==> user.Some? && !Blank(name) && db.groupMembers != old(db.groupMembers)
      ensures created.Some? ==> created == Some(NewGroup(groupId, user.value, name, description, ImageUrl(image, publicUrl)))
    {
      created := None;
      if user.None? || Blank(name) {
        return;
      }
      loading := true;
      if image.Some? && failing == Upload {
        loading := false;
        return;
      }
      var imageUrl := ImageUrl(image, publicUrl);
      if failing == InsertGroup {
        loading := false;
        return;
      }
      var g := NewGroup(groupId, user.value, name, description, imageUrl);
      db.groups := db.groups + [g];
      if failing == InsertAdmin {
        loading := false;
        return;
      }
      db.groupMembers := db.groupMembers + [AdminRow(g.id, user.value.id, now)];
      created := Some(g);
      loading := false;
    }
  }
}
