/**
 * The hosted database as the client sees it: one record datatype per table
 * the core reads or writes, the class `Store` whose fields are those tables,
 * and the row-level edits the handlers' `insert`, `update` and `delete`
 * calls perform, as functions from a table to the new table.
 *
 * Columns the database fills in itself (generated ids, `created_at`) are
 * supplied by the caller of a handler. Columns an insert leaves out are
 * `None` when the client code reads them back.
 */
module Tables {
  import opened Common

  /** `group_members.role`. */
  datatype Role = Admin | SecondaryAdmin | Member

  /** `group_join_requests.status`. */
  datatype RequestStatus = Pending | Approved | Rejected

  /** `friend_requests.status`: 'pending' | 'accepted' | 'rejected'. */
  datatype FriendStatus = FriendPending | FriendAccepted | FriendRejected

  /** `notifications.type`. */
  datatype NoticeType = Info | Success | Warning | Error | GroupMember | GroupRenamed

  /**
   * The signed-in user of the auth store: `user.id` and
   * `user.user_metadata.username`, the empty string when it is unset.
   */
  datatype Account = Account(id: Id, username: string)

  datatype Profile = Profile(id: Id, username: string, avatarUrl: Option<string>, university: string)

  datatype Settings = Settings(allowMemberInvites: bool, allowMessageDeletion: bool, allowMemberVisibility: bool)

  datatype Group = Group(
    id: Id,
    name: string,
    description: string,
    imageUrl: Option<string>,
    createdBy: Id,
    maxMembers: Option<nat>,
    settings: Option<Settings>,
    secondaryAdmins: seq<Id>)

  /**
   * A `group_members` row. The schema carries the role twice: the `role`
   * string and the `is_admin` / `is_secondary_admin` flags, and different
   * handlers write and read different ones.
   */
  datatype Membership = Membership(
    groupId: Id,
    userId: Id,
    role: Option<Role>,
    isAdmin: Option<bool>,
    isSecondaryAdmin: Option<bool>,
    createdAt: Time)

  datatype JoinRequest = JoinRequest(
    id: Id,
    groupId: Id,
    userId: Id,
    status: RequestStatus,
    createdAt: Time,
    updatedAt: Option<Time>)

  /** The free-form `metadata` column of a notification. */
  datatype Metadata = Metadata(groupId: Option<Id>, userId: Option<Id>, requestId: Option<Id>, action: Option<string>)

  datatype Notification = Notification(
    id: Id,
    userId: Id,
    title: string,
    content: string,
    kind: NoticeType,
    read: bool,
    createdAt: Time,
    metadata: Option<Metadata>)

  /** A `friends` row: an undirected edge stored in one orientation. */
  datatype Friendship = Friendship(userId1: Id, userId2: Id)

  datatype FriendRequest = FriendRequest(id: Id, senderId: Id, receiverId: Id, status: FriendStatus)

  datatype Like = Like(postId: Id, userId: Id)

  datatype Post = Post(id: Id, userId: Id)

  datatype GroupMessage = GroupMessage(
    id: Id,
    groupId: Id,
    senderId: Id,
    content: string,
    imageUrl: Option<string>,
    createdAt: Time)

  /** The contents of every table at one moment. */
  datatype Db = Db(
    profiles: seq<Profile>,
    groups: seq<Group>,
    groupMembers: seq<Membership>,
    joinRequests: seq<JoinRequest>,
    notifications: seq<Notification>,
    friends: seq<Friendship>,
    friendRequests: seq<FriendRequest>,
    likes: seq<Like>,
    posts: seq<Post>,
    groupMessages: seq<GroupMessage>)

  /** The backend's tables. `profiles` and `posts` are written outside the core. */
  class Store {
    var profiles: seq<Profile>
    var groups: seq<Group>
    var groupMembers: seq<Membership>
    var joinRequests: seq<JoinRequest>
    var notifications: seq<Notification>
    var friends: seq<Friendship>
    var friendRequests: seq<FriendRequest>
    var likes: seq<Like>
    var posts: seq<Post>
    var groupMessages: seq<GroupMessage>

    function Tables(): Db
      reads this
    {
      Db(profiles, groups, groupMembers, joinRequests, notifications, friends, friendRequests, likes, posts, groupMessages)
    }

    constructor (profiles: seq<Profile>, posts: seq<Post>)
      ensures this.profiles == profiles && this.posts == posts
      ensures groups == [] && groupMembers == [] && joinRequests == [] && notifications == []
      ensures friends == [] && friendRequests == [] && likes == [] && groupMessages == []
    {
      this.profiles := profiles;
      this.posts := posts;
      groups, groupMembers, joinRequests, notifications := [], [], [], [];
      friends, friendRequests, likes, groupMessages := [], [], [], [];
    }
  }

  // ---------------------------------------------------------------------------
  // profiles and groups

  /** `.from('profiles').eq('id', id).single()`. */
  function ProfileWithId(profiles: seq<Profile>, id: Id): (r: Option<Profile>)
    ensures r.Some? ==> r.value in profiles && r.value.id == id
    ensures r.None? <==> forall p :: p in profiles ==> p.id != id
  {
    Find(profiles, (p: Profile) => p.id == id)
  }

  /** Looking a profile up among a subset that keeps every profile with that id finds the same profile. */
  lemma ProfileWithIdAmong(profiles: seq<Profile>, keep: Profile -> bool, id: Id)
    requires forall p: Profile :: p.id == id ==> keep(p)
    ensures ProfileWithId(Filter(profiles, keep), id) == ProfileWithId(profiles, id)
  {
    FindFilter(profiles, keep, (p: Profile) => p.id == id);
  }

  /** `.from('groups').eq('id', id).single()`. */
  function GroupWithId(groups: seq<Group>, id: Id): (r: Option<Group>)
    ensures r.Some? ==> r.value in groups && r.value.id == id
    ensures r.None? <==> forall g :: g in groups ==> g.id != id
  {
    Find(groups, (g: Group) => g.id == id)
  }

  /** `.from('groups').update({ name }).eq('id', id)`. */
  function RenameGroup(groups: seq<Group>, id: Id, name: string): (r: seq<Group>)
    ensures |r| == |groups|
    ensures forall i :: 0 <= i < |r| ==> r[i].(name := groups[i].name) == groups[i]
    ensures forall i :: 0 <= i < |r| ==> r[i].name == if groups[i].id == id then name else groups[i].name
    ensures forall i :: 0 <= i < |r| && groups[i].id != id ==> r[i] == groups[i]
  {
    Map(groups, (g: Group) => if g.id == id then g.(name := name) else g)
  }

  /** Looking a group up after a rename finds the same row under its new name. */
  lemma RenamedGroupWithId(groups: seq<Group>, id: Id, name: string)
    ensures var g := GroupWithId(groups, id);
            GroupWithId(RenameGroup(groups, id, name), id) == if g.Some? then Some(g.value.(name := name)) else None
  {
    FindIndexMapped(groups, (g: Group) => if g.id == id then g.(name := name) else g, (g: Group) => g.id == id, (g: Group) => g.id == id);
  }

  /** `.from('groups').update({ secondary_admins }).eq('id', id)`. */
  function SetSecondaryAdmins(groups: seq<Group>, id: Id, admins: seq<Id>): (r: seq<Group>)
    ensures |r| == |groups|
    ensures forall i :: 0 <= i < |r| ==> r[i].(secondaryAdmins := groups[i].secondaryAdmins) == groups[i]
    ensures forall i :: 0 <= i < |r| && groups[i].id == id ==> r[i].secondaryAdmins == admins
    ensures forall i :: 0 <= i < |r| && groups[i].id != id ==> r[i] == groups[i]
  {
    Map(groups, (g: Group) => if g.id == id then g.(secondaryAdmins := admins) else g)
  }

  /** `.from('groups').delete().eq('id', id)`. */
  function WithoutGroup(groups: seq<Group>, id: Id): (r: seq<Group>)
    ensures GroupWithId(r, id).None?
    ensures forall g :: g in r <==> g in groups && g.id != id
  {
    Filter(groups, (g: Group) => g.id != id)
  }

  // ---------------------------------------------------------------------------
  // group_members

  predicate IsMember(rows: seq<Membership>, groupId: Id, userId: Id)
  {
    exists m :: m in rows && m.groupId == groupId && m.userId == userId
  }

  /** `.from('group_members').eq('group_id', g).eq('user_id', u).maybeSingle()`. */
  function MembershipOf(rows: seq<Membership>, groupId: Id, userId: Id): (r: Option<Membership>)
    ensures r.Some? ==> r.value in rows && r.value.groupId == groupId && r.value.userId == userId
    ensures r.None? <==> !IsMember(rows, groupId, userId)
  {
    Find(rows, (m: Membership) => m.groupId == groupId && m.userId == userId)
  }

  /** `.from('group_members').eq('group_id', g)`. */
  function MembersOf(rows: seq<Membership>, groupId: Id): (r: seq<Membership>)
    ensures forall m :: m in r <==> m in rows && m.groupId == groupId
  {
    Filter(rows, (m: Membership) => m.groupId == groupId)
  }

  /** A role the client treats as administering a group. */
  predicate AdminRole(role: Option<Role>)
  {
    role == Some(Admin) || role == Some(SecondaryAdmin)
  }

  /** `.eq('group_id', g).in('role', ['admin', 'secondary_admin'])`. */
  function AdminsOf(rows: seq<Membership>, groupId: Id): (r: seq<Membership>)
    ensures forall m :: m in r <==> m in rows && m.groupId == groupId && AdminRole(m.role)
  {
    Filter(rows, (m: Membership) => m.groupId == groupId && AdminRole(m.role))
  }

  /** `.eq('group_id', g).eq('role', 'admin').single()`. */
  function PrimaryAdminOf(rows: seq<Membership>, groupId: Id): (r: Option<Membership>)
    ensures r.Some? ==> r.value in rows && r.value.groupId == groupId && r.value.role == Some(Admin)
    ensures r.None? <==> forall m :: m in rows ==> !(m.groupId == groupId && m.role == Some(Admin))
  {
    Find(rows, (m: Membership) => m.groupId == groupId && m.role == Some(Admin))
  }

  /** The row `insert({ group_id, user_id, role: 'member' })` writes, the database stamping `created_at`. */
  function NewMember(groupId: Id, userId: Id, now: Time): Membership
  {
    Membership(groupId, userId, Some(Member), None, None, now)
  }

  /** `.from('group_members').delete().eq('group_id', g).eq('user_id', u)`: exactly that pair's rows go. */
  function WithoutMembership(rows: seq<Membership>, groupId: Id, userId: Id): (r: seq<Membership>)
    ensures !IsMember(r, groupId, userId)
    ensures forall m :: m in r <==> m in rows && !(m.groupId == groupId && m.userId == userId)
    ensures forall g, u :: (g, u) != (groupId, userId) ==> (IsMember(r, g, u) <==> IsMember(rows, g, u))
  {
    Filter(rows, (m: Membership) => !(m.groupId == groupId && m.userId == userId))
  }

  /** `.from('group_members').delete().eq('group_id', g)`. */
  function WithoutGroupMembers(rows: seq<Membership>, groupId: Id): (r: seq<Membership>)
    ensures forall u :: !IsMember(r, groupId, u)
    ensures forall m :: m in r <==> m in rows && m.groupId != groupId
  {
    Filter(rows, (m: Membership) => m.groupId != groupId)
  }

  /** `.update({ is_secondary_admin: true }).eq('group_id', g).eq('user_id', u)`. */
  function FlagSecondaryAdmin(rows: seq<Membership>, groupId: Id, userId: Id): (r: seq<Membership>)
    ensures |r| == |rows|
    ensures forall i :: 0 <= i < |r| ==> r[i].(isSecondaryAdmin := rows[i].isSecondaryAdmin) == rows[i]
    ensures forall i :: 0 <= i < |r| && rows[i].groupId == groupId && rows[i].userId == userId ==> r[i].isSecondaryAdmin == Some(true)
    ensures forall i :: 0 <= i < |r| && !(rows[i].groupId == groupId && rows[i].userId == userId) ==> r[i] == rows[i]
  {
    Map(rows, (m: Membership) => if m.groupId == groupId && m.userId == userId then m.(isSecondaryAdmin := Some(true)) else m)
  }

  // ---------------------------------------------------------------------------
  // group_join_requests

  /** `.from('group_join_requests').eq('group_id', g).eq('status', 'pending')`. */
  function PendingRequestsOf(rows: seq<JoinRequest>, groupId: Id): (r: seq<JoinRequest>)
    ensures forall q :: q in r <==> q in rows && q.groupId == groupId && q.status == Pending
  {
    Filter(rows, (q: JoinRequest) => q.groupId == groupId && q.status == Pending)
  }

  /** The status a decision writes: `'approved'` exactly for an approval, else `'rejected'`. */
  function Decision(approved: bool): (s: RequestStatus)
    ensures s == Approved <==> approved
    ensures s != Pending
  {
    if approved then Approved else Rejected
  }

  /**
   * `.update({ status, updated_at? }).eq('id', id)`: every row with that id
   * takes the new status (and the stamp, when one is written); no other row
   * and no other column changes.
   */
  function SetRequestStatus(rows: seq<JoinRequest>, id: Id, status: RequestStatus, stamp: Option<Time>): (r: seq<JoinRequest>)
    ensures |r| == |rows|
    ensures forall i :: 0 <= i < |r| && rows[i].id == id ==>
      r[i].status == status && r[i].updatedAt == (if stamp.Some? then stamp else rows[i].updatedAt)
    ensures forall i :: 0 <= i < |r| ==> r[i].(status := rows[i].status, updatedAt := rows[i].updatedAt) == rows[i]
    ensures forall i :: 0 <= i < |r| && rows[i].id != id ==> r[i] == rows[i]
  {
    Map(rows, (q: JoinRequest) =>
      if q.id == id then q.(status := status, updatedAt := if stamp.Some? then stamp else q.updatedAt) else q)
  }

  // ---------------------------------------------------------------------------
  // notifications

  /** `.update({ read: true }).eq('id', id)`, and the same edit on a client-side list. */
  function MarkRead(ns: seq<Notification>, id: Id): (r: seq<Notification>)
    ensures |r| == |ns|
    ensures forall i :: 0 <= i < |r| ==> r[i].read == (ns[i].read || ns[i].id == id)
    ensures forall i :: 0 <= i < |r| ==> r[i].(read := ns[i].read) == ns[i]
  {
    Map(ns, (n: Notification) => if n.id == id then n.(read := true) else n)
  }

  /** Every item read, nothing else changed. */
  function MarkAllRead(ns: seq<Notification>): (r: seq<Notification>)
    ensures |r| == |ns|
    ensures forall i :: 0 <= i < |r| ==> r[i].read && r[i].(read := ns[i].read) == ns[i]
  {
    Map(ns, (n: Notification) => n.(read := true))
  }

  /** `.delete().eq('id', id)`, and `filter(n => n.id !== id)` on a client-side list. */
  function WithoutNotification(ns: seq<Notification>, id: Id): (r: seq<Notification>)
    ensures forall n :: n in r <==> n in ns && n.id != id
    ensures |r| <= |ns|
  {
    Filter(ns, (n: Notification) => n.id != id)
  }

  predicate Unread(n: Notification)
  {
    !n.read
  }

  /** `ns.filter(n => !n.read).length`. */
  function CountUnread(ns: seq<Notification>): (c: nat)
    ensures c <= |ns|
    ensures c == 0 <==> forall n :: n in ns ==> n.read
  {
    var u := Filter(ns, Unread);
    assert u == [] || u[0] in u;
    |u|
  }

  /** `ns.find(n => n.id === id)`. */
  function NoticeWithId(ns: seq<Notification>, id: Id): (r: Option<Notification>)
    ensures r.Some? ==> r.value in ns && r.value.id == id
    ensures r.None? <==> forall n :: n in ns ==> n.id != id
  {
    Find(ns, (n: Notification) => n.id == id)
  }

  /** `.from('notifications').eq('user_id', u)`. */
  function NotificationsOf(ns: seq<Notification>, userId: Id): (r: seq<Notification>)
    ensures forall n :: n in r <==> n in ns && n.userId == userId
  {
    Filter(ns, (n: Notification) => n.userId == userId)
  }

  /** The `created_at` column, the key of `.order('created_at', { ascending: false })`. */
  function NoticeTime(n: Notification): Time { n.createdAt }

  function RequestTime(q: JoinRequest): Time { q.createdAt }

  // ---------------------------------------------------------------------------
  // friends and friend_requests

  /** The edge has `u` as one of its endpoints (`user_id1.eq.u,user_id2.eq.u`). */
  predicate Involves(f: Friendship, u: Id)
  {
    f.userId1 == u || f.userId2 == u
  }

  /** The edge joins `a` and `b`, in either orientation. */
  predicate Connects(f: Friendship, a: Id, b: Id)
  {
    (f.userId1 == a && f.userId2 == b) || (f.userId1 == b && f.userId2 == a)
  }

  /** The delete of both orientations of the edge between `a` and `b`. */
  function WithoutFriendship(fs: seq<Friendship>, a: Id, b: Id): (r: seq<Friendship>)
    ensures forall f :: f in r <==> f in fs && !Connects(f, a, b)
    ensures forall f :: f in r ==> !Connects(f, b, a)
  {
    Filter(fs, (f: Friendship) => !Connects(f, a, b))
  }

  /** The request goes between `a` and `b`, in either direction. */
  predicate Between(q: FriendRequest, a: Id, b: Id)
  {
    (q.senderId == a && q.receiverId == b) || (q.senderId == b && q.receiverId == a)
  }

  /** `.from('friend_requests').update({ status }).eq('id', id)`. */
  function SetFriendStatus(rows: seq<FriendRequest>, id: Id, status: FriendStatus): (r: seq<FriendRequest>)
    ensures |r| == |rows|
    ensures forall i :: 0 <= i < |r| ==> r[i].(status := rows[i].status) == rows[i]
    ensures forall i :: 0 <= i < |r| ==> r[i].status == if rows[i].id == id then status else rows[i].status
  {
    Map(rows, (q: FriendRequest) => if q.id == id then q.(status := status) else q)
  }

  /** The row a friend request inserts: `sender_id`, `receiver_id`, `status: 'pending'`; `id` is the database's. */
  function NewFriendRequest(id: Id, senderId: Id, receiverId: Id): (q: FriendRequest)
    ensures q.senderId == senderId && q.receiverId == receiverId && q.status == FriendPending
  {
    FriendRequest(id, senderId, receiverId, FriendPending)
  }

  /** `.update({ status }).eq('sender_id', s).eq('receiver_id', r)`: every request of that pair. */
  function SetFriendStatusFrom(rows: seq<FriendRequest>, sender: Id, receiver: Id, status: FriendStatus): (r: seq<FriendRequest>)
    ensures |r| == |rows|
    ensures forall i :: 0 <= i < |r| ==> r[i].(status := rows[i].status) == rows[i]
    ensures forall i :: 0 <= i < |r| ==>
      r[i].status == if rows[i].senderId == sender && rows[i].receiverId == receiver then status else rows[i].status
  {
    Map(rows, (q: FriendRequest) => if q.senderId == sender && q.receiverId == receiver then q.(status := status) else q)
  }

  // ---------------------------------------------------------------------------
  // likes, posts, group_messages

  /** `.from('likes').delete().match({ post_id, user_id })`. */
  function WithoutLike(likes: seq<Like>, postId: Id, userId: Id): (r: seq<Like>)
    ensures Like(postId, userId) !in r
    ensures forall l :: l in r <==> l in likes && l != Like(postId, userId)
  {
    Filter(likes, (l: Like) => l != Like(postId, userId))
  }

  /** `.from('posts').delete().match({ id })`. */
  function WithoutPost(posts: seq<Post>, id: Id): (r: seq<Post>)
    ensures forall p :: p in r <==> p in posts && p.id != id
  {
    Filter(posts, (p: Post) => p.id != id)
  }

  /** `.from('group_messages').delete().eq('id', id)`, and the same filter on the client's list. */
  function WithoutMessage(ms: seq<GroupMessage>, id: Id): (r: seq<GroupMessage>)
    ensures forall m :: m in r <==> m in ms && m.id != id
  {
    Filter(ms, (m: GroupMessage) => m.id != id)
  }

  /** `.from('group_messages').delete().eq('group_id', g)`. */
  function WithoutGroupMessages(ms: seq<GroupMessage>, groupId: Id): (r: seq<GroupMessage>)
    ensures forall m :: m in r <==> m in ms && m.groupId != groupId
  {
    Filter(ms, (m: GroupMessage) => m.groupId != groupId)
  }
}
