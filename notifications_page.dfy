/**
 * The notifications page: the user's notifications newest first, and
 * marking one as read in the table and then in the list.
 */
module NotificationsPage {
  import opened Common
  import opened Tables

  /** `.eq('user_id', user.id).order('created_at', { ascending: false })`. */
  function Listed(rows: seq<Notification>, userId: Id): (r: seq<Notification>)
    ensures NewestFirst(r, NoticeTime)
    ensures forall n :: n in r <==> n in rows && n.userId == userId
    ensures multiset(r) == multiset(NotificationsOf(rows, userId))
  {
    SortNewestFirst(NotificationsOf(rows, userId), NoticeTime)
  }

  /** The check button shows only on an unread item. */
  predicate OffersMarkRead(n: Notification)
  {
    !n.read
  }

  /**
   * Marking one id read withdraws the button from exactly the items with
   * that id and keeps the order by time.
   */
  lemma MarkReadWithdrawsOffer(ns: seq<Notification>, id: Id)
    ensures forall i :: 0 <= i < |ns| ==>
      OffersMarkRead(MarkRead(ns, id)[i]) == (OffersMarkRead(ns[i]) && ns[i].id != id)
    ensures NewestFirst(ns, NoticeTime) ==> NewestFirst(MarkRead(ns, id), NoticeTime)
  {
    var r := MarkRead(ns, id);
    assert forall i :: 0 <= i < |ns| ==> r[i].createdAt == ns[i].createdAt by {
      forall i | 0 <= i < |ns|
        ensures r[i].createdAt == ns[i].createdAt
      {
        assert r[i].(read := ns[i].read) == ns[i];
      }
    }
  }

  class NotificationsPage {
    var notifications: seq<Notification>
    var loading: bool

    constructor ()
      ensures notifications == [] && loading
    {
      notifications, loading := [], true;
    }

    /** The mount effect's `fetchNotifications`: nothing without a user; an error keeps the list. */
    method FetchNotifications(db: Store, user: Option<Account>, queryFails: bool)
      modifies this`notifications, this`loading
      ensures user.None? ==> notifications == old(notifications) && loading == old(loading)
      ensures user.Some? ==>
        !loading && notifications == if queryFails then old(notifications) else Listed(db.notifications, user.value.id)
    {
      if user.None? {
        return;
      }
      if !queryFails {
        notifications := Listed(db.notifications, user.value.id);
      }
      loading := false;
    }

    /**
     * `markAsRead(id)`: `.update({ read: true }).eq('id', id)`, then, on
     * success, the same change to the list; an error leaves both as they
     * were. A newest-first list stays newest first.
     */
    method MarkAsRead(db: Store, id: Id, updateFails: bool)
      modifies db`notifications, this`notifications
      ensures updateFails ==> db.notifications == old(db.notifications) && notifications == old(notifications)
      ensures !updateFails ==>
        db.notifications == MarkRead(old(db.notifications), id) && notifications == MarkRead(old(notifications), id)
      ensures |notifications| == |old(notifications)|
      ensures NewestFirst(old(notifications), NoticeTime) ==> NewestFirst(notifications, NoticeTime)
    {
      if updateFails {
        return;
      }
      db.notifications := MarkRead(db.notifications, id);
      MarkReadWithdrawsOffer(notifications, id);
      notifications := MarkRead(notifications, id);
    }
  }
}
