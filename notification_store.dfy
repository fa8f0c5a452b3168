/**
 * The client-wide notification store: the list of notifications and the
 * badge counter `unreadCount`, with the actions that change both.
 *
 * Each action is written once as a function from the old pair to the new
 * one, and the class's methods perform the database call and then take that
 * step. The counter is kept as the source keeps it, by adjusting it on each
 * action rather than recounting; the lemmas below say for which actions and
 * inputs it still equals the number of unread items.
 */
module NotificationStore {
  import opened Common
  import opened Tables

  /** The store's two fields. `unreadCount` is a JavaScript number. */
  datatype StoreState = StoreState(notifications: seq<Notification>, unreadCount: int)

  /** The counter equals the number of unread items in the list. */
  predicate Consistent(s: StoreState)
  {
    s.unreadCount == CountUnread(s.notifications)
  }

  /** No two items share an id (the table's primary key). */
  predicate UniqueIds(ns: seq<Notification>)
  {
    forall i, j :: 0 <= i < j < |ns| ==> ns[i].id != ns[j].id
  }

  /** `Math.max(0, c - 1)`. */
  function Decrement(c: int): (r: int)
    ensures r >= 0
    ensures c >= 1 ==> r == c - 1
    ensures c < 1 ==> r == 0
  {
    if c - 1 > 0 then c - 1 else 0
  }

  /** The number of unread items carrying the given id. */
  function UnreadWithId(ns: seq<Notification>, id: Id): nat
  {
    if ns == [] then 0
    else (if ns[0].id == id && !ns[0].read then 1 else 0) + UnreadWithId(ns[1..], id)
  }

  // ---------------------------------------------------------------------------
  // The actions as state transitions

  /**
   * `fetchNotifications`: the table's rows newest first, and the counter set
   * to the number of unread rows. The counter is consistent afterwards.
   */
  function Fetched(rows: seq<Notification>): (r: StoreState)
    ensures NewestFirst(r.notifications, NoticeTime)
    ensures multiset(r.notifications) == multiset(rows)
    ensures r.unreadCount == CountUnread(rows)
  {
    var ns := SortNewestFirst(rows, NoticeTime);
    CountUnreadPermutation(ns, rows);
    StoreState(ns, CountUnread(ns))
  }

  /** `addNotification`: appended at the end, counter up by one whatever the item's `read` flag. */
  function Added(s: StoreState, n: Notification): StoreState
  {
    StoreState(s.notifications + [n], s.unreadCount + 1)
  }

  /** `markAsRead`: the items with that id become read, counter down by one but not below zero. */
  function MarkedRead(s: StoreState, id: Id): (r: StoreState)
    ensures r.unreadCount >= 0
    ensures forall n :: n in r.notifications && n.id == id ==> n.read
  {
    StoreState(MarkRead(s.notifications, id), Decrement(s.unreadCount))
  }

  /** `markAllAsRead`: every item read and the counter zero, which is consistent. */
  function MarkedAllRead(s: StoreState): (r: StoreState)
    ensures forall n :: n in r.notifications ==> n.read
    ensures |r.notifications| == |s.notifications|
    ensures Consistent(r)
  {
    var ns := MarkAllRead(s.notifications);
    assert forall n :: n in ns ==> n.read by {
      forall n | n in ns ensures n.read {
        var i :| 0 <= i < |ns| && ns[i] == n;
      }
    }
    StoreState(ns, 0)
  }

  /**
   * `clearNotification`: the items with that id leave the list; the counter
   * stays when the first such item was read, and otherwise (an unread item,
   * or no item at all) goes down by one but not below zero.
   */
  function Cleared(s: StoreState, id: Id): (r: StoreState)
    ensures s.unreadCount >= 0 ==> r.unreadCount >= 0
    ensures NoticeWithId(r.notifications, id).None?
  {
    var found := NoticeWithId(s.notifications, id);
    StoreState(
      WithoutNotification(s.notifications, id),
      if found.Some? && found.value.read then s.unreadCount else Decrement(s.unreadCount))
  }

  /** `clearAllNotifications`: nothing left, counter zero. */
  function ClearedAll(): (r: StoreState)
    ensures r.notifications == [] && Consistent(r)
  {
    StoreState([], 0)
  }

  /** What `.delete().neq('id', '')` leaves of the table: only rows whose id is empty. */
  function RowsWithEmptyId(ns: seq<Notification>): (r: seq<Notification>)
    ensures forall n :: n in r <==> n in ns && n.id == ""
  {
    Filter(ns, (n: Notification) => n.id == "")
  }

  // ---------------------------------------------------------------------------
  // Counting lemmas

  lemma {:induction false} CountUnreadAppend(ns: seq<Notification>, n: Notification)
    ensures CountUnread(ns + [n]) == CountUnread(ns) + (if n.read then 0 else 1)
  {
    FilterAppend(ns, [n], Unread);
    assert Filter([n], Unread) == if n.read then [] else [n];
  }

  lemma {:induction false} CountUnreadConcat(a: seq<Notification>, b: seq<Notification>)
    ensures CountUnread(a + b) == CountUnread(a) + CountUnread(b)
  {
    FilterAppend(a, b, Unread);
  }

  /** Reordering the list does not change the number of unread items. */
  lemma {:induction false} CountUnreadPermutation(a: seq<Notification>, b: seq<Notification>)
    requires multiset(a) == multiset(b)
    ensures CountUnread(a) == CountUnread(b)
    decreases |a|
  {
    if a == [] {
      assert |b| == |multiset(b)| == 0;
    } else {
      assert a[0] in multiset(b);
      var k :| 0 <= k < |b| && b[k] == a[0];
      var rest := b[..k] + b[k + 1..];
      assert b == b[..k] + [b[k]] + b[k + 1..];
      assert a == [a[0]] + a[1..];
      assert multiset(b) == multiset(b[..k]) + multiset{b[k]} + multiset(b[k + 1..]);
      assert multiset(rest) == multiset(b[..k]) + multiset(b[k + 1..]);
      assert multiset(a) == multiset{a[0]} + multiset(a[1..]);
      assert multiset(a[1..]) == multiset(a) - multiset{a[0]};
      assert multiset(rest) == multiset(b) - multiset{b[k]};
      CountUnreadPermutation(a[1..], rest);
      CountUnreadConcat([a[0]], a[1..]);
      CountUnreadConcat(b[..k], [b[k]]);
      CountUnreadConcat(b[..k] + [b[k]], b[k + 1..]);
      CountUnreadConcat(b[..k], b[k + 1..]);
      assert Filter([a[0]], Unread) == if a[0].read then [] else [a[0]];
    }
  }

  /** Marking an id read lowers the number of unread items by the unread items with that id. */
  lemma {:induction false} CountMarkRead(ns: seq<Notification>, id: Id)
    ensures CountUnread(MarkRead(ns, id)) + UnreadWithId(ns, id) == CountUnread(ns)
  {
    if ns != [] {
      var m := MarkRead(ns, id);
      assert m == [m[0]] + m[1..];
      assert ns == [ns[0]] + ns[1..];
      assert m[1..] == MarkRead(ns[1..], id);
      CountMarkRead(ns[1..], id);
      CountUnreadConcat([m[0]], m[1..]);
      CountUnreadConcat([ns[0]], ns[1..]);
      assert Filter([m[0]], Unread) == if m[0].read then [] else [m[0]];
      assert Filter([ns[0]], Unread) == if ns[0].read then [] else [ns[0]];
    }
  }

  /** Removing an id lowers the number of unread items by the unread items with that id. */
  lemma {:induction false} CountWithout(ns: seq<Notification>, id: Id)
    ensures CountUnread(WithoutNotification(ns, id)) + UnreadWithId(ns, id) == CountUnread(ns)
  {
    if ns != [] {
      assert ns == [ns[0]] + ns[1..];
      CountWithout(ns[1..], id);
      CountUnreadConcat([ns[0]], ns[1..]);
      assert Filter([ns[0]], Unread) == if ns[0].read then [] else [ns[0]];
      if ns[0].id != id {
        CountUnreadConcat([ns[0]], WithoutNotification(ns[1..], id));
      }
    }
  }

  /** With unique ids, the unread items with an id are the found item when it is unread, else none. */
  lemma {:induction false} UnreadWithIdUnique(ns: seq<Notification>, id: Id)
    requires UniqueIds(ns)
    ensures UnreadWithId(ns, id) == if NoticeWithId(ns, id).Some? && !NoticeWithId(ns, id).value.read then 1 else 0
  {
    if ns != [] {
      assert UniqueIds(ns[1..]) by {
        forall i, j | 0 <= i < j < |ns[1..]| ensures ns[1..][i].id != ns[1..][j].id {
          assert ns[1..][i] == ns[i + 1] && ns[1..][j] == ns[j + 1];
        }
      }
      UnreadWithIdUnique(ns[1..], id);
      if ns[0].id == id {
        assert NoticeWithId(ns[1..], id).None? by {
          forall n | n in ns[1..] ensures n.id != id {
            var j :| 0 <= j < |ns[1..]| && ns[1..][j] == n;
            assert ns[j + 1] == n;
          }
        }
      } else {
        assert NoticeWithId(ns, id) == NoticeWithId(ns[1..], id);
      }
    }
  }

  // ---------------------------------------------------------------------------
  // When the counter stays consistent

  /** After adding, the counter is still consistent exactly when the added item is unread. */
  lemma AddedConsistent(s: StoreState, n: Notification)
    requires Consistent(s)
    ensures Consistent(Added(s, n)) <==> !n.read
  {
    CountUnreadAppend(s.notifications, n);
  }

  /**
   * After marking an id read, the counter is still consistent exactly when
   * one unread item carried that id, or none did and the counter was zero.
   * Marking an item that is already read therefore miscounts whenever other
   * items are unread.
   */
  lemma MarkedReadConsistent(s: StoreState, id: Id)
    requires Consistent(s)
    ensures Consistent(MarkedRead(s, id)) <==>
      UnreadWithId(s.notifications, id) == 1 || (UnreadWithId(s.notifications, id) == 0 && s.unreadCount == 0)
  {
    CountMarkRead(s.notifications, id);
  }

  /**
   * With unique ids, clearing an id keeps the counter consistent exactly when
   * an item with that id was in the list or the counter was zero: clearing an
   * id that is not there still lowers the counter.
   */
  lemma ClearedConsistent(s: StoreState, id: Id)
    requires Consistent(s) && UniqueIds(s.notifications)
    ensures Consistent(Cleared(s, id)) <==> NoticeWithId(s.notifications, id).Some? || s.unreadCount == 0
  {
    CountWithout(s.notifications, id);
    UnreadWithIdUnique(s.notifications, id);
  }

  /** A concrete consistent store that marking a read item puts out of step. */
  lemma MarkReadItemMiscounts()
    ensures var a := Notification("a", "u", "", "", Info, false, 0, None);
            var b := Notification("b", "u", "", "", Info, true, 0, None);
            var s := StoreState([a, b], 1);
            Consistent(s) && !Consistent(MarkedRead(s, "b"))
  {
    var a := Notification("a", "u", "", "", Info, false, 0, None);
    var b := Notification("b", "u", "", "", Info, true, 0, None);
    MarkedReadConsistent(StoreState([a, b], 1), "b");
    CountUnreadAppend([a], b);
    CountUnreadAppend([], a);
  }

  // ---------------------------------------------------------------------------
  // The store

  class NotificationStore {
    var notifications: seq<Notification>
    var unreadCount: int

    function Snapshot(): StoreState
      reads this
    {
      StoreState(notifications, unreadCount)
    }

    constructor ()
      ensures Snapshot() == StoreState([], 0) && Consistent(Snapshot())
    {
      notifications, unreadCount := [], 0;
    }

    /** `fetchNotifications`; `thrown` is the error it rethrows to its caller. */
    method FetchNotifications(db: Store, queryFails: bool) returns (thrown: bool)
      modifies this
      ensures thrown == queryFails
      ensures queryFails ==> Snapshot() == old(Snapshot())
      ensures !queryFails ==> Snapshot() == Fetched(db.notifications) && Consistent(Snapshot())
    {
      if queryFails {
        return true;
      }
      var s := Fetched(db.notifications);
      CountUnreadPermutation(s.notifications, db.notifications);
      notifications, unreadCount := s.notifications, s.unreadCount;
      return false;
    }

    method AddNotification(n: Notification)
      modifies this
      ensures Snapshot() == Added(old(Snapshot()), n)
      ensures old(Consistent(Snapshot())) ==> (Consistent(Snapshot()) <==> !n.read)
    {
      if Consistent(Snapshot()) {
        AddedConsistent(Snapshot(), n);
      }
      var s := Added(Snapshot(), n);
      notifications, unreadCount := s.notifications, s.unreadCount;
    }

    /** `markAsRead`: the row update first; a failed update is logged and changes nothing. */
    method MarkAsRead(db: Store, id: Id, updateFails: bool)
      modifies this, db`notifications
      ensures updateFails ==> Snapshot() == old(Snapshot()) && db.notifications == old(db.notifications)
      ensures !updateFails ==> db.notifications == MarkRead(old(db.notifications), id)
      ensures !updateFails ==> Snapshot() == MarkedRead(old(Snapshot()), id)
    {
      if updateFails {
        return;
      }
      db.notifications := MarkRead(db.notifications, id);
      var s := MarkedRead(Snapshot(), id);
      notifications, unreadCount := s.notifications, s.unreadCount;
    }

    /** `markAllAsRead`: `.update({ read: true }).eq('read', false)` marks every row read. */
    method MarkAllAsRead(db: Store, updateFails: bool)
      modifies this, db`notifications
      ensures updateFails ==> Snapshot() == old(Snapshot()) && db.notifications == old(db.notifications)
      ensures !updateFails ==> db.notifications == MarkAllRead(old(db.notifications))
      ensures !updateFails ==> Snapshot() == MarkedAllRead(old(Snapshot())) && Consistent(Snapshot())
    {
      if updateFails {
        return;
      }
      db.notifications := MarkAllRead(db.notifications);
      var s := MarkedAllRead(Snapshot());
      notifications, unreadCount := s.notifications, s.unreadCount;
    }

    method ClearNotification(db: Store, id: Id, deleteFails: bool)
      modifies this, db`notifications
      ensures deleteFails ==> Snapshot() == old(Snapshot()) && db.notifications == old(db.notifications)
      ensures !deleteFails ==> db.notifications == WithoutNotification(old(db.notifications), id)
      ensures !deleteFails ==> Snapshot() == Cleared(old(Snapshot()), id)
    {
      if deleteFails {
        return;
      }
      db.notifications := WithoutNotification(db.notifications, id);
      var s := Cleared(Snapshot(), id);
      notifications, unreadCount := s.notifications, s.unreadCount;
    }

    method ClearAllNotifications(db: Store, deleteFails: bool)
      modifies this, db`notifications
      ensures deleteFails ==> Snapshot() == old(Snapshot()) && db.notifications == old(db.notifications)
      ensures !deleteFails ==> db.notifications == RowsWithEmptyId(old(db.notifications))
      ensures !deleteFails ==> Snapshot() == ClearedAll()
    {
      if deleteFails {
        return;
      }
      db.notifications := RowsWithEmptyId(db.notifications);
      notifications, unreadCount := [], 0;
    }
  }
}
