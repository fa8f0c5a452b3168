/**
 * `GroupJoinRequests`: the join-request panel of a group page. It loads the
 * group's pending requests only for an administrator, and approves or
 * rejects one: the status and `updated_at` first, then, for an approval, the
 * requester's membership, then a reload of the list.
 */
module GroupJoinRequests {
  import opened Common
  import opened Tables

  /** A fetched request with the requester's profile embedded (`profiles:user_id (...)`), null when none matches. */
  datatype Entry = Entry(request: JoinRequest, profile: Option<Profile>)

  /** `fetchRequests`'s rows: the group's pending requests, each with its requester's profile. */
  function Entries(t: Db, groupId: Id): (r: seq<Entry>)
    ensures forall e :: e in r ==> e.request.groupId == groupId && e.request.status == Pending
    ensures forall q :: q in t.joinRequests && q.groupId == groupId && q.status == Pending ==> exists e :: e in r && e.request == q
    ensures forall e :: e in r ==> e.profile == ProfileWithId(t.profiles, e.request.userId)
  {
    var qs := PendingRequestsOf(t.joinRequests, groupId);
    var r := Map(qs, (q: JoinRequest) => Entry(q, ProfileWithId(t.profiles, q.userId)));
    assert forall q :: q in qs ==> exists e :: e in r && e.request == q by {
      forall q | q in qs
        ensures exists e :: e in r && e.request == q
      {
        var i :| 0 <= i < |qs| && qs[i] == q;
        assert r[i] in r;
      }
    }
    r
  }

  /** `requests.find(r => r.id === requestId)`. */
  function EntryWithId(requests: seq<Entry>, requestId: Id): (r: Option<Entry>)
    ensures r.Some? ==> r.value in requests && r.value.request.id == requestId
    ensures r.None? <==> forall e :: e in requests ==> e.request.id != requestId
  {
    Find(requests, (e: Entry) => e.request.id == requestId)
  }

  /** Which awaited step of `handleRequest` reports an error; each one throws. */
  datatype Failure = NoFailure | UpdateStatus | InsertMember

  /** The tables after `handleRequest`, and whether it goes on to reload the list. */
  datatype Outcome = Outcome(tables: Db, reloads: bool)

  function Handled(t: Db, groupId: Id, requests: seq<Entry>, requestId: Id, approved: bool,
                   now: Time, failing: Failure): (o: Outcome)
    ensures o.tables.(joinRequests := t.joinRequests, groupMembers := t.groupMembers) == t
  {
    if failing == UpdateStatus then Outcome(t, false)
    else
      var t1 := t.(joinRequests := SetRequestStatus(t.joinRequests, requestId, Decision(approved), Some(now)));
      if !approved then Outcome(t1, true)
      else
        match EntryWithId(requests, requestId)
        case None => Outcome(t1, false)
        case Some(e) =>
          if failing == InsertMember then Outcome(t1, false)
          else Outcome(t1.(groupMembers := t.groupMembers + [NewMember(groupId, e.request.userId, now)]), true)
  }

  /**
   * A failed status update changes nothing and adds no member. Otherwise
   * the request takes the decision's status and the stamp. A member row,
   * with role `member`, is added only for an approval of a request in the
   * panel's list, for that request's user; a rejection changes the status
   * and nothing else. The list is reloaded exactly when no step failed and
   * the handler did not stop at a request missing from its list.
   */
  lemma HandledEffects(t: Db, groupId: Id, requests: seq<Entry>, requestId: Id, approved: bool,
                       now: Time, failing: Failure, o: Outcome)
    requires o == Handled(t, groupId, requests, requestId, approved, now, failing)
    ensures failing == UpdateStatus ==> o.tables == t && !o.reloads
    ensures failing != UpdateStatus ==> o.tables.joinRequests == SetRequestStatus(t.joinRequests, requestId, Decision(approved), Some(now))
    ensures !approved ==> o.tables.groupMembers == t.groupMembers
    ensures o.tables.groupMembers != t.groupMembers <==>
      approved && failing == NoFailure && EntryWithId(requests, requestId).Some?
    ensures o.tables.groupMembers != t.groupMembers ==>
      o.tables.groupMembers == t.groupMembers + [NewMember(groupId, EntryWithId(requests, requestId).value.request.userId, now)]
    ensures o.reloads <==> failing != UpdateStatus && (!approved || (failing != InsertMember && EntryWithId(requests, requestId).Some?))
  {
    if failing != UpdateStatus && approved && failing == NoFailure && EntryWithId(requests, requestId).Some? {
      assert |o.tables.groupMembers| == |t.groupMembers| + 1;
    }
  }

  class GroupJoinRequests {
    const groupId: Id
    const isAdmin: bool
    var requests: seq<Entry>
    var loading: bool

    constructor (groupId: Id, isAdmin: bool)
      ensures this.groupId == groupId && this.isAdmin == isAdmin && requests == [] && loading
    {
      this.groupId, this.isAdmin := groupId, isAdmin;
      requests, loading := [], true;
    }

    /** The panel renders only for an administrator whose list has loaded. */
    predicate Renders()
      reads this
    {
      isAdmin && !loading
    }

    /** The mount effect: only an administrator's panel fetches, so any other panel never renders. */
    method Mount(db: Store, queryFails: bool)
      modifies this`requests, this`loading
      ensures isAdmin ==> !loading && requests == if queryFails then old(requests) else Entries(db.Tables(), groupId)
      ensures !isAdmin ==> requests == old(requests) && loading == old(loading) && !Renders()
    {
      if isAdmin {
        FetchRequests(db, queryFails);
      }
    }

    /** `fetchRequests`: an error keeps the list; `loading` ends in every case. */
    method FetchRequests(db: Store, queryFails: bool)
      modifies this`requests, this`loading
      ensures !loading
      ensures requests == if queryFails then old(requests) else Entries(db.Tables(), groupId)
    {
      if !queryFails {
        requests := Entries(db.Tables(), groupId);
      }
      loading := false;
    }

    /** `handleRequest`, with `approved` for `status === 'approved'`; errors are logged. */
    method HandleRequest(db: Store, requestId: Id, approved: bool, now: Time, failing: Failure, reloadFails: bool)
      modifies db`joinRequests, db`groupMembers, this`requests, this`loading
      ensures var o := Handled(old(db.Tables()), groupId, old(requests), requestId, approved, now, failing);
              && db.Tables() == o.tables
              && requests == (if o.reloads && !reloadFails then Entries(db.Tables(), groupId) else old(requests))
              && loading == (if o.reloads then false else old(loading))
    {
      if failing == UpdateStatus {
        return;
      }
      db.joinRequests := SetRequestStatus(db.joinRequests, requestId, Decision(approved), Some(now));
      if approved {
        var entry := EntryWithId(requests, requestId);
        if entry.None? {
          return;
        }
        if failing == InsertMember {
          return;
        }
        db.groupMembers := db.groupMembers + [NewMember(groupId, entry.value.request.userId, now)];
      }
      FetchRequests(db, reloadFails);
    }
  }
}
