/** The server's notification table: one row per notification, each owned by
    one user. Single-row operations address a row by id alone, without
    checking who owns it; the bulk operations address all rows of a user. */
module NotificationRepo {
  import opened Base
  import opened Ordering

  datatype Notification = Notification(
    id: string, userId: string, message: string, kind: Option<string>,
    read: bool, createdAt: int)

  function NotificationKey(n: Notification): string { n.id }

  function NotificationCreatedAt(n: Notification): Key { Num(n.createdAt) }

  function OwnedBy(userId: string): Notification -> bool {
    (n: Notification) => n.userId == userId
  }

  /** The table after `updateMany({ userId, read: false } -> read: true)`. */
  function ReadAllOf(m: map<string, Notification>, userId: string): (r: map<string, Notification>)
    ensures r.Keys == m.Keys
    ensures forall k :: k in r && r[k].userId == userId ==> r[k].read
    ensures forall k :: k in m && m[k].userId != userId ==> r[k] == m[k]
    ensures forall k :: k in m ==> r[k] == m[k].(read := r[k].read)
  {
    map k | k in m :: if m[k].userId == userId && !m[k].read then m[k].(read := true) else m[k]
  }

  /** The keys of the user's unread rows: the rows `markAllAsRead` changes. */
  function UnreadOf(m: map<string, Notification>, userId: string): set<string> {
    set k | k in m && m[k].userId == userId && !m[k].read
  }

  /** The table after `deleteMany({ userId })`. */
  function RemoveAllOf(m: map<string, Notification>, userId: string): (r: map<string, Notification>)
    ensures forall k :: k in r <==> k in m && m[k].userId != userId
    ensures forall k :: k in r ==> r[k] == m[k]
  {
    map k | k in m && m[k].userId != userId :: m[k]
  }

  function OwnedKeys(m: map<string, Notification>, userId: string): set<string> {
    set k | k in m && m[k].userId == userId
  }

  class NotificationRepository {
    var notifications: map<string, Notification>

    ghost predicate Valid()
      reads this
    {
      WellKeyed(notifications, NotificationKey)
    }

    constructor()
      ensures Valid() && notifications == map[]
    {
      notifications := map[];
    }

    /** `create`: a new unread row. */
    method Create(id: string, userId: string, message: string, kind: Option<string>, now: int)
      returns (r: Result<Notification>)
      requires Valid()
      modifies this
      ensures Valid()
      ensures id in old(notifications) ==> r == Err(UniqueViolation) && notifications == old(notifications)
      ensures id !in old(notifications) ==>
        && r == Ok(Notification(id, userId, message, kind, false, now))
        && notifications == old(notifications)[id := r.value]
    {
      if id in notifications {
        return Err(UniqueViolation);
      }
      var n := Notification(id, userId, message, kind, false, now);
      notifications := notifications[id := n];
      r := Ok(n);
    }

    /** `findByUserId`: exactly the user's rows, newest first. */
    method FindByUserId(userId: string) returns (r: seq<Notification>)
      requires Valid()
      ensures Enumerates(r, notifications, NotificationKey, OwnedBy(userId))
      ensures SortedBy(r, NotificationCreatedAt, Desc)
      ensures forall i :: 0 <= i < |r| ==> r[i].userId == userId
    {
      r := SelectSorted(notifications, NotificationKey, OwnedBy(userId), NotificationCreatedAt, Desc);
    }

    /** `markAsRead`: sets `read` on the row with that id, whoever owns it;
        every other row is unchanged. */
    method MarkAsRead(id: string) returns (r: Result<Notification>)
      requires Valid()
      modifies this
      ensures Valid()
      ensures id !in old(notifications) ==> r == Err(RecordNotFound) && notifications == old(notifications)
      ensures id in old(notifications) ==>
        && r == Ok(old(notifications)[id].(read := true))
        && notifications == old(notifications)[id := r.value]
    {
      if id !in notifications {
        return Err(RecordNotFound);
      }
      var n := notifications[id].(read := true);
      notifications := notifications[id := n];
      r := Ok(n);
    }

    /** `markAllAsRead`: sets `read` on the user's unread rows and returns how
        many there were; other users' rows are untouched. */
    method MarkAllAsRead(userId: string) returns (count: nat)
      requires Valid()
      modifies this
      ensures Valid()
      ensures notifications == ReadAllOf(old(notifications), userId)
      ensures count == |UnreadOf(old(notifications), userId)|
    {
      count := |UnreadOf(notifications, userId)|;
      notifications := ReadAllOf(notifications, userId);
    }

    /** `delete`: removes exactly the row with that id. */
    method Delete(id: string) returns (r: Result<Notification>)
      requires Valid()
      modifies this
      ensures Valid()
      ensures id !in old(notifications) ==> r == Err(RecordNotFound) && notifications == old(notifications)
      ensures id in old(notifications) ==>
        r == Ok(old(notifications)[id]) && notifications == old(notifications) - {id}
    {
      if id !in notifications {
        return Err(RecordNotFound);
      }
      r := Ok(notifications[id]);
      notifications := notifications - {id};
    }

    /** `deleteAll`: removes all of the user's rows and only those, and
        returns how many were removed. */
    method DeleteAll(userId: string) returns (count: nat)
      requires Valid()
      modifies this
      ensures Valid()
      ensures notifications == RemoveAllOf(old(notifications), userId)
      ensures count == |OwnedKeys(old(notifications), userId)|
    {
      count := |OwnedKeys(notifications, userId)|;
      notifications := RemoveAllOf(notifications, userId);
    }
  }

  /** Marking all of a user's rows read twice is the same as once, and the
      second time changes no row. */
  lemma {:induction false} MarkAllIdempotent(m: map<string, Notification>, userId: string)
    ensures ReadAllOf(ReadAllOf(m, userId), userId) == ReadAllOf(m, userId)
    ensures UnreadOf(ReadAllOf(m, userId), userId) == {}
  {
    var once := ReadAllOf(m, userId);
    var twice := ReadAllOf(once, userId);
    forall k | k in once ensures twice[k] == once[k] {
      if once[k].userId == userId {
        assert once[k].read;
      }
    }
    assert twice == once;
    assert forall k :: k in once && once[k].userId == userId ==> once[k].read;
  }

  /** Marking one user's rows read leaves the unread rows of every other user
      as they were. */
  lemma {:induction false} MarkAllKeepsOthersUnread(m: map<string, Notification>, userId: string, other: string)
    requires other != userId
    ensures UnreadOf(ReadAllOf(m, userId), other) == UnreadOf(m, other)
  {
    var r := ReadAllOf(m, userId);
    forall k ensures k in UnreadOf(r, other) <==> k in UnreadOf(m, other) {
      if k in m && m[k].userId == other {
        assert r[k] == m[k];
      }
    }
  }

  /** After `deleteAll(u)` no row of u is left, and the table has shrunk by
      exactly the count `deleteAll` reports. */
  lemma {:induction false} DeleteAllEmptiesInbox(m: map<string, Notification>, userId: string)
    ensures OwnedKeys(RemoveAllOf(m, userId), userId) == {}
    ensures |RemoveAllOf(m, userId)| == |m| - |OwnedKeys(m, userId)|
  {
    var r := RemoveAllOf(m, userId);
    var owned := OwnedKeys(m, userId);
    assert r.Keys == m.Keys - owned;
    assert m.Keys == r.Keys + owned;
    assert r.Keys * owned == {};
    assert |r.Keys| == |r|;
  }

  /** Deleting one user's rows keeps exactly the same rows for every other
      user. */
  lemma {:induction false} DeleteAllKeepsOthers(m: map<string, Notification>, userId: string, other: string, n: Notification)
    requires other != userId
    ensures n in m.Values && n.userId == other <==> n in RemoveAllOf(m, userId).Values && n.userId == other
  {
    var m' := RemoveAllOf(m, userId);
    if n in m.Values && n.userId == other {
      var k :| k in m && m[k] == n;
      assert k in m';
    }
  }
}
