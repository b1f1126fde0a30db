/** The client's in-memory notification list. Socket events prepend new
    unread entries; the user can mark one entry or all entries read, or clear
    the list; the badge shows the number of unread entries. Entry ids and
    timestamps come from the clock and are parameters. */
module NotificationCtx {

  datatype Notice = Notice(id: string, message: string, taskId: string, read: bool, createdAt: string)

  /** The text of a `task-assigned` entry. */
  function AssignedMessage(assignedBy: string, taskTitle: string): string {
    assignedBy + " assigned you a task: \"" + taskTitle + "\""
  }

  /** The text of a `task-updated` entry. */
  function UpdatedMessage(updatedBy: string, taskTitle: string): string {
    updatedBy + " updated \"" + taskTitle + "\""
  }

  /** `prev.map(n => n.id === id ? { ...n, read: true } : n)`. */
  function MarkRead(s: seq<Notice>, id: string): (r: seq<Notice>)
    ensures |r| == |s|
    ensures forall i :: 0 <= i < |s| && s[i].id == id ==> r[i] == s[i].(read := true)
    ensures forall i :: 0 <= i < |s| && s[i].id != id ==> r[i] == s[i]
  {
    if s == [] then []
    else [if s[0].id == id then s[0].(read := true) else s[0]] + MarkRead(s[1..], id)
  }

  /** `prev.map(n => ({ ...n, read: true }))`. */
  function MarkAllRead(s: seq<Notice>): (r: seq<Notice>)
    ensures |r| == |s|
    ensures forall i :: 0 <= i < |s| ==> r[i] == s[i].(read := true)
  {
    if s == [] then [] else [s[0].(read := true)] + MarkAllRead(s[1..])
  }

  /** `notifications.filter(n => !n.read).length`. */
  function Unread(s: seq<Notice>): (n: nat)
    ensures n <= |s|
  {
    if s == [] then 0 else (if s[0].read then 0 else 1) + Unread(s[1..])
  }

  /** No entry is unread exactly when the count is zero. */
  lemma {:induction false} UnreadZeroIffAllRead(s: seq<Notice>)
    ensures Unread(s) == 0 <==> forall i :: 0 <= i < |s| ==> s[i].read
  {
    if s != [] {
      UnreadZeroIffAllRead(s[1..]);
      assert forall i :: 1 <= i < |s| ==> s[i] == s[1..][i - 1];
    }
  }

  /** After marking all read, the count is zero. */
  lemma {:induction false} MarkAllReadClearsCount(s: seq<Notice>)
    ensures Unread(MarkAllRead(s)) == 0
  {
    UnreadZeroIffAllRead(MarkAllRead(s));
  }

  /** Marking one id read lowers the count by the number of unread entries
      with that id and by nothing else. */
  lemma {:induction false} MarkReadCount(s: seq<Notice>, id: string)
    ensures Unread(MarkRead(s, id)) + UnreadWithId(s, id) == Unread(s)
  {
    if s != [] {
      MarkReadCount(s[1..], id);
      assert MarkRead(s, id)[1..] == MarkRead(s[1..], id);
    }
  }

  /** How many unread entries carry the id. */
  function UnreadWithId(s: seq<Notice>, id: string): nat {
    if s == [] then 0 else (if !s[0].read && s[0].id == id then 1 else 0) + UnreadWithId(s[1..], id)
  }

  /** A new unread entry in front adds one to the count. */
  lemma {:induction false} PrependUnread(n: Notice, s: seq<Notice>)
    requires !n.read
    ensures Unread([n] + s) == Unread(s) + 1
  {
    assert ([n] + s)[1..] == s;
  }

  class NotificationCenter {
    var notifications: seq<Notice>

    constructor()
      ensures notifications == []
    {
      notifications := [];
    }

    /** The `task-assigned` handler: one unread entry in front, the rest as
        it was. */
    method OnTaskAssigned(taskId: string, taskTitle: string, assignedBy: string, id: string, createdAt: string)
      modifies this
      ensures notifications == [Notice(id, AssignedMessage(assignedBy, taskTitle), taskId, false, createdAt)]
        + old(notifications)
      ensures UnreadCount() == old(UnreadCount()) + 1
    {
      var n := Notice(id, AssignedMessage(assignedBy, taskTitle), taskId, false, createdAt);
      PrependUnread(n, notifications);
      notifications := [n] + notifications;
    }

    /** The `task-updated` handler: one unread entry in front, the rest as
        it was. The field that changed is not shown. */
    method OnTaskUpdated(taskId: string, taskTitle: string, updatedBy: string, field: string, id: string, createdAt: string)
      modifies this
      ensures notifications == [Notice(id, UpdatedMessage(updatedBy, taskTitle), taskId, false, createdAt)]
        + old(notifications)
      ensures UnreadCount() == old(UnreadCount()) + 1
    {
      var n := Notice(id, UpdatedMessage(updatedBy, taskTitle), taskId, false, createdAt);
      PrependUnread(n, notifications);
      notifications := [n] + notifications;
    }

    /** `markAsRead`: the entries with that id become read; length, order and
        every other entry stay. */
    method MarkAsRead(id: string)
      modifies this
      ensures notifications == MarkRead(old(notifications), id)
      ensures UnreadCount() == old(UnreadCount()) - UnreadWithId(old(notifications), id)
    {
      MarkReadCount(notifications, id);
      notifications := MarkRead(notifications, id);
    }

    /** `markAllAsRead`: every entry becomes read, in place. */
    method MarkAllAsRead()
      modifies this
      ensures notifications == MarkAllRead(old(notifications))
      ensures UnreadCount() == 0
    {
      MarkAllReadClearsCount(notifications);
      notifications := MarkAllRead(notifications);
    }

    /** `clearAll`: the list becomes empty. */
    method ClearAll()
      modifies this
      ensures notifications == []
      ensures UnreadCount() == 0
    {
      notifications := [];
    }

    /** `unreadCount`. */
    function UnreadCount(): (n: nat)
      reads this
      ensures n <= |notifications|
      ensures n == 0 <==> forall i :: 0 <= i < |notifications| ==> notifications[i].read
    {
      UnreadZeroIffAllRead(notifications);
      Unread(notifications)
    }
  }
}
