/** Database notifications (app/Http/Controllers/NotificationController.php):
    the JSON feed of a user's latest notifications with payload defaults, and
    marking read and deleting, one or all. All users' notifications share one
    table; every action only looks at the acting user's rows. */
module Notifications {
  import opened Common

  /** A stored notification: its UUID, the id of the user it belongs to, its
      payload (a JSON object of strings), and when it was created and read. */
  datatype Notification = Notification(
    id: string,
    owner: nat,
    data: map<string, string>,
    createdAt: int,
    readAt: Option<int>)

  // ---------------------------------------------------------------------------
  // Queries

  function OwnedBy(user: nat): Notification -> bool {
    (n: Notification) => n.owner == user
  }

  function UnreadOf(user: nat): Notification -> bool {
    (n: Notification) => n.owner == user && n.readAt.None?
  }

  /** `$user->notifications()` */
  function Inbox(rows: seq<Notification>, user: nat): seq<Notification> {
    Filter(rows, OwnedBy(user))
  }

  /** `$user->unreadNotifications()`: the user's rows with no read time. */
  function Unread(rows: seq<Notification>, user: nat): (r: seq<Notification>)
    ensures forall n :: n in r <==> n in rows && n.owner == user && n.readAt.None?
  {
    Filter(rows, UnreadOf(user))
  }

  /** Where `$user->notifications()->where('id', $id)->first()` is. The query
      runs on the newest-first relation and so returns the newest match; this
      returns the first match in row order. The two agree because notification
      ids are UUID primary keys, so at most one row carries a given id. */
  function Find(rows: seq<Notification>, user: nat, id: string): (k: nat)
    ensures k <= |rows|
    ensures k < |rows| ==> rows[k].owner == user && rows[k].id == id
    ensures k == |rows| ==> forall n :: n in rows ==> !(n.owner == user && n.id == id)
  {
    if rows == [] then 0
    else if rows[0].owner == user && rows[0].id == id then 0
    else 1 + Find(rows[1..], user, id)
  }

  // ---------------------------------------------------------------------------
  // The feed

  /** One entry of the feed. `kind` is the payload's `type`. */
  datatype NotificationView = NotificationView(
    id: string,
    kind: string,
    title: string,
    message: string,
    severity: string,
    icon: string,
    color: string,
    actionUrl: Option<string>,
    priority: string,
    createdAt: int,
    readAt: Option<int>,
    isRead: bool)

  /** `$data[key] ?? default`. PHP's `??` also falls back when the key holds
      null; payload values here are strings, never null, so presence of the
      key is the whole test. */
  function Field(data: map<string, string>, key: string, default: string): string {
    if key in data then data[key] else default
  }

  /** The feed entry of a notification: payload fields where present, their
      defaults where missing, and `is_read` exactly when it has been read. */
  function Present(n: Notification): (v: NotificationView)
    ensures v.id == n.id && v.createdAt == n.createdAt && v.readAt == n.readAt
    ensures v.isRead <==> n.readAt.Some?
    ensures "type" !in n.data ==> v.kind == "default"
    ensures "title" !in n.data ==> v.title == "Notification"
    ensures "message" !in n.data ==> v.message == ""
    ensures "severity" !in n.data ==> v.severity == "medium"
    ensures "color" !in n.data ==> v.color == "gray"
    ensures "priority" !in n.data ==> v.priority == "normal"
    ensures "icon" !in n.data ==> v.icon == "\U{1F4C4}"
    ensures "action_url" !in n.data ==> v.actionUrl == None
    ensures "type" in n.data ==> v.kind == n.data["type"]
    ensures "title" in n.data ==> v.title == n.data["title"]
    ensures "message" in n.data ==> v.message == n.data["message"]
    ensures "severity" in n.data ==> v.severity == n.data["severity"]
    ensures "icon" in n.data ==> v.icon == n.data["icon"]
    ensures "color" in n.data ==> v.color == n.data["color"]
    ensures "priority" in n.data ==> v.priority == n.data["priority"]
    ensures "action_url" in n.data ==> v.actionUrl == Some(n.data["action_url"])
  {
    NotificationView(
      n.id,
      Field(n.data, "type", "default"),
      Field(n.data, "title", "Notification"),
      Field(n.data, "message", ""),
      Field(n.data, "severity", "medium"),
      Field(n.data, "icon", "\U{1F4C4}"),
      Field(n.data, "color", "gray"),
      if "action_url" in n.data then Some(n.data["action_url"]) else None,
      Field(n.data, "priority", "normal"),
      n.createdAt,
      n.readAt,
      n.readAt.Some?)
  }

  /** An empty payload shows every default. */
  lemma EmptyPayloadShowsDefaults(n: Notification)
    requires n.data == map[]
    ensures Present(n) == NotificationView(n.id, "default", "Notification", "", "medium", "\U{1F4C4}", "gray", None, "normal", n.createdAt, n.readAt, n.readAt.Some?)
  {
  }

  function CreatedAt(n: Notification): int {
    n.createdAt
  }

  function PresentAll(top: seq<Notification>): (r: seq<NotificationView>)
    ensures |r| == |top|
    ensures forall i :: 0 <= i < |r| ==> r[i] == Present(top[i])
    ensures forall i :: 0 <= i < |r| ==> r[i].id == top[i].id && r[i].createdAt == top[i].createdAt
  {
    seq(|top|, i requires 0 <= i < |top| => Present(top[i]))
  }

  /** `latest()->limit(10)` on the user's notifications. */
  function Latest(rows: seq<Notification>, user: nat): seq<Notification> {
    TopByDesc(Inbox(rows, user), CreatedAt, 10)
  }

  predicate Listed(r: seq<NotificationView>, n: Notification) {
    exists j :: 0 <= j < |r| && r[j].id == n.id
  }

  lemma LatestAreTheUsers(rows: seq<Notification>, user: nat)
    ensures forall i :: 0 <= i < |Latest(rows, user)| ==>
      Latest(rows, user)[i] in rows && Latest(rows, user)[i].owner == user
  {
    var top := Latest(rows, user);
    forall i | 0 <= i < |top|
      ensures top[i] in rows && top[i].owner == user
    {
      assert top[i] in multiset(top);
      assert top[i] in Inbox(rows, user);
    }
  }

  /** Newest first. */
  predicate NewestFirst(r: seq<NotificationView>) {
    forall i, j :: 0 <= i < j < |r| ==> r[i].createdAt >= r[j].createdAt
  }

  /** Every entry shows one of the user's notifications. */
  predicate ShowsInbox(r: seq<NotificationView>, rows: seq<Notification>, user: nat) {
    forall i :: 0 <= i < |r| ==> exists n :: n in rows && n.owner == user && r[i] == Present(n)
  }

  /** The views present distinct rows of the user's inbox: a sub-multiset of
      it, so no notification is listed twice. */
  ghost predicate FromDistinctRows(r: seq<NotificationView>, rows: seq<Notification>, user: nat) {
    exists top :: multiset(top) <= multiset(Inbox(rows, user)) && r == PresentAll(top)
  }

  /** No notification of the user that is not listed is newer than a listed one. */
  predicate NoNewerLeftOut(r: seq<NotificationView>, rows: seq<Notification>, user: nat) {
    forall n, i :: n in Inbox(rows, user) && !Listed(r, n) && 0 <= i < |r| ==> n.createdAt <= r[i].createdAt
  }

  lemma UnlistedAreOlder(rows: seq<Notification>, user: nat)
    ensures NoNewerLeftOut(PresentAll(Latest(rows, user)), rows, user)
  {
    var top := Latest(rows, user);
    var r := PresentAll(top);
    LeftOutAreOlder(rows, user);
    KeptAreListed(top);
  }

  /** Every notification `Latest` keeps appears in the views. */
  lemma KeptAreListed(top: seq<Notification>)
    ensures forall n :: n in top ==> Listed(PresentAll(top), n)
  {
    var r := PresentAll(top);
    forall n | n in top
      ensures Listed(r, n)
    {
      var j := IndexOf(top, n);
      assert r[j].id == n.id;
    }
  }

  /** A notification of the inbox that `Latest` leaves out is no newer than
      any it keeps. */
  lemma LeftOutAreOlder(rows: seq<Notification>, user: nat)
    ensures var top := Latest(rows, user);
      forall n, i :: n in Inbox(rows, user) && n !in top && 0 <= i < |top| ==> n.createdAt <= top[i].createdAt
  {
    var inbox := Inbox(rows, user);
    var top := Latest(rows, user);
    forall n, i | n in inbox && n !in top && 0 <= i < |top|
      ensures n.createdAt <= top[i].createdAt
    {
      assert n in multiset(inbox) - multiset(top);
      assert CreatedAt(n) <= CreatedAt(top[i]);
    }
  }

  /** The listed part of `getNotifications`: at most ten of the user's
      notifications, newest first, none left out newer than one listed. */
  function LatestViews(rows: seq<Notification>, user: nat): (r: seq<NotificationView>)
    ensures |r| == Min(10, |Inbox(rows, user)|)
    ensures NewestFirst(r)
    ensures ShowsInbox(r, rows, user)
    ensures NoNewerLeftOut(r, rows, user)
    ensures FromDistinctRows(r, rows, user)
  {
    assert multiset(Latest(rows, user)) <= multiset(Inbox(rows, user));
    ViewsOrdered(rows, user);
    ViewsFromInbox(rows, user);
    UnlistedAreOlder(rows, user);
    PresentAll(Latest(rows, user))
  }

  lemma ViewsOrdered(rows: seq<Notification>, user: nat)
    ensures NewestFirst(PresentAll(Latest(rows, user)))
  {
    var top := Latest(rows, user);
    var r := PresentAll(top);
    forall i, j | 0 <= i < j < |r|
      ensures r[i].createdAt >= r[j].createdAt
    {
      assert CreatedAt(top[i]) >= CreatedAt(top[j]);
    }
  }

  lemma ViewsFromInbox(rows: seq<Notification>, user: nat)
    ensures ShowsInbox(PresentAll(Latest(rows, user)), rows, user)
  {
    var top := Latest(rows, user);
    var r := PresentAll(top);
    LatestAreTheUsers(rows, user);
    forall i | 0 <= i < |r|
      ensures exists n :: n in rows && n.owner == user && r[i] == Present(n)
    {
      assert top[i] in rows && top[i].owner == user && r[i] == Present(top[i]);
    }
  }

  /** `getNotifications`: the latest views and the user's unread count,
      which never exceeds the size of the inbox. */
  function Feed(rows: seq<Notification>, user: nat): (r: (seq<NotificationView>, nat))
    ensures r.0 == LatestViews(rows, user)
    ensures r.1 == |Unread(rows, user)|
    ensures r.1 <= |Inbox(rows, user)|
  {
    FilterFilter(rows, OwnedBy(user), UnreadOf(user));
    (LatestViews(rows, user), |Unread(rows, user)|)
  }

  // ---------------------------------------------------------------------------
  // Marking read

  /** `markAsRead`: stamp the user's notification with that id if it is
      unread (success); otherwise nothing changes (info). */
  function MarkedAsRead(rows: seq<Notification>, user: nat, id: string, now: int): (r: (seq<Notification>, Outcome))
    ensures var k := Find(rows, user, id);
      && (k == |rows| || rows[k].readAt.Some? ==> r == (rows, Info))
      && (k < |rows| && rows[k].readAt.None? ==>
            && r.1 == Success
            && r.0 == rows[k := rows[k].(readAt := Some(now))])
  {
    var k := Find(rows, user, id);
    if k == |rows| || rows[k].readAt.Some? then (rows, Info)
    else (rows[k := rows[k].(readAt := Some(now))], Success)
  }

  /** A successful `markAsRead` lowers the user's unread count by one, keeps
      the shape of every inbox, leaves other users' notifications alone, and
      touches no other row. */
  lemma {:induction false} MarkAsReadChangesOnlyTarget(rows: seq<Notification>, user: nat, id: string, now: int)
    requires MarkedAsRead(rows, user, id, now).1 == Success
    ensures var after := MarkedAsRead(rows, user, id, now).0;
      var k := Find(rows, user, id);
      && |after| == |rows|
      && (forall j :: 0 <= j < |rows| && j != k ==> after[j] == rows[j])
      && after[k].readAt == Some(now)
      && |Unread(after, user)| == |Unread(rows, user)| - 1
      && |Inbox(after, user)| == |Inbox(rows, user)|
      && forall other :: other != user ==> Inbox(after, other) == Inbox(rows, other)
  {
    var k := Find(rows, user, id);
    var x := rows[k].(readAt := Some(now));
    FilterReplaceAt(rows, k, x, UnreadOf(user));
    FilterReplaceAt(rows, k, x, OwnedBy(user));
    forall other | other != user
      ensures Inbox(rows[k := x], other) == Inbox(rows, other)
    {
      FilterReplaceAt(rows, k, x, OwnedBy(other));
    }
  }

  function MarkOne(n: Notification, user: nat, now: int): Notification {
    if n.owner == user && n.readAt.None? then n.(readAt := Some(now)) else n
  }

  /** Every row after marking all of the user's unread notifications read. */
  function AllMarkedRead(rows: seq<Notification>, user: nat, now: int): (r: seq<Notification>)
    ensures |r| == |rows|
    ensures forall i :: 0 <= i < |r| ==> r[i] == MarkOne(rows[i], user, now)
  {
    seq(|rows|, i requires 0 <= i < |rows| => MarkOne(rows[i], user, now))
  }

  /** After `markAllAsRead` the user has nothing unread, keeps every
      notification (already-read ones with their old time), and other users'
      notifications are untouched. */
  lemma MarkAllAsReadClearsUnread(rows: seq<Notification>, user: nat, now: int)
    ensures var after := AllMarkedRead(rows, user, now);
      && Unread(after, user) == []
      && (forall i :: 0 <= i < |rows| ==> after[i].id == rows[i].id && after[i].owner == rows[i].owner)
      && (forall i :: 0 <= i < |rows| && rows[i].readAt.Some? ==> after[i] == rows[i])
      && forall other :: other != user ==> Inbox(after, other) == Inbox(rows, other)
  {
    var after := AllMarkedRead(rows, user, now);
    forall n | n in after
      ensures !UnreadOf(user)(n)
    {
      var i :| 0 <= i < |after| && after[i] == n;
    }
    FilterNone(after, UnreadOf(user));
    forall other | other != user
      ensures Inbox(after, other) == Inbox(rows, other)
    {
      FilterPointwise(after, rows, OwnedBy(other));
    }
  }

  // ---------------------------------------------------------------------------
  // Deleting

  function RemoveAt(rows: seq<Notification>, k: nat): seq<Notification>
    requires k < |rows|
  {
    rows[..k] + rows[k + 1..]
  }

  /** `destroy`: delete the user's notification with that id (success), or
      report that there is none (error) and change nothing. */
  function Destroyed(rows: seq<Notification>, user: nat, id: string): (r: (seq<Notification>, Outcome))
    ensures var k := Find(rows, user, id);
      && (k == |rows| ==> r == (rows, Error))
      && (k < |rows| ==> r == (RemoveAt(rows, k), Success))
  {
    var k := Find(rows, user, id);
    if k == |rows| then (rows, Error) else (RemoveAt(rows, k), Success)
  }

  /** A successful `destroy` takes exactly one notification out of the
      user's inbox, and none out of anyone else's. */
  lemma DestroyRemovesExactlyOne(rows: seq<Notification>, user: nat, id: string)
    requires Destroyed(rows, user, id).1 == Success
    ensures var after := Destroyed(rows, user, id).0;
      && |after| == |rows| - 1
      && |Inbox(after, user)| == |Inbox(rows, user)| - 1
      && forall other :: other != user ==> Inbox(after, other) == Inbox(rows, other)
  {
    var k := Find(rows, user, id);
    FilterRemoveAt(rows, k, OwnedBy(user));
    forall other | other != user
      ensures Inbox(RemoveAt(rows, k), other) == Inbox(rows, other)
    {
      FilterRemoveAt(rows, k, OwnedBy(other));
    }
  }

  function NotOwnedBy(user: nat): Notification -> bool {
    (n: Notification) => n.owner != user
  }

  /** After `destroyAll` the user has no notifications, and everyone else
      keeps theirs. */
  lemma DestroyAllEmptiesOnlyThatInbox(rows: seq<Notification>, user: nat)
    ensures var after := Filter(rows, NotOwnedBy(user));
      && Inbox(after, user) == []
      && |after| == |rows| - |Inbox(rows, user)|
      && forall other :: other != user ==> Inbox(after, other) == Inbox(rows, other)
  {
    var after := Filter(rows, NotOwnedBy(user));
    FilterNone(after, OwnedBy(user));
    forall other | other != user
      ensures Inbox(after, other) == Inbox(rows, other)
    {
      FilterFilter(rows, NotOwnedBy(user), OwnedBy(other));
    }
    FilterSplitCount(rows, OwnedBy(user), NotOwnedBy(user));
  }

  /** Each row passes exactly one of two complementary tests. */
  lemma {:induction false} FilterSplitCount(s: seq<Notification>, p: Notification -> bool, q: Notification -> bool)
    requires forall x :: p(x) <==> !q(x)
    ensures |Filter(s, p)| + |Filter(s, q)| == |s|
    decreases |s|
  {
    if s != [] {
      var init, last := s[..|s| - 1], s[|s| - 1];
      assert s == init + [last];
      FilterSnoc(init, last, p);
      FilterSnoc(init, last, q);
      assert p(last) <==> !q(last);
      FilterSplitCount(init, p, q);
    }
  }

  // ---------------------------------------------------------------------------
  // The table

  class NotificationTable {
    var rows: seq<Notification>

    constructor ()
      ensures rows == []
    {
      rows := [];
    }

    method MarkAsRead(user: nat, id: string, now: int) returns (outcome: Outcome)
      modifies this
      ensures (rows, outcome) == MarkedAsRead(old(rows), user, id, now)
    {
      var k := Find(rows, user, id);
      if k < |rows| && rows[k].readAt.None? {
        rows := rows[k := rows[k].(readAt := Some(now))];
        outcome := Success;
      } else {
        outcome := Info;
      }
    }

    /** `markAllAsRead`: count the user's unread notifications and, if there
        are any, stamp each of them read. */
    method MarkAllAsRead(user: nat, now: int) returns (outcome: Outcome, count: nat)
      modifies this
      ensures count == |Unread(old(rows), user)|
      ensures count == 0 ==> outcome == Info && rows == old(rows)
      ensures count > 0 ==> outcome == Success && rows == AllMarkedRead(old(rows), user, now)
    {
      count := |Unread(rows, user)|;
      if count == 0 {
        return Info, count;
      }
      var i := 0;
      while i < |rows|
        invariant 0 <= i <= |rows| == |old(rows)|
        invariant forall j :: 0 <= j < i ==> rows[j] == MarkOne(old(rows)[j], user, now)
        invariant forall j :: i <= j < |rows| ==> rows[j] == old(rows)[j]
      {
        if rows[i].owner == user && rows[i].readAt.None? {
          rows := rows[i := rows[i].(readAt := Some(now))];
        }
        i := i + 1;
      }
      outcome := Success;
    }

    method Destroy(user: nat, id: string) returns (outcome: Outcome)
      modifies this
      ensures (rows, outcome) == Destroyed(old(rows), user, id)
    {
      var k := Find(rows, user, id);
      if k == |rows| {
        return Error;
      }
      rows := rows[..k] + rows[k + 1..];
      return Success;
    }

    /** `destroyAll`: count the user's notifications and, if there are any,
        delete them all. */
    method DestroyAll(user: nat) returns (outcome: Outcome, count: nat)
      modifies this
      ensures count == |Inbox(old(rows), user)|
      ensures count == 0 ==> outcome == Info && rows == old(rows)
      ensures count > 0 ==> outcome == Success && rows == Filter(old(rows), NotOwnedBy(user))
    {
      count := |Inbox(rows, user)|;
      if count == 0 {
        return Info, count;
      }
      rows := Filter(rows, NotOwnedBy(user));
      outcome := Success;
    }
  }
}
