/**
 * User notifications (`services/notification_service.py`). The table is a
 * sequence of rows in primary-key order; every function is written against
 * the record shape the service itself uses (title, creation and read
 * times, related id). Times are integer seconds and the current time is a
 * parameter.
 */
module NotificationService {
  import opened Wrappers
  import opened Domain

  datatype Notification = Notification(
    id: int,
    userId: int,
    title: string,
    kind: string,
    relatedId: Option<int>,
    isRead: bool,
    createdAt: int,
    readAt: Option<int>
  )

  /** The four events the service announces to every user. */
  datatype Event = MatchStart | MatchEnd | TournamentStart | TournamentEnd

  function Title(e: Event): string {
    match e
    case MatchStart => "Rozpoczęcie meczu"
    case MatchEnd => "Zakończenie meczu"
    case TournamentStart => "Rozpoczęcie turnieju"
    case TournamentEnd => "Zakończenie turnieju"
  }

  function Kind(e: Event): string {
    match e
    case MatchStart => "match_start"
    case MatchEnd => "match_end"
    case TournamentStart => "tournament_start"
    case TournamentEnd => "tournament_end"
  }

  /** The row `create_notification` inserts: unread, created now. */
  function Fresh(id: int, userId: int, title: string, kind: string, relatedId: Option<int>, now: int): (n: Notification)
    ensures n.id == id && n.userId == userId && !n.isRead && n.createdAt == now && n.readAt == None
  {
    Notification(id, userId, title, kind, relatedId, false, now, None)
  }

  /** The rows of one user, in table order. */
  function OfUser(rows: seq<Notification>, user: int): (r: seq<Notification>)
    ensures forall n :: n in r <==> n in rows && n.userId == user
    ensures |r| <= |rows|
  {
    if rows == [] then []
    else (if rows[0].userId == user then [rows[0]] else []) + OfUser(rows[1..], user)
  }

  function Unread(rows: seq<Notification>, user: int): (r: seq<Notification>)
    ensures forall n :: n in r <==> n in rows && n.userId == user && !n.isRead
  {
    if rows == [] then []
    else (if rows[0].userId == user && !rows[0].isRead then [rows[0]] else []) + Unread(rows[1..], user)
  }

  /** `mark_as_read` on the table: the user's unread row with that id becomes read at `now`. */
  function MarkedRead(rows: seq<Notification>, id: int, user: int, now: int): (r: seq<Notification>)
    ensures |r| == |rows|
    ensures forall i :: 0 <= i < |rows| ==>
      r[i] == if rows[i].id == id && rows[i].userId == user && !rows[i].isRead
              then rows[i].(isRead := true, readAt := Some(now)) else rows[i]
  {
    if rows == [] then []
    else
      var n := rows[0];
      [if n.id == id && n.userId == user && !n.isRead then n.(isRead := true, readAt := Some(now)) else n]
        + MarkedRead(rows[1..], id, user, now)
  }

  /** `mark_all_as_read` on the table: every unread row of the user becomes read at `now`. */
  function AllRead(rows: seq<Notification>, user: int, now: int): (r: seq<Notification>)
    ensures |r| == |rows|
    ensures forall i :: 0 <= i < |rows| ==>
      r[i] == if rows[i].userId == user && !rows[i].isRead then rows[i].(isRead := true, readAt := Some(now)) else rows[i]
  {
    if rows == [] then []
    else
      var n := rows[0];
      [if n.userId == user && !n.isRead then n.(isRead := true, readAt := Some(now)) else n] + AllRead(rows[1..], user, now)
  }

  /** `clear_old_notifications` keeps a row unless it is read and created before the cutoff. */
  predicate Old(n: Notification, cutoff: int) {
    n.createdAt < cutoff && n.isRead
  }

  function Kept(rows: seq<Notification>, cutoff: int): (r: seq<Notification>)
    ensures forall n :: n in r <==> n in rows && !Old(n, cutoff)
  {
    if rows == [] then []
    else (if Old(rows[0], cutoff) then [] else [rows[0]]) + Kept(rows[1..], cutoff)
  }

  /** `a` may be listed before `b`. */
  predicate NotOlder(a: Notification, b: Notification) {
    a.createdAt >= b.createdAt
  }

  /** Ordered by creation time, newest first. */
  predicate NewestFirstOrder(s: seq<Notification>) {
    forall i, j :: 0 <= i < j < |s| ==> NotOlder(s[i], s[j])
  }

  function Insert(x: Notification, s: seq<Notification>): seq<Notification>
    decreases |s|
  {
    if s == [] then [x]
    else if NotOlder(x, s[0]) then [x] + s
    else [s[0]] + Insert(x, s[1..])
  }

  /** `order_by(desc(created_at))`. */
  function NewestFirst(s: seq<Notification>): seq<Notification>
    decreases |s|
  {
    if s == [] then [] else Insert(s[0], NewestFirst(s[1..]))
  }

  lemma {:induction false} InsertPerm(x: Notification, s: seq<Notification>)
    ensures multiset(Insert(x, s)) == multiset(s) + multiset{x}
    decreases |s|
  {
    if s != [] && !NotOlder(x, s[0]) {
      InsertPerm(x, s[1..]);
      assert s == [s[0]] + s[1..];
    }
  }

  lemma {:induction false} InsertSpec(x: Notification, s: seq<Notification>)
    requires NewestFirstOrder(s)
    ensures NewestFirstOrder(Insert(x, s))
    ensures multiset(Insert(x, s)) == multiset(s) + multiset{x}
    decreases |s|
  {
    InsertPerm(x, s);
    if s != [] && !NotOlder(x, s[0]) {
      InsertSpec(x, s[1..]);
      var rest := Insert(x, s[1..]);
      HeadNotOlderThanAll(s, x, rest);
      PrependOrdered(s[0], rest);
      assert Insert(x, s) == [s[0]] + rest;
    }
  }

  /** The head of an ordered list that `x` does not precede is not older than any row of a mix of its tail and `x`. */
  lemma HeadNotOlderThanAll(s: seq<Notification>, x: Notification, rest: seq<Notification>)
    requires s != [] && NewestFirstOrder(s) && !NotOlder(x, s[0])
    requires multiset(rest) == multiset(s[1..]) + multiset{x}
    ensures forall k :: 0 <= k < |rest| ==> NotOlder(s[0], rest[k])
  {
    forall k | 0 <= k < |rest| ensures NotOlder(s[0], rest[k]) {
      assert rest[k] in multiset(rest);
      if rest[k] != x {
        assert rest[k] in multiset(s[1..]);
        var j :| 0 <= j < |s[1..]| && s[1..][j] == rest[k];
        assert s[j + 1] == rest[k];
      }
    }
  }

  lemma PrependOrdered(a: Notification, rest: seq<Notification>)
    requires NewestFirstOrder(rest) && forall k :: 0 <= k < |rest| ==> NotOlder(a, rest[k])
    ensures NewestFirstOrder([a] + rest)
  {
    var t := [a] + rest;
    forall i, j | 0 <= i < j < |t| ensures NotOlder(t[i], t[j]) {
      if i == 0 {
        assert t[j] == rest[j - 1];
      } else {
        assert t[i] == rest[i - 1] && t[j] == rest[j - 1];
      }
    }
  }

  /** The ordering holds exactly the input rows, newest first. */
  lemma {:induction false} NewestFirstSpec(s: seq<Notification>)
    ensures NewestFirstOrder(NewestFirst(s))
    ensures multiset(NewestFirst(s)) == multiset(s)
    ensures |NewestFirst(s)| == |s|
    decreases |s|
  {
    if s != [] {
      NewestFirstSpec(s[1..]);
      InsertSpec(s[0], NewestFirst(s[1..]));
      assert multiset(s) == multiset(s[1..]) + multiset{s[0]} by {
        assert s == [s[0]] + s[1..];
      }
    }
    assert |multiset(NewestFirst(s))| == |NewestFirst(s)|;
  }

  /**
   * `offset(o).limit(l)` as the database applies them: a negative offset
   * skips nothing and a negative limit keeps everything.
   */
  function Window(s: seq<Notification>, offset: int, limit: int): (r: seq<Notification>)
    ensures limit >= 0 ==> |r| <= limit
    ensures forall i :: 0 <= i < |r| ==> i + Skipped(offset) < |s| && r[i] == s[i + Skipped(offset)]
  {
    if Skipped(offset) >= |s| then []
    else
      var rest := s[Skipped(offset)..];
      if limit < 0 || limit >= |rest| then rest else rest[..limit]
  }

  function Skipped(offset: int): nat {
    if offset > 0 then offset else 0
  }

  /** One page of a user's notifications and their total count. */
  datatype Page = Page(items: seq<Notification>, total: nat)

  /** `get_user_notifications`: the page `page` of `perPage` items, newest first, and the user's total. */
  function UserPage(rows: seq<Notification>, user: int, page: int, perPage: int): Page {
    var all := NewestFirst(OfUser(rows, user));
    Page(Window(all, (page - 1) * perPage, perPage), |OfUser(rows, user)|)
  }

  /**
   * A page holds at most `perPage` of the user's own notifications, newest
   * first, starting after the `(page - 1) * perPage` newer ones; the total
   * counts all of the user's notifications.
   */
  lemma {:induction false} UserPageSpec(rows: seq<Notification>, user: int, page: int, perPage: int)
    ensures perPage >= 0 ==> |UserPage(rows, user, page, perPage).items| <= perPage
    ensures forall n :: n in UserPage(rows, user, page, perPage).items ==> n in rows && n.userId == user
    ensures NewestFirstOrder(UserPage(rows, user, page, perPage).items)
    ensures forall i :: 0 <= i < |UserPage(rows, user, page, perPage).items| ==>
      i + Skipped((page - 1) * perPage) < |OfUser(rows, user)|
      && UserPage(rows, user, page, perPage).items[i] == NewestFirst(OfUser(rows, user))[i + Skipped((page - 1) * perPage)]
    ensures page >= 1 && perPage >= 0 ==> Skipped((page - 1) * perPage) == (page - 1) * perPage
    ensures UserPage(rows, user, page, perPage).total == |OfUser(rows, user)|
  {
    var offset := (page - 1) * perPage;
    assert UserPage(rows, user, page, perPage).items == Window(NewestFirst(OfUser(rows, user)), offset, perPage);
    WindowOfUser(rows, user, offset, perPage);
    if page >= 1 && perPage >= 0 {
      MulNonNeg(page - 1, perPage);
    }
  }

  /** The window at `offset` of a user's notifications, newest first. */
  lemma {:induction false} WindowOfUser(rows: seq<Notification>, user: int, offset: int, limit: int)
    ensures var w := Window(NewestFirst(OfUser(rows, user)), offset, limit);
      (forall n :: n in w ==> n in rows && n.userId == user) && NewestFirstOrder(w)
    ensures |NewestFirst(OfUser(rows, user))| == |OfUser(rows, user)|
  {
    var all := NewestFirst(OfUser(rows, user));
    NewestFirstSpec(OfUser(rows, user));
    WindowOrdered(all, offset, limit);
    WindowOwned(rows, user, all, offset, limit);
  }

  lemma {:induction false} WindowOrdered(s: seq<Notification>, offset: int, limit: int)
    requires NewestFirstOrder(s)
    ensures NewestFirstOrder(Window(s, offset, limit))
  {
    var r := Window(s, offset, limit);
    forall i, j | 0 <= i < j < |r| ensures NotOlder(r[i], r[j]) {
      assert r[i] == s[i + Skipped(offset)] && r[j] == s[j + Skipped(offset)];
    }
  }

  lemma {:induction false} WindowOwned(rows: seq<Notification>, user: int, all: seq<Notification>, offset: int, limit: int)
    requires multiset(all) == multiset(OfUser(rows, user))
    ensures forall n :: n in Window(all, offset, limit) ==> n in rows && n.userId == user
  {
    var r := Window(all, offset, limit);
    forall n | n in r ensures n in rows && n.userId == user {
      var i :| 0 <= i < |r| && r[i] == n;
      assert n == all[i + Skipped(offset)];
      assert n in multiset(OfUser(rows, user));
    }
  }

  lemma MulNonNeg(a: int, b: int)
    requires a >= 0 && b >= 0
    ensures a * b >= 0
  {
  }

  predicate UniqueIds(s: seq<Notification>) {
    forall i, j :: 0 <= i < j < |s| ==> s[i].id != s[j].id
  }

  /** The notification table. */
  /** The match (for a match event) or tournament (otherwise) a notification is about exists. */
  predicate Target(db: Db, event: Event, relatedId: int)
    reads db
  {
    if event == MatchStart || event == MatchEnd then relatedId in db.matches else relatedId in db.tournaments
  }

  class NotificationStore {
    var rows: seq<Notification>

    /** Primary keys are unique. */
    ghost predicate Valid()
      reads this
    {
      UniqueIds(rows)
    }

    constructor ()
      ensures Valid() && rows == []
    {
      rows := [];
    }

    /** `get_unread_count`. */
    function GetUnreadCount(user: int): (n: nat)
      reads this
      ensures n == |Unread(rows, user)|
    {
      |Unread(rows, user)|
    }

    /** `create_notification`: appends exactly one unread row. */
    method CreateNotification(userId: int, title: string, kind: string, relatedId: Option<int>, now: int, id: int)
      returns (ok: bool)
      requires Valid() && forall n :: n in rows ==> n.id < id
      modifies this
      ensures Valid() && ok
      ensures rows == old(rows) + [Fresh(id, userId, title, kind, relatedId, now)]
    {
      rows := rows + [Fresh(id, userId, title, kind, relatedId, now)];
      ok := true;
    }

    /**
     * `mark_as_read`: the user's unread row with that id becomes read;
     * every other row is untouched; the answer is true even when there is
     * no such row.
     */
    method MarkAsRead(id: int, user: int, now: int) returns (ok: bool)
      requires Valid()
      modifies this
      ensures Valid() && ok
      ensures rows == MarkedRead(old(rows), id, user, now)
    {
      var i := 0;
      while i < |rows| && !(rows[i].id == id && rows[i].userId == user)
        invariant 0 <= i <= |rows|
        invariant forall j :: 0 <= j < i ==> !(rows[j].id == id && rows[j].userId == user)
      {
        i := i + 1;
      }
      if i < |rows| && !rows[i].isRead {
        forall j | 0 <= j < |rows| && j != i ensures rows[j].id != id {
        }
        rows := rows[i := rows[i].(isRead := true, readAt := Some(now))];
      }
      ok := true;
    }

    /** `mark_all_as_read`: every unread row of the user becomes read. */
    method MarkAllAsRead(user: int, now: int) returns (ok: bool)
      requires Valid()
      modifies this
      ensures Valid() && ok
      ensures rows == AllRead(old(rows), user, now)
      ensures |Unread(rows, user)| == 0
      ensures forall other :: other != user ==> OfUser(rows, other) == OfUser(old(rows), other)
    {
      AllReadSpec(rows, user, now);
      rows := AllRead(rows, user, now);
      ok := true;
    }

    /**
     * A `notify_*` call as intended: false when the match or tournament does
     * not exist; otherwise one notification of the event for each user, in
     * the order the user query lists them, with consecutive new ids.
     * `recipients` is that query's result: each user of the table once.
     */
    method Notify(db: Db, event: Event, relatedId: int, recipients: seq<int>, now: int, nextId: int) returns (ok: bool)
      requires Valid() && forall n :: n in rows ==> n.id < nextId
      requires forall u :: u in recipients <==> u in db.users
      requires forall i, j :: 0 <= i < j < |recipients| ==> recipients[i] != recipients[j]
      modifies this
      ensures Valid()
      ensures ok <==> Target(db, event, relatedId)
      ensures !ok ==> rows == old(rows)
      ensures ok ==> |rows| == |old(rows)| + |recipients| && rows[..|old(rows)|] == old(rows)
      ensures ok ==> forall k :: 0 <= k < |recipients| ==>
        rows[|old(rows)| + k] == Fresh(nextId + k, recipients[k], Title(event), Kind(event), Some(relatedId), now)
      ensures ok ==> forall u :: u in db.users <==>
        exists k :: |old(rows)| <= k < |rows| && rows[k].userId == u
      ensures ok ==> forall i, j :: |old(rows)| <= i < j < |rows| ==> rows[i].userId != rows[j].userId
    {
      if !Target(db, event, relatedId) {
        return false;
      }
      ghost var start := rows;
      var k := 0;
      while k < |recipients|
        invariant 0 <= k <= |recipients|
        invariant Valid() && forall n :: n in rows ==> n.id < nextId + k
        invariant |rows| == |start| + k && rows[..|start|] == start
        invariant forall j :: 0 <= j < k ==>
          rows[|start| + j] == Fresh(nextId + j, recipients[j], Title(event), Kind(event), Some(relatedId), now)
      {
        var _ := CreateNotification(recipients[k], Title(event), Kind(event), Some(relatedId), now, nextId + k);
        k := k + 1;
      }
      forall u | u in db.users
        ensures exists k :: |start| <= k < |rows| && rows[k].userId == u
      {
        var j :| 0 <= j < |recipients| && recipients[j] == u;
        assert rows[|start| + j].userId == u;
      }
      forall k | |start| <= k < |rows|
        ensures rows[k].userId == recipients[k - |start|]
      {
        assert rows[|start| + (k - |start|)] == rows[k];
      }
      ok := true;
    }

    /**
     * A `notify_*` call as written. `User` has no `is_active` column, so
     * `filter_by(is_active=True)` compares the mixin's `is_active` property
     * object with `True`; that is Python's `False`, the query's condition is
     * false and it lists no user. The call answers as `Notify` does and
     * creates no notification.
     */
    method NotifyAsWritten(db: Db, event: Event, relatedId: int) returns (ok: bool)
      ensures ok <==> Target(db, event, relatedId)
    {
      ok := Target(db, event, relatedId);
    }

    /**
     * `clear_old_notifications`: deletes exactly the read rows created
     * before `now - days`; unread rows always stay.
     */
    method ClearOldNotifications(days: int, now: int) returns (ok: bool)
      requires Valid()
      modifies this
      ensures Valid() && ok
      ensures rows == Kept(old(rows), now - days * 86400)
      ensures forall n :: n in old(rows) && !n.isRead ==> n in rows
    {
      KeptIsSubsequence(rows, now - days * 86400);
      rows := Kept(rows, now - days * 86400);
      ok := true;
    }
  }

  /**
   * One user and an existing match: the intended call notifies that user
   * once; the call as written answers true and adds nothing.
   */
  method NotifyReachesNobody() returns (intendedAdded: int, writtenAdded: int, writtenOk: bool)
    ensures intendedAdded == 1 && writtenAdded == 0 && writtenOk
  {
    var store := new NotificationStore();
    var db := new Db();
    db.users := map[1 := User("a@b", "admin", true)];
    db.matches := map[1 := NewMatch(1, 1, 2, None)];
    writtenOk := store.NotifyAsWritten(db, MatchStart, 1);
    writtenAdded := |store.rows|;
    var ok := store.Notify(db, MatchStart, 1, [1], 0, 1);
    intendedAdded := |store.rows|;
  }

  lemma {:induction false} AllReadSpec(rows: seq<Notification>, user: int, now: int)
    ensures |Unread(AllRead(rows, user, now), user)| == 0
    ensures forall other :: other != user ==> OfUser(AllRead(rows, user, now), other) == OfUser(rows, other)
    decreases |rows|
  {
    if rows != [] {
      AllReadSpec(rows[1..], user, now);
      assert AllRead(rows, user, now)[1..] == AllRead(rows[1..], user, now);
    }
  }

  /** Deleting keeps the remaining rows in order, so their keys stay unique. */
  lemma {:induction false} KeptIsSubsequence(rows: seq<Notification>, cutoff: int)
    requires UniqueIds(rows)
    ensures UniqueIds(Kept(rows, cutoff))
    decreases |rows|
  {
    if rows != [] {
      KeptIsSubsequence(rows[1..], cutoff);
      var rest := Kept(rows[1..], cutoff);
      forall n | n in rest ensures n.id != rows[0].id {
        var j :| 0 <= j < |rows[1..]| && rows[1..][j] == n;
        assert rows[j + 1] == n;
      }
    }
  }

  /** Marking the same notification twice changes nothing the second time. */
  lemma {:induction false} MarkIdempotent(rows: seq<Notification>, id: int, user: int, t1: int, t2: int)
    ensures MarkedRead(MarkedRead(rows, id, user, t1), id, user, t2) == MarkedRead(rows, id, user, t1)
    decreases |rows|
  {
    if rows != [] {
      MarkIdempotent(rows[1..], id, user, t1, t2);
    }
  }

  /** After marking everything read the user has no unread notification, and the row count is unchanged. */
  lemma MarkAllClears(rows: seq<Notification>, user: int, now: int)
    ensures |Unread(AllRead(rows, user, now), user)| == 0
    ensures |OfUser(AllRead(rows, user, now), user)| == |OfUser(rows, user)|
  {
    AllReadSpec(rows, user, now);
    SameOwners(rows, user, now);
  }

  lemma {:induction false} SameOwners(rows: seq<Notification>, user: int, now: int)
    ensures |OfUser(AllRead(rows, user, now), user)| == |OfUser(rows, user)|
    decreases |rows|
  {
    if rows != [] {
      SameOwners(rows[1..], user, now);
      assert AllRead(rows, user, now)[1..] == AllRead(rows[1..], user, now);
    }
  }
}
