/** The notification service: storing notifications, listing them newest
    first with a keyset cursor on `(created_at, id)`, marking them read,
    and the per-user notification preferences.

    The notifications table becomes a sequence in insertion order. Rows are
    inserted with the current time and the next serial id, so their keys
    increase in that order (`Valid`), and "newest first" is the sequence
    reversed.
 */
module Notifications {
  import opened Common
  import opened Seqs
  import opened NotificationModels

  const DefaultPageSize: int := 20
  const MaxPageSize: int := 100

  // ---------------------------------------------------------------- keys

  /** The listing order `(created_at, id)`. */
  datatype Key = Key(createdAt: int, id: int)

  /** Lexicographic order on keys, the order of `ORDER BY created_at, id`. */
  predicate KeyLess(a: Key, b: Key) {
    a.createdAt < b.createdAt || (a.createdAt == b.createdAt && a.id < b.id)
  }

  function KeyOf(n: Notification): Key {
    Key(n.createdAt, n.id)
  }

  predicate KeysIncreasing(ns: seq<Notification>) {
    forall i, j :: 0 <= i < j < |ns| ==> KeyLess(KeyOf(ns[i]), KeyOf(ns[j]))
  }

  datatype NotificationStore = NotificationStore(
    notifications: seq<Notification>,
    preferences: map<int, NotificationPreferences>,
    nextId: int)
  {
    /** Keys grow in insertion order and ids stay below the next id. */
    predicate Valid() {
      KeysIncreasing(notifications)
      && forall i :: 0 <= i < |notifications| ==> notifications[i].id < nextId
    }
  }

  // ------------------------------------------------------------ creation

  /** `create_notification`: the stored row takes the next id and the
      current time, and starts unread. */
  function CreateNotification(store: NotificationStore, event: NotificationCreate, now: int): (r: (Notification, NotificationStore))
    ensures var n := r.0;
            n.id == store.nextId && n.createdAt == now && !n.isRead
            && n.userId == event.userId && n.kind == event.kind && n.actorUserId == event.actorUserId
            && n.snippetId == event.snippetId && n.commentId == event.commentId
            && n.title == event.title && n.body == event.body
    ensures r.1.notifications == store.notifications + [r.0] && r.1.nextId == store.nextId + 1
    ensures r.1.preferences == store.preferences
  {
    var n := Notification(store.nextId, event.userId, event.kind, event.actorUserId, event.snippetId,
                          event.commentId, event.title, event.body, false, now);
    (n, store.(notifications := store.notifications + [n], nextId := store.nextId + 1))
  }

  /** With a clock that does not run backwards, creation keeps the store's
      keys in insertion order. */
  lemma {:induction false} CreateKeepsOrder(store: NotificationStore, event: NotificationCreate, now: int)
    requires store.Valid()
    requires forall i :: 0 <= i < |store.notifications| ==> store.notifications[i].createdAt <= now
    ensures CreateNotification(store, event, now).1.Valid()
  {
    var next := CreateNotification(store, event, now).1;
    assert forall i :: 0 <= i < |store.notifications| ==> next.notifications[i] == store.notifications[i];
  }

  // ------------------------------------------------------------- listing

  /** `max(1, min(int(limit), 100))`. */
  function ClampPageSize(limit: int): (n: int)
    ensures 1 <= n <= MaxPageSize
    ensures 1 <= limit <= MaxPageSize ==> n == limit
    ensures limit < 1 ==> n == 1
    ensures limit > MaxPageSize ==> n == MaxPageSize
  {
    if limit < 1 then 1 else if limit > MaxPageSize then MaxPageSize else limit
  }

  /** The cursor argument: absent (None or ""), a cursor that decodes to a
      key, or one that does not decode. */
  datatype CursorText = NoCursor | Encoded(key: Key) | Garbled

  /** `_decode_cursor` behind `if cursor:`: no filter for an absent
      cursor, ValueError for one that does not decode. */
  function DecodeCursor(cursor: CursorText): (r: Result<Option<Key>>)
    ensures r.Err? <==> cursor.Garbled?
    ensures r.Err? ==> r.error == ValueError
    ensures cursor.Encoded? ==> r == Ok(Some(cursor.key))
    ensures cursor.NoCursor? ==> r == Ok(None)
  {
    match cursor
    case NoCursor => Ok(None)
    case Encoded(key) => Ok(Some(key))
    case Garbled => Err(ValueError)
  }

  /** One user's notifications, in store order. */
  function ForUser(ns: seq<Notification>, userId: int): (r: seq<Notification>)
    ensures forall n :: n in r <==> n in ns && n.userId == userId
    ensures KeysIncreasing(ns) && |ns| > 0 ==>
              forall i :: 0 <= i < |r| ==> !KeyLess(KeyOf(ns[|ns| - 1]), KeyOf(r[i]))
    ensures KeysIncreasing(ns) ==> KeysIncreasing(r)
  {
    if |ns| == 0 then []
    else
      var p := ns[..|ns| - 1];
      var last := ns[|ns| - 1];
      assert ns == p + [last];
      var rest := ForUser(p, userId);
      if last.userId == userId then rest + [last] else rest
  }

  /** The cursor clause `(created_at, id) < cursor`; no cursor admits
      every row. */
  predicate Before(n: Notification, cursor: Option<Key>) {
    cursor.None? || KeyLess(KeyOf(n), cursor.value)
  }

  /** The rows the cursor admits, in store order. */
  function Earlier(ns: seq<Notification>, cursor: Option<Key>): seq<Notification> {
    if |ns| == 0 then []
    else
      var p := ns[..|ns| - 1];
      var last := ns[|ns| - 1];
      var rest := Earlier(p, cursor);
      if Before(last, cursor) then rest + [last] else rest
  }

  /** The admitted rows are exactly the rows the cursor lets through. */
  lemma {:induction false} EarlierMembers(ns: seq<Notification>, cursor: Option<Key>)
    ensures forall n :: n in Earlier(ns, cursor) <==> n in ns && Before(n, cursor)
  {
    if |ns| > 0 {
      var p := ns[..|ns| - 1];
      EarlierMembers(p, cursor);
      assert ns == p + [ns[|ns| - 1]];
    }
  }

  /** With increasing keys the admitted rows are a prefix, and the cursor
      refuses every row after it. */
  lemma {:induction false} EarlierIsPrefix(ns: seq<Notification>, cursor: Option<Key>)
    requires KeysIncreasing(ns)
    ensures var r := Earlier(ns, cursor);
            |r| <= |ns| && r == ns[..|r|] && forall i :: |r| <= i < |ns| ==> !Before(ns[i], cursor)
  {
    if |ns| > 0 {
      var p := ns[..|ns| - 1];
      var last := ns[|ns| - 1];
      assert ns == p + [last];
      EarlierIsPrefix(p, cursor);
      var rest := Earlier(p, cursor);
      if Before(last, cursor) {
        assert forall i :: 0 <= i < |p| ==> Before(p[i], cursor);
        assert |rest| == |p|;
      }
    }
  }

  /** Rows before the key of the row at `k` are exactly the rows before `k`. */
  lemma {:induction false} EarlierThan(ns: seq<Notification>, k: nat)
    requires KeysIncreasing(ns) && k < |ns|
    ensures Earlier(ns, Some(KeyOf(ns[k]))) == ns[..k]
  {
    var cursor := Some(KeyOf(ns[k]));
    var r := Earlier(ns, cursor);
    EarlierIsPrefix(ns, cursor);
    EarlierMembers(ns, cursor);
    assert forall i :: 0 <= i < |r| ==> Before(ns[i], cursor) by {
      assert forall i :: 0 <= i < |r| ==> r[i] == ns[i] && r[i] in r;
    }
    assert |r| <= k;
    if k > 0 {
      assert Before(ns[k - 1], cursor);
    }
  }

  /** The rows a query for `userId` with the decoded cursor may return. */
  function Candidates(store: NotificationStore, userId: int, after: Option<Key>): seq<Notification> {
    Earlier(ForUser(store.notifications, userId), after)
  }

  datatype NotificationPage = NotificationPage(items: seq<Notification>, nextCursor: Option<Key>)

  /** The query's rows: newest first, at most `pageSize + 1` of them. */
  function Fetched(candidates: seq<Notification>, pageSize: int): (rows: seq<Notification>)
    requires pageSize >= 1
    ensures |rows| <= pageSize + 1 && |rows| <= |candidates|
    ensures |rows| > pageSize <==> |candidates| > pageSize
    ensures rows == Reverse(candidates)[..|rows|]
  {
    var newestFirst := Reverse(candidates);
    if |newestFirst| <= pageSize + 1 then newestFirst else newestFirst[..pageSize + 1]
  }

  /** The page as `list_notifications` builds it: when the extra row came
      back it is popped, and the cursor is built from that popped row. */
  function PageAsWritten(candidates: seq<Notification>, pageSize: int): (page: NotificationPage)
    requires pageSize >= 1
    ensures |page.items| <= pageSize
    ensures page.nextCursor.Some? <==> |candidates| > pageSize
  {
    var rows := Fetched(candidates, pageSize);
    if |rows| > pageSize then NotificationPage(rows[..pageSize], Some(KeyOf(rows[pageSize])))
    else NotificationPage(rows, None)
  }

  /** The page with the cursor built from the last row returned, so that
      the next query resumes right after it. */
  function PageCorrected(candidates: seq<Notification>, pageSize: int): (page: NotificationPage)
    requires pageSize >= 1
    ensures |page.items| <= pageSize
    ensures page.nextCursor.Some? <==> |candidates| > pageSize
  {
    var rows := Fetched(candidates, pageSize);
    if |rows| > pageSize then NotificationPage(rows[..pageSize], Some(KeyOf(rows[pageSize - 1])))
    else NotificationPage(rows, None)
  }

  /** Both builders return the same items: the newest `pageSize` candidates
      (all of them when fewer remain), newest first. */
  lemma {:induction false} PageItems(candidates: seq<Notification>, pageSize: int)
    requires pageSize >= 1
    ensures var k := if |candidates| <= pageSize then |candidates| else pageSize;
            PageAsWritten(candidates, pageSize).items == PageCorrected(candidates, pageSize).items
            == Reverse(candidates[|candidates| - k..])
  {
    var k := if |candidates| <= pageSize then |candidates| else pageSize;
    var rows := Fetched(candidates, pageSize);
    var items := PageCorrected(candidates, pageSize).items;
    assert items == Reverse(candidates)[..k];
    var tail := candidates[|candidates| - k..];
    assert forall j :: 0 <= j < k ==> Reverse(tail)[j] == tail[k - 1 - j] == candidates[|candidates| - 1 - j];
  }

  /** `list_notifications` as written. */
  function ListNotificationsAsWritten(store: NotificationStore, userId: int, limit: int, cursor: CursorText): (r: Result<NotificationPage>)
    ensures r.Err? <==> cursor.Garbled?
    ensures r.Err? ==> r.error == ValueError
  {
    var pageSize := ClampPageSize(limit);
    match DecodeCursor(cursor)
    case Err(e) => Err(e)
    case Ok(after) => Ok(PageAsWritten(Candidates(store, userId, after), pageSize))
  }

  /** `list_notifications` with the cursor taken from the last returned
      row. */
  function ListNotifications(store: NotificationStore, userId: int, limit: int, cursor: CursorText): (r: Result<NotificationPage>)
    ensures r.Err? <==> cursor.Garbled?
    ensures r.Err? ==> r.error == ValueError
    ensures r.Ok? ==> |r.value.items| <= ClampPageSize(limit)
    ensures r.Ok? ==>
              (r.value.nextCursor.Some? <==> |Candidates(store, userId, DecodeCursor(cursor).value)| > ClampPageSize(limit))
  {
    var pageSize := ClampPageSize(limit);
    match DecodeCursor(cursor)
    case Err(e) => Err(e)
    case Ok(after) => Ok(PageCorrected(Candidates(store, userId, after), pageSize))
  }

  /** Cutting the admitted rows at `cut`: the rows below the key at the
      cut, followed by the rows from the cut on, are all the admitted rows. */
  lemma {:induction false} SuffixContinues(ns: seq<Notification>, cursor: Option<Key>, cut: nat)
    requires KeysIncreasing(ns) && cut < |Earlier(ns, cursor)|
    ensures var rows := Earlier(ns, cursor);
            Earlier(ns, Some(KeyOf(rows[cut]))) + rows[cut..] == rows
  {
    var rows := Earlier(ns, cursor);
    EarlierIsPrefix(ns, cursor);
    assert rows[cut] == ns[cut];
    EarlierThan(ns, cut);
    assert rows[..cut] + rows[cut..] == rows;
  }

  /** The parts of a full page: the items are the newest `pageSize`
      candidates, and the cursor is the key of the next candidate down as
      written, or of the oldest returned candidate when corrected. */
  lemma {:induction false} FullPageParts(rows: seq<Notification>, pageSize: int)
    requires pageSize >= 1 && |rows| > pageSize
    ensures var written := PageAsWritten(rows, pageSize);
            var corrected := PageCorrected(rows, pageSize);
            Reverse(written.items) == Reverse(corrected.items) == rows[|rows| - pageSize..]
            && written.nextCursor == Some(KeyOf(rows[|rows| - 1 - pageSize]))
            && corrected.nextCursor == Some(KeyOf(rows[|rows| - pageSize]))
  {
    var fetched := Fetched(rows, pageSize);
    assert fetched[pageSize] == Reverse(rows)[pageSize];
    assert fetched[pageSize - 1] == Reverse(rows)[pageSize - 1];
    PageItems(rows, pageSize);
    ReverseTwice(rows[|rows| - pageSize..]);
  }

  /** As written, a full page's cursor is the key of the row that was
      popped, and the next query asks for rows strictly below it: the rows
      the next cursor admits, then the popped row, then this page (oldest
      first), make up what this cursor admitted. The popped row is on
      neither page. */
  lemma {:induction false} AsWrittenSkipsPoppedRow(ns: seq<Notification>, cursor: Option<Key>, pageSize: int)
    requires KeysIncreasing(ns) && pageSize >= 1
    requires PageAsWritten(Earlier(ns, cursor), pageSize).nextCursor.Some?
    ensures var rows := Earlier(ns, cursor);
            var page := PageAsWritten(rows, pageSize);
            var popped := rows[|rows| - 1 - pageSize];
            Earlier(ns, page.nextCursor) + [popped] + Reverse(page.items) == rows
            && popped !in page.items && popped !in Earlier(ns, page.nextCursor)
  {
    PoppedRowBetweenPages(ns, cursor, pageSize);
    PoppedRowOnNeitherPage(ns, cursor, pageSize);
  }

  /** The rows the next cursor admits, the popped row and this page make
      up what this cursor admitted. */
  lemma {:induction false} PoppedRowBetweenPages(ns: seq<Notification>, cursor: Option<Key>, pageSize: int)
    requires KeysIncreasing(ns) && pageSize >= 1
    requires PageAsWritten(Earlier(ns, cursor), pageSize).nextCursor.Some?
    ensures var rows := Earlier(ns, cursor);
            var page := PageAsWritten(rows, pageSize);
            Earlier(ns, page.nextCursor) + [rows[|rows| - 1 - pageSize]] + Reverse(page.items) == rows
  {
    var rows := Earlier(ns, cursor);
    var page := PageAsWritten(rows, pageSize);
    var cut := |rows| - 1 - pageSize;
    FullPageParts(rows, pageSize);
    SuffixContinues(ns, cursor, cut);
    JoinAroundCut(Earlier(ns, page.nextCursor), rows, Reverse(page.items), cut);
  }

  /** Rows before a cut, the row at it and the rows after it are all the
      rows. */
  lemma {:induction false} JoinAroundCut<T>(before: seq<T>, rows: seq<T>, after: seq<T>, cut: nat)
    requires cut < |rows| && before + rows[cut..] == rows && after == rows[cut + 1..]
    ensures before + [rows[cut]] + after == rows
  {
    SuffixCons(rows, cut);
  }

  /** The popped row is on neither this page nor any later one. */
  lemma {:induction false} PoppedRowOnNeitherPage(ns: seq<Notification>, cursor: Option<Key>, pageSize: int)
    requires KeysIncreasing(ns) && pageSize >= 1
    requires PageAsWritten(Earlier(ns, cursor), pageSize).nextCursor.Some?
    ensures var rows := Earlier(ns, cursor);
            var page := PageAsWritten(rows, pageSize);
            var popped := rows[|rows| - 1 - pageSize];
            popped !in page.items && popped !in Earlier(ns, page.nextCursor)
  {
    var rows := Earlier(ns, cursor);
    var cut := |rows| - 1 - pageSize;
    WrittenCursorKey(rows, pageSize);
    EarlierRefusesKey(ns, rows[cut]);
    NewerAfter(ns, cursor, cut);
    PoppedNotOnPage(rows, pageSize);
  }

  /** When the popped row is older than every row after it, the page does
      not hold it. */
  lemma {:induction false} PoppedNotOnPage(rows: seq<Notification>, pageSize: int)
    requires pageSize >= 1 && |rows| > pageSize
    requires forall j :: |rows| - 1 - pageSize < j < |rows| ==> KeyLess(KeyOf(rows[|rows| - 1 - pageSize]), KeyOf(rows[j]))
    ensures rows[|rows| - 1 - pageSize] !in PageAsWritten(rows, pageSize).items
  {
    WrittenItemsAfter(rows, pageSize);
    OlderNotAmong(rows, |rows| - pageSize, PageAsWritten(rows, pageSize).items);
  }

  /** As written, a full page's cursor is the key of the popped row. */
  lemma {:induction false} WrittenCursorKey(rows: seq<Notification>, pageSize: int)
    requires pageSize >= 1 && |rows| > pageSize
    ensures PageAsWritten(rows, pageSize).nextCursor == Some(KeyOf(rows[|rows| - 1 - pageSize]))
  {
    FullPageParts(rows, pageSize);
  }

  /** A full page's items, oldest first, are the rows after the popped one. */
  lemma {:induction false} WrittenItemsAfter(rows: seq<Notification>, pageSize: int)
    requires pageSize >= 1 && |rows| > pageSize
    ensures Reverse(PageAsWritten(rows, pageSize).items) == rows[|rows| - pageSize..]
  {
    FullPageParts(rows, pageSize);
  }

  /** A row's own key does not admit it. */
  lemma {:induction false} EarlierRefusesKey(ns: seq<Notification>, n: Notification)
    ensures n !in Earlier(ns, Some(KeyOf(n)))
  {
    EarlierMembers(ns, Some(KeyOf(n)));
  }

  /** A row older than every row after it is not among the reverse of
      those rows. */
  lemma {:induction false} OlderNotAmong(rows: seq<Notification>, start: nat, items: seq<Notification>)
    requires 0 < start <= |rows| && Reverse(items) == rows[start..]
    requires forall j :: start <= j < |rows| ==> KeyLess(KeyOf(rows[start - 1]), KeyOf(rows[j]))
    ensures rows[start - 1] !in items
  {
    var after := rows[start..];
    forall j | 0 <= j < |after|
      ensures after[j] != rows[start - 1]
    {
      assert after[j] == rows[start + j];
    }
    NotInReverse(items, rows[start - 1]);
  }

  /** Every admitted row after position `cut` is newer than the row at it. */
  lemma {:induction false} NewerAfter(ns: seq<Notification>, cursor: Option<Key>, cut: nat)
    requires KeysIncreasing(ns) && cut < |Earlier(ns, cursor)|
    ensures var rows := Earlier(ns, cursor);
            forall j :: cut < j < |rows| ==> KeyLess(KeyOf(rows[cut]), KeyOf(rows[j]))
  {
    EarlierIsPrefix(ns, cursor);
  }

  /** What the reverse of a sequence lacks, the sequence lacks. */
  lemma {:induction false} NotInReverse<T>(s: seq<T>, x: T)
    requires x !in Reverse(s)
    ensures x !in s
  {
    forall i | 0 <= i < |s|
      ensures s[i] != x
    {
      assert Reverse(s)[|s| - 1 - i] == s[i];
    }
  }

  /** With the cursor taken from the last returned row, the rows the next
      cursor admits followed by this page (oldest first) are exactly what
      this cursor admitted: nothing is skipped or repeated. */
  lemma {:induction false} CorrectedContinues(ns: seq<Notification>, cursor: Option<Key>, pageSize: int)
    requires KeysIncreasing(ns) && pageSize >= 1
    requires PageCorrected(Earlier(ns, cursor), pageSize).nextCursor.Some?
    ensures var rows := Earlier(ns, cursor);
            var page := PageCorrected(rows, pageSize);
            Earlier(ns, page.nextCursor) + Reverse(page.items) == rows
  {
    var rows := Earlier(ns, cursor);
    FullPageParts(rows, pageSize);
    SuffixContinues(ns, cursor, |rows| - pageSize);
  }

  /** Reversing twice is the identity. */
  lemma {:induction false} ReverseTwice<T>(s: seq<T>)
    ensures Reverse(Reverse(s)) == s
  {
    assert forall j :: 0 <= j < |s| ==> Reverse(Reverse(s))[j] == Reverse(s)[|s| - 1 - j] == s[j];
  }

  /** Listing a valid store: the next cursor of the corrected listing
      resumes exactly after the page. */
  lemma {:induction false} ListNotificationsContinues(store: NotificationStore, userId: int, limit: int, cursor: CursorText)
    requires store.Valid()
    requires ListNotifications(store, userId, limit, cursor).Ok?
    requires ListNotifications(store, userId, limit, cursor).value.nextCursor.Some?
    ensures var page := ListNotifications(store, userId, limit, cursor).value;
            Candidates(store, userId, page.nextCursor) + Reverse(page.items)
            == Candidates(store, userId, DecodeCursor(cursor).value)
  {
    var mine := ForUser(store.notifications, userId);
    CorrectedContinues(mine, DecodeCursor(cursor).value, ClampPageSize(limit));
  }

  /** The last `k` rows of a sequence with increasing keys, read back to
      front, are in strictly descending key order, and every row before them
      has a smaller key than each of them. */
  lemma {:induction false} NewestSuffix(candidates: seq<Notification>, k: nat)
    requires k <= |candidates| && KeysIncreasing(candidates)
    ensures var items := Reverse(candidates[|candidates| - k..]);
            && (forall i, j :: 0 <= i < j < |items| ==> KeyLess(KeyOf(items[j]), KeyOf(items[i])))
            && (forall n :: n in items ==> n in candidates)
            && (forall n :: n in candidates && n !in items ==>
                  forall i :: 0 <= i < |items| ==> KeyLess(KeyOf(n), KeyOf(items[i])))
  {
    var c := |candidates|;
    var items := Reverse(candidates[c - k..]);
    assert forall i :: 0 <= i < k ==> items[i] == candidates[c - 1 - i];
    forall i, j | 0 <= i < j < k
      ensures KeyLess(KeyOf(items[j]), KeyOf(items[i]))
    {
      assert items[j] == candidates[c - 1 - j] && items[i] == candidates[c - 1 - i];
    }
    forall n | n in items
      ensures n in candidates
    {
      var i :| 0 <= i < k && items[i] == n;
      assert candidates[c - 1 - i] == n;
    }
    forall n, i | n in candidates && n !in items && 0 <= i < k
      ensures KeyLess(KeyOf(n), KeyOf(items[i]))
    {
      var m :| 0 <= m < c && candidates[m] == n;
      assert forall m' :: c - k <= m' < c ==> items[c - 1 - m'] == candidates[m'];
      assert m < c - k;
      assert items[i] == candidates[c - 1 - i];
    }
  }

  /** On a valid store the listed page holds only the user's notifications
      the cursor admits, newest first by `(created_at, id)`, and no admitted
      notification left off the page is newer than one on it. */
  lemma {:induction false} ListNotificationsNewestFirst(store: NotificationStore, userId: int, limit: int, cursor: CursorText)
    requires store.Valid()
    requires ListNotifications(store, userId, limit, cursor).Ok?
    ensures var items := ListNotifications(store, userId, limit, cursor).value.items;
            var after := DecodeCursor(cursor).value;
            && items == ListNotificationsAsWritten(store, userId, limit, cursor).value.items
            && (forall i, j :: 0 <= i < j < |items| ==> KeyLess(KeyOf(items[j]), KeyOf(items[i])))
            && (forall n :: n in items ==> n in store.notifications && n.userId == userId && Before(n, after))
            && (forall n :: n in store.notifications && n.userId == userId && Before(n, after) && n !in items ==>
                  forall i :: 0 <= i < |items| ==> KeyLess(KeyOf(n), KeyOf(items[i])))
  {
    var after := DecodeCursor(cursor).value;
    var mine := ForUser(store.notifications, userId);
    var candidates := Candidates(store, userId, after);
    EarlierIsPrefix(mine, after);
    EarlierMembers(mine, after);
    assert KeysIncreasing(candidates) by {
      assert forall i :: 0 <= i < |candidates| ==> candidates[i] == mine[i];
    }
    var pageSize := ClampPageSize(limit);
    PageItems(candidates, pageSize);
    NewestSuffix(candidates, if |candidates| <= pageSize then |candidates| else pageSize);
  }

  /** Three notifications for one user, created one second apart. */
  function ThreeNotifications(): NotificationStore {
    NotificationStore([Notification(1, 7, System, None, None, None, None, None, false, 100),
                       Notification(2, 7, System, None, None, None, None, None, false, 101),
                       Notification(3, 7, System, None, None, None, None, None, false, 102)],
                      map[], 4)
  }

  /** A user's notifications are all of them when nobody else has any. */
  lemma {:induction false} ForUserAll(ns: seq<Notification>, userId: int)
    requires forall i :: 0 <= i < |ns| ==> ns[i].userId == userId
    ensures ForUser(ns, userId) == ns
  {
    if |ns| > 0 {
      var p := ns[..|ns| - 1];
      forall i | 0 <= i < |p|
        ensures p[i].userId == userId
      {
        assert p[i] == ns[i];
      }
      ForUserAll(p, userId);
      ForUserKeepsLast(ns, userId);
      DropLastSnoc(ns);
    }
  }

  /** The newest row, when it is the user's, follows the user's older rows. */
  lemma {:induction false} ForUserKeepsLast(ns: seq<Notification>, userId: int)
    requires |ns| > 0 && ns[|ns| - 1].userId == userId
    ensures ForUser(ns, userId) == ForUser(ns[..|ns| - 1], userId) + [ns[|ns| - 1]]
  {
  }

  /** Without a cursor every row is admitted. */
  lemma {:induction false} EarlierNoCursor(ns: seq<Notification>)
    ensures Earlier(ns, None) == ns
  {
    if |ns| > 0 {
      EarlierNoCursor(ns[..|ns| - 1]);
      assert ns == ns[..|ns| - 1] + [ns[|ns| - 1]];
    }
  }

  /** A page of one row from a single candidate. */
  lemma {:induction false} SingleCandidatePage(n: Notification)
    ensures PageAsWritten([n], 1) == PageCorrected([n], 1) == NotificationPage([n], None)
  {
    PageItems([n], 1);
    assert [n][0..] == [n];
    assert Reverse([n]) == [n];
  }

  /** A full page of one row: the newest candidate, and the cursor of the
      next candidate down (as written) or of the returned row (corrected). */
  lemma {:induction false} OneRowPage(rows: seq<Notification>)
    requires |rows| > 1
    ensures PageAsWritten(rows, 1) == NotificationPage([rows[|rows| - 1]], Some(KeyOf(rows[|rows| - 2])))
    ensures PageCorrected(rows, 1) == NotificationPage([rows[|rows| - 1]], Some(KeyOf(rows[|rows| - 1])))
  {
    FullPageParts(rows, 1);
    var last := rows[|rows| - 1];
    assert rows[|rows| - 1..] == [last];
    ReverseTwice(PageAsWritten(rows, 1).items);
    ReverseTwice(PageCorrected(rows, 1).items);
    assert Reverse([last]) == [last];
  }

  /** A store holding exactly three notifications, all for `userId`, in
      key order: the smallest input that shows the paging difference. */
  predicate ThreeRowsFor(store: NotificationStore, userId: int) {
    |store.notifications| == 3
    && KeysIncreasing(store.notifications)
    && forall i :: 0 <= i < 3 ==> store.notifications[i].userId == userId
  }

  /** The fixture above is such a store for user 7. */
  lemma {:induction false} ThreeNotificationsFit()
    ensures ThreeRowsFor(ThreeNotifications(), 7)
    ensures KeyOf(ThreeNotifications().notifications[1]) == Key(101, 2)
    ensures KeyOf(ThreeNotifications().notifications[2]) == Key(102, 3)
  {
  }

  /** Such a store, listed with no cursor or with the key of one of its
      rows. */
  lemma {:induction false} ThreeCandidates(store: NotificationStore, userId: int, k: nat)
    requires ThreeRowsFor(store, userId) && k < 3
    ensures var ns := store.notifications;
            Candidates(store, userId, None) == ns
            && Candidates(store, userId, Some(KeyOf(ns[k]))) == ns[..k]
  {
    var ns := store.notifications;
    ForUserAll(ns, userId);
    EarlierNoCursor(ns);
    EarlierThan(ns, k);
  }

  /** Paging through three notifications one at a time, as written: the
      first page returns the newest and a cursor built from the middle one,
      the second page returns the oldest and ends. The middle notification
      is never listed. */
  lemma {:induction false} AsWrittenMissesMiddleNotification(store: NotificationStore, userId: int)
    requires ThreeRowsFor(store, userId)
    ensures var ns := store.notifications;
            ListNotificationsAsWritten(store, userId, 1, NoCursor)
              == Ok(NotificationPage([ns[2]], Some(KeyOf(ns[1]))))
            && ListNotificationsAsWritten(store, userId, 1, Encoded(KeyOf(ns[1])))
               == Ok(NotificationPage([ns[0]], None))
            && ns[1] != ns[0] && ns[1] != ns[2]
  {
    AsWrittenFirstPage(store, userId);
    AsWrittenSecondPage(store, userId);
  }

  /** As written, the first page of one holds the newest row and a cursor
      built from the middle one. */
  lemma {:induction false} AsWrittenFirstPage(store: NotificationStore, userId: int)
    requires ThreeRowsFor(store, userId)
    ensures var ns := store.notifications;
            ListNotificationsAsWritten(store, userId, 1, NoCursor)
              == Ok(NotificationPage([ns[2]], Some(KeyOf(ns[1]))))
  {
    ThreeCandidates(store, userId, 1);
    OneRowPage(store.notifications);
  }

  /** The page below the middle row's key holds only the oldest row. */
  lemma {:induction false} AsWrittenSecondPage(store: NotificationStore, userId: int)
    requires ThreeRowsFor(store, userId)
    ensures var ns := store.notifications;
            ListNotificationsAsWritten(store, userId, 1, Encoded(KeyOf(ns[1])))
              == Ok(NotificationPage([ns[0]], None))
  {
    var ns := store.notifications;
    ThreeCandidates(store, userId, 1);
    assert ns[..1] == [ns[0]];
    SingleCandidatePage(ns[0]);
  }

  /** The corrected listing visits all three notifications, newest first. */
  lemma {:induction false} CorrectedListsEveryNotification(store: NotificationStore, userId: int)
    requires ThreeRowsFor(store, userId)
    ensures var ns := store.notifications;
            ListNotifications(store, userId, 1, NoCursor)
              == Ok(NotificationPage([ns[2]], Some(KeyOf(ns[2]))))
            && ListNotifications(store, userId, 1, Encoded(KeyOf(ns[2])))
               == Ok(NotificationPage([ns[1]], Some(KeyOf(ns[1]))))
            && ListNotifications(store, userId, 1, Encoded(KeyOf(ns[1])))
               == Ok(NotificationPage([ns[0]], None))
  {
    var ns := store.notifications;
    ThreeCandidates(store, userId, 2);
    OneRowPage(ns);
    OneRowPage(ns[..2]);
    CorrectedLastPage(store, userId);
  }

  /** The page below the middle row's key holds only the oldest row. */
  lemma {:induction false} CorrectedLastPage(store: NotificationStore, userId: int)
    requires ThreeRowsFor(store, userId)
    ensures var ns := store.notifications;
            ListNotifications(store, userId, 1, Encoded(KeyOf(ns[1])))
              == Ok(NotificationPage([ns[0]], None))
  {
    var ns := store.notifications;
    ThreeCandidates(store, userId, 1);
    assert ns[..1] == [ns[0]];
    SingleCandidatePage(ns[0]);
  }

  // ----------------------------------------------------------- mark read

  /** The ids `mark_read` sends to the database: the input without repeats,
      in order of first occurrence; None when that is empty, in which case
      no query runs and the answer is []. */
  function MarkReadIds(ids: seq<int>): (r: Option<seq<int>>)
    ensures r.None? <==> |ids| == 0
    ensures r.Some? ==> NoDup(r.value) && forall x :: x in r.value <==> x in ids
  {
    var unique := Dedup(ids);
    assert |ids| > 0 ==> ids[0] in unique;
    if unique == [] then None else Some(unique)
  }

  /** The ids keep the order in which they first appear. */
  lemma {:induction false} MarkReadIdsOrder(ids: seq<int>, i: nat, j: nat)
    requires MarkReadIds(ids).Some? && i < j < |MarkReadIds(ids).value|
    ensures FirstIndex(ids, MarkReadIds(ids).value[i]) < FirstIndex(ids, MarkReadIds(ids).value[j])
  {
    DedupKeepsFirstOrder(ids, i, j);
  }

  /** The rows the update touches: the user's notifications with a listed id. */
  predicate Targeted(n: Notification, ids: seq<int>, userId: int) {
    n.userId == userId && n.id in ids
  }

  /** `UPDATE ... SET is_read = TRUE` on the targeted rows. */
  function MarkRows(ns: seq<Notification>, ids: seq<int>, userId: int): (r: seq<Notification>)
    ensures |r| == |ns|
    ensures forall i :: 0 <= i < |ns| ==>
              r[i] == if Targeted(ns[i], ids, userId) then ns[i].(isRead := true) else ns[i]
  {
    if |ns| == 0 then []
    else
      var n := ns[0];
      [if Targeted(n, ids, userId) then n.(isRead := true) else n] + MarkRows(ns[1..], ids, userId)
  }

  /** `RETURNING id`: the ids of the targeted rows, in store order. */
  function UpdatedIds(ns: seq<Notification>, ids: seq<int>, userId: int): (r: seq<int>)
    ensures forall x :: x in r ==> x in ids
    ensures forall i :: 0 <= i < |ns| && Targeted(ns[i], ids, userId) ==> ns[i].id in r
    ensures forall x :: x in r <==> exists i :: 0 <= i < |ns| && Targeted(ns[i], ids, userId) && ns[i].id == x
    ensures |r| <= |ns|
  {
    if |ns| == 0 then []
    else
      var rest := UpdatedIds(ns[1..], ids, userId);
      assert forall i :: 1 <= i < |ns| ==> ns[i] == ns[1..][i - 1];
      if Targeted(ns[0], ids, userId) then [ns[0].id] + rest else rest
  }

  /** `mark_read`. */
  function MarkRead(store: NotificationStore, ids: seq<int>, userId: int): (r: (seq<int>, NotificationStore))
    ensures |ids| == 0 ==> r == ([], store)
    ensures forall x :: x in r.0 ==> x in ids
    ensures forall x :: x in r.0 <==>
              exists i :: 0 <= i < |store.notifications| && Targeted(store.notifications[i], ids, userId)
                          && store.notifications[i].id == x
    ensures |r.1.notifications| == |store.notifications| && r.1.preferences == store.preferences
            && r.1.nextId == store.nextId
    ensures forall i :: 0 <= i < |store.notifications| ==>
              var before := store.notifications[i];
              var after := r.1.notifications[i];
              after == if Targeted(before, ids, userId) then before.(isRead := true) else before
  {
    match MarkReadIds(ids)
    case None => ([], store)
    case Some(unique) =>
      assert forall n :: Targeted(n, unique, userId) <==> Targeted(n, ids, userId);
      (UpdatedIds(store.notifications, unique, userId),
       store.(notifications := MarkRows(store.notifications, unique, userId)))
  }

  /** How many of a user's notifications are unread (`unread_count`). */
  function UnreadCount(ns: seq<Notification>, userId: int): (n: nat)
    ensures n <= |ns|
    ensures n == 0 <==> forall i :: 0 <= i < |ns| && ns[i].userId == userId ==> ns[i].isRead
  {
    if |ns| == 0 then 0
    else
      var rest := UnreadCount(ns[1..], userId);
      assert forall i :: 1 <= i < |ns| ==> ns[i] == ns[1..][i - 1];
      rest + if ns[0].userId == userId && !ns[0].isRead then 1 else 0
  }

  /** Marking every one of a user's notification ids leaves nothing unread,
      and marking the same ids again changes nothing. */
  lemma {:induction false} MarkReadClearsAndSettles(store: NotificationStore, ids: seq<int>, userId: int)
    ensures (forall i :: 0 <= i < |store.notifications| && store.notifications[i].userId == userId ==>
               store.notifications[i].id in ids)
            ==> UnreadCount(MarkRead(store, ids, userId).1.notifications, userId) == 0
    ensures MarkRead(MarkRead(store, ids, userId).1, ids, userId).1 == MarkRead(store, ids, userId).1
  {
    var after := MarkRead(store, ids, userId).1;
    var again := MarkRead(after, ids, userId).1;
    assert forall i :: 0 <= i < |after.notifications| ==> again.notifications[i] == after.notifications[i];
  }

  // --------------------------------------------------------- preferences

  /** `_prepare_preferences_payload`: the defaults, overridden by every
      setting the update gives. */
  function PreparePreferencesPayload(userId: int, update: PreferencesUpdate): (p: NotificationPreferences)
    ensures p.userId == userId
    ensures var d := DefaultPreferences(userId);
            p.replyToSnippet == update.replyToSnippet.GetOr(d.replyToSnippet)
            && p.replyToComment == update.replyToComment.GetOr(d.replyToComment)
            && p.mention == update.mention.GetOr(d.mention)
            && p.voteOnYourSnippet == update.voteOnYourSnippet.GetOr(d.voteOnYourSnippet)
            && p.moderationUpdate == update.moderationUpdate.GetOr(d.moderationUpdate)
            && p.system == update.system.GetOr(d.system)
            && p.emailDigest == update.emailDigest.GetOr(d.emailDigest)
  {
    var d := DefaultPreferences(userId);
    NotificationPreferences(
      userId,
      update.replyToSnippet.GetOr(d.replyToSnippet),
      update.replyToComment.GetOr(d.replyToComment),
      update.mention.GetOr(d.mention),
      update.voteOnYourSnippet.GetOr(d.voteOnYourSnippet),
      update.moderationUpdate.GetOr(d.moderationUpdate),
      update.system.GetOr(d.system),
      update.emailDigest.GetOr(d.emailDigest))
  }

  const NoChanges: PreferencesUpdate := PreferencesUpdate(None, None, None, None, None, None, None)

  /** Every setting of `p`, as an update that gives them all. */
  function AsUpdate(p: NotificationPreferences): PreferencesUpdate {
    PreferencesUpdate(Some(p.replyToSnippet), Some(p.replyToComment), Some(p.mention),
                      Some(p.voteOnYourSnippet), Some(p.moderationUpdate), Some(p.system),
                      Some(p.emailDigest))
  }

  /** An empty update yields the defaults; an update that gives every
      setting yields exactly those settings, whatever the defaults are. */
  lemma {:induction false} PayloadFromDefaults(userId: int, p: NotificationPreferences)
    requires p.userId == userId
    ensures PreparePreferencesPayload(userId, NoChanges) == DefaultPreferences(userId)
    ensures PreparePreferencesPayload(userId, AsUpdate(p)) == p
  {
  }

  /** `get_preferences`: the stored row, or the defaults (weekly digests)
      when the user has none. */
  function GetPreferences(store: NotificationStore, userId: int): (p: NotificationPreferences)
    ensures userId !in store.preferences ==> p == DefaultPreferences(userId) && p.emailDigest == Weekly
    ensures userId in store.preferences ==> p == store.preferences[userId]
  {
    if userId in store.preferences then store.preferences[userId] else DefaultPreferences(userId)
  }

  /** `upsert_preferences`: the payload replaces every column of the
      user's row, so settings the update leaves out return to their
      defaults rather than keeping the stored values. */
  function UpsertPreferences(store: NotificationStore, userId: int, update: PreferencesUpdate): (r: (NotificationPreferences, NotificationStore))
    ensures r.0 == PreparePreferencesPayload(userId, update)
    ensures r.1.notifications == store.notifications
    ensures forall u :: u != userId ==> GetPreferences(r.1, u) == GetPreferences(store, u)
  {
    var payload := PreparePreferencesPayload(userId, update);
    (payload, store.(preferences := store.preferences[userId := payload]))
  }

  /** Reading after an upsert returns the upserted payload, whatever was
      stored before. */
  lemma {:induction false} UpsertThenGet(store: NotificationStore, userId: int, update: PreferencesUpdate)
    ensures GetPreferences(UpsertPreferences(store, userId, update).1, userId)
            == PreparePreferencesPayload(userId, update)
  {
  }
}
