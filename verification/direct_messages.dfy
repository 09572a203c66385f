/** Direct messages: one thread per pair of users, registered under a key
    built from the pair; message bodies checked before anything is stored;
    read markers per participant; and keyset paging backwards through a
    thread by message id.

    The tables become a record of maps and one sequence of messages in
    insertion order. User ids are `nat` (the users table issues them from a
    serial column); thread and message ids are `int`.
 */
module DirectMessages {
  import opened Common
  import opened Text
  import opened Seqs

  const MaxBodyLength: nat := 280
  const DefaultMessageLimit: int := 30
  const MaxMessageLimit: int := 100

  // ----------------------------------------------------- participant key

  /** `_build_participant_key`: the two ids in ascending order around a
      dash. */
  function ParticipantKey(userA: nat, userB: nat): string {
    var first := if userA <= userB then userA else userB;
    var second := if userA <= userB then userB else userA;
    IntToString(first) + "-" + IntToString(second)
  }

  /** Reading a key back: the two integers on either side of its dash. */
  function DecodeParticipantKey(key: string): Option<(int, int)> {
    var parts := Split(key, '-');
    if |parts| != 2 then None
    else
      var first := ParseInt(parts[0]);
      var second := ParseInt(parts[1]);
      if first.Ok? && second.Ok? then Some((first.value, second.value)) else None
  }

  /** A key decodes to its pair, smaller id first. */
  lemma {:induction false} ParticipantKeyRoundTrip(userA: nat, userB: nat)
    ensures DecodeParticipantKey(ParticipantKey(userA, userB))
            == if userA <= userB then Some((userA, userB)) else Some((userB, userA))
  {
    var first := if userA <= userB then userA else userB;
    var second := if userA <= userB then userB else userA;
    var s1 := IntToString(first);
    var s2 := IntToString(second);
    assert '-' !in s1 by {
      assert forall k :: 0 <= k < |s1| ==> IsDigit(s1[k]);
    }
    assert '-' !in s2 by {
      assert forall k :: 0 <= k < |s2| ==> IsDigit(s2[k]);
    }
    assert Join([s1, s2], "-") == s1 + "-" + s2;
    SplitJoin([s1, s2], '-');
    IntRoundTrip(first);
    IntRoundTrip(second);
  }

  /** Two pairs share a key exactly when they are the same two users, in
      either order: the key is symmetric and tells pairs apart. */
  lemma {:induction false} ParticipantKeyIdentifiesPair(a: nat, b: nat, c: nat, d: nat)
    ensures ParticipantKey(a, b) == ParticipantKey(c, d) <==> (a == c && b == d) || (a == d && b == c)
  {
    if ParticipantKey(a, b) == ParticipantKey(c, d) {
      ParticipantKeyRoundTrip(a, b);
      ParticipantKeyRoundTrip(c, d);
    }
  }

  // ------------------------------------------------------------- records

  datatype User = User(id: nat, username: string)

  datatype Message = Message(id: int, threadId: int, senderId: nat, body: string)

  /** Message ids grow in insertion order. */
  predicate IdsIncreasing(ms: seq<Message>) {
    forall i, j :: 0 <= i < j < |ms| ==> ms[i].id < ms[j].id
  }

  datatype DmStore = DmStore(
    users: seq<User>,
    threadKeys: map<string, int>,
    participants: map<int, set<nat>>,
    messages: seq<Message>,
    lastRead: map<(int, nat), int>,
    nextThreadId: int,
    nextMessageId: int)
  {
    /** Message ids are issued in increasing order, below the next id. */
    predicate Valid() {
      IdsIncreasing(messages) && forall i :: 0 <= i < |messages| ==> messages[i].id < nextMessageId
    }

    predicate IsParticipant(threadId: int, userId: nat) {
      threadId in participants && userId in participants[threadId]
    }
  }

  datatype Step<T> = Step(result: Result<T>, store: DmStore)

  // ----------------------------------------------------------- usernames

  /** Position of the first user whose lower-cased name is `wanted`. */
  function FindUser(users: seq<User>, wanted: string): (r: Option<nat>)
    ensures r.None? <==> forall i :: 0 <= i < |users| ==> Lower(users[i].username) != wanted
    ensures r.Some? ==> r.value < |users| && Lower(users[r.value].username) == wanted
                        && forall j :: 0 <= j < r.value ==> Lower(users[j].username) != wanted
  {
    if |users| == 0 then None
    else if Lower(users[0].username) == wanted then Some(0)
    else
      var rest := FindUser(users[1..], wanted);
      if rest.None? then None else Some(rest.value + 1)
  }

  /** `_ensure_username`: a blank name is a ValueError; otherwise the first
      user whose name matches ignoring case, or LookupError. */
  function EnsureUsername(users: seq<User>, username: Option<string>): (r: Result<User>)
    ensures r == Err(ValueError) <==> Strip(username.GetOr("")) == []
    ensures r == Err(LookupError) <==>
              Strip(username.GetOr("")) != []
              && forall i :: 0 <= i < |users| ==> Lower(users[i].username) != Lower(Strip(username.GetOr("")))
    ensures r.Ok? ==> r.value in users && Lower(r.value.username) == Lower(Strip(username.GetOr("")))
  {
    var normalized := Strip(username.GetOr(""));
    if normalized == [] then Err(ValueError)
    else
      var found := FindUser(users, Lower(normalized));
      if found.None? then Err(LookupError) else Ok(users[found.value])
  }

  // ------------------------------------------------------------- threads

  function Members(store: DmStore, threadId: int): set<nat> {
    if threadId in store.participants then store.participants[threadId] else {}
  }

  /** The part of `start_thread` after the target is known: the thread
      registered under the pair's key, or else a new thread with both
      users as participants. */
  function OpenThread(store: DmStore, initiatorId: nat, targetId: nat): (r: (int, DmStore))
    ensures var key := ParticipantKey(initiatorId, targetId);
            key in r.1.threadKeys && r.1.threadKeys[key] == r.0
    ensures ParticipantKey(initiatorId, targetId) in store.threadKeys ==> r.1 == store
    ensures ParticipantKey(initiatorId, targetId) !in store.threadKeys ==>
              r.0 == store.nextThreadId && r.1.nextThreadId == store.nextThreadId + 1
              && initiatorId in Members(r.1, r.0) && targetId in Members(r.1, r.0)
    ensures forall k :: k in store.threadKeys ==> k in r.1.threadKeys && r.1.threadKeys[k] == store.threadKeys[k]
    ensures r.1.messages == store.messages && r.1.lastRead == store.lastRead
            && r.1.nextMessageId == store.nextMessageId && r.1.users == store.users
  {
    var key := ParticipantKey(initiatorId, targetId);
    if key in store.threadKeys then (store.threadKeys[key], store)
    else
      var threadId := store.nextThreadId;
      var members := Members(store, threadId) + {initiatorId, targetId};
      (threadId, store.(threadKeys := store.threadKeys[key := threadId],
                        participants := store.participants[threadId := members],
                        nextThreadId := threadId + 1))
  }

  /** `start_thread`: resolve the target, refuse a thread with oneself,
      then open the pair's thread. Failures change nothing. */
  function StartThread(store: DmStore, initiatorId: nat, targetUsername: Option<string>): (r: Step<int>)
    ensures var found := EnsureUsername(store.users, targetUsername);
            && (found.Err? ==> r == Step(Err(found.error), store))
            && (found.Ok? && found.value.id == initiatorId ==> r == Step(Err(ValueError), store))
            && (r.result.Ok? ==>
                  found.Ok? && found.value.id != initiatorId
                  && r == Step(Ok(OpenThread(store, initiatorId, found.value.id).0),
                               OpenThread(store, initiatorId, found.value.id).1))
  {
    match EnsureUsername(store.users, targetUsername)
    case Err(e) => Step(Err(e), store)
    case Ok(target) =>
      if target.id == initiatorId then Step(Err(ValueError), store)
      else
        var found := OpenThread(store, initiatorId, target.id);
        Step(Ok(found.0), found.1)
  }

  /** Opening the pair's thread again, from either side, finds the same
      thread and changes nothing. */
  lemma {:induction false} OpenThreadIdempotent(store: DmStore, a: nat, b: nat)
    ensures var first := OpenThread(store, a, b);
            OpenThread(first.1, a, b) == first && OpenThread(first.1, b, a) == first
  {
    ParticipantKeyIdentifiesPair(a, b, b, a);
  }

  // ------------------------------------------------------------ messages

  /** The `send_message` body check: the stripped body must hold 1 to 280
      characters, or ValueError. */
  function ValidateBody(body: Option<string>): (r: Result<string>)
    ensures r.Ok? <==> 1 <= |Strip(body.GetOr(""))| <= MaxBodyLength
    ensures r.Ok? ==> r.value == Strip(body.GetOr(""))
    ensures r.Err? ==> r.error == ValueError
  {
    var messageBody := Strip(body.GetOr(""));
    if messageBody == [] then Err(ValueError)
    else if |messageBody| > MaxBodyLength then Err(ValueError)
    else Ok(messageBody)
  }

  /** An accepted body is stored as it is: it has no surrounding space, and
      checking it again accepts it unchanged. */
  lemma {:induction false} ValidBodyIsFixed(body: Option<string>)
    requires ValidateBody(body).Ok?
    ensures var v := ValidateBody(body).value;
            !IsSpace(v[0]) && !IsSpace(v[|v| - 1]) && ValidateBody(Some(v)) == Ok(v)
  {
    StripUnpadded(ValidateBody(body).value);
  }

  /** A message counts as unread for `userId` when it is in the thread, was
      sent by someone else, and lies beyond the user's read marker. */
  predicate Unread(m: Message, threadId: int, userId: nat, lastRead: Option<int>) {
    m.threadId == threadId && m.senderId != userId && (lastRead.None? || m.id > lastRead.value)
  }

  function CountUnread(ms: seq<Message>, threadId: int, userId: nat, lastRead: Option<int>): (n: nat)
    ensures n <= |ms|
    ensures n == 0 <==> forall i :: 0 <= i < |ms| ==> !Unread(ms[i], threadId, userId, lastRead)
  {
    if |ms| == 0 then 0
    else
      var p := ms[..|ms| - 1];
      assert forall i :: 0 <= i < |p| ==> p[i] == ms[i];
      CountUnread(p, threadId, userId, lastRead) + if Unread(ms[|ms| - 1], threadId, userId, lastRead) then 1 else 0
  }

  function LastReadOf(store: DmStore, threadId: int, userId: nat): Option<int> {
    if (threadId, userId) in store.lastRead then Some(store.lastRead[(threadId, userId)]) else None
  }

  /** `_unread_count`. */
  function UnreadCount(store: DmStore, threadId: int, userId: nat): nat {
    CountUnread(store.messages, threadId, userId, LastReadOf(store, threadId, userId))
  }

  /** `send_message`: the body is checked before the participant test;
      the message takes the next id, and the sender's read marker moves to
      it. Failures change nothing. */
  function SendMessage(store: DmStore, threadId: int, userId: nat, body: Option<string>): (r: Step<Message>)
    ensures ValidateBody(body).Err? ==> r == Step(Err(ValueError), store)
    ensures ValidateBody(body).Ok? && !store.IsParticipant(threadId, userId) ==> r == Step(Err(PermissionError), store)
    ensures r.result.Ok? <==> ValidateBody(body).Ok? && store.IsParticipant(threadId, userId)
    ensures r.result.Ok? ==>
              var m := r.result.value;
              m == Message(store.nextMessageId, threadId, userId, ValidateBody(body).value)
              && r.store.messages == store.messages + [m]
              && LastReadOf(r.store, threadId, userId) == Some(m.id)
              && r.store.lastRead - {(threadId, userId)} == store.lastRead - {(threadId, userId)}
              && r.store.nextMessageId == m.id + 1
    ensures r.store.users == store.users && r.store.threadKeys == store.threadKeys
            && r.store.participants == store.participants && r.store.nextThreadId == store.nextThreadId
    ensures store.Valid() ==> r.store.Valid()
    ensures store.Valid() && r.result.Ok? ==> UnreadCount(r.store, threadId, userId) == 0
  {
    match ValidateBody(body)
    case Err(e) => Step(Err(e), store)
    case Ok(messageBody) =>
      if !store.IsParticipant(threadId, userId) then Step(Err(PermissionError), store)
      else
        var m := Message(store.nextMessageId, threadId, userId, messageBody);
        var next := store.(messages := store.messages + [m],
                           lastRead := store.lastRead[(threadId, userId) := m.id],
                           nextMessageId := store.nextMessageId + 1);
        assert store.Valid() ==> forall i :: 0 <= i < |next.messages| ==> next.messages[i].id <= m.id;
        Step(Ok(m), next)
  }

  /** `_latest_message_id`: the largest id in the thread, if any. */
  function LatestId(ms: seq<Message>, threadId: int): (r: Option<int>)
    ensures r.None? <==> forall i :: 0 <= i < |ms| ==> ms[i].threadId != threadId
    ensures r.Some? ==> forall i :: 0 <= i < |ms| && ms[i].threadId == threadId ==> ms[i].id <= r.value
    ensures r.Some? ==> exists i :: 0 <= i < |ms| && ms[i].threadId == threadId && ms[i].id == r.value
  {
    if |ms| == 0 then None
    else
      var p := ms[..|ms| - 1];
      var last := ms[|ms| - 1];
      assert forall i :: 0 <= i < |p| ==> p[i] == ms[i];
      var prior := LatestId(p, threadId);
      if last.threadId != threadId then prior
      else if prior.Some? && prior.value >= last.id then prior
      else Some(last.id)
  }

  /** `mark_thread_read`: participants only; the read marker moves to the
      thread's latest message (or is cleared when there is none), and the
      unread count is reported after the move. */
  function MarkThreadRead(store: DmStore, threadId: int, userId: nat): (r: Step<nat>)
    ensures !store.IsParticipant(threadId, userId) ==> r == Step(Err(PermissionError), store)
    ensures store.IsParticipant(threadId, userId) ==> r.result == Ok(0)
    ensures r.result.Ok? ==> r.result.value == UnreadCount(r.store, threadId, userId)
    ensures store.IsParticipant(threadId, userId) ==>
              && LastReadOf(r.store, threadId, userId) == LatestId(store.messages, threadId)
              && r.store.lastRead - {(threadId, userId)} == store.lastRead - {(threadId, userId)}
    ensures r.store == store.(lastRead := r.store.lastRead)
  {
    if !store.IsParticipant(threadId, userId) then Step(Err(PermissionError), store)
    else
      var latest := LatestId(store.messages, threadId);
      var marked := if latest.Some? then store.lastRead[(threadId, userId) := latest.value]
                    else store.lastRead - {(threadId, userId)};
      var next := store.(lastRead := marked);
      Step(Ok(UnreadCount(next, threadId, userId)), next)
  }

  /** Marking a thread read a second time changes nothing more. */
  lemma {:induction false} MarkThreadReadIdempotent(store: DmStore, threadId: int, userId: nat)
    ensures var once := MarkThreadRead(store, threadId, userId);
            MarkThreadRead(once.store, threadId, userId) == once
  {
  }

  // -------------------------------------------------------------- paging

  /** `max(1, min(limit, 100))`. */
  function ClampLimit(limit: int): (n: int)
    ensures 1 <= n <= MaxMessageLimit
    ensures 1 <= limit <= MaxMessageLimit ==> n == limit
    ensures limit < 1 ==> n == 1
    ensures limit > MaxMessageLimit ==> n == MaxMessageLimit
  {
    if limit < 1 then 1 else if limit > MaxMessageLimit then MaxMessageLimit else limit
  }

  /** The messages of one thread, in store order. */
  function ThreadMessages(ms: seq<Message>, threadId: int): seq<Message> {
    if |ms| == 0 then []
    else
      var rest := ThreadMessages(ms[..|ms| - 1], threadId);
      if ms[|ms| - 1].threadId == threadId then rest + [ms[|ms| - 1]] else rest
  }

  /** A thread holds exactly the store's messages with its id, and keeps
      the store's increasing id order. */
  lemma {:induction false} ThreadMessagesSound(ms: seq<Message>, threadId: int)
    ensures forall m :: m in ThreadMessages(ms, threadId) <==> m in ms && m.threadId == threadId
    ensures IdsIncreasing(ms) ==> IdsIncreasing(ThreadMessages(ms, threadId))
    decreases |ms|
  {
    if |ms| > 0 {
      var p := ms[..|ms| - 1];
      var last := ms[|ms| - 1];
      DropLastSnoc(ms);
      ThreadMessagesSound(p, threadId);
      var rest := ThreadMessages(p, threadId);
      if IdsIncreasing(ms) && last.threadId == threadId {
        AllBelowLast(ms, p, rest);
        AppendIncreasing(rest, last);
      }
    }
  }

  /** In increasing id order, every message before the last has a smaller
      id than the last. */
  lemma {:induction false} AllBelowLast(ms: seq<Message>, p: seq<Message>, rest: seq<Message>)
    requires IdsIncreasing(ms) && |ms| > 0 && p == ms[..|ms| - 1]
    requires forall m :: m in rest ==> m in p
    ensures forall i :: 0 <= i < |rest| ==> rest[i].id < ms[|ms| - 1].id
  {
    forall i | 0 <= i < |rest|
      ensures rest[i].id < ms[|ms| - 1].id
    {
      assert rest[i] in p;
      var j :| 0 <= j < |p| && p[j] == rest[i];
      assert p[j] == ms[j];
    }
  }

  /** Appending a message whose id exceeds every id keeps the order
      increasing. */
  lemma {:induction false} AppendIncreasing(rest: seq<Message>, last: Message)
    requires IdsIncreasing(rest)
    requires forall i :: 0 <= i < |rest| ==> rest[i].id < last.id
    ensures IdsIncreasing(rest + [last])
  {
    var t := rest + [last];
    forall a, b | 0 <= a < b < |t|
      ensures t[a].id < t[b].id
    {
      if b < |rest| {
        assert t[a] == rest[a] && t[b] == rest[b];
      } else {
        assert t[a] == rest[a];
      }
    }
  }

  /** The cursor condition `m.id < cursor`; no cursor admits every id. */
  predicate Before(m: Message, cursor: Option<int>) {
    cursor.None? || m.id < cursor.value
  }

  /** The rows the cursor admits, in store order. With increasing ids they
      are a prefix, and everything after that prefix is refused. */
  function Earlier(ms: seq<Message>, cursor: Option<int>): seq<Message> {
    if |ms| == 0 then []
    else
      var p := ms[..|ms| - 1];
      var last := ms[|ms| - 1];
      var rest := Earlier(p, cursor);
      if Before(last, cursor) then rest + [last] else rest
  }

  /** The admitted rows are exactly the rows the cursor lets through. */
  lemma {:induction false} EarlierMembers(ms: seq<Message>, cursor: Option<int>)
    ensures forall m :: m in Earlier(ms, cursor) <==> m in ms && Before(m, cursor)
  {
    if |ms| > 0 {
      var p := ms[..|ms| - 1];
      EarlierMembers(p, cursor);
      assert ms == p + [ms[|ms| - 1]];
    }
  }

  /** With increasing ids the admitted rows are a prefix, and the cursor
      refuses every row after it. */
  lemma {:induction false} EarlierIsPrefix(ms: seq<Message>, cursor: Option<int>)
    requires IdsIncreasing(ms)
    ensures var r := Earlier(ms, cursor);
            |r| <= |ms| && r == ms[..|r|] && forall i :: |r| <= i < |ms| ==> !Before(ms[i], cursor)
  {
    if |ms| > 0 {
      if Before(ms[|ms| - 1], cursor) {
        AdmitLast(ms, cursor);
      } else {
        EarlierIsPrefix(ms[..|ms| - 1], cursor);
        RefuseLast(ms, cursor);
      }
    }
  }

  /** The shape `EarlierIsPrefix` establishes: `r` is a prefix of `ms`
      and the cursor refuses every row after it. */
  predicate PrefixShape(ms: seq<Message>, r: seq<Message>, cursor: Option<int>) {
    |r| <= |ms| && r == ms[..|r|] && forall i :: |r| <= i < |ms| ==> !Before(ms[i], cursor)
  }

  /** When the cursor admits the newest row, it admits every row. */
  lemma {:induction false} AdmitLast(ms: seq<Message>, cursor: Option<int>)
    requires IdsIncreasing(ms) && |ms| > 0 && Before(ms[|ms| - 1], cursor)
    ensures Earlier(ms, cursor) == ms
  {
    forall i | 0 <= i < |ms|
      ensures Before(ms[i], cursor)
    {
      if i < |ms| - 1 {
        assert ms[i].id < ms[|ms| - 1].id;
      }
    }
    EarlierAll(ms, cursor);
  }

  /** A cursor that admits every row admits them all, in order. */
  lemma {:induction false} EarlierAll(ms: seq<Message>, cursor: Option<int>)
    requires forall i :: 0 <= i < |ms| ==> Before(ms[i], cursor)
    ensures Earlier(ms, cursor) == ms
  {
    if |ms| > 0 {
      var p := ms[..|ms| - 1];
      AllBeforeOlder(ms, p, cursor);
      EarlierAll(p, cursor);
      EarlierAdmitsLast(ms, cursor);
      DropLastSnoc(ms);
    }
  }

  /** Every older row is admitted when every row is. */
  lemma {:induction false} AllBeforeOlder(ms: seq<Message>, p: seq<Message>, cursor: Option<int>)
    requires |ms| > 0 && p == ms[..|ms| - 1]
    requires forall i :: 0 <= i < |ms| ==> Before(ms[i], cursor)
    ensures forall i :: 0 <= i < |p| ==> Before(p[i], cursor)
  {
  }

  /** Admitting the newest row appends it to the older rows' admissions. */
  lemma {:induction false} EarlierAdmitsLast(ms: seq<Message>, cursor: Option<int>)
    requires |ms| > 0 && Before(ms[|ms| - 1], cursor)
    ensures Earlier(ms, cursor) == Earlier(ms[..|ms| - 1], cursor) + [ms[|ms| - 1]]
  {
  }

  /** When the cursor refuses the newest row, the admitted rows are those
      of the older rows. */
  lemma {:induction false} RefuseLast(ms: seq<Message>, cursor: Option<int>)
    requires |ms| > 0 && !Before(ms[|ms| - 1], cursor)
    requires PrefixShape(ms[..|ms| - 1], Earlier(ms[..|ms| - 1], cursor), cursor)
    ensures PrefixShape(ms, Earlier(ms, cursor), cursor)
  {
    var p := ms[..|ms| - 1];
    var rest := Earlier(p, cursor);
    assert ms == p + [ms[|ms| - 1]];
    assert Earlier(ms, cursor) == rest;
    assert forall i :: 0 <= i < |p| ==> p[i] == ms[i];
  }

  /** Rows before the id of the row at `k` are exactly the rows before `k`. */
  lemma {:induction false} EarlierThan(ms: seq<Message>, k: nat)
    requires IdsIncreasing(ms) && k < |ms|
    ensures Earlier(ms, Some(ms[k].id)) == ms[..k]
  {
    var cursor := Some(ms[k].id);
    var r := Earlier(ms, cursor);
    EarlierIsPrefix(ms, cursor);
    EarlierMembers(ms, cursor);
    assert forall i :: 0 <= i < |r| ==> Before(ms[i], cursor) by {
      assert forall i :: 0 <= i < |r| ==> r[i] == ms[i] && r[i] in r;
    }
    assert |r| <= k;
    if k > 0 {
      assert Before(ms[k - 1], cursor);
    }
  }

  /** The rows a query with `cursor` may return. */
  function Candidates(store: DmStore, threadId: int, cursor: Option<int>): seq<Message> {
    Earlier(ThreadMessages(store.messages, threadId), cursor)
  }

  datatype MessagePage = MessagePage(messages: seq<Message>, nextCursor: Option<string>, hasMore: bool)

  /** The page `list_messages` builds from the rows its query admits (in
      store order): it fetches up to `limit + 1` of them newest first,
      keeps `limit`, returns those oldest first, and hands back the id of
      the oldest returned row, as text, when more rows remain. */
  function PageOf(candidates: seq<Message>, limit: int): (page: MessagePage)
    requires limit >= 1
    ensures |page.messages| <= limit
    ensures page.hasMore <==> |candidates| > limit
    ensures page.nextCursor.Some? <==> page.hasMore
  {
    var newestFirst := Reverse(candidates);
    var rows := if |newestFirst| <= limit + 1 then newestFirst else newestFirst[..limit + 1];
    var hasMore := |rows| > limit;
    var kept := if hasMore then rows[..limit] else rows;
    var ascending := Reverse(kept);
    var nextCursor := if hasMore && |ascending| > 0 then Some(IntToString(ascending[0].id)) else None;
    MessagePage(ascending, nextCursor, hasMore)
  }

  /** The page is the newest `limit` candidates (all of them when fewer
      remain) in their original order, and a cursor, when there is one,
      reads back as the id of the page's oldest row. */
  lemma {:induction false} PageOfShape(candidates: seq<Message>, limit: int)
    requires limit >= 1
    ensures var page := PageOf(candidates, limit);
            var k := if |candidates| <= limit then |candidates| else limit;
            page.messages == candidates[|candidates| - k..]
            && (page.nextCursor.Some? ==> ParseInt(page.nextCursor.value) == Ok(page.messages[0].id))
  {
    var k := if |candidates| <= limit then |candidates| else limit;
    var newestFirst := Reverse(candidates);
    var rows := if |newestFirst| <= limit + 1 then newestFirst else newestFirst[..limit + 1];
    var kept := if |rows| > limit then rows[..limit] else rows;
    assert kept == newestFirst[..k];
    ReverseHeadOfReverse(candidates, k);
    var page := PageOf(candidates, limit);
    if page.nextCursor.Some? {
      IntRoundTrip(page.messages[0].id);
    }
  }

  /** `list_messages`: participants only; then the page of the rows below
      the cursor in the thread, with the limit clamped to [1, 100]. */
  function ListMessages(store: DmStore, threadId: int, userId: nat, limit: int, cursor: Option<int>): (r: Result<MessagePage>)
    ensures !store.IsParticipant(threadId, userId) <==> r == Err(PermissionError)
    ensures r.Ok? ==> |r.value.messages| <= ClampLimit(limit)
    ensures r.Ok? ==> (r.value.hasMore <==> |Candidates(store, threadId, cursor)| > ClampLimit(limit))
    ensures r.Ok? ==> (r.value.nextCursor.Some? <==> r.value.hasMore)
  {
    if !store.IsParticipant(threadId, userId) then Err(PermissionError)
    else Ok(PageOf(Candidates(store, threadId, cursor), ClampLimit(limit)))
  }

  /** The rows a query admits come in increasing id order, as the first
      rows of the thread. */
  lemma {:induction false} CandidatesArePrefix(store: DmStore, threadId: int, cursor: Option<int>)
    requires store.Valid()
    ensures var thread := ThreadMessages(store.messages, threadId);
            var rows := Candidates(store, threadId, cursor);
            IdsIncreasing(thread) && |rows| <= |thread| && rows == thread[..|rows|] && IdsIncreasing(rows)
  {
    var thread := ThreadMessages(store.messages, threadId);
    ThreadMessagesSound(store.messages, threadId);
    EarlierIsPrefix(thread, cursor);
  }

  /** A page holds the newest `limit` rows the cursor admits (all of them
      when fewer remain), oldest first, with strictly increasing ids. */
  lemma {:induction false} ListMessagesPage(store: DmStore, threadId: int, userId: nat, limit: int, cursor: Option<int>)
    requires store.Valid()
    requires ListMessages(store, threadId, userId, limit, cursor).Ok?
    ensures var page := ListMessages(store, threadId, userId, limit, cursor).value;
            var rows := Candidates(store, threadId, cursor);
            var k := if |rows| <= ClampLimit(limit) then |rows| else ClampLimit(limit);
            page.messages == rows[|rows| - k..] && IdsIncreasing(page.messages)
  {
    CandidatesArePrefix(store, threadId, cursor);
    IncreasingPage(Candidates(store, threadId, cursor), ClampLimit(limit));
  }

  /** The page cut from rows in increasing id order is their newest
      `limit` rows, still in increasing id order. */
  lemma {:induction false} IncreasingPage(rows: seq<Message>, limit: int)
    requires IdsIncreasing(rows) && limit >= 1
    ensures var k := if |rows| <= limit then |rows| else limit;
            PageOf(rows, limit).messages == rows[|rows| - k..] && IdsIncreasing(PageOf(rows, limit).messages)
  {
    var k := if |rows| <= limit then |rows| else limit;
    PageOfShape(rows, limit);
    IncreasingSuffix(rows, |rows| - k);
  }

  /** A suffix of rows in increasing id order is in increasing id order. */
  lemma {:induction false} IncreasingSuffix(ms: seq<Message>, j: nat)
    requires IdsIncreasing(ms) && j <= |ms|
    ensures IdsIncreasing(ms[j..])
  {
    var t := ms[j..];
    forall a, b | 0 <= a < b < |t|
      ensures t[a].id < t[b].id
    {
      assert t[a] == ms[j + a] && t[b] == ms[j + b];
    }
  }

  /** Paging through rows in increasing id order: the rows below the oldest
      row of a full page, followed by the page, are the rows the page was
      cut from. */
  lemma {:induction false} PageContinues(thread: seq<Message>, cursor: Option<int>, limit: int)
    requires IdsIncreasing(thread) && limit >= 1
    requires PageOf(Earlier(thread, cursor), limit).hasMore
    ensures var page := PageOf(Earlier(thread, cursor), limit);
            Earlier(thread, Some(page.messages[0].id)) + page.messages == Earlier(thread, cursor)
  {
    var rows := Earlier(thread, cursor);
    var page := PageOf(rows, limit);
    var cut := |rows| - limit;
    assert page.messages == rows[cut..] by {
      PageOfShape(rows, limit);
    }
    SuffixContinues(thread, cursor, cut);
  }

  /** Cutting the admitted rows at `cut`: the rows below the id at the cut,
      followed by the rows from the cut on, are all the admitted rows. */
  lemma {:induction false} SuffixContinues(thread: seq<Message>, cursor: Option<int>, cut: nat)
    requires IdsIncreasing(thread) && cut < |Earlier(thread, cursor)|
    ensures var rows := Earlier(thread, cursor);
            Earlier(thread, Some(rows[cut].id)) + rows[cut..] == rows
  {
    var rows := Earlier(thread, cursor);
    EarlierIsPrefix(thread, cursor);
    assert rows[cut] == thread[cut];
    EarlierThan(thread, cut);
    assert rows[..cut] + rows[cut..] == rows;
  }

  /** The cursor a page hands back reads back as the id of its oldest row,
      and the page after it starts right below this one: this page and
      every row the next cursor admits are together exactly the rows this
      cursor admitted, so paging neither skips nor repeats a message. */
  lemma {:induction false} ListMessagesContinues(store: DmStore, threadId: int, userId: nat, limit: int, cursor: Option<int>)
    requires store.Valid()
    requires ListMessages(store, threadId, userId, limit, cursor).Ok?
    requires ListMessages(store, threadId, userId, limit, cursor).value.nextCursor.Some?
    ensures var page := ListMessages(store, threadId, userId, limit, cursor).value;
            var parsed := ParseInt(page.nextCursor.value);
            parsed == Ok(page.messages[0].id)
            && Candidates(store, threadId, Some(parsed.value)) + page.messages == Candidates(store, threadId, cursor)
  {
    var thread := ThreadMessages(store.messages, threadId);
    var n := ClampLimit(limit);
    assert ListMessages(store, threadId, userId, limit, cursor).value == PageOf(Earlier(thread, cursor), n);
    PageOfShape(Earlier(thread, cursor), n);
    ThreadMessagesSound(store.messages, threadId);
    PageContinues(thread, cursor, n);
  }

  /** A page that reports no more rows returns everything the cursor
      admitted. */
  lemma {:induction false} ListMessagesExhausts(store: DmStore, threadId: int, userId: nat, limit: int, cursor: Option<int>)
    requires ListMessages(store, threadId, userId, limit, cursor).Ok?
    requires !ListMessages(store, threadId, userId, limit, cursor).value.hasMore
    ensures ListMessages(store, threadId, userId, limit, cursor).value.messages == Candidates(store, threadId, cursor)
  {
    PageOfShape(Candidates(store, threadId, cursor), ClampLimit(limit));
  }
}
