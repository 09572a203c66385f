/** The periodic notification digest: which unread notifications a run
    picks up, how they are grouped per recipient, the link each digest
    item carries, and the accounting of one run.

    Time is in seconds. The mail provider's verdict for each recipient is
    a parameter (`sendOk`, the users whose digest is rendered and accepted
    by the provider); a user outside it is a send failure. */
module EmailDigest {
  import opened Common
  import opened Text
  import opened NotificationModels
  import opened Seqs

  const DaySeconds: int := 86400
  const WeekSeconds: int := 7 * 86400

  // ---------------------------------------------------------------- window

  /** `_window_start`: one day back for daily digests, a week back for any
      other frequency. */
  function WindowStart(frequency: EmailDigestOption, now: int): (start: int)
    ensures start < now
    ensures frequency == Daily ==> now - start == DaySeconds
    ensures frequency != Daily ==> now - start == WeekSeconds
  {
    if frequency == Daily then now - DaySeconds else now - WeekSeconds
  }

  /** The daily window lies inside the weekly one. */
  lemma {:induction false} DailyWindowInsideWeekly(now: int, t: int)
    ensures WindowStart(Weekly, now) < WindowStart(Daily, now)
    ensures WindowStart(Daily, now) <= t ==> WindowStart(Weekly, now) <= t
  {
  }

  // -------------------------------------------------------------- base url

  /** `_normalize_base_url`: a blank setting gives "", anything else loses
      its surrounding whitespace and trailing slashes and gets exactly one
      slash back. */
  function NormalizeBaseUrl(setting: string): (base: string)
    ensures base == "" <==> Strip(setting) == ""
    ensures base != "" ==> base[|base| - 1] == '/'
    ensures base != "" ==> base[..|base| - 1] == RStripChar(Strip(setting), '/')
    ensures |base| >= 2 ==> base[|base| - 2] != '/'
  {
    var stripped := Strip(setting);
    if stripped == "" then "" else RStripChar(stripped, '/') + "/"
  }

  /** Stripping a character from a string that does not end in it changes
      nothing. */
  lemma {:induction false} RStripCharNoTrailing(s: string, c: char)
    requires s == [] || s[|s| - 1] != c
    ensures RStripChar(s, c) == s
  {
  }

  /** A normalized base url is its own normalization. */
  lemma {:induction false} NormalizeBaseUrlIdempotent(setting: string)
    ensures NormalizeBaseUrl(NormalizeBaseUrl(setting)) == NormalizeBaseUrl(setting)
  {
    var base := NormalizeBaseUrl(setting);
    if base != "" {
      var stripped := Strip(setting);
      var head := RStripChar(stripped, '/');
      assert base == head + "/";
      assert head != [] ==> head[0] == stripped[0];
      assert !IsSpace(base[0]) && !IsSpace(base[|base| - 1]);
      StripUnpadded(base);
      assert base[..|base| - 1] == head;
      RStripCharNoTrailing(head, '/');
    }
  }

  // ----------------------------------------------------------------- links

  /** Where a digest item points. */
  datatype LinkTarget = Inbox | SnippetPage(snippetId: int) | CommentAnchor(snippetId: int, commentId: int)

  /** The target `_build_item_link` picks: a snippet when the row has a
      (non-zero) snippet id, anchored at the comment when it also has a
      comment id, otherwise the notification inbox. */
  function TargetOf(snippetId: Option<int>, commentId: Option<int>): LinkTarget {
    if TruthyInt(snippetId) then
      if TruthyInt(commentId) then CommentAnchor(snippetId.value, commentId.value)
      else SnippetPage(snippetId.value)
    else Inbox
  }

  /** `_build_item_link`: no link without a base url; otherwise the base
      followed by `snippet/<id>`, `snippet/<id>#comment-<cid>` or
      `notifications`. */
  function BuildItemLink(snippetId: Option<int>, commentId: Option<int>, baseUrl: string): (link: string)
    ensures link == "" <==> baseUrl == ""
    ensures baseUrl != "" ==> |link| > |baseUrl| && link[..|baseUrl|] == baseUrl
    ensures baseUrl != "" && !TruthyInt(snippetId) ==> link == baseUrl + "notifications"
  {
    if baseUrl == "" then ""
    else if TruthyInt(snippetId) then baseUrl + ("snippet/" + SnippetRef(snippetId.value, commentId))
    else baseUrl + "notifications"
  }

  /** `<id>`, followed by `#comment-<cid>` when there is a comment id. */
  function SnippetRef(snippetId: int, commentId: Option<int>): string {
    if TruthyInt(commentId) then IntToString(snippetId) + "#comment-" + IntToString(commentId.value)
    else IntToString(snippetId)
  }

  /** Reads a link back: the part after the base url names the inbox, a
      snippet, or a comment on a snippet. */
  function DecodeItemLink(link: string, baseUrl: string): (r: Option<LinkTarget>)
    ensures r.Some? ==> |link| > |baseUrl| && link[..|baseUrl|] == baseUrl
  {
    if |link| <= |baseUrl| || link[..|baseUrl|] != baseUrl then None
    else DecodePath(link[|baseUrl|..])
  }

  function DecodePath(path: string): Option<LinkTarget> {
    if path == "notifications" then Some(Inbox)
    else if |path| < 8 || path[..8] != "snippet/" then None
    else DecodeSnippetRef(Split(path[8..], '#'))
  }

  /** `<id>` or `<id>`, `comment-<cid>` around the '#'. */
  function DecodeSnippetRef(parts: seq<string>): Option<LinkTarget> {
    if |parts| == 1 then
      match ParseInt(parts[0])
      case Ok(s) => Some(SnippetPage(s))
      case Err(_) => None
    else if |parts| == 2 && |parts[1]| >= 8 && parts[1][..8] == "comment-" then
      match (ParseInt(parts[0]), ParseInt(parts[1][8..]))
      case (Ok(s), Ok(c)) => Some(CommentAnchor(s, c))
      case _ => None
    else None
  }

  /** Decimal renderings hold no '#'. */
  lemma {:induction false} NoHashInInt(n: int)
    ensures '#' !in IntToString(n)
  {
    if n < 0 {
      assert IntToString(n) == "-" + NatToString(-n);
      assert forall k :: 1 <= k < |IntToString(n)| ==> IntToString(n)[k] == NatToString(-n)[k - 1];
    }
  }

  /** A link is the base url followed by a path. */
  lemma {:induction false} DecodeAfterBase(baseUrl: string, path: string)
    requires path != ""
    ensures DecodeItemLink(baseUrl + path, baseUrl) == DecodePath(path)
  {
    assert (baseUrl + path)[..|baseUrl|] == baseUrl;
    assert (baseUrl + path)[|baseUrl|..] == path;
  }

  /** A path under `snippet/`. */
  lemma {:induction false} DecodeSnippetPath(rest: string)
    ensures DecodePath("snippet/" + rest) == DecodeSnippetRef(Split(rest, '#'))
  {
    var path := "snippet/" + rest;
    assert path[..8] == "snippet/";
    assert path[8..] == rest;
    assert path != "notifications" by {
      assert path[0] == 's';
    }
  }

  /** The pieces of `<id>#comment-<cid>`. */
  lemma {:induction false} CommentRefParts(a: string, c: string)
    requires '#' !in a && '#' !in c
    ensures Split(a + "#comment-" + c, '#') == [a, "comment-" + c]
  {
    var b := "comment-" + c;
    assert '#' !in b by {
      assert forall k :: 8 <= k < |b| ==> b[k] == c[k - 8];
    }
    assert a + "#comment-" + c == Join([a, b], "#");
    SplitJoin([a, b], '#');
  }

  /** Every link leads back to the target it was built for. */
  lemma {:induction false} ItemLinkRoundTrip(snippetId: Option<int>, commentId: Option<int>, baseUrl: string)
    requires baseUrl != ""
    ensures DecodeItemLink(BuildItemLink(snippetId, commentId, baseUrl), baseUrl)
            == Some(TargetOf(snippetId, commentId))
  {
    if TruthyInt(snippetId) {
      var a := IntToString(snippetId.value);
      var rest := SnippetRef(snippetId.value, commentId);
      NoHashInInt(snippetId.value);
      IntRoundTrip(snippetId.value);
      DecodeAfterBase(baseUrl, "snippet/" + rest);
      DecodeSnippetPath(rest);
      if TruthyInt(commentId) {
        var c := IntToString(commentId.value);
        NoHashInInt(commentId.value);
        IntRoundTrip(commentId.value);
        CommentRefParts(a, c);
        var b := "comment-" + c;
        assert b[..8] == "comment-" && b[8..] == c;
      } else {
        assert a == Join([a], "#");
        SplitJoin([a], '#');
      }
    } else {
      DecodeAfterBase(baseUrl, "notifications");
    }
  }

  // ------------------------------------------------------------ candidates

  /** One row of the digest query: a stored notification joined with its
      owner's address and digest setting, and whether it was already
      emailed. */
  datatype DigestRow = DigestRow(
    notification: Notification,
    email: Option<string>,
    username: Option<string>,
    digest: EmailDigestOption,
    emailed: bool)

  /** The query's filter: the owner chose this frequency, and the
      notification is unread, not yet emailed and inside the window. */
  predicate Selected(row: DigestRow, frequency: EmailDigestOption, windowStart: int) {
    row.digest == frequency && !row.notification.isRead && !row.emailed
    && row.notification.createdAt >= windowStart
  }

  /** `_fetch_candidate_rows`, keeping the order of `rows`. */
  function CandidateRows(rows: seq<DigestRow>, frequency: EmailDigestOption, windowStart: int): (r: seq<DigestRow>)
    ensures forall row :: row in r <==> row in rows && Selected(row, frequency, windowStart)
  {
    if |rows| == 0 then []
    else
      var rest := CandidateRows(rows[1..], frequency, windowStart);
      if Selected(rows[0], frequency, windowStart) then [rows[0]] + rest else rest
  }

  // -------------------------------------------------------------- grouping

  function UserOf(row: DigestRow): int {
    row.notification.userId
  }

  /** One recipient's share: the address and name come from the first row
      seen for the user, the rows are all of the user's rows. */
  datatype UserDigest = UserDigest(userId: int, email: Option<string>, username: Option<string>, rows: seq<DigestRow>)

  /** The rows of `rows` that belong to `userId`, in order. */
  function RowsOf(rows: seq<DigestRow>, userId: int): (r: seq<DigestRow>)
    ensures forall row :: row in r <==> row in rows && UserOf(row) == userId
  {
    if |rows| == 0 then []
    else
      var p := RowsOf(rows[..|rows| - 1], userId);
      if UserOf(rows[|rows| - 1]) == userId then p + [rows[|rows| - 1]] else p
  }

  predicate DistinctUsers(groups: seq<UserDigest>) {
    forall i, j :: 0 <= i < j < |groups| ==> groups[i].userId != groups[j].userId
  }

  function UserIds(rows: seq<DigestRow>): (ids: seq<int>)
    ensures |ids| == |rows|
    ensures forall k :: 0 <= k < |rows| ==> ids[k] == UserOf(rows[k])
  {
    if |rows| == 0 then [] else [UserOf(rows[0])] + UserIds(rows[1..])
  }

  /** The share of a user who has rows: address and name from the user's
      first row. */
  function ShareOf(rows: seq<DigestRow>, userId: int): (g: UserDigest)
    requires userId in UserIds(rows)
    ensures g.userId == userId && g.rows == RowsOf(rows, userId)
    ensures g.rows != [] && g.email == g.rows[0].email
  {
    var k :| 0 <= k < |rows| && UserIds(rows)[k] == userId;
    assert rows[k] in RowsOf(rows, userId);
    var mine := RowsOf(rows, userId);
    UserDigest(userId, mine[0].email, mine[0].username, mine)
  }

  /** The grouping loop of `send_email_digests` (`grouped.setdefault(...)`
      then append): one share per user, users in order of first
      appearance. */
  function GroupRows(rows: seq<DigestRow>): (groups: seq<UserDigest>)
    ensures DistinctUsers(groups)
    ensures |groups| <= |rows|
    ensures forall i :: 0 <= i < |groups| ==> groups[i].rows == RowsOf(rows, groups[i].userId)
    ensures forall i :: 0 <= i < |groups| ==> groups[i].rows != [] && groups[i].email == groups[i].rows[0].email
    ensures forall k :: 0 <= k < |rows| ==> exists i :: 0 <= i < |groups| && groups[i].userId == UserOf(rows[k])
  {
    var users := Dedup(UserIds(rows));
    UsersCovered(rows, users);
    SharesOf(rows, users)
  }

  /** One share for each of `users`, in order. */
  function SharesOf(rows: seq<DigestRow>, users: seq<int>): (groups: seq<UserDigest>)
    requires forall i :: 0 <= i < |users| ==> users[i] in UserIds(rows)
    ensures |groups| == |users|
    ensures forall i :: 0 <= i < |users| ==> groups[i] == ShareOf(rows, users[i])
  {
    if |users| == 0 then [] else [ShareOf(rows, users[0])] + SharesOf(rows, users[1..])
  }

  /** Every row's user is among the deduplicated users. */
  lemma {:induction false} UsersCovered(rows: seq<DigestRow>, users: seq<int>)
    requires users == Dedup(UserIds(rows))
    ensures forall k :: 0 <= k < |rows| ==> exists i :: 0 <= i < |users| && users[i] == UserOf(rows[k])
  {
    forall k | 0 <= k < |rows|
      ensures exists i :: 0 <= i < |users| && users[i] == UserOf(rows[k])
    {
      assert UserIds(rows)[k] in users;
      var i := FirstIndex(users, UserOf(rows[k]));
    }
  }

  // -------------------------------------------------------------- dispatch

  /** `DigestDispatchSummary`. */
  datatype DigestSummary = DigestSummary(digestsSent: nat, notificationsDelivered: nat, failures: nat)

  /** What one run reports, and the ids its closing update stamps with
      `emailed_at` (no update when empty). */
  datatype DigestRun = DigestRun(summary: DigestSummary, marked: seq<int>)

  /** A user who gets a digest attempt: a non-blank address and at least
      one item. */
  predicate Addressable(g: UserDigest) {
    Strip(if Truthy(g.email) then g.email.value else "") != "" && |g.rows| > 0
  }

  predicate Sent(g: UserDigest, sendOk: set<int>) {
    Addressable(g) && g.userId in sendOk
  }

  predicate Failed(g: UserDigest, sendOk: set<int>) {
    Addressable(g) && g.userId !in sendOk
  }

  function IdsOf(rows: seq<DigestRow>): (ids: seq<int>)
    ensures |ids| == |rows|
    ensures forall k :: 0 <= k < |rows| ==> ids[k] == rows[k].notification.id
  {
    if |rows| == 0 then [] else [rows[0].notification.id] + IdsOf(rows[1..])
  }

  /** The per-user loop: a blank address or no items skips the user; a
      failed send counts a failure and marks nothing; a successful send
      counts the digest and its items and marks the items' ids. */
  function Dispatch(groups: seq<UserDigest>, sendOk: set<int>): (run: DigestRun)
    ensures run.summary.notificationsDelivered == |run.marked|
    ensures run.summary.digestsSent + run.summary.failures <= |groups|
    ensures run.marked == [] <==> run.summary.digestsSent == 0
  {
    if |groups| == 0 then DigestRun(DigestSummary(0, 0, 0), [])
    else
      var g := groups[0];
      var rest := Dispatch(groups[1..], sendOk);
      if !Addressable(g) then rest
      else if g.userId !in sendOk then
        rest.(summary := rest.summary.(failures := rest.summary.failures + 1))
      else
        var s := rest.summary;
        DigestRun(DigestSummary(s.digestsSent + 1, s.notificationsDelivered + |g.rows|, s.failures),
                  IdsOf(g.rows) + rest.marked)
  }

  /** The ids of every row of every user whose digest was sent. */
  function DeliveredIds(groups: seq<UserDigest>, sendOk: set<int>): set<int> {
    set i, k | 0 <= i < |groups| && Sent(groups[i], sendOk) && 0 <= k < |groups[i].rows|
      :: groups[i].rows[k].notification.id
  }

  /** The ids of one user's rows, when that user's digest was sent. */
  function OwnDelivered(g: UserDigest, sendOk: set<int>): set<int> {
    set k | 0 <= k < |g.rows| && Sent(g, sendOk) :: g.rows[k].notification.id
  }

  /** Delivered ids split into the first user's and the rest's. */
  lemma {:induction false} DeliveredIdsCons(groups: seq<UserDigest>, sendOk: set<int>)
    requires |groups| > 0
    ensures DeliveredIds(groups, sendOk) == OwnDelivered(groups[0], sendOk) + DeliveredIds(groups[1..], sendOk)
  {
    var tail := groups[1..];
    var d := DeliveredIds(groups, sendOk);
    var own := OwnDelivered(groups[0], sendOk);
    forall id | id in d ensures id in own + DeliveredIds(tail, sendOk) {
      var i, k :| 0 <= i < |groups| && Sent(groups[i], sendOk) && 0 <= k < |groups[i].rows|
                  && groups[i].rows[k].notification.id == id;
      if i > 0 {
        assert tail[i - 1] == groups[i];
      }
    }
    forall id | id in DeliveredIds(tail, sendOk) ensures id in d {
      var i, k :| 0 <= i < |tail| && Sent(tail[i], sendOk) && 0 <= k < |tail[i].rows|
                  && tail[i].rows[k].notification.id == id;
      assert tail[i] == groups[i + 1];
    }
  }

  /** The ids of a sent user's rows, as a set. */
  lemma {:induction false} IdsOfSent(g: UserDigest, sendOk: set<int>)
    requires Sent(g, sendOk)
    ensures (set id | id in IdsOf(g.rows)) == OwnDelivered(g, sendOk)
  {
    var ids := IdsOf(g.rows);
    forall id | id in ids ensures id in OwnDelivered(g, sendOk) {
      var k :| 0 <= k < |ids| && ids[k] == id;
    }
  }

  /** The run stamps exactly the ids of the rows of users whose digest was
      sent: a failed or skipped user contributes nothing. */
  lemma {:induction false} DispatchMarksDelivered(groups: seq<UserDigest>, sendOk: set<int>)
    ensures (set id | id in Dispatch(groups, sendOk).marked) == DeliveredIds(groups, sendOk)
  {
    if |groups| > 0 {
      var g := groups[0];
      var rest := Dispatch(groups[1..], sendOk);
      DispatchMarksDelivered(groups[1..], sendOk);
      DeliveredIdsCons(groups, sendOk);
      if Sent(g, sendOk) {
        IdsOfSent(g, sendOk);
        assert Dispatch(groups, sendOk).marked == IdsOf(g.rows) + rest.marked;
      } else {
        assert OwnDelivered(g, sendOk) == {};
        assert Dispatch(groups, sendOk).marked == rest.marked;
      }
    }
  }

  /** The summary counts digests and failures over the users: none sent
      exactly when no user was sendable and accepted, no failure exactly
      when no sendable user was refused. */
  lemma {:induction false} DispatchCounts(groups: seq<UserDigest>, sendOk: set<int>)
    ensures var run := Dispatch(groups, sendOk);
            (run.summary.digestsSent == 0 <==> forall i :: 0 <= i < |groups| ==> !Sent(groups[i], sendOk))
            && (run.summary.failures == 0 <==> forall i :: 0 <= i < |groups| ==> !Failed(groups[i], sendOk))
  {
    if |groups| > 0 {
      var tail := groups[1..];
      DispatchCounts(tail, sendOk);
      assert forall i :: 1 <= i < |groups| ==> tail[i - 1] == groups[i];
      assert (forall i :: 0 <= i < |groups| ==> !Sent(groups[i], sendOk))
             <==> !Sent(groups[0], sendOk) && forall i :: 0 <= i < |tail| ==> !Sent(tail[i], sendOk);
      assert (forall i :: 0 <= i < |groups| ==> !Failed(groups[i], sendOk))
             <==> !Failed(groups[0], sendOk) && forall i :: 0 <= i < |tail| ==> !Failed(tail[i], sendOk);
    }
  }

  /** `send_email_digests`: nothing happens for the OFF frequency; otherwise
      the selected rows are grouped per user and dispatched. */
  function SendEmailDigests(frequency: EmailDigestOption, now: int, rows: seq<DigestRow>, sendOk: set<int>): (run: DigestRun)
    ensures frequency == Off ==> run == DigestRun(DigestSummary(0, 0, 0), [])
    ensures run.summary.notificationsDelivered == |run.marked|
    ensures run.marked == [] <==> run.summary.digestsSent == 0
  {
    if frequency != Daily && frequency != Weekly then DigestRun(DigestSummary(0, 0, 0), [])
    else
      var candidates := CandidateRows(rows, frequency, WindowStart(frequency, now));
      if |candidates| == 0 then DigestRun(DigestSummary(0, 0, 0), [])
      else Dispatch(GroupRows(candidates), sendOk)
  }

  /** A run stamps exactly the selected rows whose owner got a digest,
      counts at most one digest or failure per user, and stamps a selected
      row of a refused user only if another, delivered row shares its id. */
  lemma {:induction false} DigestMarksExactlyDelivered(frequency: EmailDigestOption, now: int, rows: seq<DigestRow>, sendOk: set<int>)
    requires frequency != Off
    ensures var run := SendEmailDigests(frequency, now, rows, sendOk);
            var groups := GroupRows(CandidateRows(rows, frequency, WindowStart(frequency, now)));
            (set id | id in run.marked) == DeliveredIds(groups, sendOk)
            && run.summary.digestsSent + run.summary.failures <= |groups|
  {
    var groups := GroupRows(CandidateRows(rows, frequency, WindowStart(frequency, now)));
    DispatchMarksDelivered(groups, sendOk);
  }

  /** Each digest item carries its notification's id and link. */
  datatype DigestItem = DigestItem(id: int, url: string)

  /** The item for one row: its notification's id and link. */
  function ItemOf(row: DigestRow, baseUrl: string): DigestItem {
    DigestItem(row.notification.id, BuildItemLink(row.notification.snippetId, row.notification.commentId, baseUrl))
  }

  /** `_build_digest_items`, for the parts the model keeps: one item per
      row, in order. */
  function BuildDigestItems(rows: seq<DigestRow>, baseUrl: string): (items: seq<DigestItem>)
    ensures |items| == |rows|
    ensures forall k :: 0 <= k < |rows| ==> items[k] == ItemOf(rows[k], baseUrl)
    ensures forall k :: 0 <= k < |rows| ==> items[k].id == rows[k].notification.id
    ensures forall k :: 0 <= k < |rows| ==>
              (items[k].url == "" <==> baseUrl == "")
  {
    if |rows| == 0 then []
    else
      var rest := BuildDigestItems(rows[1..], baseUrl);
      assert forall k :: 1 <= k < |rows| ==> rows[k] == rows[1..][k - 1];
      [ItemOf(rows[0], baseUrl)] + rest
  }

  /** With a base url, every item's link leads back to its notification's
      snippet, comment or the inbox. */
  lemma {:induction false} DigestItemLinks(rows: seq<DigestRow>, baseUrl: string, k: nat)
    requires baseUrl != "" && k < |rows|
    ensures var n := rows[k].notification;
            DecodeItemLink(BuildDigestItems(rows, baseUrl)[k].url, baseUrl) == Some(TargetOf(n.snippetId, n.commentId))
  {
    var n := rows[k].notification;
    ItemLinkRoundTrip(n.snippetId, n.commentId, baseUrl);
  }
}
