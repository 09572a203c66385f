/** Writing streaks and badges, and snippet excerpts for the weekly
    summary. Calendar days are day numbers: consecutive days differ by
    one, and "yesterday" is `today - 1`.
 */
module Engagement {
  import opened Common
  import opened Text
  import opened Seqs

  // ------------------------------------------------------ longest streak

  /** The length of the run of consecutive days (each one more than the
      one before it in the list) that ends at position `i`. */
  function RunEnding(days: seq<int>, i: nat): (n: nat)
    requires i < |days|
    ensures 1 <= n <= i + 1
  {
    if i == 0 || days[i] - days[i - 1] != 1 then 1 else RunEnding(days, i - 1) + 1
  }

  /** A run is what it says: every step inside it is one day. */
  lemma {:induction false} RunIsConsecutive(days: seq<int>, i: nat)
    requires i < |days|
    ensures forall j :: i - RunEnding(days, i) + 1 < j <= i ==> days[j] == days[j - 1] + 1
    ensures RunEnding(days, i) <= i ==> days[i - RunEnding(days, i) + 1] != days[i - RunEnding(days, i)] + 1
  {
    if i > 0 && days[i] - days[i - 1] == 1 {
      RunIsConsecutive(days, i - 1);
    }
  }

  /** The longest run among those ending at the first `n` positions. */
  function MaxRun(days: seq<int>, n: nat): (m: nat)
    requires 1 <= n <= |days|
    ensures forall i :: 0 <= i < n ==> RunEnding(days, i) <= m
    ensures exists i :: 0 <= i < n && RunEnding(days, i) == m
  {
    if n == 1 then RunEnding(days, 0)
    else
      var m := MaxRun(days, n - 1);
      var r := RunEnding(days, n - 1);
      if r > m then r else m
  }

  /** The longest streak: 0 without days, else the longest run. */
  function LongestStreak(days: seq<int>): (m: nat)
    ensures m == 0 <==> |days| == 0
    ensures m <= |days|
    ensures forall i :: 0 <= i < |days| ==> RunEnding(days, i) <= m
    ensures |days| > 0 ==> exists i :: 0 <= i < |days| && RunEnding(days, i) == m
  {
    if |days| == 0 then 0 else MaxRun(days, |days|)
  }

  /** `_compute_longest_streak`, as the source loops. */
  method ComputeLongestStreak(days: seq<int>) returns (longest: nat)
    ensures longest == LongestStreak(days)
  {
    if |days| == 0 {
      return 0;
    }
    longest := 1;
    var current := 1;
    var previous := days[0];
    var i := 1;
    while i < |days|
      invariant 1 <= i <= |days|
      invariant previous == days[i - 1]
      invariant current == RunEnding(days, i - 1)
      invariant longest == MaxRun(days, i)
    {
      var currentDay := days[i];
      if currentDay - previous == 1 {
        current := current + 1;
      } else {
        current := 1;
      }
      if current > longest {
        longest := current;
      }
      previous := currentDay;
      i := i + 1;
    }
  }

  // ------------------------------------------------------ current streak

  function AtMost(s: set<int>, cursor: int): set<int> {
    set x | x in s && x <= cursor
  }

  /** How many consecutive days, counting down from `cursor`, are in `s`. */
  function ChainDown(s: set<int>, cursor: int): (n: nat)
    ensures forall d :: cursor - n < d <= cursor ==> d in s
    ensures cursor - n !in s
    decreases |AtMost(s, cursor)|
  {
    if cursor !in s then 0
    else
      assert AtMost(s, cursor) == AtMost(s, cursor - 1) + {cursor};
      1 + ChainDown(s, cursor - 1)
  }

  /** The active days as a set, as the source builds one for lookups. */
  function DaySet(days: seq<int>): (s: set<int>)
    ensures forall d :: d in s <==> d in days
  {
    set d | d in days
  }

  /** The result of `_compute_current_streak`. */
  datatype CurrentStreak = CurrentStreak(streak: nat, activeToday: bool, lastDay: Option<int>)

  /** `_compute_current_streak`: without days, nothing; with today (or
      else yesterday) among the days, the run of days ending there;
      otherwise no streak. The last active day is the latest day. */
  function CurrentStreakOf(days: seq<int>, today: int): (r: CurrentStreak)
    ensures |days| == 0 ==> r == CurrentStreak(0, false, None)
    ensures |days| > 0 ==> r.lastDay == Some(SeqMax(days))
    ensures r.activeToday <==> today in days
    ensures r.streak > 0 <==> today in days || today - 1 in days
    ensures var anchor := if today in days then today else today - 1;
            r.streak > 0 ==> (forall d :: anchor - r.streak < d <= anchor ==> d in days) && anchor - r.streak !in days
  {
    if |days| == 0 then CurrentStreak(0, false, None)
    else
      var daySet := DaySet(days);
      if today in daySet then CurrentStreak(1 + ChainDown(daySet, today - 1), true, Some(SeqMax(days)))
      else if today - 1 in daySet then CurrentStreak(1 + ChainDown(daySet, today - 2), false, Some(SeqMax(days)))
      else CurrentStreak(0, false, Some(SeqMax(days)))
  }

  /** `_compute_current_streak`, as the source loops: walking a cursor
      back one day at a time while it names an active day. */
  method ComputeCurrentStreak(days: seq<int>, today: int) returns (r: CurrentStreak)
    ensures r == CurrentStreakOf(days, today)
  {
    if |days| == 0 {
      return CurrentStreak(0, false, None);
    }
    var daySet := DaySet(days);
    var activeToday := today in daySet;
    var streak: nat;
    var cursor: int;
    if activeToday {
      streak := 1;
      cursor := today - 1;
    } else if today - 1 in daySet {
      streak := 1;
      cursor := today - 2;
    } else {
      return CurrentStreak(0, false, Some(SeqMax(days)));
    }
    ghost var total := streak + ChainDown(daySet, cursor);
    while cursor in daySet
      invariant streak + ChainDown(daySet, cursor) == total
      decreases |AtMost(daySet, cursor)|
    {
      assert AtMost(daySet, cursor) == AtMost(daySet, cursor - 1) + {cursor};
      streak := streak + 1;
      cursor := cursor - 1;
    }
    return CurrentStreak(streak, activeToday, Some(SeqMax(days)));
  }

  /** In a strictly increasing list of days, a chain of `n` days counting
      down from the day at position `i` is a run ending there. */
  lemma {:induction false} ChainWithinRun(days: seq<int>, i: nat, n: nat)
    requires StrictlyIncreasing(days) && i < |days|
    requires forall d :: days[i] - n < d <= days[i] ==> d in days
    ensures RunEnding(days, i) >= n
    decreases n
  {
    if n >= 2 {
      assert days[i] - 1 in days;
      var j :| 0 <= j < |days| && days[j] == days[i] - 1;
      assert days[j] < days[i];
      assert j < i;
      assert days[j] <= days[i - 1] < days[i];
      assert days[i - 1] == days[i] - 1;
      ChainWithinRun(days, i - 1, n - 1);
    }
  }

  /** With the days sorted and distinct, as the query returns them, the
      current streak never exceeds the longest. */
  lemma {:induction false} CurrentAtMostLongest(days: seq<int>, today: int)
    requires StrictlyIncreasing(days)
    ensures CurrentStreakOf(days, today).streak <= LongestStreak(days)
  {
    var r := CurrentStreakOf(days, today);
    if r.streak > 0 {
      var anchor := if today in days then today else today - 1;
      var i :| 0 <= i < |days| && days[i] == anchor;
      ChainWithinRun(days, i, r.streak);
    }
  }

  // --------------------------------------------------------------- badges

  /** A badge; its icon is left out. */
  datatype StreakBadge = StreakBadge(name: string, threshold: int, description: string)

  const BadgeThresholds: seq<StreakBadge> := [
    StreakBadge("Getting started", 1, "Logged your first snippet"),
    StreakBadge("Building momentum", 3, "Three days in a row"),
    StreakBadge("Weekly habit", 7, "A full week of captures"),
    StreakBadge("Consistent curator", 14, "Two weeks strong"),
    StreakBadge("Monthly master", 30, "Thirty day streak")
  ]

  predicate Ascending(badges: seq<StreakBadge>) {
    forall i, j :: 0 <= i < j < |badges| ==> badges[i].threshold < badges[j].threshold
  }

  lemma {:induction false} BadgesAscending()
    ensures Ascending(BadgeThresholds)
  {
  }

  /** The last badge whose threshold the streak reaches. */
  function LastReached(badges: seq<StreakBadge>, streak: int): (b: Option<StreakBadge>)
    ensures b.Some? <==> exists i :: 0 <= i < |badges| && badges[i].threshold <= streak
    ensures b.Some? ==> b.value in badges && b.value.threshold <= streak
    ensures b.Some? && Ascending(badges) ==> forall i :: 0 <= i < |badges| && badges[i].threshold <= streak ==> badges[i].threshold <= b.value.threshold
  {
    if |badges| == 0 then None
    else
      var prefix := badges[..|badges| - 1];
      var last := badges[|badges| - 1];
      assert forall i :: 0 <= i < |prefix| ==> prefix[i] == badges[i];
      if last.threshold <= streak then Some(last) else LastReached(prefix, streak)
  }

  /** The first badge whose threshold the streak has not reached. */
  function FirstUnreached(badges: seq<StreakBadge>, streak: int): (b: Option<StreakBadge>)
    ensures b.Some? <==> exists i :: 0 <= i < |badges| && badges[i].threshold > streak
    ensures b.Some? ==> b.value in badges && b.value.threshold > streak
    ensures b.Some? && Ascending(badges) ==> forall i :: 0 <= i < |badges| && badges[i].threshold > streak ==> b.value.threshold <= badges[i].threshold
  {
    if |badges| == 0 then None
    else
      var rest := badges[1..];
      assert forall i :: 1 <= i < |badges| ==> badges[i] == rest[i - 1];
      if badges[0].threshold > streak then Some(badges[0]) else FirstUnreached(rest, streak)
  }

  /** `_select_badges`: the badges for the current streak. */
  method SelectBadges(currentStreak: int) returns (current: Option<StreakBadge>, next: Option<StreakBadge>)
    ensures current == LastReached(BadgeThresholds, currentStreak)
    ensures next == FirstUnreached(BadgeThresholds, currentStreak)
  {
    BadgesAscending();
    current, next := SelectFrom(BadgeThresholds, currentStreak);
  }

  /** The loop of `_select_badges` over ascending badges: every reached
      badge replaces the current one, and the first unreached one is the
      next badge and ends the loop. */
  method SelectFrom(badges: seq<StreakBadge>, currentStreak: int) returns (current: Option<StreakBadge>, next: Option<StreakBadge>)
    requires Ascending(badges)
    ensures current == LastReached(badges, currentStreak)
    ensures next == FirstUnreached(badges, currentStreak)
  {
    current := None;
    next := None;
    var i := 0;
    while i < |badges|
      invariant 0 <= i <= |badges|
      invariant current == LastReached(badges[..i], currentStreak)
      invariant next.None? && forall k :: 0 <= k < i ==> badges[k].threshold <= currentStreak
    {
      var prefix := badges[..i + 1];
      assert prefix[..i] == badges[..i];
      var badge := badges[i];
      if currentStreak >= badge.threshold {
        current := Some(badge);
      } else {
        next := Some(badge);
        assert badges[i..] == [badge] + badges[i + 1..];
        UnreachedFrom(badges, currentStreak, i);
        ReachedBefore(badges, currentStreak, i);
        return;
      }
      i := i + 1;
    }
    assert badges[..i] == badges;
    UnreachedFrom(badges, currentStreak, i);
  }

  /** When every badge before `i` is reached, the first unreached badge
      is found from `i` on. */
  lemma {:induction false} UnreachedFrom(badges: seq<StreakBadge>, streak: int, i: nat)
    requires i <= |badges|
    requires forall k :: 0 <= k < i ==> badges[k].threshold <= streak
    ensures FirstUnreached(badges, streak) == FirstUnreached(badges[i..], streak)
    decreases i
  {
    if i > 0 {
      assert badges[1..][i - 1..] == badges[i..];
      UnreachedFrom(badges[1..], streak, i - 1);
    } else {
      assert badges[0..] == badges;
    }
  }

  /** With ascending thresholds, once badge `i` is not reached no later
      badge is, so the last reached badge comes before `i`. */
  lemma {:induction false} ReachedBefore(badges: seq<StreakBadge>, streak: int, i: nat)
    requires Ascending(badges) && i < |badges| && badges[i].threshold > streak
    ensures LastReached(badges, streak) == LastReached(badges[..i], streak)
    decreases |badges| - i
  {
    if |badges| - 1 > i {
      var prefix := badges[..|badges| - 1];
      assert prefix[..i] == badges[..i];
      ReachedBefore(prefix, streak, i);
    } else {
      assert badges[..|badges| - 1] == badges[..i];
    }
  }

  /** The badges `_select_badges` picks: the highest threshold reached and
      the lowest not reached, with none at either end. */
  lemma {:induction false} BadgeChoice(streak: int)
    ensures var current := LastReached(BadgeThresholds, streak);
            var next := FirstUnreached(BadgeThresholds, streak);
            && (current.Some? <==> streak >= 1)
            && (next.Some? <==> streak < 30)
            && (current.Some? ==> current.value.threshold <= streak
                                  && forall b :: b in BadgeThresholds && b.threshold <= streak ==> b.threshold <= current.value.threshold)
            && (next.Some? ==> next.value.threshold > streak
                               && forall b :: b in BadgeThresholds && b.threshold > streak ==> next.value.threshold <= b.threshold)
  {
    BadgesAscending();
    assert BadgeThresholds[0].threshold == 1 && BadgeThresholds[4].threshold == 30;
  }

  // -------------------------------------------------------------- excerpt

  /** The most words an excerpt keeps. */
  const ExcerptWords: nat := 50

  /** The marker appended to a shortened excerpt, as the source file holds
      it: the UTF-8 bytes of a horizontal ellipsis read back as Windows-1252
      text, which gives the three characters U+00E2 U+20AC U+00A6. */
  const Ellipsis: string := "\U{E2}\U{20AC}\U{A6}"

  /** The marker evidently meant: the single character U+2026. */
  const IntendedEllipsis: string := "\U{2026}"

  /** The text an excerpt is cut from: the trimmed snippet text, or the
      trimmed thoughts when that is empty. */
  function ExcerptSource(textSnippet: Option<string>, thoughts: Option<string>): string {
    var text := Strip(textSnippet.GetOr(""));
    if text == "" then Strip(thoughts.GetOr("")) else text
  }

  /** `_render_snippet_excerpt`: the words of the source joined by single
      spaces, cut to the first 50 words and marked with an ellipsis when
      there are more. */
  function RenderSnippetExcerpt(textSnippet: Option<string>, thoughts: Option<string>): (r: string)
    ensures var words := Words(ExcerptSource(textSnippet, thoughts));
            && (|words| <= ExcerptWords ==> Words(r) == words && SingleSpaced(r))
            && (|words| > ExcerptWords ==> exists head :: r == head + Ellipsis && Words(head) == words[..ExcerptWords]
                                                         && SingleSpaced(head))
  {
    var text := ExcerptSource(textSnippet, thoughts);
    if text == "" then ""
    else
      var words := Words(text);
      assert forall w :: w in words ==> IsWord(w);
      if |words| <= ExcerptWords then
        WordsJoin(words);
        JoinSingleSpaced(words);
        Join(words, " ")
      else
        var head := words[..ExcerptWords];
        assert forall w :: w in head ==> w in words;
        WordsJoin(head);
        JoinSingleSpaced(head);
        Join(head, " ") + Ellipsis
  }

  /** The excerpt with the intended marker: the same words, and a shortened
      excerpt ends in the one character U+2026. */
  function RenderSnippetExcerptCorrected(textSnippet: Option<string>, thoughts: Option<string>): (r: string)
    ensures var words := Words(ExcerptSource(textSnippet, thoughts));
            && (|words| <= ExcerptWords ==> Words(r) == words && SingleSpaced(r))
            && (|words| > ExcerptWords ==> exists head :: r == head + IntendedEllipsis && Words(head) == words[..ExcerptWords]
                                                         && SingleSpaced(head))
  {
    var words := Words(ExcerptSource(textSnippet, thoughts));
    assert forall w :: w in words ==> IsWord(w);
    if |words| <= ExcerptWords then
      WordsJoin(words);
      JoinSingleSpaced(words);
      Join(words, " ")
    else
      var head := words[..ExcerptWords];
      assert forall w :: w in head ==> w in words;
      WordsJoin(head);
      JoinSingleSpaced(head);
      Join(head, " ") + IntendedEllipsis
  }

  /** For every text of more than fifty words the excerpt as written ends in
      the three characters U+00E2 U+20AC U+00A6 rather than an ellipsis, and the corrected
      excerpt is the same text with those three replaced by U+2026. */
  lemma {:induction false} ExcerptMarkerAsWritten(textSnippet: Option<string>, thoughts: Option<string>)
    requires |Words(ExcerptSource(textSnippet, thoughts))| > ExcerptWords
    ensures var r := RenderSnippetExcerpt(textSnippet, thoughts);
            && |r| >= 3 && r[|r| - 3..] == "\U{E2}\U{20AC}\U{A6}" && r[|r| - 1] != '\U{2026}'
            && RenderSnippetExcerptCorrected(textSnippet, thoughts) == r[..|r| - 3] + "\U{2026}"
  {
    var words := Words(ExcerptSource(textSnippet, thoughts));
    var head := Join(words[..ExcerptWords], " ");
    assert ExcerptSource(textSnippet, thoughts) != "";
    assert RenderSnippetExcerpt(textSnippet, thoughts) == head + Ellipsis;
    assert RenderSnippetExcerptCorrected(textSnippet, thoughts) == head + IntendedEllipsis;
    assert (head + Ellipsis)[..|head + Ellipsis| - 3] == head;
  }
}
