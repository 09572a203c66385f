/** The pure helpers of the application module: tag slugs, snippet
    visibility, error-message truncation, the one-time token stores, and
    the fan-out of comment notifications.
 */
module MainKernels {
  import opened Common
  import opened Text
  import opened Seqs
  import opened NotificationModels

  // ---------------------------------------------------------------- tags

  /** The number of leading characters outside `[a-z0-9]`. */
  function NonSlugRun(s: string): (n: nat)
    ensures n <= |s|
    ensures forall k :: 0 <= k < n ==> !IsLowerAlnum(s[k])
    ensures n == |s| || IsLowerAlnum(s[n])
  {
    if |s| > 0 && !IsLowerAlnum(s[0]) then 1 + NonSlugRun(s[1..]) else 0
  }

  /** The characters of `s` inside `[a-z0-9]`, in order. */
  function SlugChars(s: string): string {
    if |s| == 0 then "" else (if IsLowerAlnum(s[0]) then [s[0]] else "") + SlugChars(s[1..])
  }

  /** The number of dashes in `t`. */
  function DashCount(t: string): nat {
    if |t| == 0 then 0 else (if t[0] == '-' then 1 else 0) + DashCount(t[1..])
  }

  /** The number of maximal runs of characters outside `[a-z0-9]`, each
      counted at its last character. */
  function RunCount(s: string): nat {
    if |s| == 0 then 0
    else (if !IsLowerAlnum(s[0]) && (|s| == 1 || IsLowerAlnum(s[1])) then 1 else 0) + RunCount(s[1..])
  }

  lemma {:induction false} SlugCharsAppend(a: string, b: string)
    ensures SlugChars(a + b) == SlugChars(a) + SlugChars(b)
    decreases |a|
  {
    if |a| > 0 {
      assert (a + b)[0] == a[0] && (a + b)[1..] == a[1..] + b;
      SlugCharsAppend(a[1..], b);
    } else {
      assert a + b == b;
    }
  }

  lemma {:induction false} DashCountAppend(a: string, b: string)
    ensures DashCount(a + b) == DashCount(a) + DashCount(b)
    decreases |a|
  {
    if |a| > 0 {
      assert (a + b)[0] == a[0] && (a + b)[1..] == a[1..] + b;
      DashCountAppend(a[1..], b);
    } else {
      assert a + b == b;
    }
  }

  /** A string has no slug character exactly when none of its characters
      is in `[a-z0-9]`. */
  lemma {:induction false} SlugCharsEmpty(s: string)
    ensures SlugChars(s) == "" <==> forall k :: 0 <= k < |s| ==> !IsLowerAlnum(s[k])
    decreases |s|
  {
    if |s| > 0 {
      SlugCharsEmpty(s[1..]);
      assert forall k :: 1 <= k < |s| ==> s[k] == s[1..][k - 1];
    }
  }

  /** Leading characters outside `[a-z0-9]` contribute no slug character. */
  lemma {:induction false} SlugCharsSkip(s: string, n: nat)
    requires n <= |s| && forall k :: 0 <= k < n ==> !IsLowerAlnum(s[k])
    ensures SlugChars(s) == SlugChars(s[n..])
    decreases n
  {
    if n > 0 {
      assert s[1..][n - 1..] == s[n..];
      SlugCharsSkip(s[1..], n - 1);
    }
  }

  /** A string that starts outside `[a-z0-9]` starts with one whole run. */
  lemma {:induction false} RunCountSkip(s: string)
    requires |s| > 0 && !IsLowerAlnum(s[0])
    ensures RunCount(s) == 1 + RunCount(s[NonSlugRun(s)..])
    decreases |s|
  {
    if |s| > 1 && !IsLowerAlnum(s[1]) {
      RunCountSkip(s[1..]);
      assert s[1..][NonSlugRun(s[1..])..] == s[NonSlugRun(s)..];
    }
  }

  /** `re.sub("[^a-z0-9]+", "-", s)`: every maximal run of characters
      outside `[a-z0-9]` becomes a single dash. */
  function ReplaceRuns(s: string): (r: string)
    ensures forall k :: 0 <= k < |r| ==> IsLowerAlnum(r[k]) || r[k] == '-'
    ensures forall k :: 0 <= k < |r| - 1 && r[k] == '-' ==> r[k + 1] != '-'
    ensures |r| == 0 <==> |s| == 0
    ensures |s| > 0 ==> (r[0] == '-' <==> !IsLowerAlnum(s[0]))
    decreases |s|
  {
    if |s| == 0 then ""
    else if IsLowerAlnum(s[0]) then
      var rest := ReplaceRuns(s[1..]);
      [s[0]] + rest
    else
      var n := NonSlugRun(s);
      var rest := ReplaceRuns(s[n..]);
      assert n < |s| ==> IsLowerAlnum(s[n..][0]);
      "-" + rest
  }

  /** The dashed text keeps the letters and digits of `s` in order, and
      has one dash for each maximal run of other characters. */
  lemma {:induction false} ReplaceRunsContent(s: string)
    ensures SlugChars(ReplaceRuns(s)) == SlugChars(s)
    ensures DashCount(ReplaceRuns(s)) == RunCount(s)
    decreases |s|
  {
    if |s| > 0 {
      var r := ReplaceRuns(s);
      if IsLowerAlnum(s[0]) {
        ReplaceRunsContent(s[1..]);
        assert r[1..] == ReplaceRuns(s[1..]);
      } else {
        var n := NonSlugRun(s);
        ReplaceRunsContent(s[n..]);
        SlugCharsSkip(s, n);
        RunCountSkip(s);
        assert r[1..] == ReplaceRuns(s[n..]);
      }
    }
  }

  /** The dashed text ends in a dash exactly when `s` ends outside
      `[a-z0-9]`. */
  lemma {:induction false} ReplaceRunsLast(s: string)
    requires |s| > 0
    ensures var r := ReplaceRuns(s);
            r[|r| - 1] == '-' <==> !IsLowerAlnum(s[|s| - 1])
    decreases |s|
  {
    if IsLowerAlnum(s[0]) {
      if |s| > 1 {
        ReplaceRunsLast(s[1..]);
      }
    } else {
      var n := NonSlugRun(s);
      if n < |s| {
        ReplaceRunsLast(s[n..]);
      }
    }
  }

  /** What a tag slug looks like: lower-case letters and digits, single
      dashes between them, no dash at either end. */
  predicate IsSlug(t: string) {
    && |t| >= 1
    && (forall k :: 0 <= k < |t| ==> IsLowerAlnum(t[k]) || t[k] == '-')
    && (forall k :: 0 <= k < |t| - 1 && t[k] == '-' ==> t[k + 1] != '-')
    && t[0] != '-' && t[|t| - 1] != '-'
  }

  /** Whether the outer characters of `t` lie outside `[a-z0-9]`, as 0 or 1
      each: the runs that become the dashes `slugify_tag` strips. */
  function OuterRuns(t: string): nat {
    if |t| == 0 then 0
    else (if !IsLowerAlnum(t[0]) then 1 else 0) + (if !IsLowerAlnum(t[|t| - 1]) then 1 else 0)
  }

  /** `slugify_tag`: None stays None; otherwise the trimmed, lower-cased
      value with its runs of other characters dashed and its outer dashes
      removed, or None when nothing is left. The slug keeps exactly the
      letters and digits of the trimmed, lower-cased value, in order, and
      has one dash for each run of other characters between two of them. */
  function SlugifyTag(value: Option<string>): (r: Option<string>)
    ensures r.None? <==> value.None? || SlugChars(StripLower(value.value)) == ""
    ensures r.Some? ==> IsSlug(r.value)
    ensures r.Some? ==> SlugChars(r.value) == SlugChars(StripLower(value.value))
    ensures r.Some? ==> DashCount(r.value) + OuterRuns(StripLower(value.value)) == RunCount(StripLower(value.value))
  {
    if value.None? then None
    else
      var dashed := ReplaceRuns(StripLower(value.value));
      var slug := StripChar(dashed, '-');
      DashTrimmedIsSlug(dashed);
      DashTrimmedKeeps(StripLower(value.value));
      if slug == "" then None else Some(slug)
  }

  /** A string of dashes only has no slug character and as many dashes as
      characters. */
  lemma {:induction false} AllDashes(x: string)
    requires forall k :: 0 <= k < |x| ==> x[k] == '-'
    ensures SlugChars(x) == "" && DashCount(x) == |x|
    decreases |x|
  {
    if |x| > 0 {
      AllDashes(x[1..]);
    }
  }

  /** Trimming the outer dashes cuts only dashes: the trimmed text keeps
      every slug character, and the dashes cut are counted by the cut. */
  lemma {:induction false} DashTrimSplit(dashed: string)
    ensures var lead := LeadingCount(dashed, '-');
            var slug := StripChar(dashed, '-');
            && SlugChars(slug) == SlugChars(dashed)
            && DashCount(dashed) == lead + DashCount(slug) + (|dashed| - lead - |slug|)
  {
    var lead := LeadingCount(dashed, '-');
    var slug := StripChar(dashed, '-');
    var front := dashed[..lead];
    var back := dashed[lead + |slug|..];
    assert dashed == front + slug + back;
    AllDashes(front);
    assert forall k :: 0 <= k < |back| ==> back[k] == dashed[lead + |slug| + k];
    AllDashes(back);
    SlugCharsAppend(front + slug, back);
    SlugCharsAppend(front, slug);
    DashCountAppend(front + slug, back);
    DashCountAppend(front, slug);
  }

  /** Without doubled dashes, trimming a string that keeps something cuts
      one dash at an end exactly where that end is a dash. */
  lemma {:induction false} DashTrimOuter(dashed: string)
    requires forall k :: 0 <= k < |dashed| - 1 && dashed[k] == '-' ==> dashed[k + 1] != '-'
    requires StripChar(dashed, '-') != ""
    ensures var lead := LeadingCount(dashed, '-');
            var slug := StripChar(dashed, '-');
            && lead == (if dashed[0] == '-' then 1 else 0)
            && |dashed| - lead - |slug| == (if dashed[|dashed| - 1] == '-' then 1 else 0)
  {
    var lead := LeadingCount(dashed, '-');
    var slug := StripChar(dashed, '-');
    var n := |dashed|;
    assert n >= 2 && dashed[0] == '-' ==> dashed[1] != '-';
    assert n >= 2 && dashed[n - 2] == '-' ==> dashed[n - 1] != '-';
    assert dashed[lead] == slug[0] && dashed[lead + |slug| - 1] == slug[|slug| - 1];
  }

  /** Trimming the outer dashes after dashing the runs of `t` keeps every
      slug character, and leaves nothing exactly when `t` has none; what is
      left has the runs of `t` as dashes, less the outer ones. */
  lemma {:induction false} DashTrimmedKeeps(t: string)
    ensures var slug := StripChar(ReplaceRuns(t), '-');
            && SlugChars(slug) == SlugChars(t)
            && (slug == "" <==> SlugChars(t) == "")
            && (slug != "" ==> DashCount(slug) + OuterRuns(t) == RunCount(t))
  {
    var dashed := ReplaceRuns(t);
    var slug := StripChar(dashed, '-');
    ReplaceRunsContent(t);
    if |t| > 0 {
      ReplaceRunsLast(t);
    }
    DashTrimSplit(dashed);
    SlugCharsEmpty(slug);
    if slug != "" {
      DashTrimOuter(dashed);
    }
  }

  /** Trimming the outer dashes of a dashed string leaves a slug, or
      nothing. */
  lemma DashTrimmedIsSlug(dashed: string)
    requires forall k :: 0 <= k < |dashed| ==> IsLowerAlnum(dashed[k]) || dashed[k] == '-'
    requires forall k :: 0 <= k < |dashed| - 1 && dashed[k] == '-' ==> dashed[k + 1] != '-'
    ensures StripChar(dashed, '-') == "" || IsSlug(StripChar(dashed, '-'))
  {
    var slug := StripChar(dashed, '-');
    var lead := LeadingCount(dashed, '-');
    assert forall k :: 0 <= k < |slug| ==> slug[k] == dashed[lead + k];
  }

  /** Dashing runs leaves a string alone once it is made of slug
      characters with no doubled dash. */
  lemma {:induction false} ReplaceRunsFixes(t: string)
    requires forall k :: 0 <= k < |t| ==> IsLowerAlnum(t[k]) || t[k] == '-'
    requires forall k :: 0 <= k < |t| - 1 && t[k] == '-' ==> t[k + 1] != '-'
    ensures ReplaceRuns(t) == t
    decreases |t|
  {
    if |t| > 0 {
      var tail := t[1..];
      assert forall k :: 0 <= k < |tail| ==> tail[k] == t[k + 1];
      ReplaceRunsFixes(tail);
      if !IsLowerAlnum(t[0]) {
        assert NonSlugRun(t) == 1;
      }
    }
  }

  /** A slug is its own slug. */
  lemma {:induction false} SlugFixed(t: string)
    requires IsSlug(t)
    ensures SlugifyTag(Some(t)) == Some(t)
  {
    assert !IsSpace(t[0]) && !IsSpace(t[|t| - 1]);
    StripUnpadded(t);
    assert Lower(t) == t;
    ReplaceRunsFixes(t);
    assert LeadingCount(t, '-') == 0;
    assert RStripChar(t, '-') == t;
  }

  /** Slugifying is idempotent. */
  lemma {:induction false} SlugifyIdempotent(value: Option<string>)
    ensures SlugifyTag(value).Some? ==> SlugifyTag(Some(SlugifyTag(value).value)) == SlugifyTag(value)
  {
    if SlugifyTag(value).Some? {
      SlugFixed(SlugifyTag(value).value);
    }
  }

  /** What one raw tag contributes before duplicates are dropped: its
      trimmed name and slug, or nothing for None, a blank name or a name
      without a slug. */
  function TagOf(raw: Option<string>): (t: Option<(string, string)>)
    ensures t.Some? ==> raw.Some? && t.value.0 == Strip(raw.value) && t.value.0 != ""
                        && SlugifyTag(Some(t.value.0)) == Some(t.value.1) && IsSlug(t.value.1)
  {
    if raw.None? then None
    else
      var name := Strip(raw.value);
      if name == "" then None
      else
        var slug := SlugifyTag(Some(name));
        if slug.None? then None else Some((name, slug.value))
  }

  function Slugs(tags: seq<(string, string)>): (slugs: seq<string>)
    ensures |slugs| == |tags| && forall k :: 0 <= k < |tags| ==> slugs[k] == tags[k].1
  {
    seq(|tags|, k requires 0 <= k < |tags| => tags[k].1)
  }

  /** Each input's candidate tag, position by position. */
  function TagsOf(raws: seq<Option<string>>): (ts: seq<Option<(string, string)>>)
    ensures |ts| == |raws| && forall i :: 0 <= i < |raws| ==> ts[i] == TagOf(raws[i])
  {
    seq(|raws|, i requires 0 <= i < |raws| => TagOf(raws[i]))
  }

  /** The candidates in order, except one whose slug an earlier candidate
      already took. */
  function KeepFirstSlugs(ts: seq<Option<(string, string)>>): (tags: seq<(string, string)>)
    ensures NoDup(Slugs(tags))
    ensures forall k :: 0 <= k < |tags| ==> Some(tags[k]) in ts
    ensures forall i :: 0 <= i < |ts| && ts[i].Some? ==> ts[i].value.1 in Slugs(tags)
  {
    if |ts| == 0 then []
    else
      var prefix := ts[..|ts| - 1];
      var rest := KeepFirstSlugs(prefix);
      var t := ts[|ts| - 1];
      assert forall i :: 0 <= i < |prefix| ==> prefix[i] == ts[i];
      assert forall x :: x in prefix ==> x in ts;
      if t.None? || t.value.1 in Slugs(rest) then rest
      else
        var tags := rest + [t.value];
        assert Slugs(tags) == Slugs(rest) + [t.value.1];
        assert forall x :: x in Slugs(rest) ==> x in Slugs(tags);
        tags
  }

  /** `normalize_tag_inputs`, stated over the inputs: each input's
      trimmed name and slug, in order, dropping inputs without a tag and
      later inputs whose slug was already taken. */
  function TagInputs(raws: seq<Option<string>>): (tags: seq<(string, string)>)
    ensures NoDup(Slugs(tags))
  {
    KeepFirstSlugs(TagsOf(raws))
  }

  /** Every kept pair comes from some input, every input's slug is kept,
      and the kept names are trimmed and non-blank with their slug. */
  lemma {:induction false} TagInputsComplete(raws: seq<Option<string>>)
    ensures forall k :: 0 <= k < |TagInputs(raws)| ==> exists i :: 0 <= i < |raws| && TagOf(raws[i]) == Some(TagInputs(raws)[k])
    ensures forall i :: 0 <= i < |raws| && TagOf(raws[i]).Some? ==> TagOf(raws[i]).value.1 in Slugs(TagInputs(raws))
  {
    var ts := TagsOf(raws);
    forall i | 0 <= i < |raws| && TagOf(raws[i]).Some?
      ensures TagOf(raws[i]).value.1 in Slugs(TagInputs(raws))
    {
      assert ts[i] == TagOf(raws[i]);
    }
    forall k | 0 <= k < |TagInputs(raws)|
      ensures exists i :: 0 <= i < |raws| && TagOf(raws[i]) == Some(TagInputs(raws)[k])
    {
      var i :| 0 <= i < |ts| && ts[i] == Some(TagInputs(raws)[k]);
      assert TagOf(raws[i]) == ts[i];
    }
  }

  /** The first candidate with a given slug is the one kept. */
  lemma {:induction false} FirstTagWins(ts: seq<Option<(string, string)>>, i: nat)
    requires i < |ts| && ts[i].Some?
    requires forall j :: 0 <= j < i && ts[j].Some? ==> ts[j].value.1 != ts[i].value.1
    ensures ts[i].value in KeepFirstSlugs(ts)
    decreases |ts|
  {
    var prefix := ts[..|ts| - 1];
    assert forall j :: 0 <= j < |prefix| ==> prefix[j] == ts[j];
    if i < |ts| - 1 {
      FirstTagWins(prefix, i);
    }
  }

  /** `normalize_tag_inputs`, as the source loops: a set of slugs seen so
      far and the list of kept (name, slug) pairs. */
  method NormalizeTagInputs(rawTags: Option<seq<Option<string>>>) returns (normalized: seq<(string, string)>)
    ensures rawTags.None? ==> normalized == []
    ensures rawTags.Some? ==> normalized == TagInputs(rawTags.value)
  {
    normalized := [];
    if rawTags.None? || rawTags.value == [] {
      return;
    }
    var raws := rawTags.value;
    var ts := TagsOf(raws);
    var seen: set<string> := {};
    var i := 0;
    while i < |raws|
      invariant 0 <= i <= |raws|
      invariant normalized == KeepFirstSlugs(ts[..i])
      invariant forall x :: x in seen <==> x in Slugs(normalized)
    {
      KeepFirstStep(ts, i);
      var tag := TagOf(raws[i]);
      if tag.Some? && tag.value.1 !in seen {
        seen := seen + {tag.value.1};
        SlugsSnoc(normalized, tag.value);
        normalized := normalized + [tag.value];
      }
      i := i + 1;
    }
    assert ts[..i] == ts;
  }

  /** One more candidate is kept exactly when it has a tag whose slug is
      not taken yet. */
  lemma {:induction false} KeepFirstStep(ts: seq<Option<(string, string)>>, i: nat)
    requires i < |ts|
    ensures var rest := KeepFirstSlugs(ts[..i]);
            KeepFirstSlugs(ts[..i + 1])
              == if ts[i].None? || ts[i].value.1 in Slugs(rest) then rest else rest + [ts[i].value]
  {
    var prefix := ts[..i + 1];
    assert prefix[..|prefix| - 1] == ts[..i];
    assert prefix[|prefix| - 1] == ts[i];
  }

  /** Appending a pair appends its slug. */
  lemma SlugsSnoc(tags: seq<(string, string)>, t: (string, string))
    ensures Slugs(tags + [t]) == Slugs(tags) + [t.1]
  {
  }

  // ---------------------------------------------------------- visibility

  const SnippetVisibilityValues: set<string> := {"public", "private"}

  /** `normalize_snippet_visibility`: a missing or empty value means
      public; otherwise the trimmed, lower-cased value must be public or
      private, else 400. */
  function NormalizeSnippetVisibility(value: Option<string>): (r: Result<string>)
    ensures !Truthy(value) ==> r == Ok("public")
    ensures Truthy(value) ==> (r.Ok? <==> StripLower(value.value) in SnippetVisibilityValues)
    ensures r.Ok? ==> r.value in SnippetVisibilityValues
    ensures r.Ok? && Truthy(value) ==> r.value == StripLower(value.value)
    ensures r.Err? ==> r.error == Http(400)
  {
    var normalized := if Truthy(value) then StripLower(value.value) else StripLower("public");
    VisibilityValuesNormalized();
    if normalized !in SnippetVisibilityValues then Err(Http(400)) else Ok(normalized)
  }

  /** A normalized visibility normalizes to itself. */
  lemma {:induction false} SnippetVisibilityIdempotent(value: Option<string>)
    requires NormalizeSnippetVisibility(value).Ok?
    ensures NormalizeSnippetVisibility(Some(NormalizeSnippetVisibility(value).value)) == NormalizeSnippetVisibility(value)
  {
    VisibilityValuesNormalized();
  }

  /** Both visibility values are already stripped and lower-case. */
  lemma VisibilityValuesNormalized()
    ensures StripLower("public") == "public" && StripLower("private") == "private"
  {
    StripLowerWord("public");
    StripLowerWord("private");
  }

  // ------------------------------------------------------ error messages

  /** The default of the configured maximum error length. */
  const DefaultMaxErrorLength: int := 1024

  /** Python's `s[:n]`: a negative `n` counts from the end. */
  function PyPrefix(s: string, n: int): (r: string)
    ensures r <= s
    ensures n >= 0 ==> |r| == Min(n, |s|)
    ensures n < 0 ==> |r| == Max(|s| + n, 0)
  {
    if n >= 0 then s[..Min(n, |s|)] else s[..Max(|s| + n, 0)]
  }

  function Min(a: int, b: int): int { if a <= b then a else b }
  function Max(a: int, b: int): int { if a >= b then a else b }

  /** `_truncate_error_message`: a message no longer than the maximum is
      kept; a longer one is cut to leave room for "..." and marked with it. */
  function TruncateErrorMessage(message: string, maxLength: int): (r: string)
    ensures |message| <= maxLength ==> r == message
    ensures |message| > maxLength ==> |r| >= 3 && r[|r| - 3..] == "..." && r[..|r| - 3] <= message
    ensures |message| > maxLength && maxLength >= 3 ==> |r| == maxLength
  {
    if |message| > maxLength then PyPrefix(message, maxLength - 3) + "..." else message
  }

  /** With a maximum of at least three, truncating twice is truncating
      once, and the result always fits. */
  lemma {:induction false} TruncateIdempotent(message: string, maxLength: int)
    requires maxLength >= 3
    ensures |TruncateErrorMessage(message, maxLength)| <= maxLength
    ensures TruncateErrorMessage(TruncateErrorMessage(message, maxLength), maxLength) == TruncateErrorMessage(message, maxLength)
  {
  }

  // --------------------------------------------------------- token stores

  /** One issued token; the expiry is optional in the stored record. */
  datatype TokenRecord = TokenRecord(token: string, email: Option<string>, expiresAt: Option<int>)

  const DefaultOnboardingTtlMinutes: int := 48 * 60
  const DefaultPasswordResetTtlMinutes: int := 60

  predicate Expired(record: TokenRecord, now: int) {
    record.expiresAt.Some? && record.expiresAt.value <= now
  }

  /** `_prune_token_store`: drops exactly the records whose expiry is at or
      before `now`. */
  function PruneTokenStore(store: map<int, TokenRecord>, now: int): (r: map<int, TokenRecord>)
    ensures forall k :: k in r <==> k in store && !Expired(store[k], now)
    ensures forall k :: k in r ==> r[k] == store[k]
  {
    map k | k in store && !Expired(store[k], now) :: store[k]
  }

  /** Pruning twice at the same time is pruning once, and pruning at a
      later time removes at least as much. */
  lemma {:induction false} PruneMonotone(store: map<int, TokenRecord>, now: int, later: int)
    requires now <= later
    ensures PruneTokenStore(PruneTokenStore(store, now), now) == PruneTokenStore(store, now)
    ensures PruneTokenStore(store, later).Keys <= PruneTokenStore(store, now).Keys
  {
  }

  /** `_issue_token`: stores a fresh token for the user, replacing any
      earlier one, expiring `ttl` seconds after `now`. The token is random
      in the source and a parameter here. */
  function IssueToken(store: map<int, TokenRecord>, userId: int, email: Option<string>, ttl: int, now: int, token: string)
    : (r: (map<int, TokenRecord>, (string, int)))
    ensures r.1 == (token, now + ttl)
    ensures r.0.Keys == store.Keys + {userId}
    ensures r.0[userId] == TokenRecord(token, email, Some(now + ttl))
    ensures forall k :: k in store && k != userId ==> r.0[k] == store[k]
  {
    (store[userId := TokenRecord(token, email, Some(now + ttl))], (token, now + ttl))
  }

  /** `issue_onboarding_token` and `issue_password_reset_token`: prune,
      then issue. */
  function IssueFromStore(store: map<int, TokenRecord>, userId: int, email: Option<string>, ttlMinutes: int, now: int, token: string)
    : (r: (map<int, TokenRecord>, (string, int)))
    ensures r.0 == IssueToken(PruneTokenStore(store, now), userId, email, ttlMinutes * 60, now, token).0
    ensures r.1 == (token, now + ttlMinutes * 60)
  {
    IssueToken(PruneTokenStore(store, now), userId, email, ttlMinutes * 60, now, token)
  }

  /** A user holds one token at a time: a second issue replaces the first,
      and a token issued with a positive lifetime survives pruning until it
      expires. */
  lemma {:induction false} IssueReplacesAndSurvives(store: map<int, TokenRecord>, userId: int, e1: Option<string>, e2: Option<string>,
                                 ttl: int, now: int, t1: string, t2: string, at: int)
    requires now + ttl > at
    ensures var once := IssueToken(store, userId, e1, ttl, now, t1).0;
            IssueToken(once, userId, e2, ttl, now, t2).0 == IssueToken(store, userId, e2, ttl, now, t2).0
    ensures userId in PruneTokenStore(IssueToken(store, userId, e1, ttl, now, t1).0, at)
    ensures userId !in PruneTokenStore(IssueToken(store, userId, e1, ttl, now, t1).0, now + ttl)
  {
  }

  // ----------------------------------------------------------- mentions

  /** The number of leading `[A-Za-z0-9_]` characters, at most `cap`. */
  function WordRun(s: string, cap: nat): (n: nat)
    ensures n <= |s| && n <= cap
    ensures forall k :: 0 <= k < n ==> IsWordChar(s[k])
    ensures n == |s| || n == cap || !IsWordChar(s[n])
  {
    if |s| == 0 || cap == 0 || !IsWordChar(s[0]) then 0 else 1 + WordRun(s[1..], cap - 1)
  }

  /** The longest a mention handle may be. */
  const MaxHandleLength: nat := 80

  /** The handle mentioned at position `i`: an '@' not preceded by a word
      character, then the longest run (up to 80) of word characters. */
  function MentionAt(text: string, i: nat): (h: Option<string>)
    requires i < |text|
    ensures h.Some? ==> 1 <= |h.value| <= MaxHandleLength && forall k :: 0 <= k < |h.value| ==> IsWordChar(h.value[k])
  {
    if text[i] != '@' || (i > 0 && IsWordChar(text[i - 1])) then None
    else
      var n := WordRun(text[i + 1..], MaxHandleLength);
      if n == 0 then None else Some(text[i + 1..i + 1 + n])
  }

  /** The handles matched in the first `n` characters, in order. Matches
      never overlap: a match ends in word characters, and the next '@'
      follows it. */
  function HandlesUpTo(text: string, n: nat): (hs: seq<string>)
    requires n <= |text|
  {
    if n == 0 then []
    else
      var rest := HandlesUpTo(text, n - 1);
      var h := MentionAt(text, n - 1);
      if h.Some? then rest + [h.value] else rest
  }

  function Handles(text: string): seq<string> {
    HandlesUpTo(text, |text|)
  }

  /** Every handle, keyed by its lower-case form, spelled as it first
      appears. */
  function FirstSpellings(hs: seq<string>): map<string, string> {
    if |hs| == 0 then map[]
    else
      var m := FirstSpellings(hs[..|hs| - 1]);
      var last := hs[|hs| - 1];
      if Lower(last) in m then m else m[Lower(last) := last]
  }

  /** Every key is the lower-cased form of the handle it maps to, which is
      one of the handles, and every handle's lower-cased form is a key. */
  lemma {:induction false} FirstSpellingsSound(hs: seq<string>)
    ensures var m := FirstSpellings(hs);
            (forall key :: key in m ==> Lower(m[key]) == key && m[key] in hs)
            && forall k :: 0 <= k < |hs| ==> Lower(hs[k]) in m
  {
    if |hs| > 0 {
      var prefix := hs[..|hs| - 1];
      FirstSpellingsSound(prefix);
      assert forall k :: 0 <= k < |prefix| ==> prefix[k] == hs[k];
      assert forall x :: x in prefix ==> x in hs;
    }
  }

  /** `_extract_mentions`, stated over the matches: one spelling per
      handle up to case, the first one seen. */
  function ExtractedMentions(text: string): (r: set<string>)
    ensures forall x :: x in r ==> x in Handles(text)
    ensures forall x, y :: x in r && y in r && Lower(x) == Lower(y) ==> x == y
    ensures forall k :: 0 <= k < |Handles(text)| ==> exists x :: x in r && Lower(x) == Lower(Handles(text)[k])
  {
    FirstSpellingsSound(Handles(text));
    var m := FirstSpellings(Handles(text));
    assert forall k :: 0 <= k < |Handles(text)| ==> m[Lower(Handles(text)[k])] in m.Values;
    m.Values
  }

  /** The spelling kept for a handle is its first spelling up to case. */
  lemma {:induction false} FirstSpellingIsFirst(hs: seq<string>, i: nat)
    requires i < |hs|
    requires forall j :: 0 <= j < i ==> Lower(hs[j]) != Lower(hs[i])
    ensures Lower(hs[i]) in FirstSpellings(hs) && FirstSpellings(hs)[Lower(hs[i])] == hs[i]
    decreases |hs|
  {
    var prefix := hs[..|hs| - 1];
    assert forall k :: 0 <= k < |prefix| ==> prefix[k] == hs[k];
    if i < |hs| - 1 {
      FirstSpellingIsFirst(prefix, i);
    } else {
      FirstSpellingsSound(prefix);
    }
  }

  /** `_extract_mentions`, as the source loops: scanning the text and
      recording each new lower-cased handle with its spelling. */
  method ExtractMentions(text: string) returns (mentions: set<string>)
    ensures mentions == ExtractedMentions(text)
  {
    var seen: map<string, string> := map[];
    var i := 0;
    while i < |text|
      invariant 0 <= i <= |text|
      invariant seen == FirstSpellings(HandlesUpTo(text, i))
    {
      ScanStep(text, i);
      seen := Record(seen, MentionAt(text, i));
      i := i + 1;
    }
    ScanDone(text);
    mentions := seen.Values;
  }

  /** After the whole text the recorded spellings are the extracted
      mentions. */
  lemma ScanDone(text: string)
    ensures FirstSpellings(HandlesUpTo(text, |text|)).Values == ExtractedMentions(text)
  {
  }

  /** The loop body: a match whose lower-cased handle is new is recorded
      with its spelling. */
  function Record(seen: map<string, string>, h: Option<string>): map<string, string> {
    if h.Some? && Lower(h.value) !in seen then seen[Lower(h.value) := h.value] else seen
  }

  /** One more character of text records its match, if any, unless the
      handle was already seen. */
  lemma {:induction false} ScanStep(text: string, i: nat)
    requires i < |text|
    ensures FirstSpellings(HandlesUpTo(text, i + 1)) == Record(FirstSpellings(HandlesUpTo(text, i)), MentionAt(text, i))
  {
    var h := MentionAt(text, i);
    if h.Some? {
      var before := HandlesUpTo(text, i);
      var after := before + [h.value];
      assert after[..|after| - 1] == before;
    }
  }

  // ------------------------------------------------ comment notifications

  /** The users mentioned, other than the actor, each once in increasing
      order. */
  function MentionIds(mentionUserIds: seq<int>, actorId: int): (ids: seq<int>)
    ensures StrictlyIncreasing(ids)
    ensures forall u :: u in ids <==> u in mentionUserIds && u != actorId
  {
    SortedSet(Exclude(mentionUserIds, actorId))
  }

  /** The reply notifications: the snippet owner, then the parent
      comment's author, each when present, non-zero and not the actor. */
  function ReplyEvents(actorId: int, snippetOwnerId: Option<int>, snippetId: int, commentId: int,
                       parentCommentUserId: Option<int>): (events: seq<NotificationCreate>)
    ensures var notifyOwner := TruthyInt(snippetOwnerId) && snippetOwnerId.value != actorId;
            var notifyParent := TruthyInt(parentCommentUserId) && parentCommentUserId.value != actorId;
            && |events| == (if notifyOwner then 1 else 0) + (if notifyParent then 1 else 0)
            && (notifyOwner ==> events[0] == Event(snippetOwnerId.value, ReplyToSnippet, actorId, snippetId, commentId))
            && (notifyParent ==> events[|events| - 1] == Event(parentCommentUserId.value, ReplyToComment, actorId, snippetId, commentId))
    ensures forall k :: 0 <= k < |events| ==> events[k].kind != Mention && events[k].userId != actorId
    ensures forall k :: 0 <= k < |events| ==>
              (events[k].actorUserId == Some(actorId) && events[k].snippetId == Some(snippetId) && events[k].commentId == Some(commentId))
  {
    var ownerEvents :=
      if TruthyInt(snippetOwnerId) && snippetOwnerId.value != actorId
      then [Event(snippetOwnerId.value, ReplyToSnippet, actorId, snippetId, commentId)] else [];
    var parentEvents :=
      if TruthyInt(parentCommentUserId) && parentCommentUserId.value != actorId
      then [Event(parentCommentUserId.value, ReplyToComment, actorId, snippetId, commentId)] else [];
    ownerEvents + parentEvents
  }

  /** `_build_comment_notifications`: the reply notifications, then one
      mention per mentioned user in increasing id order. Nobody is
      notified of their own comment. */
  function BuildCommentNotifications(actorId: int, snippetOwnerId: Option<int>, snippetId: int, commentId: int,
                                     parentCommentUserId: Option<int>, mentionUserIds: seq<int>)
    : (events: seq<NotificationCreate>)
    ensures var replies := ReplyEvents(actorId, snippetOwnerId, snippetId, commentId, parentCommentUserId);
            var ids := MentionIds(mentionUserIds, actorId);
            && |events| == |replies| + |ids|
            && events[..|replies|] == replies
            && forall k :: 0 <= k < |ids| ==> events[|replies| + k].kind == Mention && events[|replies| + k].userId == ids[k]
  {
    var replies := ReplyEvents(actorId, snippetOwnerId, snippetId, commentId, parentCommentUserId);
    var mentions := MentionEvents(MentionIds(mentionUserIds, actorId), actorId, snippetId, commentId);
    assert (replies + mentions)[..|replies|] == replies;
    replies + mentions
  }

  function Event(userId: int, kind: NotificationType, actorId: int, snippetId: int, commentId: int): (e: NotificationCreate)
    ensures e.userId == userId && e.kind == kind && e.actorUserId == Some(actorId)
            && e.snippetId == Some(snippetId) && e.commentId == Some(commentId)
  {
    NotificationCreate(userId, kind, Some(actorId), Some(snippetId), Some(commentId), None, None)
  }

  /** The ids of `s` other than `x`, in order. */
  function Exclude(s: seq<int>, x: int): (r: seq<int>)
    ensures forall y :: y in r <==> y in s && y != x
  {
    if |s| == 0 then []
    else
      var rest := Exclude(s[..|s| - 1], x);
      assert forall y :: y in s[..|s| - 1] ==> y in s;
      assert s == s[..|s| - 1] + [s[|s| - 1]];
      if s[|s| - 1] == x then rest else rest + [s[|s| - 1]]
  }

  /** One mention notification per id, in the given order. */
  function MentionEvents(ids: seq<int>, actorId: int, snippetId: int, commentId: int): (events: seq<NotificationCreate>)
    ensures |events| == |ids|
    ensures forall k :: 0 <= k < |ids| ==> events[k] == Event(ids[k], Mention, actorId, snippetId, commentId)
  {
    seq(|ids|, k requires 0 <= k < |ids| => Event(ids[k], Mention, actorId, snippetId, commentId))
  }

  /** No notification goes to the actor, and every one names the actor,
      the snippet and the comment. */
  lemma {:induction false} CommentNotificationsSkipActor(actorId: int, snippetOwnerId: Option<int>, snippetId: int, commentId: int,
                                      parentCommentUserId: Option<int>, mentionUserIds: seq<int>)
    ensures var events := BuildCommentNotifications(actorId, snippetOwnerId, snippetId, commentId, parentCommentUserId, mentionUserIds);
            forall k :: 0 <= k < |events| ==>
              (events[k].userId != actorId && events[k].actorUserId == Some(actorId)
               && events[k].snippetId == Some(snippetId) && events[k].commentId == Some(commentId))
  {
    var replies := ReplyEvents(actorId, snippetOwnerId, snippetId, commentId, parentCommentUserId);
    var ids := MentionIds(mentionUserIds, actorId);
    var mentions := MentionEvents(ids, actorId, snippetId, commentId);
    var events := replies + mentions;
    assert events == BuildCommentNotifications(actorId, snippetOwnerId, snippetId, commentId, parentCommentUserId, mentionUserIds);
    forall k | 0 <= k < |events|
      ensures events[k].userId != actorId && events[k].actorUserId == Some(actorId)
              && events[k].snippetId == Some(snippetId) && events[k].commentId == Some(commentId)
    {
      if k < |replies| {
        assert events[k] == replies[k];
      } else {
        assert events[k] == mentions[k - |replies|];
        assert ids[k - |replies|] in ids;
      }
    }
  }

  /** Each user other than the actor gets a mention notification exactly
      when they were mentioned. */
  lemma {:induction false} CommentNotificationsMentions(actorId: int, snippetOwnerId: Option<int>, snippetId: int, commentId: int,
                                     parentCommentUserId: Option<int>, mentionUserIds: seq<int>, u: int)
    ensures var events := BuildCommentNotifications(actorId, snippetOwnerId, snippetId, commentId, parentCommentUserId, mentionUserIds);
            u in mentionUserIds && u != actorId
            <==> exists k :: 0 <= k < |events| && events[k].kind == Mention && events[k].userId == u
  {
    var events := BuildCommentNotifications(actorId, snippetOwnerId, snippetId, commentId, parentCommentUserId, mentionUserIds);
    if u in mentionUserIds && u != actorId {
      MentionedUserNotified(actorId, snippetOwnerId, snippetId, commentId, parentCommentUserId, mentionUserIds, u);
    }
    forall k | 0 <= k < |events| && events[k].kind == Mention && events[k].userId == u
      ensures u in mentionUserIds && u != actorId
    {
      NotifiedUserMentioned(actorId, snippetOwnerId, snippetId, commentId, parentCommentUserId, mentionUserIds, k);
    }
  }

  /** A mentioned user other than the actor gets a mention notification. */
  lemma {:induction false} MentionedUserNotified(actorId: int, snippetOwnerId: Option<int>, snippetId: int, commentId: int,
                                     parentCommentUserId: Option<int>, mentionUserIds: seq<int>, u: int)
    requires u in mentionUserIds && u != actorId
    ensures var events := BuildCommentNotifications(actorId, snippetOwnerId, snippetId, commentId, parentCommentUserId, mentionUserIds);
            exists k :: 0 <= k < |events| && events[k].kind == Mention && events[k].userId == u
  {
    var events := BuildCommentNotifications(actorId, snippetOwnerId, snippetId, commentId, parentCommentUserId, mentionUserIds);
    var replies := ReplyEvents(actorId, snippetOwnerId, snippetId, commentId, parentCommentUserId);
    var ids := MentionIds(mentionUserIds, actorId);
    var j :| 0 <= j < |ids| && ids[j] == u;
    assert events[|replies| + j].kind == Mention && events[|replies| + j].userId == u;
  }

  /** A mention notification goes to a mentioned user other than the actor. */
  lemma {:induction false} NotifiedUserMentioned(actorId: int, snippetOwnerId: Option<int>, snippetId: int, commentId: int,
                                     parentCommentUserId: Option<int>, mentionUserIds: seq<int>, k: nat)
    ensures var events := BuildCommentNotifications(actorId, snippetOwnerId, snippetId, commentId, parentCommentUserId, mentionUserIds);
            k < |events| && events[k].kind == Mention ==>
              events[k].userId in mentionUserIds && events[k].userId != actorId
  {
    var events := BuildCommentNotifications(actorId, snippetOwnerId, snippetId, commentId, parentCommentUserId, mentionUserIds);
    if k < |events| && events[k].kind == Mention {
      var ids := MentionIds(mentionUserIds, actorId);
      MentionGoesToListed(ReplyEvents(actorId, snippetOwnerId, snippetId, commentId, parentCommentUserId),
                          ids, actorId, snippetId, commentId, k);
    }
  }

  /** In replies followed by mention events, a mention goes to a listed id. */
  lemma {:induction false} MentionGoesToListed(replies: seq<NotificationCreate>, ids: seq<int>, actorId: int,
                                             snippetId: int, commentId: int, k: nat)
    requires forall i :: 0 <= i < |replies| ==> replies[i].kind != Mention
    requires var events := replies + MentionEvents(ids, actorId, snippetId, commentId);
             k < |events| && events[k].kind == Mention
    ensures (replies + MentionEvents(ids, actorId, snippetId, commentId))[k].userId in ids
  {
    var j := k - |replies|;
    assert (replies + MentionEvents(ids, actorId, snippetId, commentId))[k] == MentionEvents(ids, actorId, snippetId, commentId)[j];
    assert ids[j] in ids;
  }
}
