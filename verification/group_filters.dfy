/** The `visibility` query parameter of the group listing: parsing it into
    a list of privacy states, and narrowing that list to what the viewer
    may see.
 */
module GroupFilters {
  import opened Common
  import opened Text
  import opened Seqs
  import opened GroupService

  /** One value of a repeated query parameter: a string, or anything else
      a caller may pass in its place. */
  datatype RawValue = Text(s: string) | NotText

  /** The parameter: absent, one string, or a sequence of values. */
  datatype VisibilityParam = NoParam | Single(s: string) | Values(values: seq<RawValue>)

  /** A single string is read as a one-element list. */
  function RawValues(value: VisibilityParam): seq<RawValue> {
    match value
    case NoParam => []
    case Single(s) => [Text(s)]
    case Values(vs) => vs
  }

  /** Every privacy state and every group role is already normalized. */
  lemma {:induction false} KnownValuesNormalized(x: string)
    requires x in GroupPrivacyValues || x in GroupRoleValues
    ensures StripLower(x) == x
  {
    StripLowerWord(x);
  }

  /** Every fragment cleaned, position by position. */
  function CleanAll(fragments: seq<string>): (cleaned: seq<string>)
    ensures |cleaned| == |fragments|
  {
    if |fragments| == 0 then []
    else CleanAll(fragments[..|fragments| - 1]) + [StripLower(fragments[|fragments| - 1])]
  }

  /** `CleanAll` cleans each fragment in place. */
  lemma {:induction false} CleanAllPointwise(fragments: seq<string>)
    ensures forall k :: 0 <= k < |fragments| ==> CleanAll(fragments)[k] == StripLower(fragments[k])
  {
    if |fragments| > 0 {
      var prefix := fragments[..|fragments| - 1];
      CleanAllPointwise(prefix);
      assert forall k :: 0 <= k < |prefix| ==> prefix[k] == fragments[k];
    }
  }

  /** The cleaned fragments that are not empty, in order. */
  function FragmentOptions(cleaned: seq<string>): (options: seq<string>)
    ensures forall o :: o in options ==> o != ""
  {
    if |cleaned| == 0 then []
    else
      var rest := FragmentOptions(cleaned[..|cleaned| - 1]);
      var option := cleaned[|cleaned| - 1];
      if option == "" then rest else rest + [option]
  }

  /** The options one string value spells. */
  function ValueOptions(s: string): seq<string> {
    FragmentOptions(CleanAll(Split(s, ',')))
  }

  /** Every option the values spell, in order of appearance, duplicates
      included. */
  function Options(values: seq<RawValue>): (options: seq<string>)
    ensures forall o :: o in options ==> o != ""
  {
    if |values| == 0 then []
    else
      var rest := Options(values[..|values| - 1]);
      match values[|values| - 1]
      case NotText => rest
      case Text(s) => rest + ValueOptions(s)
  }

  /** A cleaned fragment the filter accepts: empty, and so skipped, or a
      privacy state. */
  predicate OptionAcceptable(option: string) {
    option == "" || option in GroupPrivacyValues
  }

  /** Every non-empty cleaned fragment names a privacy state. */
  predicate FragmentsAcceptable(cleaned: seq<string>) {
    forall k :: 0 <= k < |cleaned| ==> OptionAcceptable(cleaned[k])
  }

  /** A string value whose fragments are all acceptable. */
  predicate ValueAcceptable(s: string) {
    FragmentsAcceptable(CleanAll(Split(s, ',')))
  }

  /** Every value is a string and its fragments are acceptable. */
  predicate Acceptable(values: seq<RawValue>) {
    forall i :: 0 <= i < |values| ==> values[i].Text? && ValueAcceptable(values[i].s)
  }

  /** What `normalize_visibility_filter` answers, stated directly: no
      parameter means public; a non-string or an unknown state is a 400;
      otherwise the distinct options in order of first appearance, or
      public when there are none. */
  function NormalizedVisibility(value: VisibilityParam): (r: Result<seq<string>>)
    ensures r.Err? ==> r.error == Http(400)
    ensures r.Ok? ==> |r.value| >= 1 && NoDup(r.value)
    ensures r.Ok? ==> forall x :: x in r.value ==> x in GroupPrivacyValues
  {
    if value.NoParam? then Ok(["public"])
    else if !Acceptable(RawValues(value)) then Err(Http(400))
    else
      var options := Options(RawValues(value));
      AcceptableOptions(RawValues(value));
      if options == [] then Ok(["public"]) else Ok(Dedup(options))
  }

  /** Under `Acceptable`, every option is a privacy state. */
  lemma {:induction false} AcceptableOptions(values: seq<RawValue>)
    requires Acceptable(values)
    ensures forall o :: o in Options(values) ==> o in GroupPrivacyValues
  {
    if |values| > 0 {
      var prefix := values[..|values| - 1];
      assert forall i :: 0 <= i < |prefix| ==> prefix[i] == values[i];
      AcceptableOptions(prefix);
      var last := values[|values| - 1];
      if last.Text? {
        FragmentOptionsValid(CleanAll(Split(last.s, ',')));
      }
    }
  }

  /** Under `FragmentsAcceptable`, every fragment option is a privacy
      state. */
  lemma {:induction false} FragmentOptionsValid(cleaned: seq<string>)
    requires FragmentsAcceptable(cleaned)
    ensures forall o :: o in FragmentOptions(cleaned) ==> o in GroupPrivacyValues
  {
    if |cleaned| > 0 {
      var prefix := cleaned[..|cleaned| - 1];
      assert forall k :: 0 <= k < |prefix| ==> prefix[k] == cleaned[k];
      FragmentOptionsValid(prefix);
    }
  }

  /** One more fragment extends the options by itself when it is not
      empty, and keeps the fragments acceptable when it is acceptable. */
  lemma {:induction false} FragmentSnoc(cleaned: seq<string>, j: nat)
    requires j < |cleaned|
    ensures FragmentOptions(cleaned[..j + 1])
            == FragmentOptions(cleaned[..j]) + (if cleaned[j] == "" then [] else [cleaned[j]])
    ensures FragmentsAcceptable(cleaned[..j]) && OptionAcceptable(cleaned[j])
            ==> FragmentsAcceptable(cleaned[..j + 1])
  {
    var p := cleaned[..j + 1];
    assert p[..|p| - 1] == cleaned[..j];
    assert p[|p| - 1] == cleaned[j];
  }

  /** One loop step: appending a new option, and only a new one, keeps
      the normalized options those of the fragments seen so far. */
  lemma {:induction false} AddStep(seen: seq<string>, cleaned: seq<string>, j: nat, current: seq<string>)
    requires j < |cleaned|
    requires current == Dedup(seen + FragmentOptions(cleaned[..j]))
    ensures (if cleaned[j] == "" || cleaned[j] in current then current else current + [cleaned[j]])
            == Dedup(seen + FragmentOptions(cleaned[..j + 1]))
  {
    FragmentSnoc(cleaned, j);
    var x := cleaned[j];
    var prior := FragmentOptions(cleaned[..j]);
    if x != "" {
      assert FragmentOptions(cleaned[..j + 1]) == prior + [x];
      SnocAssoc(seen, prior, x);
      DedupSnoc(seen + prior, x);
    } else {
      assert prior + [] == prior;
    }
  }

  /** Appending one element commutes with concatenation. */
  lemma {:induction false} SnocAssoc(a: seq<string>, b: seq<string>, x: string)
    ensures a + (b + [x]) == (a + b) + [x]
  {
  }

  /** The inner loop of `normalize_visibility_filter`: appends each new
      option of one value's cleaned fragments to the options normalized so
      far, and fails (None) at the first unknown state. */
  method AddFragments(seen: seq<string>, normalized: seq<string>, cleaned: seq<string>)
    returns (r: Option<seq<string>>)
    requires normalized == Dedup(seen)
    ensures r.Some? <==> FragmentsAcceptable(cleaned)
    ensures r.Some? ==> r.value == Dedup(seen + FragmentOptions(cleaned))
  {
    var current := normalized;
    var j := 0;
    assert seen + FragmentOptions(cleaned[..0]) == seen;
    while j < |cleaned|
      invariant 0 <= j <= |cleaned|
      invariant FragmentsAcceptable(cleaned[..j])
      invariant current == Dedup(seen + FragmentOptions(cleaned[..j]))
    {
      var option := cleaned[j];
      if option != "" && option !in GroupPrivacyValues {
        assert !OptionAcceptable(cleaned[j]);
        return None;
      }
      FragmentSnoc(cleaned, j);
      AddStep(seen, cleaned, j, current);
      if option != "" && option !in current {
        current := current + [option];
      }
      j := j + 1;
    }
    assert cleaned[..j] == cleaned;
    return Some(current);
  }

  /** One more string value extends the options by its fragments. */
  lemma {:induction false} OptionsSnoc(values: seq<RawValue>, i: nat)
    requires i < |values| && values[i].Text?
    ensures Options(values[..i + 1]) == Options(values[..i]) + ValueOptions(values[i].s)
  {
    var p := values[..i + 1];
    assert p[..|p| - 1] == values[..i];
    assert p[|p| - 1] == values[i];
  }

  /** One more string value with acceptable fragments keeps the values
      acceptable. */
  lemma {:induction false} AcceptableSnoc(values: seq<RawValue>, i: nat)
    requires i < |values| && values[i].Text?
    requires Acceptable(values[..i]) && ValueAcceptable(values[i].s)
    ensures Acceptable(values[..i + 1])
  {
    forall k | 0 <= k < i + 1
      ensures values[k].Text? && ValueAcceptable(values[k].s)
    {
      if k < i {
        assert values[..i][k] == values[k];
      }
    }
  }

  /** A value that is not a string, or whose fragments are not acceptable,
      makes the whole parameter unacceptable. */
  lemma {:induction false} Unacceptable(values: seq<RawValue>, i: nat)
    requires i < |values|
    requires values[i].NotText? || !ValueAcceptable(values[i].s)
    ensures !Acceptable(values)
  {
  }

  /** `normalize_visibility_filter`, as the source loops: over the values,
      over their comma-separated fragments, appending each new option. */
  method NormalizeVisibilityFilter(value: VisibilityParam) returns (r: Result<seq<string>>)
    ensures r == NormalizedVisibility(value)
  {
    if value.NoParam? {
      return Ok(["public"]);
    }
    var values := RawValues(value);
    var normalized: seq<string> := [];
    var i := 0;
    while i < |values|
      invariant 0 <= i <= |values|
      invariant Acceptable(values[..i])
      invariant normalized == Dedup(Options(values[..i]))
    {
      var raw := values[i];
      if raw.NotText? {
        Unacceptable(values, i);
        return Err(Http(400));
      }
      var added := AddFragments(Options(values[..i]), normalized, CleanAll(Split(raw.s, ',')));
      if added.None? {
        Unacceptable(values, i);
        return Err(Http(400));
      }
      OptionsSnoc(values, i);
      AcceptableSnoc(values, i);
      normalized := added.value;
      i := i + 1;
    }
    assert values[..i] == values;
    if normalized == [] {
      return Ok(["public"]);
    }
    return Ok(normalized);
  }

  /** The viewer of a listing: their id and site role, when signed in. */
  datatype Viewer = Viewer(id: int, siteRole: Option<string>)

  /** `s` without any occurrence of `x`. */
  function Without(s: seq<string>, x: string): (r: seq<string>)
    ensures x !in r
    ensures forall y :: y in r <==> y in s && y != x
    ensures NoDup(s) ==> NoDup(r)
  {
    if |s| == 0 then []
    else
      var rest := Without(s[..|s| - 1], x);
      var last := s[|s| - 1];
      assert forall y :: y in s[..|s| - 1] ==> y in s;
      assert NoDup(s) ==> last !in s[..|s| - 1];
      if last == x then rest else rest + [last]
  }

  /** The privacy states `list_groups` queries: the normalized filter, with
      "private" dropped unless the viewer is a site moderator or admin. An
      empty list means the listing answers an empty page without a query. */
  function ListedStates(value: VisibilityParam, viewer: Option<Viewer>): (r: Result<seq<string>>)
    ensures NormalizedVisibility(value).Err? <==> r.Err?
    ensures r.Err? ==> r.error == Http(400)
    ensures r.Ok? ==> forall x :: x in r.value <==> x in NormalizedVisibility(value).value
                                                    && (x != "private" || (viewer.Some? && IsSiteModerator(viewer.value.siteRole)))
    ensures r.Ok? ==> NoDup(r.value)
  {
    var normalized :- NormalizedVisibility(value);
    if "private" in normalized then
      var canViewPrivate := viewer.Some? && (IsSiteModerator(viewer.value.siteRole) || IsSiteAdmin(viewer.value.siteRole));
      if !canViewPrivate then Ok(Without(normalized, "private")) else Ok(normalized)
    else Ok(normalized)
  }
}
