/** Reading settings from the process environment, as both email
    configuration loaders do: the environment is a map from names to
    strings, and a few small parsers turn its values into booleans and
    numbers. The two loaders each carry an identical copy of the boolean
    and integer parsers; they are defined once here. */
module EnvSettings {
  import opened Common
  import opened Text

  type Env = map<string, string>

  /** `env.get(name)`. */
  function Get(env: Env, name: string): (v: Option<string>)
    ensures v.Some? <==> name in env
    ensures v.Some? ==> v.value == env[name]
  {
    if name in env then Some(env[name]) else None
  }

  /** `env.get(name, default)`. */
  function GetOr(env: Env, name: string, default: string): (v: string)
    ensures name in env ==> v == env[name]
    ensures name !in env ==> v == default
  {
    Get(env, name).GetOr(default)
  }

  /** `value or None`: an empty string counts as unset. */
  function OrNone(value: Option<string>): (r: Option<string>)
    ensures r.Some? <==> Truthy(value)
    ensures r.Some? ==> r == value && r.value != ""
  {
    if Truthy(value) then value else None
  }

  /** `a or b or None`: the first non-empty of two settings. */
  function FirstSet(a: Option<string>, b: Option<string>): (r: Option<string>)
    ensures r.Some? <==> Truthy(a) || Truthy(b)
    ensures r.Some? ==> r.value != "" && (r == a || r == b)
    ensures Truthy(a) ==> r == a
  {
    if Truthy(a) then a else OrNone(b)
  }

  const TrueWords: set<string> := {"1", "true", "yes", "on"}
  const FalseWords: set<string> := {"0", "false", "no", "off"}

  /** `_to_bool`: a word from either list, ignoring case and surrounding
      whitespace, decides; anything else (or no value) gives the default. */
  function ToBool(value: Option<string>, default: bool): (b: bool)
    ensures b != default ==> value.Some? && StripLower(value.value) in (if b then TrueWords else FalseWords)
    ensures value.Some? && StripLower(value.value) in TrueWords ==> b
    ensures value.Some? && StripLower(value.value) in FalseWords ==> !b
  {
    if value.None? then default
    else
      var word := StripLower(value.value);
      if word in TrueWords then true
      else if word in FalseWords then false
      else default
  }

  /** The canonical spelling of a boolean setting. */
  function BoolText(b: bool): string {
    if b then "true" else "false"
  }

  /** Writing a boolean and reading it back gives it back, whatever the
      default; so does any spelling that differs only in case or padding. */
  lemma {:induction false} ToBoolRoundTrip(b: bool, default: bool, padded: string)
    requires StripLower(padded) == BoolText(b)
    ensures ToBool(Some(BoolText(b)), default) == b
    ensures ToBool(Some(padded), default) == b
  {
    StripLowerWord("true");
    StripLowerWord("false");
  }

  /** No word is both true and false, so the result never depends on the
      order of the two tests. */
  lemma {:induction false} BoolWordsDisjoint()
    ensures TrueWords * FalseWords == {}
  {
    assert forall w :: w in TrueWords ==> w !in FalseWords;
  }

  /** `_to_int`: no value or an empty one gives the default; anything else
      must parse as an integer (surrounding whitespace allowed) or the
      call raises ValueError. */
  function ToInt(value: Option<string>, default: Option<int>): (r: Result<Option<int>>)
    ensures !Truthy(value) ==> r == Ok(default)
    ensures Truthy(value) ==> (r.Ok? <==> ParseInt(value.value).Ok?)
    ensures Truthy(value) && r.Ok? ==> r.value == Some(ParseInt(value.value).value)
    ensures r.Err? ==> r.error == ValueError
  {
    if value.None? || value.value == "" then Ok(default)
    else
      match ParseInt(value.value)
      case Ok(n) => Ok(Some(n))
      case Err(_) => Err(ValueError)
  }

  /** `_to_int` with an integer default, as `mail/config.py` declares it. */
  function ToIntOr(value: Option<string>, default: int): (r: Result<int>)
    ensures r.Ok? <==> ToInt(value, Some(default)).Ok?
    ensures r.Ok? ==> ToInt(value, Some(default)) == Ok(Some(r.value))
  {
    match ToInt(value, Some(default))
    case Ok(n) => Ok(n.GetOr(default))
    case Err(e) => Err(e)
  }

  /** Any integer written in decimal is read back. */
  lemma {:induction false} ToIntRoundTrip(n: int, default: Option<int>)
    ensures ToInt(Some(IntToString(n)), default) == Ok(Some(n))
  {
    IntRoundTrip(n);
  }

  /** `_to_float`. Python's float syntax is not modelled: `parseFloat` is
      the reading of a non-empty value, failing where `float()` raises. */
  function ToFloat(value: Option<string>, default: real, parseFloat: string -> Result<real>): (r: Result<real>)
    ensures !Truthy(value) ==> r == Ok(default)
    ensures Truthy(value) ==> (r.Ok? <==> parseFloat(value.value).Ok?)
    ensures r.Err? ==> r.error == ValueError
  {
    if value.None? || value.value == "" then Ok(default)
    else
      match parseFloat(value.value)
      case Ok(x) => Ok(x)
      case Err(_) => Err(ValueError)
  }
}
