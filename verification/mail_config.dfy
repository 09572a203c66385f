/** The mail-delivery configuration of the `mail` package: provider name,
    SMTP settings, the public base url used in links, and the retry
    policy. */
module MailConfig {
  import opened Common
  import opened Text
  import opened EnvSettings

  const DefaultProvider: string := "dev"
  const DefaultFromEmail: string := "noreply@example.com"
  const DefaultSmtpHost: string := "localhost"
  const DefaultSmtpPort: int := 587
  const DefaultAppBaseUrl: string := "http://localhost:5173"
  const DefaultMaxAttempts: int := 3
  const DefaultBackoffSeconds: real := 2.0

  /** `EmailConfig` of the mail package. */
  datatype MailSettings = MailSettings(
    providerName: string,
    fromEmail: string,
    smtpHost: string,
    smtpPort: int,
    smtpUsername: Option<string>,
    smtpPassword: Option<string>,
    smtpUseTls: bool,
    appBaseUrl: string,
    maxAttempts: int,
    backoffSeconds: real)

  /** `(EMAIL_PROVIDER or "dev").strip().lower() or "dev"`. */
  function ProviderName(env: Env): (name: string)
    ensures name != ""
    ensures StripLower(name) == name
    ensures Truthy(Get(env, "EMAIL_PROVIDER")) && StripLower(env["EMAIL_PROVIDER"]) != "" ==>
              name == StripLower(env["EMAIL_PROVIDER"])
    ensures !Truthy(Get(env, "EMAIL_PROVIDER")) ==> name == DefaultProvider
  {
    var raw := if Truthy(Get(env, "EMAIL_PROVIDER")) then env["EMAIL_PROVIDER"] else DefaultProvider;
    var given := StripLower(raw);
    StripLowerIdempotent(raw);
    DefaultProviderNormalized();
    if given == "" then DefaultProvider else given
  }

  /** The default provider name is already stripped and lower-case. */
  lemma DefaultProviderNormalized()
    ensures StripLower(DefaultProvider) == DefaultProvider
  {
    StripLowerWord(DefaultProvider);
  }

  /** `max(1, _to_int(EMAIL_MAX_ATTEMPTS, default=3))`. */
  function MaxAttempts(env: Env): (r: Result<int>)
    ensures r.Ok? ==> r.value >= 1
    ensures r.Err? <==> ToIntOr(Get(env, "EMAIL_MAX_ATTEMPTS"), DefaultMaxAttempts).Err?
    ensures r.Ok? && r.value > 1 ==> ToIntOr(Get(env, "EMAIL_MAX_ATTEMPTS"), DefaultMaxAttempts) == Ok(r.value)
  {
    match ToIntOr(Get(env, "EMAIL_MAX_ATTEMPTS"), DefaultMaxAttempts)
    case Err(e) => Err(e)
    case Ok(n) => Ok(if n < 1 then 1 else n)
  }

  /** `max(0.0, _to_float(EMAIL_RETRY_BACKOFF, default=2.0))`. */
  function BackoffSeconds(env: Env, parseFloat: string -> Result<real>): (r: Result<real>)
    ensures r.Ok? ==> r.value >= 0.0
    ensures r.Err? <==> ToFloat(Get(env, "EMAIL_RETRY_BACKOFF"), DefaultBackoffSeconds, parseFloat).Err?
    ensures r.Ok? && r.value > 0.0 ==> ToFloat(Get(env, "EMAIL_RETRY_BACKOFF"), DefaultBackoffSeconds, parseFloat) == Ok(r.value)
  {
    match ToFloat(Get(env, "EMAIL_RETRY_BACKOFF"), DefaultBackoffSeconds, parseFloat)
    case Err(e) => Err(e)
    case Ok(x) => Ok(if x < 0.0 then 0.0 else x)
  }

  /** `load_email_config` of the mail package: a port, attempt count or
      backoff that is set but unreadable raises ValueError; otherwise every
      setting has its default, the base url loses its trailing slashes and
      at least one delivery attempt is made. */
  function LoadMailConfig(env: Env, parseFloat: string -> Result<real>): (r: Result<MailSettings>)
    ensures r.Err? ==> r.error == ValueError
    ensures r.Err? <==> ToIntOr(Get(env, "SMTP_PORT"), DefaultSmtpPort).Err?
                        || MaxAttempts(env).Err? || BackoffSeconds(env, parseFloat).Err?
    ensures r.Ok? ==> r.value.providerName == ProviderName(env)
    ensures r.Ok? ==> r.value.maxAttempts >= 1 && r.value.backoffSeconds >= 0.0
    ensures r.Ok? ==> r.value.appBaseUrl == RStripChar(GetOr(env, "APP_BASE_URL", DefaultAppBaseUrl), '/')
    ensures r.Ok? ==> r.value.smtpPort == ToIntOr(Get(env, "SMTP_PORT"), DefaultSmtpPort).value
    ensures r.Ok? ==> r.value.smtpUseTls == ToBool(Get(env, "SMTP_USE_TLS"), true)
    ensures r.Ok? ==> r.value.fromEmail == GetOr(env, "FROM_EMAIL", DefaultFromEmail)
                      && r.value.smtpHost == GetOr(env, "SMTP_HOST", DefaultSmtpHost)
                      && r.value.smtpUsername == OrNone(Get(env, "SMTP_USER"))
                      && r.value.smtpPassword == OrNone(Get(env, "SMTP_PASS"))
  {
    var port := ToIntOr(Get(env, "SMTP_PORT"), DefaultSmtpPort);
    var attempts := MaxAttempts(env);
    var backoff := BackoffSeconds(env, parseFloat);
    if port.Err? then Err(port.error)
    else if attempts.Err? then Err(attempts.error)
    else if backoff.Err? then Err(backoff.error)
    else
      Ok(MailSettings(
        ProviderName(env),
        GetOr(env, "FROM_EMAIL", DefaultFromEmail),
        GetOr(env, "SMTP_HOST", DefaultSmtpHost),
        port.value,
        OrNone(Get(env, "SMTP_USER")),
        OrNone(Get(env, "SMTP_PASS")),
        ToBool(Get(env, "SMTP_USE_TLS"), true),
        RStripChar(GetOr(env, "APP_BASE_URL", DefaultAppBaseUrl), '/'),
        attempts.value,
        backoff.value))
  }

  /** The loaded base url never ends in a slash, so joining it with a
      path that starts with one slash yields exactly one. */
  lemma {:induction false} BaseUrlHasNoTrailingSlash(env: Env, parseFloat: string -> Result<real>)
    requires LoadMailConfig(env, parseFloat).Ok?
    ensures var url := LoadMailConfig(env, parseFloat).value.appBaseUrl;
            url == [] || url[|url| - 1] != '/'
    ensures var url := LoadMailConfig(env, parseFloat).value.appBaseUrl;
            var given := GetOr(env, "APP_BASE_URL", DefaultAppBaseUrl);
            url == given[..|url|] && forall k :: |url| <= k < |given| ==> given[k] == '/'
  {
  }

  /** The settings of an empty environment. */
  lemma {:induction false} EmptyEnvDefaults(parseFloat: string -> Result<real>)
    ensures LoadMailConfig(map[], parseFloat) == Ok(MailSettings(
              "dev", "noreply@example.com", "localhost", 587, None, None, true,
              "http://localhost:5173", 3, 2.0))
  {
    StripLowerWord(DefaultProvider);
    assert DefaultAppBaseUrl[|DefaultAppBaseUrl| - 1] == '3';
  }

  /** A configured attempt count below one still allows one attempt. */
  lemma {:induction false} RetryPolicyFloors(env: Env, parseFloat: string -> Result<real>, n: int)
    requires Get(env, "EMAIL_MAX_ATTEMPTS") == Some(IntToString(n)) && n < 1
    ensures LoadMailConfig(env, parseFloat).Ok? ==> LoadMailConfig(env, parseFloat).value.maxAttempts == 1
  {
    ToIntRoundTrip(n, Some(DefaultMaxAttempts));
  }
}
