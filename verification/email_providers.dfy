/** The provider-side email configuration: the settings read from the
    environment, and the choice of outbound provider they lead to. */
module EmailProviders {
  import opened Common
  import opened Text
  import opened EnvSettings

  const DefaultProvider: string := "smtp"
  const DefaultSender: string := "noreply@example.com"
  const DefaultSmtpHost: string := "localhost"
  const DefaultSmtpPort: int := 25

  /** `EmailConfig` of the provider module. */
  datatype EmailConfig = EmailConfig(
    providerName: string,
    sender: string,
    rateLimitPerMinute: Option<int>,
    smtpHost: string,
    smtpPort: int,
    smtpUsername: Option<string>,
    smtpPassword: Option<string>,
    smtpUseTls: bool,
    sendgridApiKey: Option<string>,
    sesAccessKey: Option<string>,
    sesSecretKey: Option<string>,
    sesRegion: Option<string>)

  /** `EMAIL_PROVIDER`, trimmed and lower-cased, "smtp" when unset or
      blank. */
  function ProviderName(env: Env): (name: string)
    ensures name != ""
    ensures StripLower(name) == name
    ensures StripLower(GetOr(env, "EMAIL_PROVIDER", DefaultProvider)) != "" ==>
              name == StripLower(GetOr(env, "EMAIL_PROVIDER", DefaultProvider))
  {
    var given := StripLower(GetOr(env, "EMAIL_PROVIDER", DefaultProvider));
    StripLowerIdempotent(GetOr(env, "EMAIL_PROVIDER", DefaultProvider));
    DefaultProviderNormalized();
    if given == "" then DefaultProvider else given
  }

  /** The default provider name is already stripped and lower-case. */
  lemma DefaultProviderNormalized()
    ensures StripLower(DefaultProvider) == DefaultProvider
  {
    StripLowerWord(DefaultProvider);
  }

  /** `_to_int(EMAIL_SMTP_PORT, default=25) or 25`: an unset, empty or
      zero port is 25. */
  function SmtpPort(env: Env): (r: Result<int>)
    ensures r.Ok? ==> r.value != 0
    ensures r.Err? <==> ToInt(Get(env, "EMAIL_SMTP_PORT"), Some(DefaultSmtpPort)).Err?
    ensures !Truthy(Get(env, "EMAIL_SMTP_PORT")) ==> r == Ok(DefaultSmtpPort)
    ensures r.Ok? && r.value != DefaultSmtpPort ==>
              ToInt(Get(env, "EMAIL_SMTP_PORT"), Some(DefaultSmtpPort)) == Ok(Some(r.value))
  {
    match ToInt(Get(env, "EMAIL_SMTP_PORT"), Some(DefaultSmtpPort))
    case Err(e) => Err(e)
    case Ok(port) => if port.None? || port.value == 0 then Ok(DefaultSmtpPort) else Ok(port.value)
  }

  /** `load_email_config`: every setting with its default; a rate limit
      or port that is set but not an integer raises ValueError. */
  function LoadEmailConfig(env: Env): (r: Result<EmailConfig>)
    ensures r.Err? ==> r.error == ValueError
    ensures r.Err? <==> ToInt(Get(env, "EMAIL_RATE_LIMIT_PER_MINUTE"), None).Err? || SmtpPort(env).Err?
    ensures r.Ok? ==> r.value.providerName == ProviderName(env) && r.value.smtpPort == SmtpPort(env).value
    ensures r.Ok? ==> r.value.smtpUseTls == ToBool(Get(env, "EMAIL_SMTP_USE_TLS"), true)
    ensures r.Ok? ==> r.value.rateLimitPerMinute == ToInt(Get(env, "EMAIL_RATE_LIMIT_PER_MINUTE"), None).value
    ensures r.Ok? ==> r.value.sender == GetOr(env, "EMAIL_SENDER", DefaultSender)
                      && r.value.smtpHost == GetOr(env, "EMAIL_SMTP_HOST", DefaultSmtpHost)
    ensures r.Ok? ==> r.value.smtpUsername == OrNone(Get(env, "EMAIL_SMTP_USERNAME"))
                      && r.value.smtpPassword == OrNone(Get(env, "EMAIL_SMTP_PASSWORD"))
                      && r.value.sendgridApiKey == OrNone(Get(env, "SENDGRID_API_KEY"))
    ensures r.Ok? ==> r.value.sesAccessKey == FirstSet(Get(env, "SES_ACCESS_KEY_ID"), Get(env, "AWS_ACCESS_KEY_ID"))
                      && r.value.sesSecretKey == FirstSet(Get(env, "SES_SECRET_ACCESS_KEY"), Get(env, "AWS_SECRET_ACCESS_KEY"))
                      && r.value.sesRegion == FirstSet(Get(env, "SES_REGION"), Get(env, "AWS_REGION"))
  {
    var rateLimit := ToInt(Get(env, "EMAIL_RATE_LIMIT_PER_MINUTE"), None);
    if rateLimit.Err? then Err(rateLimit.error)
    else
      var port := SmtpPort(env);
      if port.Err? then Err(port.error)
      else
        Ok(EmailConfig(
          ProviderName(env),
          GetOr(env, "EMAIL_SENDER", DefaultSender),
          rateLimit.value,
          GetOr(env, "EMAIL_SMTP_HOST", DefaultSmtpHost),
          port.value,
          OrNone(Get(env, "EMAIL_SMTP_USERNAME")),
          OrNone(Get(env, "EMAIL_SMTP_PASSWORD")),
          ToBool(Get(env, "EMAIL_SMTP_USE_TLS"), true),
          OrNone(Get(env, "SENDGRID_API_KEY")),
          FirstSet(Get(env, "SES_ACCESS_KEY_ID"), Get(env, "AWS_ACCESS_KEY_ID")),
          FirstSet(Get(env, "SES_SECRET_ACCESS_KEY"), Get(env, "AWS_SECRET_ACCESS_KEY")),
          FirstSet(Get(env, "SES_REGION"), Get(env, "AWS_REGION"))))
  }

  /** The configuration of an empty environment: SMTP on localhost:25 with
      TLS, the default sender, and no credentials or limits. */
  lemma {:induction false} EmptyEnvDefaults()
    ensures LoadEmailConfig(map[]) == Ok(EmailConfig(
              "smtp", "noreply@example.com", None, "localhost", 25, None, None, true,
              None, None, None, None))
  {
    StripLowerWord(DefaultProvider);
  }

  /** The outbound provider, with the settings it is built from. */
  datatype EmailProvider =
    | Smtp(host: string, port: int, username: Option<string>, password: Option<string>, useTls: bool, rateLimit: Option<int>)
    | SendGrid(apiKey: string, rateLimit: Option<int>)
    | Ses(accessKey: string, secretKey: string, region: string, rateLimit: Option<int>)

  function SmtpOf(config: EmailConfig): EmailProvider {
    Smtp(config.smtpHost, config.smtpPort, config.smtpUsername, config.smtpPassword,
         config.smtpUseTls, config.rateLimitPerMinute)
  }

  /** `create_email_provider`: SendGrid needs its API key, SES needs all of
      access key, secret and region; any name other than these two gives
      SMTP. */
  function CreateEmailProvider(config: EmailConfig): (r: Result<EmailProvider>)
    ensures r.Err? <==> (config.providerName == "sendgrid" && !Truthy(config.sendgridApiKey))
                        || (config.providerName == "ses"
                            && !(Truthy(config.sesAccessKey) && Truthy(config.sesSecretKey) && Truthy(config.sesRegion)))
    ensures r.Err? ==> r.error == ValueError
    ensures r.Ok? && r.value.SendGrid? ==> config.providerName == "sendgrid" && Some(r.value.apiKey) == config.sendgridApiKey
    ensures r.Ok? && r.value.Ses? ==> config.providerName == "ses"
                                      && Some(r.value.accessKey) == config.sesAccessKey
                                      && Some(r.value.secretKey) == config.sesSecretKey
                                      && Some(r.value.region) == config.sesRegion
    ensures config.providerName != "sendgrid" && config.providerName != "ses" ==> r == Ok(SmtpOf(config))
    ensures r.Ok? ==> r.value.rateLimit == config.rateLimitPerMinute
  {
    if config.providerName == "smtp" then Ok(SmtpOf(config))
    else if config.providerName == "sendgrid" then
      if !Truthy(config.sendgridApiKey) then Err(ValueError)
      else Ok(SendGrid(config.sendgridApiKey.value, config.rateLimitPerMinute))
    else if config.providerName == "ses" then
      if !(Truthy(config.sesAccessKey) && Truthy(config.sesSecretKey) && Truthy(config.sesRegion)) then Err(ValueError)
      else Ok(Ses(config.sesAccessKey.value, config.sesSecretKey.value, config.sesRegion.value, config.rateLimitPerMinute))
    else Ok(SmtpOf(config))
  }

  /** From the environment to a provider: an SMTP provider built from a
      loaded configuration never listens on port 0, and an unrecognised
      provider name (say "SMTP2", or a typo) still yields SMTP. */
  lemma {:induction false} LoadedSmtpPortNonZero(env: Env)
    ensures LoadEmailConfig(env).Ok? ==>
              var p := CreateEmailProvider(LoadEmailConfig(env).value);
              p.Ok? && p.value.Smtp? ==> p.value.port != 0
    ensures LoadEmailConfig(env).Ok? ==>
              var name := LoadEmailConfig(env).value.providerName;
              name != "sendgrid" && name != "ses" ==> CreateEmailProvider(LoadEmailConfig(env).value).Ok?
  {
  }

  /** SES credentials may come from the SES-specific names or the AWS
      ones, the SES name winning when both are set. */
  lemma {:induction false} SesCredentialFallback(env: Env)
    ensures LoadEmailConfig(env).Ok? && Truthy(Get(env, "SES_ACCESS_KEY_ID")) ==>
              LoadEmailConfig(env).value.sesAccessKey == Get(env, "SES_ACCESS_KEY_ID")
    ensures LoadEmailConfig(env).Ok? && !Truthy(Get(env, "SES_ACCESS_KEY_ID")) && Truthy(Get(env, "AWS_ACCESS_KEY_ID"))
            ==> LoadEmailConfig(env).value.sesAccessKey == Get(env, "AWS_ACCESS_KEY_ID")
  {
  }
}
