/**
  * Application configuration: the constants the context budget, the
  * validators and the completion call use, and the start-up check that the
  * completion service's API key is present.
  */
module Settings {
  import opened Text

  const GroqModel := "llama3-8b-8192"
  const GroqMaxTokens := 500
  /** Characters kept per document when assembling a context. */
  const TextExtractionLimit := 500
  const PasswordMinLength := 6
  const ChatHistoryLimit := 50
  /** Character budget of an assembled context. */
  const MaxContextLength := 800
  const DefaultAdminUsername := "admin"
  const DefaultAdminPassword := "admin123"

  /** The settings whose presence is checked at start-up, in order. */
  const RequiredVars := ["GROQ_API_KEY"]

  /** Python truthiness of an environment lookup: set and non-empty. */
  predicate Truthy(v: Option<string>) {
    v.Some? && v.value != ""
  }

  /** The names among `names` whose setting is falsy, in their order. */
  function MissingVars(names: seq<string>, lookup: string -> Option<string>): (r: seq<string>)
    ensures forall n :: n in r <==> n in names && !Truthy(lookup(n))
    ensures |r| <= |names|
    decreases |names|
  {
    if names == [] then []
    else
      var last := names[|names| - 1];
      MissingVars(names[..|names| - 1], lookup) + (if Truthy(lookup(last)) then [] else [last])
  }

  /** The loop of `validate_config`: every falsy setting is appended, in order. */
  method CollectMissing(names: seq<string>, lookup: string -> Option<string>) returns (missing: seq<string>)
    ensures missing == MissingVars(names, lookup)
  {
    missing := [];
    var i := 0;
    while i < |names|
      invariant 0 <= i <= |names|
      invariant missing == MissingVars(names[..i], lookup)
    {
      assert names[..i + 1][..i] == names[..i];
      if !Truthy(lookup(names[i])) {
        missing := missing + [names[i]];
      }
      i := i + 1;
    }
    assert names[..i] == names;
  }

  /** `getattr(Config, name)` for the required settings: only the API key is read from the environment. */
  function ConfigLookup(apiKey: Option<string>): string -> Option<string> {
    n => if n == "GROQ_API_KEY" then apiKey else None
  }

  const MissingKeyMessage := "Missing required environment variables: GROQ_API_KEY"

  datatype Validation = ConfigOk | ConfigMissing(message: string)

  /** `Config.validate_config`: succeeds, or raises a ValueError naming the missing settings. */
  function ValidateConfig(apiKey: Option<string>): (r: Validation)
    ensures r.ConfigOk? <==> Truthy(apiKey)
    ensures r.ConfigMissing? ==> r.message == MissingKeyMessage
  {
    var missing := MissingVars(RequiredVars, ConfigLookup(apiKey));
    assert RequiredVars[..0] == [];
    if missing != [] then ConfigMissing("Missing required environment variables: " + Join(missing, ", "))
    else ConfigOk
  }

  /**
    * The import-time call: the ValueError is caught and only reported, so
    * loading the configuration never fails; the result is the reported
    * line, if any.
    */
  function StartupReport(apiKey: Option<string>): (r: Option<string>)
    ensures r.None? <==> Truthy(apiKey)
    ensures r.Some? ==> r.value == "Configuration Error: " + MissingKeyMessage
  {
    match ValidateConfig(apiKey)
    case ConfigOk => None
    case ConfigMissing(m) => Some("Configuration Error: " + m)
  }
}
