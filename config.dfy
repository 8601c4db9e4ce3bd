/** Application settings: the `Settings` record and its three per-environment variants, the
    environment-variable overrides applied on construction, the two database URL properties
    and `get_settings`. */
module Config {
  import opened Results
  import opened Text

  datatype Environment = Development | Production | Testing

  /** The fields of `Settings`, with Python's types (`float` as `real`). */
  datatype Settings = Settings(
    databaseUrlComplete: Option<string>,
    databaseHost: string,
    databasePort: int,
    databaseName: string,
    databaseUser: string,
    databasePassword: string,
    apiHost: string,
    apiPort: int,
    apiDebug: bool,
    modelsPath: string,
    modelRetrainIntervalHours: int,
    featureWindowDays: int,
    churnPredictionDays: int,
    topPercentileThreshold: real,
    cacheEnabled: bool,
    cacheTtlSeconds: int,
    logLevel: string)

  /** The process environment: variable name to value; an unset variable is absent. */
  type Env = map<string, string>

  /** The declared defaults of `Settings`. */
  const BaseDefaults: Settings := Settings(
    None, "postgres", 5432, "playercore_retain", "postgres", "playercore123",
    "0.0.0.0", 8001, true, "models/saved", 24, 90, 30, 0.8, true, 3600, "INFO")

  /** The defaults of DevelopmentSettings, ProductionSettings and TestingSettings. */
  function ClassDefaults(e: Environment): Settings
  {
    match e
    case Development => BaseDefaults.(apiDebug := true, logLevel := "DEBUG", cacheEnabled := false)
    case Production => BaseDefaults.(apiDebug := false, logLevel := "WARNING", cacheEnabled := true,
                                     modelRetrainIntervalHours := 12)
    case Testing => BaseDefaults.(databaseName := "playercore_retain_test", apiDebug := true,
                                  logLevel := "DEBUG", cacheEnabled := false)
  }

  /** Only production caches and runs without debug; it alone retrains every 12 hours and logs
      warnings only; testing alone uses its own database; every other field keeps the base default. */
  lemma EnvironmentDefaults(e: Environment)
    ensures var s := ClassDefaults(e);
            && (s.cacheEnabled <==> e == Production)
            && (s.apiDebug <==> e != Production)
            && s.logLevel == (if e == Production then "WARNING" else "DEBUG")
            && s.modelRetrainIntervalHours == (if e == Production then 12 else BaseDefaults.modelRetrainIntervalHours)
            && s.databaseName == (if e == Testing then "playercore_retain_test" else BaseDefaults.databaseName)
            && s.(apiDebug := BaseDefaults.apiDebug, logLevel := BaseDefaults.logLevel,
                  cacheEnabled := BaseDefaults.cacheEnabled,
                  modelRetrainIntervalHours := BaseDefaults.modelRetrainIntervalHours,
                  databaseName := BaseDefaults.databaseName) == BaseDefaults
  {
  }

  /** `os.getenv(name)` taken as a condition: set and non-empty. */
  predicate IsSet(env: Env, name: string)
  {
    name in env && env[name] != ""
  }

  /** The value of `name` if it is set and non-empty, otherwise `current`. */
  function OrCurrent(env: Env, name: string, current: string): (v: string)
    ensures IsSet(env, name) ==> v == env[name] && v != ""
    ensures !IsSet(env, name) ==> v == current
  {
    if IsSet(env, name) then env[name] else current
  }

  /** The overrides of `Settings.__init__`: each of DATABASE_URL, DB_HOST, DB_USER, DB_PASSWORD,
      DB_NAME and DB_PORT replaces its field when set and non-empty; DB_PORT goes through
      int(), whose ValueError propagates. */
  function ApplyEnvOverrides(s: Settings, env: Env): (r: Outcome<Settings>)
    ensures r.Raised? <==> IsSet(env, "DB_PORT") && ParseInt(env["DB_PORT"]).None?
    ensures r.Raised? ==> r.error == ValueError(env["DB_PORT"])
    ensures r.Ok? ==>
              && r.value.databaseUrlComplete
                 == (if IsSet(env, "DATABASE_URL") then Some(env["DATABASE_URL"]) else s.databaseUrlComplete)
              && r.value.databaseHost == OrCurrent(env, "DB_HOST", s.databaseHost)
              && r.value.databaseUser == OrCurrent(env, "DB_USER", s.databaseUser)
              && r.value.databasePassword == OrCurrent(env, "DB_PASSWORD", s.databasePassword)
              && r.value.databaseName == OrCurrent(env, "DB_NAME", s.databaseName)
              && (IsSet(env, "DB_PORT") ==> Some(r.value.databasePort) == ParseInt(env["DB_PORT"]))
              && (!IsSet(env, "DB_PORT") ==> r.value.databasePort == s.databasePort)
    ensures r.Ok? ==>
              r.value.(databaseUrlComplete := s.databaseUrlComplete, databaseHost := s.databaseHost,
                       databaseUser := s.databaseUser, databasePassword := s.databasePassword,
                       databaseName := s.databaseName, databasePort := s.databasePort) == s
  {
    var url := if IsSet(env, "DATABASE_URL") then Some(env["DATABASE_URL"]) else s.databaseUrlComplete;
    var t := s.(databaseUrlComplete := url,
                databaseHost := OrCurrent(env, "DB_HOST", s.databaseHost),
                databaseUser := OrCurrent(env, "DB_USER", s.databaseUser),
                databasePassword := OrCurrent(env, "DB_PASSWORD", s.databasePassword),
                databaseName := OrCurrent(env, "DB_NAME", s.databaseName));
    if !IsSet(env, "DB_PORT") then Ok(t)
    else
      match ParseInt(env["DB_PORT"])
      case None => Raised(ValueError(env["DB_PORT"]))
      case Some(port) => Ok(t.(databasePort := port))
  }

  /** Overriding twice is overriding once: the overrides only copy values out of the environment. */
  lemma OverridesIdempotent(s: Settings, env: Env)
    requires ApplyEnvOverrides(s, env).Ok?
    ensures ApplyEnvOverrides(ApplyEnvOverrides(s, env).value, env) == ApplyEnvOverrides(s, env)
  {
  }

  /** A port written with str() is read back by the DB_PORT override. */
  lemma PortOverrideRoundTrip(s: Settings, env: Env, port: int)
    requires "DB_PORT" in env && env["DB_PORT"] == IntToString(port)
    ensures ApplyEnvOverrides(s, env).Ok? && ApplyEnvOverrides(s, env).value.databasePort == port
  {
    IntToStringRoundTrip(port);
  }

  /** Constructing one of the environment classes: its defaults, then the overrides. */
  function NewSettings(e: Environment, env: Env): Outcome<Settings>
  {
    ApplyEnvOverrides(ClassDefaults(e), env)
  }

  /** The class a (lower-cased or explicit) environment name selects. */
  function EnvironmentNamed(name: string): (e: Environment)
    ensures e == Production <==> name == "production"
    ensures e == Testing <==> name == "testing"
  {
    if name == "production" then Production
    else if name == "testing" then Testing
    else Development
  }

  /** `environment or os.getenv("ENVIRONMENT", "development").lower()`: a non-empty argument is
      used verbatim; otherwise ENVIRONMENT (or "development" when unset) lower-cased. */
  function SelectEnvironment(environment: Option<string>, env: Env): Environment
  {
    var name :=
      if environment.Some? && environment.value != "" then environment.value
      else ToLower(if "ENVIRONMENT" in env then env["ENVIRONMENT"] else "development");
    EnvironmentNamed(name)
  }

  /** An explicit argument wins over ENVIRONMENT and is compared without lower-casing, so
      "Production" selects the development settings. */
  lemma ExplicitEnvironmentWins(name: string, env: Env)
    requires name != ""
    ensures SelectEnvironment(Some(name), env) == EnvironmentNamed(name)
    ensures SelectEnvironment(Some("Production"), env) == Development
  {
  }

  /** Without an argument, ENVIRONMENT is read case-insensitively for the ASCII letters; unset, it
      means development. */
  lemma EnvironmentVariableSelects(environment: Option<string>, env: Env)
    requires environment.None? || environment == Some("")
    ensures "ENVIRONMENT" in env ==> SelectEnvironment(environment, env) == EnvironmentNamed(ToLower(env["ENVIRONMENT"]))
    ensures "ENVIRONMENT" !in env ==> SelectEnvironment(environment, env) == Development
    ensures "ENVIRONMENT" in env && ToLower(env["ENVIRONMENT"]) == "production" ==>
              SelectEnvironment(environment, env) == Production
  {
    assert ToLower("development") == "development";
  }

  /** ENVIRONMENT=PRODUCTION selects production: the variable is lower-cased, the argument is not. */
  lemma UpperCaseVariableSelectsProduction(env: Env)
    requires "ENVIRONMENT" in env && env["ENVIRONMENT"] == "PRODUCTION"
    ensures SelectEnvironment(None, env) == Production
    ensures SelectEnvironment(Some("PRODUCTION"), env) == Development
  {
    assert ToLower("PRODUCTION") == "production";
  }

  /** `get_settings(environment)`: it raises exactly on a DB_PORT that is not an integer, and
      the selected class decides caching and debug, the overrides touching neither. */
  function GetSettings(environment: Option<string>, env: Env): (r: Outcome<Settings>)
    ensures r.Raised? <==> IsSet(env, "DB_PORT") && ParseInt(env["DB_PORT"]).None?
    ensures var e := SelectEnvironment(environment, env);
            r.Ok? ==> r.value.cacheEnabled == (e == Production) && r.value.apiDebug == (e != Production)
  {
    var e := SelectEnvironment(environment, env);
    EnvironmentDefaults(e);
    NewSettings(e, env)
  }

  /** With nothing in the environment, get_settings() yields the development defaults: cache
      disabled, debug on. */
  lemma DefaultSettings()
    ensures GetSettings(None, map[]) == Ok(ClassDefaults(Development))
    ensures !ClassDefaults(Development).cacheEnabled && ClassDefaults(Development).apiDebug
  {
    assert ToLower("development") == "development";
  }

  // ---------------------------------------------------------------- database URLs

  /** `urllib.parse.quote_plus`, left uninterpreted. */
  type QuotePlus = string -> string

  const PlainScheme: string := "postgresql://"
  const AsyncScheme: string := "postgresql+asyncpg://"
  const SyncScheme: string := "postgresql+psycopg2://"

  /** The query fragments asyncpg refuses, in the order they are removed. */
  const SslFragments: seq<string> := ["?sslmode=require", "&sslmode=require", "?sslmode=disable", "&sslmode=disable"]

  /** One `str.replace(fragment, "")` pass per fragment, in order. */
  function StripFragments(url: string, fragments: seq<string>): (r: string)
    requires forall i :: 0 <= i < |fragments| ==> |fragments[i]| > 0
    ensures (forall i :: 0 <= i < |fragments| ==> !Occurs(fragments[i], url)) ==> r == url
    decreases |fragments|
  {
    if fragments == [] then url
    else StripFragments(ReplaceAll(url, fragments[0], ""), fragments[1..])
  }

  /** True when the complete URL is given and non-empty. */
  predicate HasCompleteUrl(s: Settings)
  {
    s.databaseUrlComplete.Some? && s.databaseUrlComplete.value != ""
  }

  /** The URL put together from its parts, with the password escaped. */
  function ComposedUrl(scheme: string, s: Settings, quotePlus: QuotePlus): string
  {
    scheme + s.databaseUser + ":" + quotePlus(s.databasePassword) + "@" + s.databaseHost + ":"
      + IntToString(s.databasePort) + "/" + s.databaseName
  }

  /** The `database_url` property (asyncpg). A complete URL with neither the plain scheme nor an
      sslmode fragment is used as given. Without a complete URL the result is the property's
      f-string verbatim: scheme, user, escaped password, host, port and database name. */
  function DatabaseUrl(s: Settings, quotePlus: QuotePlus): (r: string)
    ensures HasCompleteUrl(s) && !Occurs(PlainScheme, s.databaseUrlComplete.value)
            && (forall i :: 0 <= i < |SslFragments| ==> !Occurs(SslFragments[i], s.databaseUrlComplete.value))
            ==> r == s.databaseUrlComplete.value
  {
    if HasCompleteUrl(s) then
      StripFragments(ReplaceFirst(s.databaseUrlComplete.value, PlainScheme, AsyncScheme), SslFragments)
    else ComposedUrl(AsyncScheme, s, quotePlus)
  }

  /** The `database_url_sync` property (psycopg2): no fragment is removed, so a complete URL
      without the plain scheme is used as given. */
  function DatabaseUrlSync(s: Settings, quotePlus: QuotePlus): (r: string)
    ensures HasCompleteUrl(s) && !Occurs(PlainScheme, s.databaseUrlComplete.value) ==> r == s.databaseUrlComplete.value
  {
    if HasCompleteUrl(s) then ReplaceFirst(s.databaseUrlComplete.value, PlainScheme, SyncScheme)
    else ComposedUrl(SyncScheme, s, quotePlus)
  }

  /** Fragment removal passes over a prefix holding no character that starts a fragment. */
  lemma {:induction false} StripFragmentsSkips(a: string, b: string, fragments: seq<string>)
    requires forall i :: 0 <= i < |fragments| ==> |fragments[i]| > 0 && fragments[i][0] !in a
    ensures StripFragments(a + b, fragments) == a + StripFragments(b, fragments)
    decreases |fragments|
  {
    if fragments != [] {
      ReplaceAllSkips(a, b, fragments[0], "");
      StripFragmentsSkips(a, ReplaceAll(b, fragments[0], ""), fragments[1..]);
    }
  }

  /** Every sslmode fragment starts with `?` or `&`, so a text without those characters holds no
      fragment's first character. */
  lemma FragmentsStartQuery(x: string)
    requires '?' !in x && '&' !in x
    ensures forall i :: 0 <= i < |SslFragments| ==> |SslFragments[i]| > 0 && SslFragments[i][0] !in x
    ensures forall i :: 0 <= i < |SslFragments[1..]| ==> |SslFragments[1..][i]| > 0 && SslFragments[1..][i][0] !in x
  {
  }

  /** The asyncpg scheme holds neither character that starts an sslmode fragment. */
  lemma AsyncSchemeHasNoQuery()
    ensures '?' !in AsyncScheme && '&' !in AsyncScheme
  {
  }

  /** Only the first `postgresql://` is rewritten, wherever it lies: the text before it is kept,
      and so is everything after it, a second `postgresql://` included; for asyncpg the sslmode
      fragments are then removed from the part after the new scheme. */
  lemma DatabaseUrlRewritesFirstScheme(s: Settings, quotePlus: QuotePlus, before: string, after: string)
    requires s.databaseUrlComplete == Some(before + PlainScheme + after)
    requires !Occurs(PlainScheme, before + PlainScheme[..|PlainScheme| - 1])
    requires '?' !in before && '&' !in before
    ensures DatabaseUrl(s, quotePlus) == before + AsyncScheme + StripFragments(after, SslFragments)
    ensures DatabaseUrlSync(s, quotePlus) == before + SyncScheme + after
  {
    var url := s.databaseUrlComplete.value;
    assert DatabaseUrlSync(s, quotePlus) == before + SyncScheme + after by {
      ReplaceFirstSplit(before, PlainScheme, after, SyncScheme);
    }
    var head := before + AsyncScheme;
    assert ReplaceFirst(url, PlainScheme, AsyncScheme) == head + after by {
      ReplaceFirstSplit(before, PlainScheme, after, AsyncScheme);
    }
    assert StripFragments(head + after, SslFragments) == head + StripFragments(after, SslFragments) by {
      AsyncSchemeHasNoQuery();
      FragmentsStartQuery(head);
      StripFragmentsSkips(head, after, SslFragments);
    }
  }

  /** `?sslmode=require` after a host part without `?` or `&` is removed, and a tail without any
      sslmode fragment is kept. */
  lemma SslFragmentDropped(hostPart: string, tail: string)
    requires '?' !in hostPart && '&' !in hostPart
    requires forall i :: 0 <= i < |SslFragments| ==> !Occurs(SslFragments[i], tail)
    ensures StripFragments(hostPart + "?sslmode=require" + tail, SslFragments) == hostPart + tail
  {
    var frag := SslFragments[0];
    NoRoomAfter(frag, hostPart, frag[..|frag| - 1]);
    ReplaceAllSplit(hostPart, frag, tail, "");
    assert ReplaceAll(hostPart + frag + tail, frag, "") == hostPart + tail;
    FragmentsStartQuery(hostPart);
    StripFragmentsSkips(hostPart, tail, SslFragments[1..]);
  }

  /** A URL `postgresql://{host part}?sslmode=require{tail}`, whose host part has no `?` or `&`
      and whose tail holds no sslmode fragment: the async URL switches to asyncpg and loses the
      fragment; the sync URL switches to psycopg2 and keeps it. */
  lemma SchemeRewrittenAndSslDropped(s: Settings, quotePlus: QuotePlus, hostPart: string, tail: string)
    requires '?' !in hostPart && '&' !in hostPart
    requires forall i :: 0 <= i < |SslFragments| ==> !Occurs(SslFragments[i], tail)
    requires s.databaseUrlComplete == Some(PlainScheme + hostPart + "?sslmode=require" + tail)
    ensures DatabaseUrl(s, quotePlus) == AsyncScheme + hostPart + tail
    ensures DatabaseUrlSync(s, quotePlus) == SyncScheme + hostPart + "?sslmode=require" + tail
  {
    var rest := hostPart + "?sslmode=require" + tail;
    assert DatabaseUrl(s, quotePlus) == AsyncScheme + StripFragments(rest, SslFragments)
        && DatabaseUrlSync(s, quotePlus) == SyncScheme + rest by {
      assert s.databaseUrlComplete.value == [] + PlainScheme + rest;
      assert !Occurs(PlainScheme, [] + PlainScheme[..|PlainScheme| - 1]);
      DatabaseUrlRewritesFirstScheme(s, quotePlus, [], rest);
      assert [] + AsyncScheme == AsyncScheme && [] + SyncScheme == SyncScheme;
    }
    SslFragmentDropped(hostPart, tail);
    Regroup(AsyncScheme, hostPart, [], tail);
    Regroup(SyncScheme, hostPart, "?sslmode=require", tail);
  }

  /** Concatenation regrouped, stated over plain variables so that literals are not unfolded. */
  lemma Regroup(x: string, y: string, z: string, w: string)
    ensures x + (y + z + w) == x + y + z + w
    ensures x + (y + w) == x + y + w
  {
  }

  /** Without a complete URL the two properties compose the same text after their schemes. */
  lemma ComposedUrlsAgree(s: Settings, quotePlus: QuotePlus)
    requires !HasCompleteUrl(s)
    ensures DatabaseUrl(s, quotePlus)[..|AsyncScheme|] == AsyncScheme
    ensures DatabaseUrlSync(s, quotePlus)[..|SyncScheme|] == SyncScheme
    ensures DatabaseUrl(s, quotePlus)[|AsyncScheme|..] == DatabaseUrlSync(s, quotePlus)[|SyncScheme|..]
  {
    var tail := s.databaseUser + ":" + quotePlus(s.databasePassword) + "@" + s.databaseHost + ":"
                + IntToString(s.databasePort) + "/" + s.databaseName;
    assert ComposedUrl(AsyncScheme, s, quotePlus) == AsyncScheme + tail;
    assert ComposedUrl(SyncScheme, s, quotePlus) == SyncScheme + tail;
  }
}
