/**
 * Build-time configuration of the two frontends: Vite's environment object is a map from variable
 * names to values, of which only strings are read; everything else counts as unset.
 */
module FrontendConfig {
  import opened Wrappers
  import opened Text

  datatype EnvValue = EnvString(s: string) | EnvOther
  type Env = map<string, EnvValue>

  const LocalApiBaseUrl: string := "http://localhost:8080/api"
  const RemoteApiBaseUrl: string := "https://restructuring-backend.onrender.com/api"

  /** readEnv: the trimmed string value, nothing for a missing, non-string or blank value. */
  function ReadEnv(env: Env, name: string): (r: Option<string>)
    ensures r.None? <==> name !in env || !env[name].EnvString? || IsBlank(env[name].s)
    ensures r.Some? ==> r.value == Trim(env[name].s) && r.value != []
  {
    if name in env && env[name].EnvString? then
      var trimmed := Trim(env[name].s);
      if trimmed == [] then None else Some(trimmed)
    else None
  }

  /** A value readEnv gives back is already trimmed. */
  lemma ReadEnvTrimmed(env: Env, name: string)
    requires ReadEnv(env, name).Some?
    ensures Trim(ReadEnv(env, name).value) == ReadEnv(env, name).value
  {
    TrimIdempotent(env[name].s);
  }

  /** The words accepted as a boolean, after lower-casing. */
  function BooleanWord(normalized: string): (r: Option<bool>)
    ensures r == Some(true) <==> normalized in {"1", "true", "yes", "on"}
    ensures r == Some(false) <==> normalized in {"0", "false", "no", "off"}
  {
    if normalized in {"1", "true", "yes", "on"} then Some(true)
    else if normalized in {"0", "false", "no", "off"} then Some(false)
    else None
  }

  /** readBoolEnv: a recognised word in any letter case decides; anything else gives the fallback. */
  function ReadBoolEnv(env: Env, name: string, fallback: bool): (r: bool)
    ensures ReadEnv(env, name).None? ==> r == fallback
    ensures ReadEnv(env, name).Some? ==> r == BooleanWord(ToLower(ReadEnv(env, name).value)).GetOr(fallback)
  {
    match ReadEnv(env, name)
    case None => fallback
    case Some(raw) =>
      match BooleanWord(ToLower(raw))
      case Some(b) => b
      case None => fallback
  }

  /** Only the value's lower-cased, trimmed form matters to readBoolEnv: surrounding spaces and letter case do not. */
  lemma ReadBoolEnvIgnoresCase(env: Env, other: Env, name: string, fallback: bool)
    requires name in env && env[name].EnvString? && name in other && other[name].EnvString?
    requires ToLower(Trim(env[name].s)) == ToLower(Trim(other[name].s))
    ensures ReadBoolEnv(env, name, fallback) == ReadBoolEnv(other, name, fallback)
  {
    assert |Trim(env[name].s)| == |ToLower(Trim(env[name].s))|;
    assert |Trim(other[name].s)| == |ToLower(Trim(other[name].s))|;
  }

  /** APP_ENV: VITE_APP_ENV, else "development". */
  function AppEnv(env: Env): (r: string)
    ensures ReadEnv(env, "VITE_APP_ENV").Some? ==> r == ReadEnv(env, "VITE_APP_ENV").value
    ensures ReadEnv(env, "VITE_APP_ENV").None? ==> r == "development"
  {
    ReadEnv(env, "VITE_APP_ENV").GetOr("development")
  }

  function AppName(env: Env): (r: string)
    ensures ReadEnv(env, "VITE_APP_NAME").None? ==> r == "Restructuring Frontend"
    ensures ReadEnv(env, "VITE_APP_NAME").Some? ==> r == ReadEnv(env, "VITE_APP_NAME").value
  {
    ReadEnv(env, "VITE_APP_NAME").GetOr("Restructuring Frontend")
  }

  /** resolveApiBaseUrl: an explicit URL first, the local one for development or test, the remote one otherwise. */
  function ResolveApiBaseUrl(env: Env): (r: string)
    ensures ReadEnv(env, "VITE_API_BASE_URL").Some? ==> r == ReadEnv(env, "VITE_API_BASE_URL").value
    ensures ReadEnv(env, "VITE_API_BASE_URL").None? ==>
      (r == LocalApiBaseUrl <==> AppEnv(env) in {"development", "test"}) &&
      (r == RemoteApiBaseUrl <==> AppEnv(env) !in {"development", "test"})
  {
    match ReadEnv(env, "VITE_API_BASE_URL")
    case Some(explicit) => explicit
    case None => if AppEnv(env) == "development" || AppEnv(env) == "test" then LocalApiBaseUrl else RemoteApiBaseUrl
  }

  /** With nothing set the app is in development and talks to the local backend, with debug logging on. */
  lemma EmptyEnvDefaults()
    ensures AppEnv(map[]) == "development"
    ensures ResolveApiBaseUrl(map[]) == LocalApiBaseUrl
    ensures DebugLogger(map[])
  {
  }

  /** DEBUG_LOGGER: the flag variable when it names a boolean, else on everywhere but production. */
  function DebugLogger(env: Env): (r: bool)
    ensures BooleanWord(ToLower(ReadEnv(env, "VITE_DEBUG_CONFIG_LOGGER").GetOr(""))).None? ==> (r <==> AppEnv(env) != "production")
    ensures ReadEnv(env, "VITE_DEBUG_CONFIG_LOGGER").Some? && BooleanWord(ToLower(ReadEnv(env, "VITE_DEBUG_CONFIG_LOGGER").value)).Some? ==>
      r == BooleanWord(ToLower(ReadEnv(env, "VITE_DEBUG_CONFIG_LOGGER").value)).value
  {
    ReadBoolEnv(env, "VITE_DEBUG_CONFIG_LOGGER", AppEnv(env) != "production")
  }
}

/** The same configuration as the restructuring frontend computes it, with Vite's DEV flag and MODE as inputs. */
module RestructuringConfig {
  import opened Wrappers
  import opened Text
  import FrontendConfig

  const LocalApiBaseUrl: string := "http://localhost:8080/api"
  const RemoteApiBaseUrl: string := "https://restructuring-compound-ws.onrender.com/api"

  /** readEnv, written here as one conditional expression. */
  function ReadEnv(env: FrontendConfig.Env, key: string): (r: Option<string>)
    ensures r.Some? ==> key in env && env[key].EnvString? && r.value != [] && r.value == Trim(env[key].s)
  {
    if key in env && env[key].EnvString? && |Trim(env[key].s)| > 0 then Some(Trim(env[key].s)) else None
  }

  /** Both readEnv functions read the same values. */
  lemma ReadEnvAgrees(env: FrontendConfig.Env, key: string)
    ensures ReadEnv(env, key) == FrontendConfig.ReadEnv(env, key)
  {
  }

  /** parseBoolean: true for 1/true/yes/on, false for 0/false/no/off in any case and spacing, else nothing. */
  function ParseBoolean(value: Option<string>): (r: Option<bool>)
    ensures value.None? || value.value == [] ==> r.None?
    ensures value.Some? && value.value != [] ==> r == FrontendConfig.BooleanWord(ToLower(Trim(value.value)))
  {
    match value
    case None => None
    case Some(v) => if v == [] then None else FrontendConfig.BooleanWord(ToLower(Trim(v)))
  }

  /** parseBoolean on the value read is readBoolEnv of the other copy, once the fallback is supplied. */
  lemma ParseBooleanMatchesReadBoolEnv(env: FrontendConfig.Env, name: string, fallback: bool)
    ensures ParseBoolean(ReadEnv(env, name)).GetOr(fallback) == FrontendConfig.ReadBoolEnv(env, name, fallback)
  {
    if ReadEnv(env, name).Some? {
      FrontendConfig.ReadEnvTrimmed(env, name);
    }
  }

  /** getApiBaseUrl: an explicit URL first, the local one in a DEV build, the remote one otherwise. */
  function GetApiBaseUrl(env: FrontendConfig.Env, dev: bool): (r: string)
    ensures ReadEnv(env, "VITE_API_BASE_URL").Some? ==> r == ReadEnv(env, "VITE_API_BASE_URL").value
    ensures ReadEnv(env, "VITE_API_BASE_URL").None? ==> r == (if dev then LocalApiBaseUrl else RemoteApiBaseUrl)
  {
    match ReadEnv(env, "VITE_API_BASE_URL")
    case Some(fromEnv) => fromEnv
    case None => if dev then LocalApiBaseUrl else RemoteApiBaseUrl
  }

  /** APP_ENV: VITE_APP_ENV, else Vite's MODE (kept even when empty, as ?? does), else "development". */
  function AppEnv(env: FrontendConfig.Env, mode: Option<string>): (r: string)
    ensures ReadEnv(env, "VITE_APP_ENV").Some? ==> r == ReadEnv(env, "VITE_APP_ENV").value
    ensures ReadEnv(env, "VITE_APP_ENV").None? && mode.Some? ==> r == mode.value
    ensures ReadEnv(env, "VITE_APP_ENV").None? && mode.None? ==> r == "development"
  {
    match ReadEnv(env, "VITE_APP_ENV")
    case Some(v) => v
    case None => mode.GetOr("development")
  }

  function AppName(env: FrontendConfig.Env): (r: string)
    ensures ReadEnv(env, "VITE_APP_NAME").None? ==> r == "Restructuring Frontend"
    ensures ReadEnv(env, "VITE_APP_NAME").Some? ==> r == ReadEnv(env, "VITE_APP_NAME").value
  {
    ReadEnv(env, "VITE_APP_NAME").GetOr("Restructuring Frontend")
  }

  /** DEBUG_LOGGER: the explicit flag when it parses, else DEV. */
  function DebugLogger(env: FrontendConfig.Env, dev: bool): (r: bool)
    ensures ParseBoolean(ReadEnv(env, "VITE_DEBUG_CONFIG_LOGGER")).Some? ==> r == ParseBoolean(ReadEnv(env, "VITE_DEBUG_CONFIG_LOGGER")).value
    ensures ParseBoolean(ReadEnv(env, "VITE_DEBUG_CONFIG_LOGGER")).None? ==> r == dev
  {
    match ParseBoolean(ReadEnv(env, "VITE_DEBUG_CONFIG_LOGGER"))
    case Some(explicit) => explicit
    case None => dev
  }

  /** An explicit flag decides alike in both frontends; without one they differ only in the default. */
  lemma DebugLoggersAgreeOnExplicitFlag(env: FrontendConfig.Env, dev: bool)
    requires ParseBoolean(ReadEnv(env, "VITE_DEBUG_CONFIG_LOGGER")).Some?
    ensures DebugLogger(env, dev) == FrontendConfig.DebugLogger(env)
  {
    ParseBooleanMatchesReadBoolEnv(env, "VITE_DEBUG_CONFIG_LOGGER", FrontendConfig.AppEnv(env) != "production");
  }

  /** An explicit base URL is used as is by both frontends. */
  lemma ExplicitBaseUrlAgrees(env: FrontendConfig.Env, dev: bool)
    requires ReadEnv(env, "VITE_API_BASE_URL").Some?
    ensures GetApiBaseUrl(env, dev) == FrontendConfig.ResolveApiBaseUrl(env)
  {
    ReadEnvAgrees(env, "VITE_API_BASE_URL");
  }
}
