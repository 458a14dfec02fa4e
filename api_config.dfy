/** The client's API configuration: which base URL and endpoint table to use,
    chosen from the build environment, and how an endpoint URL is formed.

    `configs[name]` on a JavaScript object literal also finds the members of
    Object.prototype ("toString", "constructor", ...). The lookup is therefore a
    parameter: `ConfigsAsWritten` is what the code does, `ConfigsOwnOnly` is the
    own-key lookup evidently intended, and the rest of the model uses the latter. */
module ApiConfig {
  import opened Wrappers

  datatype Endpoint = Register | Login | Logout | User | Chat | SaveChat

  datatype Config = Config(baseUrl: string, timeout: nat, endpoints: map<Endpoint, string>)

  const Endpoints: map<Endpoint, string> := map[
    Register := "/register", Login := "/login", Logout := "/logout",
    User := "/user", Chat := "/chat", SaveChat := "/save-chat"]

  /** Every endpoint has a non-empty path. */
  lemma EveryEndpointHasAPath(endpoint: Endpoint)
    ensures endpoint in Endpoints && Endpoints[endpoint] != ""
  {
    match endpoint
    case Register =>
    case Login =>
    case Logout =>
    case User =>
    case Chat =>
    case SaveChat =>
  }

  const Development := Config("", 30000, Endpoints)
  const Local := Config("http://0.0.0.0:8000", 30000, Endpoints)
  const Production := Config("https://your-api-domain.com", 30000, Endpoints)

  /** The own keys of `configs`. */
  function OwnConfig(name: string): Option<Config> {
    if name == "development" then Some(Development)
    else if name == "local" then Some(Local)
    else if name == "production" then Some(Production)
    else None
  }

  /** The members every object literal inherits from Object.prototype. Each is
      truthy and has neither `baseUrl` nor `endpoints`. */
  const ObjectPrototypeMembers: set<string> := {
    "constructor", "hasOwnProperty", "isPrototypeOf", "propertyIsEnumerable",
    "toLocaleString", "toString", "valueOf", "__proto__",
    "__defineGetter__", "__defineSetter__", "__lookupGetter__", "__lookupSetter__"}

  /** The value of `configs[name]`. */
  datatype Lookup = Own(config: Config) | Inherited | Undefined

  /** `configs[name]` as JavaScript evaluates it. */
  function ConfigsAsWritten(name: string): Lookup {
    match OwnConfig(name)
    case Some(c) => Own(c)
    case None => if name in ObjectPrototypeMembers then Inherited else Undefined
  }

  /** `configs[name]` restricted to the object's own keys. */
  function ConfigsOwnOnly(name: string): Lookup {
    match OwnConfig(name)
    case Some(c) => Own(c)
    case None => Undefined
  }

  /** The variables of `import.meta.env` the configuration reads. */
  datatype Env = Env(apiBaseUrl: Option<string>, apiEnv: Option<string>, nodeEnv: Option<string>)

  /** A string variable is truthy when it is set and not empty. */
  predicate Truthy(v: Option<string>) { v.Some? && v.value != "" }

  /** `import.meta.env.NODE_ENV || 'development'` */
  function NodeEnv(env: Env): string {
    if Truthy(env.nodeEnv) then env.nodeEnv.value else "development"
  }

  /** `getBaseUrl`; `None` stands for `undefined`. The result is undefined
      exactly when no override is set and VITE_API_ENV names an inherited
      member, whose `baseUrl` does not exist. */
  function BaseUrl(env: Env, configs: string -> Lookup): (r: Option<string>)
    ensures Truthy(env.apiBaseUrl) ==> r == env.apiBaseUrl
    ensures r.None? <==> !Truthy(env.apiBaseUrl) && Truthy(env.apiEnv) && configs(env.apiEnv.value).Inherited?
    ensures !Truthy(env.apiBaseUrl) && Truthy(env.apiEnv) && configs(env.apiEnv.value).Own? ==>
              r == Some(configs(env.apiEnv.value).config.baseUrl)
    ensures !Truthy(env.apiBaseUrl) && (!Truthy(env.apiEnv) || configs(env.apiEnv.value).Undefined?) ==>
              r == Some(if NodeEnv(env) == "production" then Production.baseUrl else Development.baseUrl)
  {
    if Truthy(env.apiBaseUrl) then env.apiBaseUrl
    else if Truthy(env.apiEnv) && !configs(env.apiEnv.value).Undefined? then
      if configs(env.apiEnv.value).Own? then Some(configs(env.apiEnv.value).config.baseUrl) else None
    else if NodeEnv(env) == "production" then Some(Production.baseUrl)
    else Some(Development.baseUrl)
  }

  /** `getCurrentEnvironment` */
  function CurrentEnvironment(env: Env): (name: string)
    ensures Truthy(env.apiEnv) ==> name == env.apiEnv.value
    ensures !Truthy(env.apiEnv) ==> name == "production" || name == "development"
    ensures !Truthy(env.apiEnv) ==> (name == "production" <==> NodeEnv(env) == "production")
  {
    if Truthy(env.apiEnv) then env.apiEnv.value
    else if NodeEnv(env) == "production" then "production"
    else "development"
  }

  /** The object `getApiConfig` returns: the chosen configuration spread, with its
      `baseUrl` replaced by `getBaseUrl()`. A spread of an inherited member has no
      `timeout` and no `endpoints`, shown as `None`. */
  datatype ResolvedConfig = ResolvedConfig(baseUrl: Option<string>, timeout: Option<nat>, endpoints: Option<map<Endpoint, string>>)

  /** `getApiConfig`: an environment name that is not found falls back to the
      development configuration; the base URL always comes from `getBaseUrl`. */
  function ApiConfigOf(env: Env, configs: string -> Lookup): (r: ResolvedConfig)
    ensures r.baseUrl == BaseUrl(env, configs)
    ensures r.endpoints.None? <==> configs(CurrentEnvironment(env)).Inherited?
    ensures r.timeout.None? <==> configs(CurrentEnvironment(env)).Inherited?
    ensures configs(CurrentEnvironment(env)).Own? ==>
              && r.timeout == Some(configs(CurrentEnvironment(env)).config.timeout)
              && r.endpoints == Some(configs(CurrentEnvironment(env)).config.endpoints)
    ensures configs(CurrentEnvironment(env)).Undefined? ==>
              r.timeout == Some(Development.timeout) && r.endpoints == Some(Development.endpoints)
  {
    var baseUrl := BaseUrl(env, configs);
    match configs(CurrentEnvironment(env))
    case Undefined => ResolvedConfig(baseUrl, Some(Development.timeout), Some(Development.endpoints))
    case Own(c) => ResolvedConfig(baseUrl, Some(c.timeout), Some(c.endpoints))
    case Inherited => ResolvedConfig(baseUrl, None, None)
  }

  /** `baseUrl.replace(/\/$/, '')`: at most one trailing slash removed. */
  function StripTrailingSlash(s: string): (r: string)
    ensures |r| <= |s| && r == s[..|r|] && |s| - |r| <= 1
    ensures |r| < |s| <==> |s| > 0 && s[|s| - 1] == '/'
  {
    if |s| > 0 && s[|s| - 1] == '/' then s[..|s| - 1] else s
  }

  /** Why `getEndpointUrl` throws: its own Error for an endpoint without a path,
      or a TypeError when the configuration has no endpoint table at all. */
  datatype ApiError = EndpointNotFound(endpoint: Endpoint) | TypeError

  /** The body of `getEndpointUrl` once the configuration is chosen. */
  function EndpointUrl(config: ResolvedConfig, endpoint: Endpoint): (r: Result<string, ApiError>)
    ensures config.endpoints.None? ==> r == Err(TypeError)
    ensures config.endpoints.Some? ==>
              (r.Err? <==> endpoint !in config.endpoints.value || config.endpoints.value[endpoint] == "")
    ensures r.Err? && config.endpoints.Some? ==> r.error == EndpointNotFound(endpoint)
    ensures r.Ok? && (config.baseUrl.None? || config.baseUrl.value == "") ==>
              r.value == config.endpoints.value[endpoint]
    ensures r.Ok? && config.baseUrl.Some? && config.baseUrl.value != "" ==>
              r.value == StripTrailingSlash(config.baseUrl.value) + config.endpoints.value[endpoint]
  {
    match config.endpoints
    case None => Err(TypeError)
    case Some(endpoints) =>
      if endpoint !in endpoints || endpoints[endpoint] == "" then Err(EndpointNotFound(endpoint))
      else
        var path := endpoints[endpoint];
        if config.baseUrl.None? || config.baseUrl.value == "" then Ok(path)
        else Ok(StripTrailingSlash(config.baseUrl.value) + path)
  }

  /** `getEndpointUrl(endpoint)` as the code evaluates it: every configuration
      has every path, so the only failure is the TypeError of an environment
      name that is an Object.prototype member; a URL always ends in the path. */
  function GetEndpointUrlAsWritten(env: Env, endpoint: Endpoint): (r: Result<string, ApiError>)
    ensures r.Err? <==> Truthy(env.apiEnv) && env.apiEnv.value in ObjectPrototypeMembers
    ensures r.Err? ==> r.error == TypeError
    ensures r.Ok? ==> endpoint in Endpoints && EndsWith(r.value, Endpoints[endpoint])
  {
    var name := CurrentEnvironment(env);
    EveryEndpointHasAPath(endpoint);
    assert ConfigsAsWritten(name).Own? ==> ConfigsAsWritten(name).config.endpoints == Endpoints;
    assert ConfigsAsWritten(name).Inherited? <==> name in ObjectPrototypeMembers by {
      if name in ObjectPrototypeMembers {
        PrototypeMemberIsInherited(name);
      }
    }
    EndpointUrl(ApiConfigOf(env, ConfigsAsWritten), endpoint)
  }

  /** `getEndpointUrl(endpoint)` with the own-key lookup: it never throws, and
      the URL ends in the endpoint's path. */
  function GetEndpointUrl(env: Env, endpoint: Endpoint): (r: Result<string, ApiError>)
    ensures r.Ok? && endpoint in Endpoints && EndsWith(r.value, Endpoints[endpoint])
  {
    var name := CurrentEnvironment(env);
    EveryEndpointHasAPath(endpoint);
    assert ConfigsOwnOnly(name).Own? ==> ConfigsOwnOnly(name).config.endpoints == Endpoints;
    EndpointUrl(ApiConfigOf(env, ConfigsOwnOnly), endpoint)
  }

  predicate EndsWith(s: string, suffix: string) {
    |suffix| <= |s| && s[|s| - |suffix|..] == suffix
  }

  /** The base URL precedence: a non-empty VITE_API_BASE_URL wins; otherwise a
      VITE_API_ENV naming a known configuration selects its base URL; otherwise
      NODE_ENV 'production' gives the production URL and anything else "". */
  lemma BaseUrlPrecedence(env: Env)
    ensures Truthy(env.apiBaseUrl) ==> BaseUrl(env, ConfigsOwnOnly) == env.apiBaseUrl
    ensures Truthy(env.apiBaseUrl) ==> BaseUrl(env, ConfigsAsWritten) == env.apiBaseUrl
    ensures !Truthy(env.apiBaseUrl) && Truthy(env.apiEnv) && OwnConfig(env.apiEnv.value).Some? ==>
              BaseUrl(env, ConfigsOwnOnly) == Some(OwnConfig(env.apiEnv.value).value.baseUrl)
    ensures !Truthy(env.apiBaseUrl) && (!Truthy(env.apiEnv) || OwnConfig(env.apiEnv.value).None?) ==>
              BaseUrl(env, ConfigsOwnOnly) == Some(if NodeEnv(env) == "production" then "https://your-api-domain.com" else "")
  {
  }

  /** An environment name without its own configuration gets the development
      endpoints (and timeout), with the base URL still from the precedence rule. */
  lemma UnknownEnvironmentFallsBack(env: Env)
    requires OwnConfig(CurrentEnvironment(env)).None?
    ensures ApiConfigOf(env, ConfigsOwnOnly) == ResolvedConfig(BaseUrl(env, ConfigsOwnOnly), Some(30000), Some(Endpoints))
  {
  }

  /** With the own-key lookup every endpoint resolves, for every environment:
      relative to the page when the base URL is empty, otherwise appended to it. */
  lemma EndpointUrlAlwaysResolves(env: Env, endpoint: Endpoint)
    ensures var base := BaseUrl(env, ConfigsOwnOnly);
            && base.Some?
            && GetEndpointUrl(env, endpoint) == Ok(if base.value == "" then Endpoints[endpoint]
                                                  else StripTrailingSlash(base.value) + Endpoints[endpoint])
  {
    var name := CurrentEnvironment(env);
    assert ConfigsOwnOnly(name).Own? ==> ConfigsOwnOnly(name).config.endpoints == Endpoints;
  }

  /** As written, an environment name that is an Object.prototype member selects
      no configuration, the base URL becomes undefined unless overridden, and
      every endpoint URL throws a TypeError. */
  lemma PrototypeMemberNameBreaksEndpoints(env: Env, endpoint: Endpoint)
    requires Truthy(env.apiEnv) && env.apiEnv.value in ObjectPrototypeMembers
    ensures !Truthy(env.apiBaseUrl) ==> BaseUrl(env, ConfigsAsWritten).None?
    ensures GetEndpointUrlAsWritten(env, endpoint) == Err(TypeError)
    ensures GetEndpointUrl(env, endpoint).Ok?
  {
    var name := env.apiEnv.value;
    PrototypeMemberIsInherited(name);
    assert CurrentEnvironment(env) == name;
    assert ApiConfigOf(env, ConfigsAsWritten).endpoints.None?;
    EndpointUrlAlwaysResolves(env, endpoint);
  }

  /** No name of an Object.prototype member is one of the configuration keys. */
  lemma PrototypeMemberIsInherited(name: string)
    requires name in ObjectPrototypeMembers
    ensures ConfigsAsWritten(name) == Inherited && ConfigsOwnOnly(name) == Undefined
  {
    assert OwnConfig(name).None?;
  }

  /** For a name that is not an Object.prototype member the two lookups agree. */
  lemma LookupsAgreeOffPrototype(env: Env, endpoint: Endpoint)
    requires !Truthy(env.apiEnv) || env.apiEnv.value !in ObjectPrototypeMembers
    ensures GetEndpointUrlAsWritten(env, endpoint) == GetEndpointUrl(env, endpoint)
  {
    assert forall name :: name !in ObjectPrototypeMembers ==> ConfigsAsWritten(name) == ConfigsOwnOnly(name);
  }
}
