/**
 * Configuration read once at start-up (function/function_app.py, lines
 * 26-36) and the TLS context built from it (lines 102-108). The process
 * environment is passed in as a map from variable names to values.
 */
module Settings {
  import opened Wrappers
  import opened Text

  datatype Config = Config(
    teamserverGetUrl: string,
    teamserverPostUrl: string,
    webServerUrl: string,
    allowInsecureSsl: bool,
    teamserverGetRoute: string,
    teamserverPostRoute: string,
    webRouteBase: string)

  /** `os.environ.get(name, default)`. */
  function EnvOr(env: map<string, string>, name: string, default: string): (v: string)
    ensures name in env ==> v == env[name]
    ensures name !in env ==> v == default
  {
    if name in env then env[name] else default
  }

  /** The values `ALLOW_INSECURE_SSL` switches verification off with, once lower-cased. */
  const InsecureFlagValues: set<string> := {"1", "true", "yes"}

  /**
   * `value.lower() in ("1", "true", "yes")`: the flag is on for exactly
   * those three words in any mix of cases, and for nothing else (no
   * surrounding spaces, no "on", no "y").
   */
  function IsInsecureFlag(value: string): (on: bool)
    ensures on <==> (EqualsIgnoringCase(value, "1") || EqualsIgnoringCase(value, "true")
                     || EqualsIgnoringCase(value, "yes"))
  {
    LowerIsCaseInsensitive(value, "1");
    LowerIsCaseInsensitive(value, "true");
    LowerIsCaseInsensitive(value, "yes");
    Lower(value) in InsecureFlagValues
  }

  /** Lower-casing `a` gives the lower-case word `w` exactly when `a` equals `w` in any case. */
  lemma LowerIsCaseInsensitive(a: string, w: string)
    requires Lower(w) == w
    ensures Lower(a) == w <==> EqualsIgnoringCase(a, w)
  {
  }

  function FromEnvironment(env: map<string, string>): (cfg: Config)
    ensures cfg.allowInsecureSsl <==> "ALLOW_INSECURE_SSL" in env && IsInsecureFlag(env["ALLOW_INSECURE_SSL"])
    ensures "WEB_SERVER_URL" in env ==> cfg.webServerUrl == env["WEB_SERVER_URL"]
    ensures "TEAMSERVER_GET_URL" in env ==> cfg.teamserverGetUrl == env["TEAMSERVER_GET_URL"]
    ensures "TEAMSERVER_POST_URL" in env ==> cfg.teamserverPostUrl == env["TEAMSERVER_POST_URL"]
    ensures "TEAMSERVER_GET_URL" !in env ==> cfg.teamserverGetUrl == "https://your-c2-domain.com/api/get"
    ensures "TEAMSERVER_POST_URL" !in env ==> cfg.teamserverPostUrl == "https://your-c2-domain.com/api/post"
    ensures "WEB_SERVER_URL" !in env ==> cfg.webServerUrl == "http://example.com"
    ensures "TEAMSERVER_GET_ROUTE" in env ==> cfg.teamserverGetRoute == env["TEAMSERVER_GET_ROUTE"]
    ensures "TEAMSERVER_GET_ROUTE" !in env ==> cfg.teamserverGetRoute == "get"
    ensures "TEAMSERVER_POST_ROUTE" in env ==> cfg.teamserverPostRoute == env["TEAMSERVER_POST_ROUTE"]
    ensures "TEAMSERVER_POST_ROUTE" !in env ==> cfg.teamserverPostRoute == "post"
    ensures "WEB_ROUTE_BASE" in env ==> cfg.webRouteBase == env["WEB_ROUTE_BASE"]
    ensures "WEB_ROUTE_BASE" !in env ==> cfg.webRouteBase == "web"
  {
    Config(
      EnvOr(env, "TEAMSERVER_GET_URL", "https://your-c2-domain.com/api/get"),
      EnvOr(env, "TEAMSERVER_POST_URL", "https://your-c2-domain.com/api/post"),
      EnvOr(env, "WEB_SERVER_URL", "http://example.com"),
      IsInsecureFlag(EnvOr(env, "ALLOW_INSECURE_SSL", "false")),
      EnvOr(env, "TEAMSERVER_GET_ROUTE", "get"),
      EnvOr(env, "TEAMSERVER_POST_ROUTE", "post"),
      EnvOr(env, "WEB_ROUTE_BASE", "web"))
  }

  /** With nothing set, every setting takes its default and verification stays on. */
  lemma DefaultConfiguration()
    ensures FromEnvironment(map[]) == Config(
      "https://your-c2-domain.com/api/get",
      "https://your-c2-domain.com/api/post",
      "http://example.com",
      false,
      "get", "post", "web")
  {
    assert !IsInsecureFlag("false") by {
      assert Lower("false")[0] == 'f';
    }
  }

  /** The two settings of an `ssl.SSLContext` the redirector changes. */
  datatype TlsContext = TlsContext(checkHostname: bool, verifyCertificates: bool)

  /**
   * `build_ssl_context()`: no context (urllib's default, verifying) unless
   * insecure TLS is allowed, and then one that checks neither the host name
   * nor the certificate.
   */
  function BuildSslContext(allowInsecure: bool): (ctx: Option<TlsContext>)
    ensures ctx.Some? <==> allowInsecure
    ensures ctx.Some? ==> !ctx.value.checkHostname && !ctx.value.verifyCertificates
  {
    if allowInsecure then Some(TlsContext(false, false)) else None
  }
}
