/**
 * The configuration read at the start of an acquisition: the cookie file
 * (`resolve_cookie_path`) and the proxy settings (`build_proxy_settings`).
 * The environment, the file system, `os.path.expanduser` and the proxy
 * library's own validation are inputs.
 */
module ProxySettings {
  import opened Values

  // ---------------------------------------------------------------------------
  // Cookie file
  // ---------------------------------------------------------------------------

  /** The environment variables that may name a cookie file, in the order they are read. */
  const CookieEnvVars: seq<string> := ["YOUTUBE_COOKIES_FILE", "YT_COOKIES_FILE"]

  /** `not configured`: the variable is unset or empty. */
  predicate Unset(v: Option<string>) {
    v.None? || v.value == ""
  }

  /**
   * The first of `vars` that is set and whose expanded path exists, as that
   * expanded path; `None` when there is none.
   */
  function FirstCookiePath(vars: seq<string>, env: string -> Option<string>,
                           expand: string -> string, exists_: string -> bool): (r: Option<string>)
    ensures r.Some? ==> exists_(r.value)
    decreases |vars|
  {
    if |vars| == 0 then None
    else
      var configured := env(vars[0]);
      if !Unset(configured) && exists_(expand(configured.value)) then Some(expand(configured.value))
      else FirstCookiePath(vars[1..], env, expand, exists_)
  }

  /**
   * `resolve_cookie_path()`: the loop over the two variables, skipping an
   * unset one and one whose file is missing, and returning the first path
   * that exists.
   */
  method ResolveCookiePath(env: string -> Option<string>, expand: string -> string, exists_: string -> bool)
    returns (path: Option<string>)
    ensures path == FirstCookiePath(CookieEnvVars, env, expand, exists_)
  {
    for i := 0 to |CookieEnvVars|
      invariant FirstCookiePath(CookieEnvVars[i..], env, expand, exists_) == FirstCookiePath(CookieEnvVars, env, expand, exists_)
    {
      assert CookieEnvVars[i..][1..] == CookieEnvVars[i + 1..];
      var configured := env(CookieEnvVars[i]);
      if Unset(configured) {
        continue;
      }
      var expanded := expand(configured.value);
      if exists_(expanded) {
        return Some(expanded);
      }
    }
    return None;
  }

  /**
   * The path found comes from the earliest variable that is set and names an
   * existing file: every variable before it is unset or names a missing file.
   */
  lemma {:induction false} CookiePathIsFirstExisting(vars: seq<string>, env: string -> Option<string>,
                                                   expand: string -> string, exists_: string -> bool)
    ensures var r := FirstCookiePath(vars, env, expand, exists_);
      (r.None? <==> forall i :: 0 <= i < |vars| ==> Unset(env(vars[i])) || !exists_(expand(env(vars[i]).value)))
      && (r.Some? ==>
            (exists i :: 0 <= i < |vars| && !Unset(env(vars[i])) && r.value == expand(env(vars[i]).value)
               && forall j :: 0 <= j < i ==> Unset(env(vars[j])) || !exists_(expand(env(vars[j]).value))))
    decreases |vars|
  {
    if |vars| > 0 {
      CookiePathIsFirstExisting(vars[1..], env, expand, exists_);
      var r := FirstCookiePath(vars, env, expand, exists_);
      var configured := env(vars[0]);
      if !(!Unset(configured) && exists_(expand(configured.value))) {
        if r.Some? {
          var i :| 0 <= i < |vars[1..]| && !Unset(env(vars[1..][i])) && r.value == expand(env(vars[1..][i]).value)
            && forall j :: 0 <= j < i ==> Unset(env(vars[1..][j])) || !exists_(expand(env(vars[1..][j]).value));
          assert forall j :: 1 <= j < i + 1 ==> vars[j] == vars[1..][j - 1];
        }
        if forall i :: 0 <= i < |vars[1..]| ==> Unset(env(vars[1..][i])) || !exists_(expand(env(vars[1..][i]).value)) {
          forall i | 0 <= i < |vars| ensures Unset(env(vars[i])) || !exists_(expand(env(vars[i]).value)) {
            if i > 0 { assert vars[i] == vars[1..][i - 1]; }
          }
        }
      }
    }
  }

  // ---------------------------------------------------------------------------
  // Proxy settings
  // ---------------------------------------------------------------------------

  /** The three proxy variables as `os.environ.get` returns them. */
  datatype ProxyEnv = ProxyEnv(proxyHttp: Option<string>, proxyHttps: Option<string>, proxy: Option<string>)

  /** Python's `a or b` on two values of `os.environ.get`. */
  function OrEnv(a: Option<string>, b: Option<string>): Option<string> {
    if Unset(a) then b else a
  }

  /** The configuration object handed to the transcript API. */
  datatype ProxyConfig = ProxyConfig(httpUrl: Option<string>, httpsUrl: Option<string>)

  /** The pair `build_proxy_settings` returns: the `requests`/yt-dlp proxy dictionary and the API's configuration. */
  datatype Settings = Settings(proxies: map<string, string>, config: Option<ProxyConfig>)

  /**
   * `build_proxy_settings()`. `accepts` says whether `GenericProxyConfig`
   * accepts the pair of URLs; when it raises `InvalidProxyConfig` there is no
   * proxy at all.
   */
  function BuildProxySettings(env: ProxyEnv, accepts: (Option<string>, Option<string>) -> bool): (r: Settings)
    // the dictionary and the configuration are present together or not at all
    ensures r.proxies == map[] <==> r.config.None?
    // a proxy is used exactly when one of the variables is set and the pair is accepted
    ensures r.config.Some? <==>
      (!Unset(OrEnv(env.proxyHttp, env.proxy)) || !Unset(OrEnv(env.proxyHttps, env.proxy)))
      && accepts(OrEnv(env.proxyHttp, env.proxy), OrEnv(env.proxyHttps, env.proxy))
    // the specific variables take precedence over the shared one
    ensures r.config.Some? ==>
      r.config.value == ProxyConfig(OrEnv(env.proxyHttp, env.proxy), OrEnv(env.proxyHttps, env.proxy))
    // both schemes get a non-empty proxy URL; a missing one borrows the other
    ensures r.config.Some? ==>
      r.proxies.Keys == {"http", "https"} && r.proxies["http"] != "" && r.proxies["https"] != ""
      && r.proxies["http"] == (if Unset(r.config.value.httpUrl) then r.config.value.httpsUrl.value else r.config.value.httpUrl.value)
      && r.proxies["https"] == (if Unset(r.config.value.httpsUrl) then r.config.value.httpUrl.value else r.config.value.httpsUrl.value)
  {
    var http := OrEnv(env.proxyHttp, env.proxy);
    var https := OrEnv(env.proxyHttps, env.proxy);
    if Unset(http) && Unset(https) then Settings(map[], None)
    else if !accepts(http, https) then Settings(map[], None)
    else
      var proxies := map["http" := OrEnv(http, https).value, "https" := OrEnv(https, http).value];
      assert "http" in proxies;
      Settings(proxies, Some(ProxyConfig(http, https)))
  }

  /** `proxy_dict.get('https') or proxy_dict.get('http')`: the single proxy yt-dlp is given. */
  function YtDlpProxy(proxies: map<string, string>): Option<string> {
    if "https" in proxies && proxies["https"] != "" then Some(proxies["https"])
    else if "http" in proxies && proxies["http"] != "" then Some(proxies["http"])
    else None
  }

  /**
   * A single `YOUTUBE_PROXY` serves both schemes, for `requests`, for yt-dlp
   * and for the transcript API alike.
   */
  lemma SharedProxyEverywhere(p: string, accepts: (Option<string>, Option<string>) -> bool)
    requires p != "" && accepts(Some(p), Some(p))
    ensures var r := BuildProxySettings(ProxyEnv(None, None, Some(p)), accepts);
      r.proxies == map["http" := p, "https" := p]
      && r.config == Some(ProxyConfig(Some(p), Some(p)))
      && YtDlpProxy(r.proxies) == Some(p)
  {
  }

  /** yt-dlp is given the HTTPS proxy when there is one, else the HTTP proxy, and none without settings. */
  lemma YtDlpPrefersHttps(env: ProxyEnv, accepts: (Option<string>, Option<string>) -> bool)
    ensures var r := BuildProxySettings(env, accepts);
      YtDlpProxy(r.proxies) ==
        if r.config.None? then None
        else if !Unset(r.config.value.httpsUrl) then r.config.value.httpsUrl
        else r.config.value.httpUrl
  {
  }
}
