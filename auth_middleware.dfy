/** The authentication middleware: a request without an authenticated user
    is sent to the identity provider's login page. */
module AuthMiddleware {
  import opened Common
  import opened PluginConfig

  /** What the middleware does with a request. `Throws` is the TypeError of
      destructuring a missing configuration object. */
  datatype AuthDecision = Unauthorized(message: string, redirect: string) | Redirect(url: string) | CallNext | Throws

  /** The login URL by plain template interpolation: no value is encoded,
      and a key that is not set reads `undefined`. */
  function LoginUrl(c: Config): string
  {
    Interpolate(c.authUrl) + "?client_id=" + Interpolate(c.clientId) + "&redirect_uri=" + Interpolate(c.redirectUri)
    + "&response_type=code"
  }

  const UnauthorizedMessage := "Authentication required. Redirecting to Keycloak."

  /** Current middleware: the configuration is read and the URL built on every
      request; no user gives 401 with `{ redirect: url }`. */
  function AuthCurrent(hasUser: bool, cfg: Option<Config>): (d: AuthDecision)
    ensures cfg.None? <==> d == Throws
    ensures cfg.Some? && !hasUser ==> d == Unauthorized(UnauthorizedMessage, LoginUrl(cfg.value))
    ensures d == CallNext <==> hasUser && cfg.Some?
  {
    if cfg.None? then Throws
    else
      var keycloakLoginUrl := LoginUrl(cfg.value);
      if !hasUser then Unauthorized(UnauthorizedMessage, keycloakLoginUrl) else CallNext
  }

  /** Older middleware: the configuration is read only when there is no user;
      no user gives a redirect to the login URL. */
  function AuthLegacy(hasUser: bool, cfg: Option<Config>): (d: AuthDecision)
    ensures hasUser ==> d == CallNext
    ensures !hasUser && cfg.Some? ==> d == Redirect(LoginUrl(cfg.value))
    ensures d == Throws <==> !hasUser && cfg.None?
  {
    if !hasUser then
      if cfg.None? then Throws else Redirect(LoginUrl(cfg.value))
    else CallNext
  }

  /** With a user present the older middleware calls `next` whatever the
      configuration, where the current one needs it to be readable; without a
      user both send the same URL. */
  lemma MiddlewaresCompared(hasUser: bool, c: Config)
    ensures AuthLegacy(true, None) == CallNext && AuthCurrent(true, None) == Throws
    ensures !hasUser ==> AuthCurrent(hasUser, Some(c)).redirect == AuthLegacy(hasUser, Some(c)).url == LoginUrl(c)
    ensures hasUser ==> AuthCurrent(hasUser, Some(c)) == AuthLegacy(hasUser, Some(c)) == CallNext
  {
  }

  /** With the default configuration the URL has an empty base and client id
      and the literal text `undefined` as redirect URI. */
  lemma DefaultLoginUrl()
    ensures LoginUrl(DefaultConfig) == "?client_id=&redirect_uri=undefined&response_type=code"
  {
  }

  /** Values are not encoded: two different configurations can give the same
      URL, so the URL does not determine the values it was built from. */
  lemma LoginUrlNotInjective(base: Config)
    ensures var c1 := base.(authUrl := Some("x"), clientId := Some("y&redirect_uri=z"), redirectUri := Some("w"));
      var c2 := base.(authUrl := Some("x"), clientId := Some("y"), redirectUri := Some("z&redirect_uri=w"));
      c1 != c2 && LoginUrl(c1) == LoginUrl(c2)
  {
    var c1 := base.(authUrl := Some("x"), clientId := Some("y&redirect_uri=z"), redirectUri := Some("w"));
    var c2 := base.(authUrl := Some("x"), clientId := Some("y"), redirectUri := Some("z&redirect_uri=w"));
    assert c1.clientId != c2.clientId by {
      assert |"y&redirect_uri=z"| != |"y"|;
    }
    var q, r, t := "?client_id=", "&redirect_uri=", "&response_type=code";
    calc {
      LoginUrl(c1);
      "x" + q + ("y" + r + "z") + r + "w" + t;
      { assert "y&redirect_uri=z" == "y" + r + "z"; }
      "x" + q + "y" + r + ("z" + r + "w") + t;
      { assert "z&redirect_uri=w" == "z" + r + "w"; }
      LoginUrl(c2);
    }
  }
}
