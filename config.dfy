/** The plugin configuration: its default values and the validator run
    when the host loads the plugin. */
module PluginConfig {
  import opened Common

  datatype RoleConfigs = RoleConfigs(defaultRoleId: int, excludedRoles: seq<string>)

  /** The plugin's configuration object; a key that is not set is `None`. */
  datatype Config = Config(authUrl: Option<string>, realm: Option<string>, clientId: Option<string>,
                           clientSecret: Option<string>, tokenUrl: Option<string>, userinfoUrl: Option<string>,
                           redirectUri: Option<string>, roleConfigs: RoleConfigs)

  /** The defaults: every URL, id and secret empty, default role 5, nothing
      excluded; `KEYCLOAK_REDIRECT_URI` has no default. */
  const DefaultConfig := Config(Some(""), Some(""), Some(""), Some(""), Some(""), Some(""), None, RoleConfigs(5, []))

  /** The keys the validator checks, in the order it checks them. */
  const RequiredKeys: seq<string> := ["KEYCLOAK_AUTH_URL", "KEYCLOAK_REALM", "KEYCLOAK_CLIENT_ID", "KEYCLOAK_CLIENT_SECRET"]

  function RequiredValues(c: Config): seq<Option<string>>
  {
    [c.authUrl, c.realm, c.clientId, c.clientSecret]
  }

  function MissingMessage(key: string): string
  {
    "Missing " + key + " in plugin config."
  }

  /** `validator(config)`: throws for the first falsy required key. */
  function Validate(c: Config): (r: Outcome<JsError>)
    ensures r == Pass <==> forall k :: 0 <= k < |RequiredKeys| ==> Truthy(RequiredValues(c)[k])
    ensures r.Fail? ==> exists k :: 0 <= k < |RequiredKeys| && !Truthy(RequiredValues(c)[k]) &&
                          (forall j :: 0 <= j < k ==> Truthy(RequiredValues(c)[j])) &&
                          r.error == Error(MissingMessage(RequiredKeys[k]))
  {
    assert RequiredKeys[0] == "KEYCLOAK_AUTH_URL" && RequiredKeys[1] == "KEYCLOAK_REALM";
    assert RequiredKeys[2] == "KEYCLOAK_CLIENT_ID" && RequiredKeys[3] == "KEYCLOAK_CLIENT_SECRET";
    var v := RequiredValues(c);
    assert v[0] == c.authUrl && v[1] == c.realm && v[2] == c.clientId && v[3] == c.clientSecret;
    if !Truthy(c.authUrl) then Fail(Error(MissingMessage("KEYCLOAK_AUTH_URL")))
    else if !Truthy(c.realm) then Fail(Error(MissingMessage("KEYCLOAK_REALM")))
    else if !Truthy(c.clientId) then Fail(Error(MissingMessage("KEYCLOAK_CLIENT_ID")))
    else if !Truthy(c.clientSecret) then Fail(Error(MissingMessage("KEYCLOAK_CLIENT_SECRET")))
    else Pass
  }

  /** An empty string counts as missing: the defaults fail on the first key. */
  lemma DefaultConfigFails()
    ensures Validate(DefaultConfig) == Fail(Error(MissingMessage(RequiredKeys[0])))
  {
  }

  /** The token URL, the userinfo URL, the redirect URI and the role settings
      are never validated. */
  lemma UncheckedKeysIgnored(c: Config, tokenUrl: Option<string>, userinfoUrl: Option<string>,
                             redirectUri: Option<string>, roleConfigs: RoleConfigs)
    ensures Validate(c.(tokenUrl := tokenUrl, userinfoUrl := userinfoUrl, redirectUri := redirectUri,
                        roleConfigs := roleConfigs)) == Validate(c)
  {
  }
}
