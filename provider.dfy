/**
 * The plugin-framework provider's `Configure` (internal/provider/provider.go):
 * resolve the API key and username from the configuration and the
 * environment, report what is unknown or missing, and hand the resulting
 * client to resources and data sources.
 */
module Provider {
  import opened Wrappers
  import opened OmglolClient

  const ApiKeyEnv: string := "OMGLOL_API_KEY"
  const UsernameEnv: string := "OMGLOL_USERNAME"

  /** A framework string: not yet known at plan time, null (not configured) or known. */
  datatype StringValue = Unknown | Null | Known(s: string)
  {
    /** ValueString: the string, "" for an unknown or null value. */
    function ValueString(): (r: string)
      ensures Known? ==> r == s
      ensures !Known? ==> r == ""
    {
      if Known? then s else ""
    }
  }

  /** The provider block: `api_key` and `username`, both optional. */
  datatype ProviderModel = ProviderModel(apiKey: StringValue, username: StringValue)

  /** The attribute a diagnostic is attached to. */
  datatype Attribute = ApiKeyAttribute | UsernameAttribute

  datatype Problem = UnknownValue | MissingValue

  datatype Diagnostic =
    | AttributeError(attribute: Attribute, problem: Problem)
    | GeneralError(summary: string)
    | Warning(summary: string)

  /** HasError: some diagnostic is an error. */
  predicate HasError(diags: seq<Diagnostic>)
  {
    exists i :: 0 <= i < |diags| && !diags[i].Warning?
  }

  /** Adding an error diagnostic makes the list hold an error. */
  lemma AddError(a: seq<Diagnostic>, d: Diagnostic)
    requires !d.Warning?
    ensures HasError(a + [d])
  {
    assert (a + [d])[|a|] == d;
  }

  /** os.Getenv: the variable's value, "" when it is not set. */
  function Getenv(env: map<string, string>, name: string): string
  {
    if name in env then env[name] else ""
  }

  /** A configured value replaces the environment's whenever it is not null, even when it is "". */
  function Resolve(configured: StringValue, fromEnv: string): (r: string)
    requires !configured.Unknown?
    ensures configured.Null? ==> r == fromEnv
    ensures configured.Known? ==> r == configured.s
  {
    if !configured.Null? then configured.ValueString() else fromEnv
  }

  /** What Configure leaves in the response. */
  datatype ConfigureResponse = ConfigureResponse(
    diagnostics: seq<Diagnostic>,
    resourceData: Option<Client>,
    dataSourceData: Option<Client>)

  /**
   * Configure, from the diagnostics of reading the configuration, the
   * configuration itself and the process environment. `lookups` lists the
   * environment variables read, in order.
   */
  method Configure(configDiags: seq<Diagnostic>, config: ProviderModel, env: map<string, string>)
    returns (resp: ConfigureResponse, lookups: seq<string>)
    // an error reading the configuration is all that is reported
    ensures HasError(configDiags) ==> resp == ConfigureResponse(configDiags, None, None) && lookups == []
    // unknown values are reported, each on its attribute, before anything is read from the environment
    ensures !HasError(configDiags) && (config.apiKey.Unknown? || config.username.Unknown?) ==>
              lookups == [] && resp.resourceData == None && resp.dataSourceData == None &&
              resp.diagnostics == configDiags
                + (if config.apiKey.Unknown? then [AttributeError(ApiKeyAttribute, UnknownValue)] else [])
                + (if config.username.Unknown? then [AttributeError(UsernameAttribute, UnknownValue)] else [])
    // otherwise both variables are read, the configured values win, and each empty result is reported
    ensures !HasError(configDiags) && !config.apiKey.Unknown? && !config.username.Unknown? ==>
              var apiKey := Resolve(config.apiKey, Getenv(env, ApiKeyEnv));
              var username := Resolve(config.username, Getenv(env, UsernameEnv));
              lookups == [ApiKeyEnv, UsernameEnv] &&
              resp.diagnostics == configDiags
                + (if apiKey == "" then [AttributeError(ApiKeyAttribute, MissingValue)] else [])
                + (if username == "" then [AttributeError(UsernameAttribute, MissingValue)] else []) &&
              (resp.resourceData.Some? <==> apiKey != "" && username != "") &&
              (resp.resourceData.Some? ==> resp.resourceData.value == Client(username, apiKey)) &&
              resp.dataSourceData == resp.resourceData
    // a client is handed out only when no error was reported
    ensures resp.resourceData.Some? ==> !HasError(resp.diagnostics)
  {
    var diagnostics := configDiags;
    lookups := [];
    if HasError(diagnostics) {
      return ConfigureResponse(diagnostics, None, None), lookups;
    }
    if config.apiKey.Unknown? {
      AddError(diagnostics, AttributeError(ApiKeyAttribute, UnknownValue));
      diagnostics := diagnostics + [AttributeError(ApiKeyAttribute, UnknownValue)];
    }
    if config.username.Unknown? {
      AddError(diagnostics, AttributeError(UsernameAttribute, UnknownValue));
      diagnostics := diagnostics + [AttributeError(UsernameAttribute, UnknownValue)];
    }
    if HasError(diagnostics) {
      return ConfigureResponse(diagnostics, None, None), lookups;
    }
    var apiKey := Getenv(env, ApiKeyEnv);
    var username := Getenv(env, UsernameEnv);
    lookups := [ApiKeyEnv, UsernameEnv];
    if !config.apiKey.Null? {
      apiKey := config.apiKey.ValueString();
    }
    if !config.username.Null? {
      username := config.username.ValueString();
    }
    if apiKey == "" {
      AddError(diagnostics, AttributeError(ApiKeyAttribute, MissingValue));
      diagnostics := diagnostics + [AttributeError(ApiKeyAttribute, MissingValue)];
    }
    if username == "" {
      AddError(diagnostics, AttributeError(UsernameAttribute, MissingValue));
      diagnostics := diagnostics + [AttributeError(UsernameAttribute, MissingValue)];
    }
    if HasError(diagnostics) {
      return ConfigureResponse(diagnostics, None, None), lookups;
    }
    var (client, err) := NewClient(username, apiKey);
    if err.Some? {
      diagnostics := diagnostics + [GeneralError("Unable create omg.lol API client")];
    }
    resp := ConfigureResponse(diagnostics, Some(client), Some(client));
  }
}
