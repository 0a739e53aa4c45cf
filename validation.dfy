/** Configuration validators of the command-line layer (validation.go). The viper settings
    they read are passed in as a `Settings` value. */
module Validation {
  import opened Results
  import opened Strings
  import Paths
  import opened StringCollections
  import opened Cli

  const SecureScheme: string := "https://"

  /** The effective settings the validators look up: `interval`, `api-url`, `api-key`. */
  datatype Settings = Settings(interval: int, apiURL: string, apiKey: string)

  /** The errors the command-line layer reports about its configuration. */
  datatype ConfigError =
    | PollIntervalTooShort(minimum: int)      // "poll interval cannot be less than %s"
    | MissingBaseURL                          // "missing API base URL directive"
    | SSLRequired(url: string)                // "SSL is required for API Base URL (received %q)"
    | MissingAPIKey                           // "missing API key directive"
    | UnsupportedConfig(ext: string)          // viper.UnsupportedConfigError
    | TooFewArgs(min: nat, received: nat)     // cobra.MinimumNArgs
    | WrongArgCount(want: nat, received: nat) // cobra.ExactArgs
    | AbsPathFailed(path: string)             // an error from filepath.Abs
    | ConfigFileAlreadyExists(path: string)   // viper.ConfigFileAlreadyExistsError

  type Check = Outcome<ConfigError>

  /** `validatePollInterval`: the interval may not be shorter than the minimum. */
  function ValidatePollInterval(s: Settings): (r: Check)
    ensures r.Pass? <==> s.interval >= MinimumPollInterval
    ensures r.Fail? ==> r.error == PollIntervalTooShort(MinimumPollInterval)
  {
    if s.interval < MinimumPollInterval then Fail(PollIntervalTooShort(MinimumPollInterval)) else Pass
  }

  /** `validateBaseURL`: a URL must be given, and its scheme must be https in any letter case. */
  function ValidateBaseURL(s: Settings): (r: Check)
    ensures s.apiURL == "" ==> r == Fail(MissingBaseURL)
    ensures s.apiURL != "" ==> (r.Pass? <==> HasPrefix(ToLower(s.apiURL), SecureScheme))
    ensures s.apiURL != "" && r.Fail? ==> r.error == SSLRequired(s.apiURL)
  {
    if s.apiURL == "" then Fail(MissingBaseURL)
    else if !HasPrefix(ToLower(s.apiURL), SecureScheme) then Fail(SSLRequired(s.apiURL))
    else Pass
  }

  /** `validateAPIKey`: the key may not be empty. */
  function ValidateAPIKey(s: Settings): (r: Check)
    ensures r.Pass? <==> s.apiKey != ""
    ensures r.Fail? ==> r.error == MissingAPIKey
  {
    if s.apiKey == "" then Fail(MissingAPIKey) else Pass
  }

  /** The letter case of the URL never changes the verdict of `validateBaseURL`. */
  lemma BaseURLCaseInsensitive(s: Settings)
    ensures ValidateBaseURL(s).Pass? <==> ValidateBaseURL(s.(apiURL := ToLower(s.apiURL))).Pass?
  {
    ToLowerIdempotent(s.apiURL);
    assert s.apiURL == "" <==> ToLower(s.apiURL) == "";
  }

  /** `firstValidationError`: runs the validators in order and stops at the first error.
      `evaluated` counts the validators that were called. */
  method FirstValidationError(s: Settings, validators: seq<Settings -> Check>)
    returns (r: Check, ghost evaluated: nat)
    ensures evaluated <= |validators|
    ensures forall j :: 0 <= j < evaluated - 1 ==> validators[j](s).Pass?
    ensures r.Pass? <==> forall j :: 0 <= j < |validators| ==> validators[j](s).Pass?
    ensures r.Pass? ==> evaluated == |validators|
    ensures r.Fail? ==> 0 < evaluated && r == validators[evaluated - 1](s)
  {
    var i := 0;
    while i < |validators|
      invariant 0 <= i <= |validators|
      invariant forall j :: 0 <= j < i ==> validators[j](s).Pass?
    {
      var err := validators[i](s);
      if err.Fail? {
        return err, i + 1;
      }
      i := i + 1;
    }
    return Pass, i;
  }

  /** The validators of `config validate` and `config write --validate`, in their order. */
  function AgentValidators(): (vs: seq<Settings -> Check>)
    ensures |vs| == 3
  {
    [ValidateAPIKey, ValidateBaseURL, ValidatePollInterval]
  }

  /** `firstValidationError(cmd, validateAPIKey, validateBaseURL, validatePollInterval)`: the key
      is checked first, then the URL, then the interval, and the first problem is reported. */
  method ValidateAgentConfig(s: Settings) returns (r: Check)
    ensures s.apiKey == "" ==> r == Fail(MissingAPIKey)
    ensures s.apiKey != "" && s.apiURL == "" ==> r == Fail(MissingBaseURL)
    ensures s.apiKey != "" && s.apiURL != "" && !HasPrefix(ToLower(s.apiURL), SecureScheme) ==>
              r == Fail(SSLRequired(s.apiURL))
    ensures s.apiKey != "" && s.apiURL != "" && HasPrefix(ToLower(s.apiURL), SecureScheme) && s.interval < MinimumPollInterval
            ==> r == Fail(PollIntervalTooShort(MinimumPollInterval))
    ensures r == Pass <==> s.apiKey != "" && s.apiURL != "" && HasPrefix(ToLower(s.apiURL), SecureScheme)
                           && s.interval >= MinimumPollInterval
  {
    var validators := AgentValidators();
    ghost var evaluated;
    r, evaluated := FirstValidationError(s, validators);
    assert validators[0] == ValidateAPIKey && validators[1] == ValidateBaseURL
           && validators[2] == ValidatePollInterval;
  }

  /** The configuration type a name stands for: the text after its last '.' when it has
      an extension, otherwise the whole name. */
  function ConfigType(name: string): (t: string)
    ensures Paths.Ext(name) == "" ==> t == name
    ensures Paths.Ext(name) != "" ==> ['.'] + t == Paths.Ext(name)
    ensures '.' !in t || Paths.Ext(name) == ""
  {
    var ext := Paths.Ext(name);
    if |ext| > 0 then ext[1..] else name
  }

  /** A name is accepted when its configuration type is one of the supported extensions. */
  predicate Supported(supportedExts: seq<string>, name: string)
  {
    ConfigType(name) in supportedExts
  }

  /** The position of the first name whose configuration type is not supported, if any. */
  function FirstUnsupported(supportedExts: seq<string>, names: seq<string>): (r: Option<nat>)
    ensures r == None <==> forall i :: 0 <= i < |names| ==> Supported(supportedExts, names[i])
    ensures r.Some? ==> r.value < |names| && !Supported(supportedExts, names[r.value])
    ensures r.Some? ==> forall j :: 0 <= j < r.value ==> Supported(supportedExts, names[j])
  {
    if names == [] then None
    else if !Supported(supportedExts, names[0]) then Some(0)
    else
      match FirstUnsupported(supportedExts, names[1..])
      case None => None
      case Some(k) => Some(k + 1)
  }

  /** `validateConfigFileNames`: every name must be, or end in, a supported extension;
      the first one that does not is reported. */
  method ValidateConfigFileNames(supportedExts: seq<string>, names: seq<string>) returns (r: Check)
    ensures r.Pass? <==> FirstUnsupported(supportedExts, names) == None
    ensures r.Fail? ==> r.error == UnsupportedConfig(ConfigType(names[FirstUnsupported(supportedExts, names).value]))
  {
    var supported := new StringCollection(supportedExts);
    var i := 0;
    while i < |names|
      invariant 0 <= i <= |names|
      invariant supported.m == Elements(supportedExts)
      invariant forall j :: 0 <= j < i ==> Supported(supportedExts, names[j])
    {
      var toValidate := names[i];
      var ext := Paths.Ext(toValidate);
      if |ext| > 0 {
        toValidate := ext[1..];
      }
      assert toValidate == ConfigType(names[i]);
      var ok := supported.Contains(toValidate);
      assert ok <==> Supported(supportedExts, names[i]);
      if !ok {
        return Fail(UnsupportedConfig(toValidate));
      }
      i := i + 1;
    }
    return Pass;
  }
}
