/** The root command's configuration bootstrap (root.go): how the config file is located from
    flags and environment variables, and how flag names map to environment variable names. */
module Root {
  import opened Results
  import opened Strings
  import opened Paths
  import opened Cli

  const ConfigPathFlagName: string := "config-path"
  const ConfigFileFlagName: string := "config-file"

  /** `fmt.Sprintf("%s_CONFIG_PATH", envPrefix)` and `fmt.Sprintf("%s_CONFIG_FILE", envPrefix)`. */
  const ConfigPathEnvVar: string := EnvPrefix + "_CONFIG_PATH"
  const ConfigFileEnvVar: string := EnvPrefix + "_CONFIG_FILE"

  /** `flagNameToEnvVar`: the upper-cased prefix, '_', then the upper-cased flag name with
      every '-' replaced by '_'. */
  function FlagNameToEnvVar(envVarPrefix: string, flagName: string): (r: string)
    ensures |r| == |envVarPrefix| + 1 + |flagName|
    ensures r[..|envVarPrefix|] == ToUpper(envVarPrefix)
    ensures r[|envVarPrefix|] == '_'
    ensures forall i :: 0 <= i < |flagName| ==>
              r[|envVarPrefix| + 1 + i] == (if flagName[i] == '-' then '_' else UpperChar(flagName[i]))
  {
    var envVarSuffix := ReplaceChar(flagName, '-', '_');
    ToUpper(envVarPrefix) + "_" + ToUpper(envVarSuffix)
  }

  /** The flag-name part of an environment variable name has no '-' and no lower-case letter. */
  lemma EnvVarSuffixShape(envVarPrefix: string, flagName: string)
    ensures forall i :: |envVarPrefix| < i < |FlagNameToEnvVar(envVarPrefix, flagName)| ==>
              FlagNameToEnvVar(envVarPrefix, flagName)[i] != '-'
              && !IsLowerAscii(FlagNameToEnvVar(envVarPrefix, flagName)[i])
  {
    var r := FlagNameToEnvVar(envVarPrefix, flagName);
    forall i | |envVarPrefix| < i < |r| ensures r[i] != '-' && !IsLowerAscii(r[i]) {
      var j := i - |envVarPrefix| - 1;
      assert r[|envVarPrefix| + 1 + j] == (if flagName[j] == '-' then '_' else UpperChar(flagName[j]));
    }
  }

  /** A string flag: its current value and whether it was set on the command line. */
  datatype Flag = Flag(value: string, changed: bool)

  /** pflag's "flag accessed but not defined: <name>". */
  datatype FlagError = NotDefined(name: string)

  /** Where viper is told to read its configuration from. */
  datatype ConfigSource =
    | ExplicitFile(path: string)                          // v.SetConfigFile(path)
    | Discover(name: string, searchPath: string)          // v.SetConfigName(name); v.AddConfigPath(searchPath)

  /** The search path: the `config-path` flag when it was set, otherwise the environment
      variable when present, otherwise the flag's default value. */
  function SearchPath(pathFlag: Flag, env: map<string, string>): string
  {
    if !pathFlag.changed && ConfigPathEnvVar in env then env[ConfigPathEnvVar] else pathFlag.value
  }

  /** The decision of `bootstrapConfigFile`, for flags that are defined: a config file named by the
      `config-file` flag, else by the environment, is explicit and is joined to the search path
      unless absolute; otherwise the default name is discovered in the search path. */
  function ConfigSourceFor(pathFlag: Flag, fileFlag: Flag, env: map<string, string>): ConfigSource
  {
    var searchPath := SearchPath(pathFlag, env);
    if fileFlag.changed || ConfigFileEnvVar in env then
      var filename := if fileFlag.changed then fileFlag.value else env[ConfigFileEnvVar];
      ExplicitFile(if IsAbs(filename) then filename else Join(searchPath, filename))
    else
      Discover(DefaultConfigFilename, searchPath)
  }

  /** The search paths after `AddConfigPath(path)`: an empty path is ignored; otherwise its
      absolute form is appended unless it is already listed. */
  function WithSearchPath(paths: seq<string>, absPathify: string -> string, path: string): (r: seq<string>)
    ensures path == "" || absPathify(path) in paths ==> r == paths
    ensures path != "" && absPathify(path) !in paths ==> r == paths + [absPathify(path)]
  {
    if path == "" || absPathify(path) in paths then paths else paths + [absPathify(path)]
  }

  /** The viper instance's configuration-file settings that `bootstrapConfigFile` changes.
      `absPathify` stands for viper's conversion of a search path to an absolute one. */
  class Viper {
    var configFile: string
    var configName: string
    var configPaths: seq<string>
    const absPathify: string -> string

    constructor (absPathify: string -> string)
      ensures configFile == "" && configName == "" && configPaths == [] && this.absPathify == absPathify
    {
      configFile, configName, configPaths := "", "", [];
      this.absPathify := absPathify;
    }

    /** `SetConfigFile`: an empty path is ignored. */
    method SetConfigFile(path: string)
      modifies this
      ensures configFile == if path == "" then old(configFile) else path
      ensures configName == old(configName) && configPaths == old(configPaths)
    {
      if path != "" {
        configFile := path;
      }
    }

    /** `SetConfigName`: an empty name is ignored; otherwise the name is set and any explicit
        config file is forgotten. */
    method SetConfigName(name: string)
      modifies this
      ensures name == "" ==> configName == old(configName) && configFile == old(configFile)
      ensures name != "" ==> configName == name && configFile == ""
      ensures configPaths == old(configPaths)
    {
      if name != "" {
        configName := name;
        configFile := "";
      }
    }

    /** `AddConfigPath`. */
    method AddConfigPath(path: string)
      modifies this
      ensures configPaths == WithSearchPath(old(configPaths), absPathify, path)
      ensures configFile == old(configFile) && configName == old(configName)
    {
      if path != "" {
        var absPath := absPathify(path);
        if absPath !in configPaths {
          configPaths := configPaths + [absPath];
        }
      }
    }
  }

  /** `bootstrapConfigFile`: reads the two flags (an undefined one is an error and changes nothing),
      settles the search path and the config file step by step, and configures `v` accordingly.
      `explicit` reports whether a config file was named by flag or environment. */
  method BootstrapConfigFile(flags: map<string, Flag>, env: map<string, string>, v: Viper)
    returns (explicit: bool, err: Option<FlagError>)
    modifies v
    ensures ConfigPathFlagName !in flags ==> err == Some(NotDefined(ConfigPathFlagName))
    ensures ConfigPathFlagName in flags && ConfigFileFlagName !in flags ==> err == Some(NotDefined(ConfigFileFlagName))
    ensures err.Some? ==> !explicit && unchanged(v)
    ensures err.None? <==> ConfigPathFlagName in flags && ConfigFileFlagName in flags
    ensures err.None? ==>
              var source := ConfigSourceFor(flags[ConfigPathFlagName], flags[ConfigFileFlagName], env);
              && explicit == source.ExplicitFile?
              && (source.ExplicitFile? ==> v.configFile == (if source.path == "" then old(v.configFile) else source.path)
                                           && v.configName == old(v.configName) && v.configPaths == old(v.configPaths))
              && (source.Discover? ==> v.configName == source.name && v.configFile == ""
                                       && v.configPaths == WithSearchPath(old(v.configPaths), v.absPathify, source.searchPath))
  {
    if ConfigPathFlagName !in flags {
      return false, Some(NotDefined(ConfigPathFlagName));
    }
    var configSearchPath := flags[ConfigPathFlagName].value;
    if !flags[ConfigPathFlagName].changed {
      if ConfigPathEnvVar in env {
        configSearchPath := env[ConfigPathEnvVar];
      }
    }

    var explicitConfigFile := false;
    if ConfigFileFlagName !in flags {
      return false, Some(NotDefined(ConfigFileFlagName));
    }
    var configFilename := flags[ConfigFileFlagName].value;
    if flags[ConfigFileFlagName].changed {
      explicitConfigFile := true;
    } else if ConfigFileEnvVar in env {
      explicitConfigFile := true;
      configFilename := env[ConfigFileEnvVar];
    }

    if explicitConfigFile {
      if !IsAbs(configFilename) {
        configFilename := Join(configSearchPath, configFilename);
      }
      v.SetConfigFile(configFilename);
    } else {
      v.SetConfigName(DefaultConfigFilename);
      v.AddConfigPath(configSearchPath);
    }
    return explicitConfigFile, None;
  }

  /** Once the `config-path` flag is set, the environment cannot change the search path. */
  lemma SearchPathFlagWins(pathFlag: Flag, env1: map<string, string>, env2: map<string, string>)
    requires pathFlag.changed
    ensures SearchPath(pathFlag, env1) == SearchPath(pathFlag, env2) == pathFlag.value
  {
  }

  /** A config file is explicit iff the `config-file` flag was set or its environment variable is. */
  lemma ExplicitIffFlagOrEnv(pathFlag: Flag, fileFlag: Flag, env: map<string, string>)
    ensures ConfigSourceFor(pathFlag, fileFlag, env).ExplicitFile? <==> fileFlag.changed || ConfigFileEnvVar in env
  {
  }

  /** When the `config-file` flag is set, the environment's config file is ignored. */
  lemma FileFlagWinsOverEnv(pathFlag: Flag, fileFlag: Flag, env1: map<string, string>, env2: map<string, string>)
    requires pathFlag.changed && fileFlag.changed
    ensures ConfigSourceFor(pathFlag, fileFlag, env1) == ConfigSourceFor(pathFlag, fileFlag, env2)
  {
  }

  /** An explicit absolute config file is used unchanged; a relative one is joined to the search path. */
  lemma ExplicitFileLocation(pathFlag: Flag, fileFlag: Flag, env: map<string, string>)
    requires fileFlag.changed
    ensures IsAbs(fileFlag.value) ==> ConfigSourceFor(pathFlag, fileFlag, env) == ExplicitFile(fileFlag.value)
    ensures !IsAbs(fileFlag.value) ==>
              ConfigSourceFor(pathFlag, fileFlag, env) == ExplicitFile(Join(SearchPath(pathFlag, env), fileFlag.value))
  {
  }

  /** Without a config file from flag or environment, the default name is discovered in the search path. */
  lemma ImplicitFileDiscovered(pathFlag: Flag, fileFlag: Flag, env: map<string, string>)
    requires !fileFlag.changed && ConfigFileEnvVar !in env
    ensures ConfigSourceFor(pathFlag, fileFlag, env) == Discover(DefaultConfigFilename, SearchPath(pathFlag, env))
  {
  }
}
