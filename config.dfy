/** The `config` subcommands (config.go): argument checks and shell completion of
    `config write`, the output paths it writes to, and `config types check`.
    viper's list of supported extensions is passed in as `supportedExts`. */
module ConfigCmd {
  import opened Results
  import opened Strings
  import opened Paths
  import opened StringCollections
  import opened Validation
  import opened Cli

  /** cobra's shell completion directives used by `config write`. */
  datatype Directive = ShellCompDirectiveDefault | ShellCompDirectiveNoFileComp

  /** The `Args` check of `config write`: at least one argument, and every argument is,
      or ends in, a supported extension. The count is checked first. */
  method WriteArgs(supportedExts: seq<string>, args: seq<string>) returns (r: Check)
    ensures |args| == 0 ==> r == Fail(TooFewArgs(1, 0))
    ensures |args| > 0 ==> (r.Pass? <==> forall i :: 0 <= i < |args| ==> Supported(supportedExts, args[i]))
    ensures |args| > 0 && r.Fail? ==>
              r.error == UnsupportedConfig(ConfigType(args[FirstUnsupported(supportedExts, args).value]))
  {
    if |args| < 1 {
      return Fail(TooFewArgs(1, |args|));
    }
    r := ValidateConfigFileNames(supportedExts, args);
  }

  /** The supported extensions, in their order, that are not among the arguments already given. */
  function Unseen(exts: seq<string>, args: seq<string>): (r: seq<string>)
    ensures |r| <= |exts|
    ensures forall e :: e in r <==> e in exts && e !in args
  {
    if exts == [] then []
    else
      var last := exts[|exts| - 1];
      assert exts == exts[..|exts| - 1] + [last];
      Unseen(exts[..|exts| - 1], args) + (if last !in args then [last] else [])
  }

  /** `prefix.ext` for every unseen extension that starts with `suffix`, in their order. */
  function Extended(exts: seq<string>, args: seq<string>, prefix: string, suffix: string): (r: seq<string>)
    ensures |r| <= |exts|
    ensures forall e :: e in exts && e !in args && HasPrefix(e, suffix) ==> prefix + "." + e in r
    ensures forall c :: c in r ==> exists e :: e in exts && e !in args && HasPrefix(e, suffix) && c == prefix + "." + e
  {
    if exts == [] then []
    else
      var last := exts[|exts| - 1];
      assert exts == exts[..|exts| - 1] + [last];
      Extended(exts[..|exts| - 1], args, prefix, suffix)
        + (if last !in args && HasPrefix(last, suffix) then [prefix + "." + last] else [])
  }

  /** The part of a partially typed word before its last '.'. */
  function DotPrefix(toComplete: string): string
    requires '.' in toComplete
  {
    toComplete[..LastIndexOf(toComplete, '.')]
  }

  /** The part of a partially typed word after its last '.'. */
  function DotSuffix(toComplete: string): string
    requires '.' in toComplete
  {
    toComplete[LastIndexOf(toComplete, '.') + 1..]
  }

  /** The `ValidArgsFunction` of `config write`: every supported extension not given yet, then,
      when the word being completed has a '.', that word's prefix joined to each unseen extension
      that starts with the text after the last '.'. File completion is switched off in safe mode. */
  method CompleteWriteArgs(supportedExts: seq<string>, args: seq<string>, toComplete: string, safe: bool)
    returns (completions: seq<string>, directive: Directive)
    ensures '.' !in toComplete ==> completions == Unseen(supportedExts, args)
    ensures '.' in toComplete ==>
              completions == Unseen(supportedExts, args)
                             + Extended(supportedExts, args, DotPrefix(toComplete), DotSuffix(toComplete))
    ensures directive == ShellCompDirectiveNoFileComp <==> safe
  {
    var seenArgs := new StringCollection(args);
    completions := UnseenExtensions(seenArgs, supportedExts, args);
    if '.' in toComplete {
      var dot := LastIndexOf(toComplete, '.');
      var prefix := toComplete[..dot];
      var suffix := toComplete[dot + 1..];
      var extra := ExtendedCompletions(seenArgs, supportedExts, args, prefix, suffix);
      completions := completions + extra;
    }
    directive := ShellCompDirectiveDefault;
    if safe {
      directive := ShellCompDirectiveNoFileComp;
    }
  }

  /** The first completion loop: the supported extensions not yet seen, in order. */
  method UnseenExtensions(seenArgs: StringCollection, supportedExts: seq<string>, ghost args: seq<string>)
    returns (completions: seq<string>)
    requires seenArgs.m == Elements(args)
    ensures completions == Unseen(supportedExts, args)
  {
    completions := [];
    var i := 0;
    while i < |supportedExts|
      invariant 0 <= i <= |supportedExts|
      invariant completions == Unseen(supportedExts[..i], args)
    {
      var ext := supportedExts[i];
      var seen := seenArgs.Contains(ext);
      assert supportedExts[..i + 1][..i] == supportedExts[..i];
      if !seen {
        completions := completions + [ext];
      }
      i := i + 1;
    }
    assert supportedExts[..i] == supportedExts;
  }

  /** The second completion loop: `prefix.ext` for each unseen extension starting with `suffix`. */
  method ExtendedCompletions(seenArgs: StringCollection, supportedExts: seq<string>, ghost args: seq<string>,
                             prefix: string, suffix: string)
    returns (extra: seq<string>)
    requires seenArgs.m == Elements(args)
    ensures extra == Extended(supportedExts, args, prefix, suffix)
  {
    extra := [];
    var j := 0;
    while j < |supportedExts|
      invariant 0 <= j <= |supportedExts|
      invariant extra == Extended(supportedExts[..j], args, prefix, suffix)
    {
      var ext := supportedExts[j];
      var seen := seenArgs.Contains(ext);
      assert supportedExts[..j + 1][..j] == supportedExts[..j];
      if !seen && HasPrefix(ext, suffix) {
        extra := extra + [prefix + "." + ext];
      }
      j := j + 1;
    }
    assert supportedExts[..j] == supportedExts;
  }

  /** Where `config write` puts the file for one argument: an absolute argument keeps its own
      directory, anything else goes to the output directory; an argument without an extension is
      a bare type and names the file `mydyndns.<type>`. */
  function OutputPath(defaultBasePath: string, arg: string): string
  {
    var (basePath, f) := if IsAbs(arg) then Split(arg) else (defaultBasePath, arg);
    Join(basePath, if Ext(f) == "" then DefaultConfigFilename + "." + f else f)
  }

  /** The scan of `filepath.Ext` over a final element that follows a directory part finds
      the same extension as the scan over that element alone. */
  lemma {:induction false} ExtScanOfFinalElement(dir: string, file: string, k: nat)
    requires Separator !in file
    requires k <= |file| && '.' !in file[k..]
    requires dir == [] || dir[|dir| - 1] == Separator
    ensures ExtBefore(dir + file, |dir| + k) == ExtBefore(file, k)
    decreases k
  {
    var path := dir + file;
    assert path[|dir| + k..] == file[k..];
    if k > 0 {
      assert path[|dir| + k - 1] == file[k - 1];
      if file[k - 1] == '.' {
        assert path[|dir| + k - 1..] == file[k - 1..];
      } else {
        assert file[k - 1..] == [file[k - 1]] + file[k..];
        ExtScanOfFinalElement(dir, file, k - 1);
      }
    }
  }

  /** The extension of a path is the extension of its final element. */
  lemma ExtOfFinalElement(dir: string, file: string)
    requires Separator !in file
    requires dir == [] || dir[|dir| - 1] == Separator
    ensures Ext(dir + file) == Ext(file)
  {
    ExtScanOfFinalElement(dir, file, |file|);
  }

  /** A relative argument without an extension becomes `mydyndns.<arg>` in the output directory. */
  lemma BareTypeUsesDefaultName(defaultBasePath: string, arg: string)
    requires !IsAbs(arg) && Ext(arg) == ""
    ensures OutputPath(defaultBasePath, arg) == Join(defaultBasePath, DefaultConfigFilename + "." + arg)
  {
  }

  /** A relative argument with an extension is used as the file name in the output directory. */
  lemma RelativeNameKept(defaultBasePath: string, arg: string)
    requires !IsAbs(arg) && Ext(arg) != ""
    ensures OutputPath(defaultBasePath, arg) == Join(defaultBasePath, arg)
  {
  }

  /** An absolute argument with an extension is written exactly where it points, whatever
      the output directory. */
  lemma AbsolutePathKept(defaultBasePath: string, arg: string)
    requires IsAbs(arg) && Ext(arg) != ""
    ensures OutputPath(defaultBasePath, arg) == arg
  {
    var (dir, file) := Split(arg);
    ExtOfFinalElement(dir, file);
    SplitJoinRoundTrip(arg);
  }

  /** The body of the write loop for one argument: `basePath` and `f` are reassigned step by step. */
  method ResolveOutputPath(defaultBasePath: string, arg: string) returns (configPath: string)
    ensures configPath == OutputPath(defaultBasePath, arg)
  {
    var f := arg;
    var basePath := defaultBasePath;
    if IsAbs(f) {
      basePath, f := Split(f).0, Split(f).1;
    }
    if Ext(f) == "" {
      f := DefaultConfigFilename + "." + f;
    }
    configPath := Join(basePath, f);
  }

  /** The `RunE` of `config write`: the output directory is made absolute (`abs` stands for
      `filepath.Abs`, which can fail), then each argument is written, in order, to its output path,
      and the first failing write stops the command with that error. `write(done, path)` stands for
      viper's `WriteConfigAs` (or `SafeWriteConfigAs` in safe mode) after the paths `done` have
      been written by this command; `written` lists the paths written. */
  method WriteConfigFiles(directory: string, abs: string -> Option<string>, args: seq<string>,
                          write: (seq<string>, string) -> Check)
    returns (written: seq<string>, r: Check)
    ensures abs(directory).None? ==> written == [] && r == Fail(AbsPathFailed(directory))
    ensures |written| <= |args|
    ensures abs(directory).Some? ==>
              forall i {:trigger written[i]} :: 0 <= i < |written| ==>
                written[i] == OutputPath(abs(directory).value, args[i]) && write(written[..i], written[i]).Pass?
    ensures abs(directory).Some? ==> (r.Pass? <==> |written| == |args|)
    ensures abs(directory).Some? && r.Fail? ==> r == write(written, OutputPath(abs(directory).value, args[|written|]))
  {
    var absPath := abs(directory);
    if absPath.None? {
      return [], Fail(AbsPathFailed(directory));
    }
    var defaultBasePath := absPath.value;
    written := [];
    var i := 0;
    while i < |args|
      invariant 0 <= i <= |args| && |written| == i
      invariant forall k {:trigger written[k]} :: 0 <= k < i ==> written[k] == OutputPath(defaultBasePath, args[k])
      invariant forall k {:trigger written[k]} :: 0 <= k < i ==> write(written[..k], written[k]).Pass?
    {
      var configPath := ResolveOutputPath(defaultBasePath, args[i]);
      ghost var done := written;
      var err := write(written, configPath);
      if err.Fail? {
        return written, err;
      }
      written := written + [configPath];
      assert forall k :: 0 <= k < i ==> written[k] == done[k] && written[..k] == done[..k];
      assert written[..i] == done;
      i := i + 1;
    }
    r := Pass;
  }

  /** `SafeWriteConfigAs`: refuses a path that exists, whether it existed before the command
      (`existing`) or the command wrote it already. */
  function SafeWrite(existing: set<string>): (seq<string>, string) -> Check
  {
    (done: seq<string>, path: string) =>
      if path in existing || path in done then Fail(ConfigFileAlreadyExists(path)) else Pass
  }

  /** `config write <arg> <arg> --safe`: the file is written once, and the second write of the
      same path is refused. */
  method SafeWriteOfRepeatedName(directory: string, abs: string -> Option<string>, existing: set<string>, arg: string)
    returns (written: seq<string>, r: Check)
    requires abs(directory).Some? && OutputPath(abs(directory).value, arg) !in existing
    ensures written == [OutputPath(abs(directory).value, arg)]
    ensures r == Fail(ConfigFileAlreadyExists(OutputPath(abs(directory).value, arg)))
  {
    var path := OutputPath(abs(directory).value, arg);
    written, r := WriteConfigFiles(directory, abs, [arg, arg], SafeWrite(existing));
    assert SafeWrite(existing)([], path) == Pass;
    assert SafeWrite(existing)([path], path) == Fail(ConfigFileAlreadyExists(path));
    assert |written| == 0 ==> written == [] && r.Fail? && r == SafeWrite(existing)([], path);
    LeadingPaths(written);
    assert |written| == 1 && written[0] == path;
  }

  /** The first one and the first two paths of a list, as lists. */
  lemma LeadingPaths(paths: seq<string>)
    ensures |paths| >= 2 ==> paths[..1] == [paths[0]] && paths[..2] == [paths[0], paths[1]]
  {
  }

  /** The `RunE` of `config types check` (with its `ExactArgs(1)` check): succeeds iff the
      argument's extension, or the whole argument when it has none, is supported. */
  method TypesCheck(supportedExts: seq<string>, args: seq<string>) returns (r: Check)
    ensures |args| != 1 ==> r == Fail(WrongArgCount(1, |args|))
    ensures |args| == 1 ==> (r.Pass? <==> Supported(supportedExts, args[0]))
    ensures |args| == 1 && r.Fail? ==> r.error == UnsupportedConfig(ConfigType(args[0]))
  {
    if |args| != 1 {
      return Fail(WrongArgCount(1, |args|));
    }
    var checkExt := args[0];
    var e := Ext(checkExt);
    if |e| > 0 {
      checkExt := e[1..];
    }
    assert checkExt == ConfigType(args[0]);
    var i := 0;
    while i < |supportedExts|
      invariant 0 <= i <= |supportedExts|
      invariant checkExt !in supportedExts[..i]
    {
      if checkExt == supportedExts[i] {
        return Pass;
      }
      assert supportedExts[..i + 1] == supportedExts[..i] + [supportedExts[i]];
      i := i + 1;
    }
    assert supportedExts[..i] == supportedExts;
    return Fail(UnsupportedConfig(checkExt));
  }
}
