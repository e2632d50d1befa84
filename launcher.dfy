/** The pipeline of `main` (src/main.rs:21-48): find the home folder, parse
    the command line, build the black list, then the white list, then the
    settings, then filter the inherited environment and lay the settings
    over it, and hand the result to `execute`. The home folder, the command
    line, the file system, the OS family and the inherited environment are
    parameters; `execute` is the `Exec` value the pipeline ends with. */
module Launcher {
  import opened Wrappers
  import opened Bytes
  import opened Names
  import opened Records
  import opened Lists
  import opened CommandLine
  import opened DefaultLiterals
  import opened Defaults

  /** What `execute` replaces the process with: the program, its arguments
      and the only environment it will see. */
  datatype Exec = Exec(program: OsString, arguments: seq<OsString>, environment: Environment)

  /** The inherited environment after `remove_var("HOME")`. */
  function WithoutHome(environment: Environment): (r: Environment)
    ensures Encode("HOME") !in r
    ensures forall name :: name in r <==> name in environment && name != Encode("HOME")
    ensures forall name :: name in r ==> r[name] == environment[name]
  {
    environment - {Encode("HOME")}
  }

  /** The black list once complete: the defaults, then the per-program file
      if there is one. */
  function BlackNames(home: OsString, programName: OsString, fs: FileSystem): Result<set<EnvironmentVariable>, Fatal> {
    var defaults := Elements(DefaultBlackList());
    match SettingsFor(fs, home, programName, Black)
    case None => Success(defaults)
    case Some(path) => BlackListFile(defaults, fs, path)
  }

  /** The white list once complete, checked against the complete black list:
      the defaults, then the per-program file if there is one. */
  function WhiteNames(black: set<EnvironmentVariable>, home: OsString, programName: OsString, fs: FileSystem)
    : Result<set<EnvironmentVariable>, Fatal>
  {
    match CheckedDefaults(black, DefaultWhiteList())
    case Failure(e) => Failure(e)
    case Success(defaults) =>
      match SettingsFor(fs, home, programName, White)
      case None => Success(defaults)
      case Some(path) => WhiteListFile(defaults, black, fs, path)
  }

  /** The settings once complete: the defaults, then the per-program file if
      there is one. */
  function LoadedSettings(home: OsString, programName: OsString, fs: FileSystem, isLinux: bool, live: Environment)
    : Result<SettingsMap, Fatal>
  {
    var defaults := DefaultSettingsMap(programName, home, isLinux, live);
    match SettingsFor(fs, home, programName, Settings)
    case None => Success(defaults)
    case Some(path) => SettingsFile(defaults, fs, path)
  }

  /** What `main` does, step by step, as one value: the first fatal error,
      or what is handed to `execute`. */
  function Launch(home: Option<OsString>, args: seq<OsString>, fs: FileSystem, isLinux: bool, environment: Environment)
    : Result<Exec, Fatal>
  {
    match home
    case None => Failure(NoHomeDirectory)
    case Some(homeFolder) =>
      match ParseCommandLineArguments(args)
      case Failure(e) => Failure(e)
      case Success((programName, arguments)) =>
        var live := WithoutHome(environment);
        match BlackNames(homeFolder, programName, fs)
        case Failure(e) => Failure(e)
        case Success(black) =>
          match WhiteNames(black, homeFolder, programName, fs)
          case Failure(e) => Failure(e)
          case Success(white) =>
            match LoadedSettings(homeFolder, programName, fs, isLinux, live)
            case Failure(e) => Failure(e)
            case Success(settings) =>
              Success(Exec(programName, arguments, Overlay(settings, Filtered(black, white, live))))
  }

  // ------------------------------------------------------------ what reaches exec

  /** A name without a NUL is never one a file adds. */
  lemma NotAFileName(records: seq<seq<byte>>, name: EnvironmentVariable)
    requires Nul !in name.bytes
    ensures name !in FileNames(records)
  {
    forall record | record in records ensures FromRawBytesWithoutADelimiter(record) != name {
      FileNameIsNeverNulFree(record, name.bytes);
    }
  }

  /** The names of the default settings hold no NUL. */
  lemma KeyNulFree(n: SettingName)
    ensures Nul !in Key(n).bytes
  {
    EncodeNulFree(n.Text());
  }

  /** The black-list file never decides whether a NUL-free name is
      black-listed: only the defaults do. */
  lemma BlackNamesNulFree(home: OsString, programName: OsString, fs: FileSystem, name: EnvironmentVariable)
    requires BlackNames(home, programName, fs).Success?
    requires Nul !in name.bytes
    ensures name in BlackNames(home, programName, fs).value <==> name in Elements(DefaultBlackList())
  {
    var path := SettingsFor(fs, home, programName, Black);
    if path.Some? {
      BlackListFileOnlyAdds(Elements(DefaultBlackList()), fs, path.value);
      NotAFileName(Split(ReadFile(fs, path.value).value), name);
    }
  }

  /** The default white list is never refused, whatever the black-list file
      holds: its names hold no NUL, so the file cannot have added them. */
  lemma WhiteDefaultsAccepted(home: OsString, programName: OsString, fs: FileSystem)
    requires BlackNames(home, programName, fs).Success?
    ensures CheckedDefaults(BlackNames(home, programName, fs).value, DefaultWhiteList()) == Success(Elements(DefaultWhiteList()))
  {
    var black := BlackNames(home, programName, fs).value;
    DefaultListsDisjoint();
    forall i | 0 <= i < |DefaultWhiteList()| ensures DefaultWhiteList()[i] !in black {
      EncodeNulFree(WhiteListLiterals[i]);
      BlackNamesNulFree(home, programName, fs, DefaultWhiteList()[i]);
    }
  }

  /** The white-list file never decides whether a NUL-free name is
      white-listed: only the defaults do. */
  lemma WhiteNamesNulFree(black: set<EnvironmentVariable>, home: OsString, programName: OsString, fs: FileSystem, name: EnvironmentVariable)
    requires WhiteNames(black, home, programName, fs).Success?
    requires Nul !in name.bytes
    ensures name in WhiteNames(black, home, programName, fs).value <==> name in Elements(DefaultWhiteList())
  {
    var path := SettingsFor(fs, home, programName, White);
    if path.Some? {
      WhiteListFileSkipsBlackListed(Elements(DefaultWhiteList()), black, fs, path.value);
      NotAFileName(Split(ReadFile(fs, path.value).value), name);
    }
  }

  /** The settings file never changes a NUL-free name's setting: only the
      defaults do. */
  lemma LoadedSettingsNulFree(home: OsString, programName: OsString, fs: FileSystem, isLinux: bool, live: Environment, name: EnvironmentVariable)
    requires LoadedSettings(home, programName, fs, isLinux, live).Success?
    requires Nul !in name.bytes
    ensures var settings := LoadedSettings(home, programName, fs, isLinux, live).value;
      var defaults := DefaultSettingsMap(programName, home, isLinux, live);
      && (name in settings <==> name in defaults)
      && (name in defaults ==> settings[name] == defaults[name])
  {
    var path := SettingsFor(fs, home, programName, Settings);
    if path.Some? {
      SettingsFileKeepsNulFreeNames(DefaultSettingsMap(programName, home, isLinux, live), fs, path.value, name);
    }
  }

  /** Whether a NUL-free name reaches the program, and with what value,
      depends only on the defaults: it is a default setting, with the
      setting's value, or an inherited variable other than HOME that the
      default white list names and the default black list does not, with
      its inherited value. */
  lemma LaunchNulFreeName(home: Option<OsString>, args: seq<OsString>, fs: FileSystem, isLinux: bool, environment: Environment, name: OsString)
    requires Launch(home, args, fs, isLinux, environment).Success?
    requires Nul !in name
    ensures var exec := Launch(home, args, fs, isLinux, environment).value;
      var defaults := DefaultSettingsMap(exec.program, home.value, isLinux, WithoutHome(environment));
      var inherited := name in environment && name != Encode("HOME")
        && EnvironmentVariable(name) in Elements(DefaultWhiteList()) && EnvironmentVariable(name) !in Elements(DefaultBlackList());
      && (name in exec.environment <==> EnvironmentVariable(name) in defaults || inherited)
      && (name in exec.environment ==>
            exec.environment[name] == if EnvironmentVariable(name) in defaults then defaults[EnvironmentVariable(name)] else environment[name])
  {
    var homeFolder := home.value;
    var (programName, arguments) := ParseCommandLineArguments(args).value;
    var live := WithoutHome(environment);
    var black := BlackNames(homeFolder, programName, fs).value;
    var white := WhiteNames(black, homeFolder, programName, fs).value;
    var variable := EnvironmentVariable(name);
    BlackNamesNulFree(homeFolder, programName, fs, variable);
    WhiteNamesNulFree(black, homeFolder, programName, fs, variable);
    LoadedSettingsNulFree(homeFolder, programName, fs, isLinux, live, variable);
  }

  /** What a default setting's name is bound to when the program starts:
      the default's value, whatever the inherited environment and the
      per-program files hold. */
  lemma LaunchDefaultSetting(home: Option<OsString>, args: seq<OsString>, fs: FileSystem, isLinux: bool, environment: Environment, n: SettingName)
    requires Launch(home, args, fs, isLinux, environment).Success?
    ensures var exec := Launch(home, args, fs, isLinux, environment).value;
      var value := DefaultValue(n, exec.program, home.value, isLinux, WithoutHome(environment));
      value.Some? ==> Key(n).bytes in exec.environment && exec.environment[Key(n).bytes] == value.value
  {
    var exec := Launch(home, args, fs, isLinux, environment).value;
    KeyNulFree(n);
    LaunchNulFreeName(home, args, fs, isLinux, environment, Key(n).bytes);
    DefaultSettingsLookup(exec.program, home.value, isLinux, WithoutHome(environment), n);
  }

  /** HOME is black-listed, yet the program sees HOME bound to the home
      folder: the settings overlay does not consult the lists. */
  lemma LaunchHome(home: Option<OsString>, args: seq<OsString>, fs: FileSystem, isLinux: bool, environment: Environment)
    requires Launch(home, args, fs, isLinux, environment).Success?
    ensures FromStr("HOME") in Elements(DefaultBlackList())
    ensures var exec := Launch(home, args, fs, isLinux, environment).value;
      Encode("HOME") in exec.environment && exec.environment[Encode("HOME")] == home.value
  {
    InLiterals(BlackListLiterals, "HOME");
    LaunchDefaultSetting(home, args, fs, isLinux, environment, Home);
  }

  /** An inherited TMPDIR never reaches the program, although TMPDIR is
      white-listed (`TmpDirWhiteListed`): the per-program temporary folder
      replaces it. */
  lemma LaunchTemporaryFolder(home: Option<OsString>, args: seq<OsString>, fs: FileSystem, isLinux: bool, environment: Environment)
    requires Launch(home, args, fs, isLinux, environment).Success?
    ensures var exec := Launch(home, args, fs, isLinux, environment).value;
      Encode("TMPDIR") in exec.environment && exec.environment[Encode("TMPDIR")] == TemporaryFolder(home.value, exec.program)
  {
    var exec := Launch(home, args, fs, isLinux, environment).value;
    assert Key(TmpDir).bytes == Encode("TMPDIR");
    assert DefaultValue(TmpDir, exec.program, home.value, isLinux, WithoutHome(environment)) == Some(TemporaryFolder(home.value, exec.program));
    LaunchDefaultSetting(home, args, fs, isLinux, environment, TmpDir);
  }

  /** The program always runs in UTC. */
  lemma LaunchTimeZone(home: Option<OsString>, args: seq<OsString>, fs: FileSystem, isLinux: bool, environment: Environment)
    requires Launch(home, args, fs, isLinux, environment).Success?
    ensures var exec := Launch(home, args, fs, isLinux, environment).value;
      Encode("TZ") in exec.environment && exec.environment[Encode("TZ")] == Encode("Etc/UTC")
  {
    LaunchDefaultSetting(home, args, fs, isLinux, environment, Tz);
  }

  /** TMPDIR is on the default white list. */
  lemma TmpDirWhiteListed()
    ensures FromStr("TMPDIR") in Elements(DefaultWhiteList())
  {
    InLiterals(WhiteListLiterals, "TMPDIR");
  }

  /** PATH holds no NUL, is not HOME, and passes both default lists. */
  lemma PathPassesLists()
    ensures Nul !in Encode("PATH") && Encode("PATH") != Encode("HOME")
    ensures FromStr("PATH") in Elements(DefaultWhiteList()) && FromStr("PATH") !in Elements(DefaultBlackList())
  {
    EncodeNulFree("PATH");
    EncodeInjective("PATH", "HOME");
    InLiterals(WhiteListLiterals, "PATH");
    PathNotBlack();
    InLiterals(BlackListLiterals, "PATH");
  }

  /** No default setting is named PATH. */
  lemma PathIsNoSetting(programName: OsString, home: OsString, isLinux: bool, live: Environment)
    ensures FromStr("PATH") !in DefaultSettingsMap(programName, home, isLinux, live)
  {
    var path := FromStr("PATH");
    if path in DefaultSettingsMap(programName, home, isLinux, live) {
      DefaultSettingsKeys(programName, home, isLinux, live, path);
      var n :| path == Key(n);
      NoSettingIsPath(n);
      EncodeInjective(n.Text(), "PATH");
    }
  }

  /** An inherited PATH reaches the program unchanged, and no PATH is
      invented when none is inherited. */
  lemma LaunchPath(home: Option<OsString>, args: seq<OsString>, fs: FileSystem, isLinux: bool, environment: Environment)
    requires Launch(home, args, fs, isLinux, environment).Success?
    ensures var exec := Launch(home, args, fs, isLinux, environment).value;
      && (Encode("PATH") in exec.environment <==> Encode("PATH") in environment)
      && (Encode("PATH") in environment ==> exec.environment[Encode("PATH")] == environment[Encode("PATH")])
  {
    var exec := Launch(home, args, fs, isLinux, environment).value;
    PathPassesLists();
    PathIsNoSetting(exec.program, home.value, isLinux, WithoutHome(environment));
    LaunchNulFreeName(home, args, fs, isLinux, environment, Encode("PATH"));
  }

  /** A black-list file fails only when it cannot be read or holds a NUL. */
  lemma BlackNamesFailure(home: OsString, programName: OsString, fs: FileSystem)
    ensures BlackNames(home, programName, fs).Failure? ==>
      BlackNames(home, programName, fs).error.CouldNotOpen? || BlackNames(home, programName, fs).error.ContainsNul?
  {
    var path := SettingsFor(fs, home, programName, Black);
    if path.Some? {
      BlackListFileOnlyAdds(Elements(DefaultBlackList()), fs, path.value);
    }
  }

  /** Once the black list is complete, the white list fails only when its
      file cannot be read or holds a NUL: the defaults are never refused. */
  lemma WhiteNamesFailure(home: OsString, programName: OsString, fs: FileSystem)
    requires BlackNames(home, programName, fs).Success?
    ensures var white := WhiteNames(BlackNames(home, programName, fs).value, home, programName, fs);
      white.Failure? ==> white.error.CouldNotOpen? || white.error.ContainsNul?
  {
    var black := BlackNames(home, programName, fs).value;
    WhiteDefaultsAccepted(home, programName, fs);
    var path := SettingsFor(fs, home, programName, White);
    if path.Some? {
      WhiteListFileSkipsBlackListed(Elements(DefaultWhiteList()), black, fs, path.value);
    }
  }

  /** The settings fail only when their file cannot be read or holds a
      record with a NUL or without a TAB. */
  lemma LoadedSettingsFailure(home: OsString, programName: OsString, fs: FileSystem, isLinux: bool, live: Environment)
    ensures var settings := LoadedSettings(home, programName, fs, isLinux, live);
      settings.Failure? ==> settings.error.CouldNotOpen? || settings.error.ContainsNul? || settings.error.NoTabDelimiter?
  {
    var path := SettingsFor(fs, home, programName, Settings);
    if path.Some? {
      SettingsFileOutcome(DefaultSettingsMap(programName, home, isLinux, live), fs, path.value);
    }
  }

  /** Which step fails first: no home folder, then a bad command line; and
      the default lists never clash, so every later failure is a file that
      cannot be read or holds a bad record. */
  lemma LaunchFailures(home: Option<OsString>, args: seq<OsString>, fs: FileSystem, isLinux: bool, environment: Environment)
    ensures home.None? ==> Launch(home, args, fs, isLinux, environment) == Failure(NoHomeDirectory)
    ensures home.Some? && ParseCommandLineArguments(args).Failure? ==>
      Launch(home, args, fs, isLinux, environment) == Failure(ParseCommandLineArguments(args).error)
    ensures home.Some? && ParseCommandLineArguments(args).Success? && Launch(home, args, fs, isLinux, environment).Failure? ==>
      var e := Launch(home, args, fs, isLinux, environment).error;
      e.CouldNotOpen? || e.ContainsNul? || e.NoTabDelimiter?
  {
    if home.Some? && ParseCommandLineArguments(args).Success? {
      var (programName, arguments) := ParseCommandLineArguments(args).value;
      BlackNamesFailure(home.value, programName, fs);
      if BlackNames(home.value, programName, fs).Success? {
        WhiteNamesFailure(home.value, programName, fs);
        LoadedSettingsFailure(home.value, programName, fs, isLinux, WithoutHome(environment));
      }
    }
  }

  /** Lines 27-31 of `main`: the black list from its defaults and the
      optional per-program file. */
  method LoadBlackList(homeFolder: OsString, programName: OsString, fs: FileSystem) returns (r: Result<BlackList, Fatal>)
    ensures match BlackNames(homeFolder, programName, fs)
      case Success(black) => r.Success? && fresh(r.value) && r.value.names == black
      case Failure(e) => r == Failure(e)
  {
    var blackList := new BlackList(DefaultBlackList());
    var path := SettingsFor(fs, homeFolder, programName, Black);
    if path.Some? {
      var loaded := blackList.AddToFromFile(fs, path.value);
      if loaded.Fail? {
        return Failure(loaded.error);
      }
    }
    return Success(blackList);
  }

  /** Lines 33-37 of `main`: the white list from its defaults, checked
      against the complete black list, and the optional per-program file. */
  method LoadWhiteList(blackList: BlackList, homeFolder: OsString, programName: OsString, fs: FileSystem)
    returns (r: Result<WhiteList, Fatal>)
    ensures match WhiteNames(blackList.names, homeFolder, programName, fs)
      case Success(white) => r.Success? && fresh(r.value) && r.value.names == white && r.value.blackList == blackList
      case Failure(e) => r == Failure(e)
  {
    var created := WhiteList.New(blackList, DefaultWhiteList());
    if created.Failure? {
      return Failure(created.error);
    }
    var whiteList := created.value;
    var path := SettingsFor(fs, homeFolder, programName, White);
    if path.Some? {
      var loaded := whiteList.AddToFromFile(fs, path.value);
      if loaded.Fail? {
        return Failure(loaded.error);
      }
    }
    return Success(whiteList);
  }

  /** Lines 39-43 of `main`: the default settings and the optional
      per-program file. */
  method LoadSettingsList(homeFolder: OsString, programName: OsString, fs: FileSystem, isLinux: bool, live: Environment)
    returns (r: Result<SettingsList, Fatal>)
    ensures match LoadedSettings(homeFolder, programName, fs, isLinux, live)
      case Success(settings) => r.Success? && fresh(r.value) && r.value.settings == settings
      case Failure(e) => r == Failure(e)
  {
    var defaults := DefaultSettings(programName, homeFolder, isLinux, live);
    var settingsList := new SettingsList(defaults);
    var path := SettingsFor(fs, homeFolder, programName, Settings);
    if path.Some? {
      var loaded := settingsList.AddToFromFile(fs, path.value);
      if loaded.Fail? {
        return Failure(loaded.error);
      }
    }
    return Success(settingsList);
  }

  /** `main`, over the list objects, in the program's order. */
  method Run(home: Option<OsString>, args: seq<OsString>, fs: FileSystem, isLinux: bool, environment: Environment)
    returns (r: Result<Exec, Fatal>)
    ensures r == Launch(home, args, fs, isLinux, environment)
  {
    if home.None? {
      return Failure(NoHomeDirectory);
    }
    var homeFolder := home.value;
    var parsed := ParseCommandLineArguments(args);
    if parsed.Failure? {
      return Failure(parsed.error);
    }
    var (programName, arguments) := parsed.value;
    var live := WithoutHome(environment);
    var blackList := LoadBlackList(homeFolder, programName, fs);
    if blackList.Failure? {
      return Failure(blackList.error);
    }
    var whiteList := LoadWhiteList(blackList.value, homeFolder, programName, fs);
    if whiteList.Failure? {
      return Failure(whiteList.error);
    }
    var settingsList := LoadSettingsList(homeFolder, programName, fs, isLinux, live);
    if settingsList.Failure? {
      return Failure(settingsList.error);
    }
    var filtered := whiteList.value.FilterEnvironment(live);
    var finalEnvironment := settingsList.value.AddSettingsToEnvironment(filtered);
    return Success(Exec(programName, arguments, finalEnvironment));
  }
}
