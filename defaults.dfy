/** The literal names of `defaultBlackList` and `defaultWhiteList`
    (src/main.rs:76-154), as strings, and the facts about them that need
    only string comparison. */
module DefaultLiterals {
  /** The literals of `defaultBlackList`: loader-influencing, identity and
      sudo names. Two of them end in a space, exactly as the program has them. */
  const BlackListLiterals: seq<string> := [
    "CDPATH",
    "LD_LIBRARY_PATH",
    "LD_PRELOAD",
    "DYLD_LIBRARY_PATH",
    "DYLD_FALLBACK_LIBRARY_PATH",
    "DYLD_FRAMEWORK_PATH",
    "DYLD_FALLBACK_FRAMEWORK_PATH",
    "LD_BIND_NOW ",
    "LD_TRACE_LOADED_OBJECTS",
    "LD_AOUT_LIBRARY_PATH",
    "LD_AOUT_PRELOAD",
    "LD_AUDIT",
    "LD_BIND_NOT",
    "LD_DEBUG",
    "LD_DEBUG_OUTPUT",
    "LD_DYNAMIC_WEAK",
    "LD_HWCAP_MASK",
    "LD_KEEPDIR",
    "LD_NOWARN",
    "LD_ORIGIN_PATH",
    "LD_POINTER_GUARD",
    "LD_PROFILE",
    "LD_PROFILE_OUTPUT",
    "LD_SHOW_AUXV",
    "LD_USE_LOAD_BIAS",
    "LD_VERBOSE",
    "LD_WARN",
    "LDD_ARGV0 ",
    "LOGNAME",
    "USER",
    "SUDO_USER",
    "SUDO_UID",
    "SUDO_COMMAND",
    "SUDO_GID",
    "HOME"
  ]

  /** The literals of `defaultWhiteList`: the search path and the temporary folder. */
  const WhiteListLiterals: seq<string> := ["PATH", "TMPDIR"]

  lemma PathNotBlack()
    ensures "PATH" !in BlackListLiterals
  {
  }

  lemma TmpDirNotBlack()
    ensures "TMPDIR" !in BlackListLiterals
  {
  }

  /** The variables `defaultSettings` may set. */
  datatype SettingName = Tz | Home | TmpDir | HomebrewNoAnalytics
    | LcAll | LcCollate | LcCtype | LcMessages | LcMonetary | LcNumeric | LcTime | Lang
    | User | LogName
  {
    /** The literal the program writes for the variable. */
    function Text(): string {
      match this
      case Tz => "TZ"
      case Home => "HOME"
      case TmpDir => "TMPDIR"
      case HomebrewNoAnalytics => "HOMEBREW_NO_ANALYTICS"
      case LcAll => "LC_ALL"
      case LcCollate => "LC_COLLATE"
      case LcCtype => "LC_CTYPE"
      case LcMessages => "LC_MESSAGES"
      case LcMonetary => "LC_MONETARY"
      case LcNumeric => "LC_NUMERIC"
      case LcTime => "LC_TIME"
      case Lang => "LANG"
      case User => "USER"
      case LogName => "LOGNAME"
    }

    /** One of the eight locale variables. */
    predicate IsLocale() {
      this in {LcAll, LcCollate, LcCtype, LcMessages, LcMonetary, LcNumeric, LcTime, Lang}
    }
  }

  /** No default setting is named PATH. */
  lemma NoSettingIsPath(n: SettingName)
    ensures n.Text() != "PATH"
  {
    match n
    case Tz => assert "TZ"[0] != "PATH"[0];
    case Home => assert "HOME"[0] != "PATH"[0];
    case TmpDir => assert "TMPDIR"[0] != "PATH"[0];
    case HomebrewNoAnalytics => assert "HOMEBREW_NO_ANALYTICS"[0] != "PATH"[0];
    case LcAll => assert "LC_ALL"[0] != "PATH"[0];
    case LcCollate => assert "LC_COLLATE"[0] != "PATH"[0];
    case LcCtype => assert "LC_CTYPE"[0] != "PATH"[0];
    case LcMessages => assert "LC_MESSAGES"[0] != "PATH"[0];
    case LcMonetary => assert "LC_MONETARY"[0] != "PATH"[0];
    case LcNumeric => assert "LC_NUMERIC"[0] != "PATH"[0];
    case LcTime => assert "LC_TIME"[0] != "PATH"[0];
    case Lang => assert "LANG"[0] != "PATH"[0];
    case User => assert "USER"[0] != "PATH"[0];
    case LogName => assert "LOGNAME"[0] != "PATH"[0];
  }

  /** No two setting names share a literal. */
  lemma TextInjective(a: SettingName, b: SettingName)
    ensures a.Text() == b.Text() <==> a == b
  {
  }

  lemma LoaderLiteralsHaveASpace()
    ensures "LD_BIND_NOW " in BlackListLiterals && "LDD_ARGV0 " in BlackListLiterals
  {
  }

  lemma LdBindNowNotListed()
    ensures "LD_BIND_NOW" !in BlackListLiterals
  {
  }

  lemma LddArgv0NotListed()
    ensures "LDD_ARGV0" !in BlackListLiterals
  {
  }
}

/** The default tables and configuration paths of src/main.rs:50-220. The
    home folder, the file system, the OS family and the live environment
    are parameters. */
module Defaults {
  import opened DefaultLiterals
  import opened Wrappers
  import opened Bytes
  import opened Names
  import opened Records
  import opened Lists

  /** A vector of `&str` literals turned `.into()` names. */
  function FromLiterals(literals: seq<string>): (r: seq<EnvironmentVariable>)
    ensures |r| == |literals| && forall i :: 0 <= i < |r| ==> r[i] == FromStr(literals[i])
  {
    seq(|literals|, i requires 0 <= i < |literals| => FromStr(literals[i]))
  }

  /** A literal's name is among the names of a list of literals exactly when
      the literal itself is in the list. */
  lemma InLiterals(literals: seq<string>, s: string)
    ensures FromStr(s) in Elements(FromLiterals(literals)) <==> s in literals
  {
    var names := FromLiterals(literals);
    if FromStr(s) in Elements(names) {
      var i :| 0 <= i < |names| && names[i] == FromStr(s);
      FromStrInjective(s, literals[i]);
    }
    if s in literals {
      var i :| 0 <= i < |literals| && literals[i] == s;
      assert names[i] == FromStr(s);
    }
  }

  function DefaultBlackList(): seq<EnvironmentVariable> {
    FromLiterals(BlackListLiterals)
  }

  function DefaultWhiteList(): seq<EnvironmentVariable> {
    FromLiterals(WhiteListLiterals)
  }

  /** No default is on both lists. */
  lemma DefaultListsDisjoint()
    ensures Elements(DefaultWhiteList()) !! Elements(DefaultBlackList())
  {
    PathNotBlack();
    TmpDirNotBlack();
    InLiterals(BlackListLiterals, "PATH");
    InLiterals(BlackListLiterals, "TMPDIR");
    var white := DefaultWhiteList();
    assert white == [FromStr("PATH"), FromStr("TMPDIR")];
    assert Elements(white) == {FromStr("PATH"), FromStr("TMPDIR")};
  }

  /** Hence building the white list from its defaults never ends the run. */
  lemma DefaultWhiteListAccepted()
    ensures CheckedDefaults(Elements(DefaultBlackList()), DefaultWhiteList()) == Success(Elements(DefaultWhiteList()))
  {
    DefaultListsDisjoint();
    var white := DefaultWhiteList();
    assert forall i :: 0 <= i < |white| ==> white[i] in Elements(white);
  }

  /** The two defaults with a trailing space do not match the variables
      the loader reads. */
  lemma TrailingSpaceDefaults()
    ensures FromStr("LD_BIND_NOW ") in Elements(DefaultBlackList()) && FromStr("LD_BIND_NOW") !in Elements(DefaultBlackList())
    ensures FromStr("LDD_ARGV0 ") in Elements(DefaultBlackList()) && FromStr("LDD_ARGV0") !in Elements(DefaultBlackList())
  {
    LoaderLiteralsHaveASpace();
    LdBindNowNotListed();
    LddArgv0NotListed();
    InLiterals(BlackListLiterals, "LD_BIND_NOW ");
    InLiterals(BlackListLiterals, "LD_BIND_NOW");
    InLiterals(BlackListLiterals, "LDD_ARGV0 ");
    InLiterals(BlackListLiterals, "LDD_ARGV0");
  }

  // ------------------------------------------------------ configuration paths

  /** `PathBuf::push` (and so `join`) on Unix: an absolute path replaces the
      base; otherwise a `/` is put between them unless the base is empty or
      already ends in one. */
  function Join(base: OsString, path: OsString): OsString {
    if path != [] && path[0] == Slash then path
    else if base != [] && base[|base| - 1] != Slash then base + [Slash] + path
    else base + path
  }

  /** `to_lowercase`, for the ASCII file-kind names it is applied to. */
  function Lowercase(s: string): string {
    seq(|s|, i requires 0 <= i < |s| => if 'A' <= s[i] <= 'Z' then (s[i] as int + 0x20) as char else s[i])
  }

  lemma KindFileNames()
    ensures Lowercase(Black.Name()) == "black"
    ensures Lowercase(White.Name()) == "white"
    ensures Lowercase(Settings.Name()) == "settings"
  {
  }

  function ConfigPath(home: OsString, programName: OsString, kind: FileKind): OsString {
    Join(Join(Join(home, Encode(".environment-sanity/settings")), programName), Encode(Lowercase(kind.Name())))
  }

  predicate IsRegularFile(fs: FileSystem, path: OsString) {
    path in fs && fs[path].RegularFile?
  }

  /** `settingsFor`: the per-program file of the given kind, when it exists
      and is a regular file. */
  function SettingsFor(fs: FileSystem, home: OsString, programName: OsString, kind: FileKind): (r: Option<OsString>)
    ensures r.Some? <==> IsRegularFile(fs, ConfigPath(home, programName, kind))
    ensures r.Some? ==> r.value == ConfigPath(home, programName, kind)
  {
    var path := ConfigPath(home, programName, kind);
    if IsRegularFile(fs, path) then Some(path) else None
  }

  /** Joining a relative path onto a base that does not end in `/` puts
      one `/` between them. */
  lemma JoinRelative(base: OsString, path: OsString)
    requires base != [] && base[|base| - 1] != Slash
    requires path == [] || path[0] != Slash
    ensures Join(base, path) == base + [Slash] + path
  {
  }

  /** A non-empty relative path that does not end in `/`, joined onto such
      a base, leaves a result that again does not end in `/`. */
  lemma JoinRelativeEnd(base: OsString, path: OsString)
    requires base != [] && base[|base| - 1] != Slash
    requires path != [] && path[0] != Slash && path[|path| - 1] != Slash
    ensures Join(base, path) != [] && Join(base, path)[|Join(base, path)| - 1] != Slash
  {
    JoinRelative(base, path);
  }

  /** A non-empty ASCII literal without a `/` at either end encodes to bytes
      without one either. */
  lemma RelativeLiteral(s: string)
    requires IsAscii(s) && s != [] && s[0] != '/' && s[|s| - 1] != '/'
    ensures Encode(s) != [] && Encode(s)[0] != Slash && Encode(s)[|Encode(s)| - 1] != Slash
  {
    EncodeAscii(s);
  }

  lemma SettingsFolderRelative()
    ensures var root := Encode(".environment-sanity/settings");
      root != [] && root[0] != Slash && root[|root| - 1] != Slash
  {
    RelativeLiteral(".environment-sanity/settings");
  }

  lemma KindFileRelative(kind: FileKind)
    ensures var file := Encode(Lowercase(kind.Name()));
      file != [] && file[0] != Slash && file[|file| - 1] != Slash
  {
    KindFileNames();
    match kind
    case Black => RelativeLiteral("black");
    case White => RelativeLiteral("white");
    case Settings => RelativeLiteral("settings");
  }

  /** For a home folder that does not end in `/` and a bare program name,
      the file is `home/.environment-sanity/settings/program/kind`, with
      the kind in lower case. */
  lemma ConfigPathLayout(home: OsString, programName: OsString, kind: FileKind)
    requires home != [] && home[|home| - 1] != Slash
    requires programName != [] && Slash !in programName
    ensures ConfigPath(home, programName, kind) ==
      home + [Slash] + Encode(".environment-sanity/settings") + [Slash] + programName + [Slash] + Encode(Lowercase(kind.Name()))
  {
    var root := Encode(".environment-sanity/settings");
    var file := Encode(Lowercase(kind.Name()));
    SettingsFolderRelative();
    KindFileRelative(kind);
    var settings := Join(home, root);
    JoinRelative(home, root);
    JoinRelativeEnd(home, root);
    assert programName[0] != Slash && programName[|programName| - 1] != Slash;
    var program := Join(settings, programName);
    JoinRelative(settings, programName);
    JoinRelativeEnd(settings, programName);
    JoinRelative(program, file);
  }

  // --------------------------------------------------------- default settings

  /** The per-program temporary folder `defaultSettings` gives TMPDIR. */
  function TemporaryFolder(home: OsString, programName: OsString): OsString {
    Join(Join(home, Encode(".environment-sanity/tmp")), programName)
  }

  function Locale(isLinux: bool): OsString {
    Encode(if isLinux then "C.UTF-8" else "UTF-8")
  }

  /** A setting's name as the program spells it, `"TZ".into()` and so on. */
  function Key(n: SettingName): EnvironmentVariable {
    FromStr(n.Text())
  }

  lemma KeyInjective()
    ensures forall a: SettingName, b: SettingName {:trigger Key(a), Key(b)} :: Key(a) == Key(b) ==> a == b
  {
    forall a: SettingName, b: SettingName | Key(a) == Key(b)
      ensures a == b
    {
      FromStrInjective(a.Text(), b.Text());
      TextInjective(a, b);
    }
  }

  /** `var_os`: the inherited value of a variable, if it is set. */
  function VarOs(environment: Environment, name: string): (r: Option<OsString>)
    ensures r.Some? <==> Encode(name) in environment
    ensures r.Some? ==> r.value == environment[Encode(name)]
  {
    if Encode(name) in environment then Some(environment[Encode(name)]) else None
  }

  /** What `defaultSettings` gives one variable, or None when it leaves the
      variable unset: USER is copied from LOGNAME on Linux and LOGNAME from
      USER elsewhere, each only when the source variable is set. */
  function DefaultValue(n: SettingName, programName: OsString, home: OsString, isLinux: bool, environment: Environment): Option<OsString> {
    match n
    case Tz => Some(Encode("Etc/UTC"))
    case Home => Some(home)
    case TmpDir => Some(TemporaryFolder(home, programName))
    case HomebrewNoAnalytics => Some(Encode("1"))
    case User => if isLinux then VarOs(environment, "LOGNAME") else None
    case LogName => if isLinux then None else VarOs(environment, "USER")
    case _ => Some(Locale(isLinux))
  }

  /** The entries `defaultSettings` inserts, by variable, in the order it
      inserts them. */
  function DefaultTable(programName: OsString, home: OsString, isLinux: bool, environment: Environment): map<SettingName, OsString> {
    var common := CommonTable(programName, home, isLinux);
    if isLinux then
      var logname := VarOs(environment, "LOGNAME");
      if logname.Some? then common[User := logname.value] else common
    else
      var user := VarOs(environment, "USER");
      if user.Some? then common[LogName := user.value] else common
  }

  /** The twelve entries `defaultSettings` inserts on every OS family. */
  function CommonTable(programName: OsString, home: OsString, isLinux: bool): map<SettingName, OsString> {
    var locale := Locale(isLinux);
    map[
      Tz := Encode("Etc/UTC"),
      Home := home,
      TmpDir := TemporaryFolder(home, programName),
      HomebrewNoAnalytics := Encode("1"),
      LcAll := locale,
      LcCollate := locale,
      LcCtype := locale,
      LcMessages := locale,
      LcMonetary := locale,
      LcNumeric := locale,
      LcTime := locale,
      Lang := locale
    ]
  }

  lemma CommonTableLookup(programName: OsString, home: OsString, isLinux: bool, environment: Environment, n: SettingName)
    requires n != User && n != LogName
    ensures n in CommonTable(programName, home, isLinux)
    ensures CommonTable(programName, home, isLinux)[n] == DefaultValue(n, programName, home, isLinux, environment).value
  {
  }

  lemma CommonTableKeys(programName: OsString, home: OsString, isLinux: bool)
    ensures User !in CommonTable(programName, home, isLinux) && LogName !in CommonTable(programName, home, isLinux)
  {
  }

  /** The variables set on every OS family are set to their per-variable value. */
  lemma DefaultTableCommon(programName: OsString, home: OsString, isLinux: bool, environment: Environment, n: SettingName)
    requires n != User && n != LogName
    ensures n in DefaultTable(programName, home, isLinux, environment)
    ensures DefaultTable(programName, home, isLinux, environment)[n] == DefaultValue(n, programName, home, isLinux, environment).value
  {
    CommonTableLookup(programName, home, isLinux, environment, n);
  }

  /** USER and LOGNAME are set as the per-variable table says. */
  lemma DefaultTableIdentity(programName: OsString, home: OsString, isLinux: bool, environment: Environment, n: SettingName)
    requires n == User || n == LogName
    ensures n in DefaultTable(programName, home, isLinux, environment) <==> DefaultValue(n, programName, home, isLinux, environment).Some?
    ensures n in DefaultTable(programName, home, isLinux, environment) ==>
      DefaultTable(programName, home, isLinux, environment)[n] == DefaultValue(n, programName, home, isLinux, environment).value
  {
    CommonTableKeys(programName, home, isLinux);
  }

  /** The successive inserts set exactly the variables the per-variable
      table gives a value, to that value. */
  lemma DefaultTableLookup(programName: OsString, home: OsString, isLinux: bool, environment: Environment, n: SettingName)
    ensures n in DefaultTable(programName, home, isLinux, environment) <==> DefaultValue(n, programName, home, isLinux, environment).Some?
    ensures n in DefaultTable(programName, home, isLinux, environment) ==>
      DefaultTable(programName, home, isLinux, environment)[n] == DefaultValue(n, programName, home, isLinux, environment).value
  {
    if n == User || n == LogName {
      DefaultTableIdentity(programName, home, isLinux, environment, n);
    } else {
      DefaultTableCommon(programName, home, isLinux, environment, n);
    }
  }

  /** A table by variable, with each variable spelled as the program spells it. */
  function Keyed(table: map<SettingName, OsString>): SettingsMap {
    KeyInjective();
    map n | n in table :: Key(n) := table[n]
  }

  lemma KeyedLookup(table: map<SettingName, OsString>, n: SettingName)
    ensures Key(n) in Keyed(table) <==> n in table
    ensures n in table ==> Keyed(table)[Key(n)] == table[n]
  {
    KeyInjective();
  }

  lemma KeyedKeys(table: map<SettingName, OsString>, key: EnvironmentVariable)
    requires key in Keyed(table)
    ensures exists n :: n in table && key == Key(n)
  {
  }

  /** The map `defaultSettings` returns. */
  function DefaultSettingsMap(programName: OsString, home: OsString, isLinux: bool, environment: Environment): SettingsMap {
    Keyed(DefaultTable(programName, home, isLinux, environment))
  }

  /** A variable is in the default settings exactly when `defaultSettings`
      sets it, with the value it sets. */
  lemma DefaultSettingsLookup(programName: OsString, home: OsString, isLinux: bool, environment: Environment, n: SettingName)
    ensures Key(n) in DefaultSettingsMap(programName, home, isLinux, environment) <==> DefaultValue(n, programName, home, isLinux, environment).Some?
    ensures Key(n) in DefaultSettingsMap(programName, home, isLinux, environment) ==>
      DefaultSettingsMap(programName, home, isLinux, environment)[Key(n)] == DefaultValue(n, programName, home, isLinux, environment).value
  {
    DefaultTableLookup(programName, home, isLinux, environment, n);
    KeyedLookup(DefaultTable(programName, home, isLinux, environment), n);
  }

  /** Every default setting is one of the variables `defaultSettings` names. */
  lemma DefaultSettingsKeys(programName: OsString, home: OsString, isLinux: bool, environment: Environment, key: EnvironmentVariable)
    requires key in DefaultSettingsMap(programName, home, isLinux, environment)
    ensures exists n :: key == Key(n)
  {
    KeyedKeys(DefaultTable(programName, home, isLinux, environment), key);
  }

  /** TZ is always set, to UTC. */
  lemma DefaultTimeZone(programName: OsString, home: OsString, isLinux: bool, environment: Environment)
    ensures var settings := DefaultSettingsMap(programName, home, isLinux, environment);
      Key(Tz) in settings && settings[Key(Tz)] == Encode("Etc/UTC")
  {
    DefaultSettingsLookup(programName, home, isLinux, environment, Tz);
  }

  /** HOME is always set, to the home folder. */
  lemma DefaultHome(programName: OsString, home: OsString, isLinux: bool, environment: Environment)
    ensures var settings := DefaultSettingsMap(programName, home, isLinux, environment);
      Key(Home) in settings && settings[Key(Home)] == home
  {
    DefaultSettingsLookup(programName, home, isLinux, environment, Home);
  }

  /** TMPDIR is always set, to the per-program temporary folder. */
  lemma DefaultTemporaryFolder(programName: OsString, home: OsString, isLinux: bool, environment: Environment)
    ensures var settings := DefaultSettingsMap(programName, home, isLinux, environment);
      Key(TmpDir) in settings && settings[Key(TmpDir)] == TemporaryFolder(home, programName)
  {
    DefaultSettingsLookup(programName, home, isLinux, environment, TmpDir);
  }

  /** HOMEBREW_NO_ANALYTICS is always set, to "1". */
  lemma DefaultNoAnalytics(programName: OsString, home: OsString, isLinux: bool, environment: Environment)
    ensures var settings := DefaultSettingsMap(programName, home, isLinux, environment);
      Key(HomebrewNoAnalytics) in settings && settings[Key(HomebrewNoAnalytics)] == Encode("1")
  {
    DefaultSettingsLookup(programName, home, isLinux, environment, HomebrewNoAnalytics);
  }

  /** The eight locale variables are "C.UTF-8" on Linux and "UTF-8" elsewhere. */
  lemma DefaultSettingsLocale(programName: OsString, home: OsString, isLinux: bool, environment: Environment, n: SettingName)
    requires n.IsLocale()
    ensures var settings := DefaultSettingsMap(programName, home, isLinux, environment);
      && Key(n) in settings
      && settings[Key(n)] == if isLinux then Encode("C.UTF-8") else Encode("UTF-8")
  {
    DefaultSettingsLookup(programName, home, isLinux, environment, n);
  }

  /** On Linux USER is set exactly when LOGNAME is inherited, to its value. */
  lemma DefaultSettingsLinuxUser(programName: OsString, home: OsString, environment: Environment)
    ensures var settings := DefaultSettingsMap(programName, home, true, environment);
      && (Key(User) in settings <==> VarOs(environment, "LOGNAME").Some?)
      && (VarOs(environment, "LOGNAME").Some? ==> settings[Key(User)] == VarOs(environment, "LOGNAME").value)
  {
    assert DefaultValue(User, programName, home, true, environment) == VarOs(environment, "LOGNAME");
    DefaultSettingsLookup(programName, home, true, environment, User);
  }

  /** On Linux LOGNAME is never set. */
  lemma DefaultSettingsLinuxNoLogName(programName: OsString, home: OsString, environment: Environment)
    ensures Key(LogName) !in DefaultSettingsMap(programName, home, true, environment)
  {
    DefaultSettingsLookup(programName, home, true, environment, LogName);
  }

  /** Elsewhere LOGNAME is set exactly when USER is inherited, to its value. */
  lemma DefaultSettingsOtherLogName(programName: OsString, home: OsString, environment: Environment)
    ensures var settings := DefaultSettingsMap(programName, home, false, environment);
      && (Key(LogName) in settings <==> VarOs(environment, "USER").Some?)
      && (VarOs(environment, "USER").Some? ==> settings[Key(LogName)] == VarOs(environment, "USER").value)
  {
    assert DefaultValue(LogName, programName, home, false, environment) == VarOs(environment, "USER");
    DefaultSettingsLookup(programName, home, false, environment, LogName);
  }

  /** Elsewhere USER is never set. */
  lemma DefaultSettingsOtherNoUser(programName: OsString, home: OsString, environment: Environment)
    ensures Key(User) !in DefaultSettingsMap(programName, home, false, environment)
  {
    DefaultSettingsLookup(programName, home, false, environment, User);
  }

  /** For a home folder that does not end in `/` and a bare program name,
      TMPDIR is `home/.environment-sanity/tmp/program`. */
  lemma TemporaryFolderLayout(home: OsString, programName: OsString)
    requires home != [] && home[|home| - 1] != Slash
    requires programName != [] && Slash !in programName
    ensures TemporaryFolder(home, programName) == home + [Slash] + Encode(".environment-sanity/tmp") + [Slash] + programName
  {
    var root := Encode(".environment-sanity/tmp");
    RelativeLiteral(".environment-sanity/tmp");
    JoinRelative(home, root);
    JoinRelativeEnd(home, root);
    assert programName[0] != Slash;
    JoinRelative(Join(home, root), programName);
  }

  /** `defaultSettings`: successive inserts under the OS-family branch. */
  method DefaultSettings(programName: OsString, home: OsString, isLinux: bool, environment: Environment) returns (settings: SettingsMap)
    ensures settings == DefaultSettingsMap(programName, home, isLinux, environment)
  {
    var table: map<SettingName, OsString> := map[];
    table := table[Tz := Encode("Etc/UTC")];
    table := table[Home := home];
    table := table[TmpDir := TemporaryFolder(home, programName)];
    table := table[HomebrewNoAnalytics := Encode("1")];
    var locale := if isLinux then Encode("C.UTF-8") else Encode("UTF-8");
    table := table[LcAll := locale];
    table := table[LcCollate := locale];
    table := table[LcCtype := locale];
    table := table[LcMessages := locale];
    table := table[LcMonetary := locale];
    table := table[LcNumeric := locale];
    table := table[LcTime := locale];
    table := table[Lang := locale];
    assert table == CommonTable(programName, home, isLinux);
    if isLinux {
      var logname := VarOs(environment, "LOGNAME");
      if logname.Some? {
        table := table[User := logname.value];
      }
    } else {
      var user := VarOs(environment, "USER");
      if user.Some? {
        table := table[LogName := user.value];
      }
    }
    settings := Keyed(table);
  }
}
