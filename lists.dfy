/** The black list, white list and settings list (src/lib.rs:87-207). Each is
    a class over a set or map field that its methods update in place; the
    pure functions beside them say what loading a file does to that field. */
module Lists {
  import opened Wrappers
  import opened Bytes
  import opened Names
  import opened Records

  type Environment = map<OsString, OsString>

  function Elements<T>(s: seq<T>): set<T> {
    set x | x in s
  }

  /** The names a black- or white-list file lists: every record, NUL-suffixed. */
  function FileNames(records: seq<seq<byte>>): set<EnvironmentVariable> {
    set record | record in records :: FromRawBytesWithoutADelimiter(record)
  }

  // ---------------------------------------------------------------- black list

  /** The black-list callback: insert the record's name. */
  function AddName(names: set<EnvironmentVariable>, record: seq<byte>, kind: FileKind, path: OsString, line: nat)
    : Result<set<EnvironmentVariable>, Fatal>
  {
    Success(names + {FromRawBytesWithoutADelimiter(record)})
  }

  /** What `BlackList::addToFromFile` does to the set `names`. */
  function BlackListFile(names: set<EnvironmentVariable>, fs: FileSystem, path: OsString): Result<set<EnvironmentVariable>, Fatal> {
    LinesListedInFile(Black, fs, path, names, AddName)
  }

  lemma FileNamesCons(records: seq<seq<byte>>)
    requires records != []
    ensures FileNames(records) == {FromRawBytesWithoutADelimiter(records[0])} + FileNames(records[1..])
  {
    assert records == [records[0]] + records[1..];
  }

  lemma {:induction false} AddNameFold(path: OsString, records: seq<seq<byte>>, line: nat, names: set<EnvironmentVariable>)
    requires FirstWithNul(records).None?
    ensures Fold(Black, path, records, line, names, AddName) == Success(names + FileNames(records))
    decreases |records|
  {
    if records == [] {
      assert names + FileNames(records) == names;
    } else {
      var next := names + {FromRawBytesWithoutADelimiter(records[0])};
      assert Nul !in records[0];
      assert FirstWithNul(records[1..]).None? by {
        assert forall i :: 0 <= i < |records[1..]| ==> records[1..][i] == records[i + 1];
      }
      AddNameFold(path, records[1..], line + 1, next);
      FileNamesCons(records);
      assert names + FileNames(records) == next + FileNames(records[1..]);
    }
  }

  /** Loading a black-list file fails when it cannot be read or when one of
      its records holds a NUL (the first such record is reported); otherwise
      it adds every record's name and removes none. */
  lemma BlackListFileOnlyAdds(names: set<EnvironmentVariable>, fs: FileSystem, path: OsString)
    ensures ReadFile(fs, path).None? ==> BlackListFile(names, fs, path) == Failure(CouldNotOpen(Black, path))
    ensures ReadFile(fs, path).Some? ==>
      var records := Split(ReadFile(fs, path).value);
      && (BlackListFile(names, fs, path).Success? <==> FirstWithNul(records).None?)
      && (FirstWithNul(records).Some? ==>
            var j := FirstWithNul(records).value;
            BlackListFile(names, fs, path) == Failure(ContainsNul(Black, path, j, IndexOf(records[j], Nul).value)))
      && (BlackListFile(names, fs, path).Success? ==>
            BlackListFile(names, fs, path).value == names + FileNames(records))
  {
    if ReadFile(fs, path).Some? {
      var records := Split(ReadFile(fs, path).value);
      assert BlackListFile(names, fs, path) == Fold(Black, path, records, 0, names, AddName);
      assert Total(AddName);
      FoldStopsAtFirstNul(Black, path, records, 0, names, AddName);
      if FirstWithNul(records).Some? {
        var j := FirstWithNul(records).value;
        var e := ContainsNul(Black, path, 0 + j, IndexOf(records[j], Nul).value);
        assert Fold(Black, path, records, 0, names, AddName) == Failure(e);
        assert e == ContainsNul(Black, path, j, IndexOf(records[j], Nul).value);
      }
      if FirstWithNul(records).None? {
        AddNameFold(path, records, 0, names);
      }
    }
  }

  class BlackList {
    var names: set<EnvironmentVariable>

    /** `BlackList::new`: exactly the defaults, duplicates collapsed. */
    constructor (defaults: seq<EnvironmentVariable>)
      ensures names == Elements(defaults)
    {
      var inserted: set<EnvironmentVariable> := {};
      for i := 0 to |defaults|
        invariant inserted == Elements(defaults[..i])
      {
        assert defaults[..i + 1] == defaults[..i] + [defaults[i]];
        inserted := inserted + {defaults[i]};
      }
      assert defaults[..|defaults|] == defaults;
      names := inserted;
    }

    method AddToFromFile(fs: FileSystem, path: OsString) returns (r: Outcome<Fatal>)
      modifies this
      ensures match BlackListFile(old(names), fs, path)
        case Success(loaded) => r == Pass && names == loaded
        case Failure(e) => r == Fail(e) && names == old(names)
    {
      var loaded := AddFromLinesListedInFile(Black, fs, path, names, AddName);
      if loaded.Failure? {
        return Fail(loaded.error);
      }
      names := loaded.value;
      return Pass;
    }

    /** `isBlackListed`: byte-exact membership. */
    function IsBlackListed(name: EnvironmentVariable): bool
      reads this
    {
      name in names
    }

    /** `isNotBlackListed`: the negation, as the filter uses it. */
    function IsNotBlackListed(name: EnvironmentVariable): bool
      reads this
    {
      !IsBlackListed(name)
    }
  }

  // ---------------------------------------------------------------- white list

  /** What `WhiteList::new` does with its defaults: the first default that is
      black-listed ends the run; otherwise the white set is the defaults. */
  function CheckedDefaults(black: set<EnvironmentVariable>, defaults: seq<EnvironmentVariable>): (r: Result<set<EnvironmentVariable>, Fatal>)
    ensures r.Failure? <==> exists i :: 0 <= i < |defaults| && defaults[i] in black
    ensures r.Failure? ==>
      exists i :: && 0 <= i < |defaults| && defaults[i] in black
                  && r.error == InBothDefaultLists(defaults[i])
                  && forall j :: 0 <= j < i ==> defaults[j] !in black
    ensures r.Success? ==> r.value == Elements(defaults)
  {
    if defaults == [] then Success({})
    else if defaults[0] in black then Failure(InBothDefaultLists(defaults[0]))
    else match CheckedDefaults(black, defaults[1..])
      case Failure(e) =>
        assert forall i :: 1 <= i < |defaults| ==> defaults[i] == defaults[1..][i - 1];
        Failure(e)
      case Success(rest) =>
        assert defaults == [defaults[0]] + defaults[1..];
        Success({defaults[0]} + rest)
  }

  /** The white-list callback: insert the record's name unless it is
      black-listed, in which case the program only warns. */
  function AddUnlessBlackListed(black: set<EnvironmentVariable>): Step<set<EnvironmentVariable>> {
    (names: set<EnvironmentVariable>, record: seq<byte>, kind: FileKind, path: OsString, line: nat) =>
      var name := FromRawBytesWithoutADelimiter(record);
      if name in black then Success(names) else Success(names + {name})
  }

  /** What `WhiteList::addToFromFile` does to the set `names`. */
  function WhiteListFile(names: set<EnvironmentVariable>, black: set<EnvironmentVariable>, fs: FileSystem, path: OsString)
    : Result<set<EnvironmentVariable>, Fatal>
  {
    LinesListedInFile(White, fs, path, names, AddUnlessBlackListed(black))
  }

  lemma {:induction false} AddUnlessBlackListedFold(path: OsString, records: seq<seq<byte>>, line: nat,
                                                    names: set<EnvironmentVariable>, black: set<EnvironmentVariable>)
    requires FirstWithNul(records).None?
    ensures Fold(White, path, records, line, names, AddUnlessBlackListed(black)) == Success(names + (FileNames(records) - black))
    decreases |records|
  {
    if records == [] {
      assert names + (FileNames(records) - black) == names;
    } else {
      var name := FromRawBytesWithoutADelimiter(records[0]);
      var next := if name in black then names else names + {name};
      var add := AddUnlessBlackListed(black);
      assert add(names, records[0], White, path, line) == Success(next);
      assert Nul !in records[0];
      assert Fold(White, path, records, line, names, add) == Fold(White, path, records[1..], line + 1, next, add);
      assert FirstWithNul(records[1..]).None? by {
        assert forall i :: 0 <= i < |records[1..]| ==> records[1..][i] == records[i + 1];
      }
      AddUnlessBlackListedFold(path, records[1..], line + 1, next, black);
      FileNamesCons(records);
      SkipBlackListed(names, name, FileNames(records[1..]), black);
    }
  }

  lemma SkipBlackListed(names: set<EnvironmentVariable>, name: EnvironmentVariable, rest: set<EnvironmentVariable>,
                        black: set<EnvironmentVariable>)
    ensures names + (({name} + rest) - black) == (if name in black then names else names + {name}) + (rest - black)
  {
  }

  /** Loading a white-list file fails exactly as a black-list file does;
      otherwise a listed name is inserted iff it is not black-listed, and a
      black-listed one leaves the white set as it was. */
  lemma WhiteListFileSkipsBlackListed(names: set<EnvironmentVariable>, black: set<EnvironmentVariable>, fs: FileSystem, path: OsString)
    ensures ReadFile(fs, path).None? ==> WhiteListFile(names, black, fs, path) == Failure(CouldNotOpen(White, path))
    ensures ReadFile(fs, path).Some? ==>
      var records := Split(ReadFile(fs, path).value);
      && (WhiteListFile(names, black, fs, path).Success? <==> FirstWithNul(records).None?)
      && (FirstWithNul(records).Some? ==>
            var j := FirstWithNul(records).value;
            WhiteListFile(names, black, fs, path) == Failure(ContainsNul(White, path, j, IndexOf(records[j], Nul).value)))
      && (WhiteListFile(names, black, fs, path).Success? ==>
            WhiteListFile(names, black, fs, path).value == names + (FileNames(records) - black))
  {
    if ReadFile(fs, path).Some? {
      var records := Split(ReadFile(fs, path).value);
      var add := AddUnlessBlackListed(black);
      assert WhiteListFile(names, black, fs, path) == Fold(White, path, records, 0, names, add);
      assert Total(add);
      FoldStopsAtFirstNul(White, path, records, 0, names, add);
      if FirstWithNul(records).Some? {
        var j := FirstWithNul(records).value;
        var e := ContainsNul(White, path, 0 + j, IndexOf(records[j], Nul).value);
        assert Fold(White, path, records, 0, names, add) == Failure(e);
        assert e == ContainsNul(White, path, j, IndexOf(records[j], Nul).value);
      }
      if FirstWithNul(records).None? {
        AddUnlessBlackListedFold(path, records, 0, names, black);
      }
    }
  }

  /** The inherited entries whose name is not black-listed and is
      white-listed. A live name is wrapped as it is, without a NUL. */
  function Filtered(black: set<EnvironmentVariable>, white: set<EnvironmentVariable>, environment: Environment): Environment {
    map name | name in environment && EnvironmentVariable(name) !in black && EnvironmentVariable(name) in white
      :: environment[name]
  }

  /** Names read from files end in a NUL, live names never hold one, so
      neither list's file entries change which live variables pass. */
  lemma FileEntriesNeverMatchLiveNames(black: set<EnvironmentVariable>, white: set<EnvironmentVariable>,
                                       blackRecords: seq<seq<byte>>, whiteRecords: seq<seq<byte>>, environment: Environment)
    requires forall name :: name in environment ==> Nul !in name
    ensures Filtered(black + FileNames(blackRecords), white + FileNames(whiteRecords), environment) == Filtered(black, white, environment)
  {
    forall name | name in environment
      ensures EnvironmentVariable(name) !in FileNames(blackRecords) && EnvironmentVariable(name) !in FileNames(whiteRecords)
    {
      forall record ensures FromRawBytesWithoutADelimiter(record) != EnvironmentVariable(name) {
        FileNameIsNeverNulFree(record, name);
      }
    }
  }

  class WhiteList {
    var names: set<EnvironmentVariable>
    const blackList: BlackList

    constructor Empty(blackList: BlackList)
      ensures names == {} && this.blackList == blackList
    {
      names := {};
      this.blackList := blackList;
    }

    /** `WhiteList::new`, which ends the run when a default is black-listed. */
    static method New(blackList: BlackList, defaults: seq<EnvironmentVariable>) returns (r: Result<WhiteList, Fatal>)
      ensures match CheckedDefaults(blackList.names, defaults)
        case Success(checked) => r.Success? && fresh(r.value) && r.value.names == checked && r.value.blackList == blackList
        case Failure(e) => r == Failure(e)
    {
      var whiteList := new WhiteList.Empty(blackList);
      for i := 0 to |defaults|
        invariant whiteList.names == Elements(defaults[..i])
        invariant forall j :: 0 <= j < i ==> defaults[j] !in blackList.names
      {
        if blackList.IsBlackListed(defaults[i]) {
          assert !CheckedDefaults(blackList.names, defaults).Success?;
          return Failure(InBothDefaultLists(defaults[i]));
        }
        assert defaults[..i + 1] == defaults[..i] + [defaults[i]];
        whiteList.names := whiteList.names + {defaults[i]};
      }
      assert defaults[..|defaults|] == defaults;
      return Success(whiteList);
    }

    method AddToFromFile(fs: FileSystem, path: OsString) returns (r: Outcome<Fatal>)
      modifies this
      ensures match WhiteListFile(old(names), blackList.names, fs, path)
        case Success(loaded) => r == Pass && names == loaded
        case Failure(e) => r == Fail(e) && names == old(names)
    {
      var loaded := AddFromLinesListedInFile(White, fs, path, names, AddUnlessBlackListed(blackList.names));
      if loaded.Failure? {
        return Fail(loaded.error);
      }
      names := loaded.value;
      return Pass;
    }

    /** `isWhiteListed`: byte-exact membership. */
    function IsWhiteListed(name: EnvironmentVariable): bool
      reads this
    {
      name in names
    }

    /** `filterEnvironment`: exactly the entries whose name is not
        black-listed and is white-listed, values unchanged. */
    function FilterEnvironment(environment: Environment): (r: Environment)
      reads this, blackList
      ensures forall name :: name in r <==>
        name in environment && blackList.IsNotBlackListed(EnvironmentVariable(name)) && IsWhiteListed(EnvironmentVariable(name))
      ensures forall name :: name in r ==> r[name] == environment[name]
    {
      Filtered(blackList.names, names, environment)
    }
  }

  // ------------------------------------------------------------- settings list

  type SettingsMap = map<EnvironmentVariable, OsString>

  /** A settings record split at its first TAB: the name is the bytes before
      it and the value the bytes after it (further TABs included), both with
      a NUL pushed on. No TAB, no setting. */
  function ParseSetting(record: seq<byte>): (r: Option<(EnvironmentVariable, OsString)>)
    ensures r.None? <==> Tab !in record
  {
    match IndexOf(record, Tab)
    case None => None
    case Some(i) => Some((FromRawBytesWithoutADelimiter(record[..i]), OsStringFromRawBytesWithoutADelimiter(record[i + 1..])))
  }

  /** A line `name TAB value`, with no TAB in the name, parses back to that
      name and value. */
  lemma ParseSettingRoundTrip(name: seq<byte>, value: seq<byte>)
    requires Tab !in name
    ensures ParseSetting(name + [Tab] + value) ==
      Some((FromRawBytesWithoutADelimiter(name), OsStringFromRawBytesWithoutADelimiter(value)))
  {
    var record := name + [Tab] + value;
    assert record[..|name|] == name && record[|name|] == Tab && record[|name| + 1..] == value;
    IndexOfFirst(record, Tab, |name|);
  }

  /** The settings callback: a record without a TAB ends the run; otherwise
      its setting is inserted, replacing any byte-identical name. */
  function AddSetting(settings: SettingsMap, record: seq<byte>, kind: FileKind, path: OsString, line: nat): Result<SettingsMap, Fatal> {
    match ParseSetting(record)
    case None => Failure(NoTabDelimiter(kind, path, line))
    case Some((name, value)) => Success(settings[name := value])
  }

  /** What `SettingsList::addToFromFile` does to the map `settings`. */
  function SettingsFile(settings: SettingsMap, fs: FileSystem, path: OsString): Result<SettingsMap, Fatal> {
    LinesListedInFile(Settings, fs, path, settings, AddSetting)
  }

  predicate GoodSetting(record: seq<byte>) {
    Nul !in record && Tab in record
  }

  /** The index of the first record that ends the run: one with a NUL or
      without a TAB (an empty record included). */
  function FirstBadSetting(records: seq<seq<byte>>): (r: Option<nat>)
    ensures r.None? <==> forall i :: 0 <= i < |records| ==> GoodSetting(records[i])
    ensures r.Some? ==>
      && r.value < |records| && !GoodSetting(records[r.value])
      && forall i :: 0 <= i < r.value ==> GoodSetting(records[i])
  {
    if records == [] then None
    else if !GoodSetting(records[0]) then Some(0)
    else match FirstBadSetting(records[1..])
      case None => None
      case Some(j) => Some(j + 1)
  }

  /** The diagnostic for a bad settings record: the NUL check comes first. */
  function SettingError(path: OsString, record: seq<byte>, line: nat): Fatal {
    if Nul in record then ContainsNul(Settings, path, line, IndexOf(record, Nul).value)
    else NoTabDelimiter(Settings, path, line)
  }

  /** The settings after inserting every record's setting in file order. */
  function Settled(settings: SettingsMap, records: seq<seq<byte>>): SettingsMap
    requires forall i :: 0 <= i < |records| ==> Tab in records[i]
    decreases |records|
  {
    if records == [] then settings
    else
      var (name, value) := ParseSetting(records[0]).value;
      Settled(settings[name := value], records[1..])
  }

  /** The name a record sets: the bytes before its first TAB (all of them
      when it has none), NUL-suffixed. */
  function SettingName(record: seq<byte>): EnvironmentVariable {
    match IndexOf(record, Tab)
    case None => FromRawBytesWithoutADelimiter(record)
    case Some(i) => FromRawBytesWithoutADelimiter(record[..i])
  }

  /** A record with a TAB sets the name it parses to, and that name ends in
      a NUL. */
  lemma SettingNameParses(record: seq<byte>)
    requires Tab in record
    ensures SettingName(record) == ParseSetting(record).value.0
    ensures Nul in SettingName(record).bytes
  {
  }

  /** The index of the last record that sets `name`, if any. */
  function LastSetting(records: seq<seq<byte>>, name: EnvironmentVariable): (r: Option<nat>)
    ensures r.Some? ==> r.value < |records|
  {
    if records == [] then None
    else match LastSetting(records[1..], name)
      case Some(j) => Some(j + 1)
      case None => if SettingName(records[0]) == name then Some(0) else None
  }

  /** `LastSetting` finds no record exactly when none sets `name`. */
  lemma {:induction false} LastSettingNone(records: seq<seq<byte>>, name: EnvironmentVariable)
    ensures LastSetting(records, name).None? <==> forall i :: 0 <= i < |records| ==> SettingName(records[i]) != name
    decreases |records|
  {
    if records != [] {
      var rest := records[1..];
      LastSettingNone(rest, name);
      LastSettingCons(records, name);
      if LastSetting(rest, name).None? {
        forall i | 1 <= i < |records| ensures SettingName(records[i]) != name {
          assert records[i] == rest[i - 1];
        }
      } else {
        var j :| 0 <= j < |rest| && SettingName(rest[j]) == name;
        assert records[j + 1] == rest[j];
      }
    }
  }

  /** When `LastSetting` finds a record, that record sets `name` and no
      later one does. */
  lemma {:induction false} LastSettingIsLast(records: seq<seq<byte>>, name: EnvironmentVariable)
    requires LastSetting(records, name).Some?
    ensures var k := LastSetting(records, name).value;
      && SettingName(records[k]) == name
      && forall i :: k < i < |records| ==> SettingName(records[i]) != name
    decreases |records|
  {
    var rest := records[1..];
    LastSettingCons(records, name);
    if LastSetting(rest, name).Some? {
      var j := LastSetting(rest, name).value;
      LastSettingIsLast(rest, name);
      assert rest[j] == records[j + 1];
      forall i | j + 1 < i < |records| ensures SettingName(records[i]) != name {
        assert records[i] == rest[i - 1];
      }
    } else {
      LastSettingNone(rest, name);
      forall i | 0 < i < |records| ensures SettingName(records[i]) != name {
        assert records[i] == rest[i - 1];
      }
    }
  }

  /** Last write wins: a name set in the file takes the value of its last
      record; any other name keeps its earlier value. */
  lemma {:induction false} SettledLastWins(settings: SettingsMap, records: seq<seq<byte>>, name: EnvironmentVariable)
    requires forall i :: 0 <= i < |records| ==> Tab in records[i]
    ensures name in Settled(settings, records) <==> name in settings || LastSetting(records, name).Some?
    ensures LastSetting(records, name).Some? ==>
      Settled(settings, records)[name] == ParseSetting(records[LastSetting(records, name).value]).value.1
    ensures LastSetting(records, name).None? && name in settings ==> Settled(settings, records)[name] == settings[name]
    decreases |records|
  {
    if records != [] {
      var parsed := ParseSetting(records[0]).value;
      var first, value := parsed.0, parsed.1;
      var rest := records[1..];
      assert forall i :: 0 <= i < |rest| ==> Tab in rest[i] by {
        forall i | 0 <= i < |rest| ensures Tab in rest[i] {
          assert rest[i] == records[i + 1];
        }
      }
      SettingNameParses(records[0]);
      var next := settings[first := value];
      assert Settled(settings, records) == Settled(next, rest);
      SettledLastWins(next, rest, name);
      LastSettingCons(records, name);
      if LastSetting(rest, name).Some? {
        var j := LastSetting(rest, name).value;
        assert rest[j] == records[j + 1];
      }
    }
  }

  lemma LastSettingCons(records: seq<seq<byte>>, name: EnvironmentVariable)
    requires records != []
    ensures LastSetting(records[1..], name).Some? ==> LastSetting(records, name) == Some(LastSetting(records[1..], name).value + 1)
    ensures LastSetting(records[1..], name).None? ==>
      LastSetting(records, name) == if SettingName(records[0]) == name then Some(0) else None
  {
  }


  lemma {:induction false} AddSettingFold(path: OsString, records: seq<seq<byte>>, line: nat, settings: SettingsMap)
    ensures FirstBadSetting(records).None? ==> Fold(Settings, path, records, line, settings, AddSetting) == Success(Settled(settings, records))
    ensures FirstBadSetting(records).Some? ==>
      var j := FirstBadSetting(records).value;
      Fold(Settings, path, records, line, settings, AddSetting) == Failure(SettingError(path, records[j], line + j))
    decreases |records|
  {
    if records != [] {
      if GoodSetting(records[0]) {
        var (name, value) := ParseSetting(records[0]).value;
        assert IndexOf(records[0], Nul).None?;
        assert AddSetting(settings, records[0], Settings, path, line) == Success(settings[name := value]);
        AddSettingFold(path, records[1..], line + 1, settings[name := value]);
        if FirstBadSetting(records[1..]).Some? {
          var j := FirstBadSetting(records[1..]).value;
          assert records[1..][j] == records[j + 1];
        }
      }
    }
  }

  /** Loading a settings file fails when it cannot be read, and otherwise at
      its first record that holds a NUL or lacks a TAB, reporting that
      record's index; when every record is good, the result is the settings
      with every record inserted in file order. */
  lemma SettingsFileOutcome(settings: SettingsMap, fs: FileSystem, path: OsString)
    ensures ReadFile(fs, path).None? ==> SettingsFile(settings, fs, path) == Failure(CouldNotOpen(Settings, path))
    ensures ReadFile(fs, path).Some? ==>
      var records := Split(ReadFile(fs, path).value);
      && (SettingsFile(settings, fs, path).Success? <==> FirstBadSetting(records).None?)
      && (FirstBadSetting(records).Some? ==>
            var j := FirstBadSetting(records).value;
            SettingsFile(settings, fs, path) == Failure(SettingError(path, records[j], j)))
      && (FirstBadSetting(records).None? ==> SettingsFile(settings, fs, path) == Success(Settled(settings, records)))
  {
    if ReadFile(fs, path).Some? {
      var records := Split(ReadFile(fs, path).value);
      assert SettingsFile(settings, fs, path) == Fold(Settings, path, records, 0, settings, AddSetting);
      AddSettingFold(path, records, 0, settings);
      if FirstBadSetting(records).Some? {
        var j := FirstBadSetting(records).value;
        var e := SettingError(path, records[j], 0 + j);
        assert Fold(Settings, path, records, 0, settings, AddSetting) == Failure(e);
        assert e == SettingError(path, records[j], j);
      }
    }
  }

  /** Names read from a settings file end in a NUL, so a loaded file never
      adds, removes or changes a NUL-free name such as a default's. */
  lemma SettingsFileKeepsNulFreeNames(settings: SettingsMap, fs: FileSystem, path: OsString, name: EnvironmentVariable)
    requires Nul !in name.bytes
    requires SettingsFile(settings, fs, path).Success?
    ensures name in SettingsFile(settings, fs, path).value <==> name in settings
    ensures name in settings ==> SettingsFile(settings, fs, path).value[name] == settings[name]
  {
    SettingsFileOutcome(settings, fs, path);
    var records := Split(ReadFile(fs, path).value);
    forall i | 0 <= i < |records| ensures SettingName(records[i]) != name {
      assert GoodSetting(records[i]);
      SettingNameParses(records[i]);
    }
    LastSettingNone(records, name);
    SettledLastWins(settings, records, name);
  }

  /** Every setting inserted into the environment, replacing any entry with
      the same bytes; every other entry unchanged. */
  function Overlay(settings: SettingsMap, environment: Environment): (r: Environment)
    ensures forall name :: name in r <==> name in environment || EnvironmentVariable(name) in settings
    ensures forall name :: name in r ==>
      r[name] == if EnvironmentVariable(name) in settings then settings[EnvironmentVariable(name)] else environment[name]
  {
    var names := environment.Keys + set key | key in settings :: ToOsString(key);
    map name | name in names ::
      if EnvironmentVariable(name) in settings then settings[EnvironmentVariable(name)] else environment[name]
  }

  lemma OverlayInsert(settings: SettingsMap, name: EnvironmentVariable, value: OsString, environment: Environment)
    ensures Overlay(settings[name := value], environment) == Overlay(settings, environment)[ToOsString(name) := value]
  {
    var a := Overlay(settings[name := value], environment);
    var b := Overlay(settings, environment)[ToOsString(name) := value];
    assert EnvironmentVariable(ToOsString(name)) == name;
    assert a.Keys == b.Keys;
  }

  class SettingsList {
    var settings: SettingsMap

    constructor (defaults: SettingsMap)
      ensures settings == defaults
    {
      settings := defaults;
    }

    method AddToFromFile(fs: FileSystem, path: OsString) returns (r: Outcome<Fatal>)
      modifies this
      ensures match SettingsFile(old(settings), fs, path)
        case Success(loaded) => r == Pass && settings == loaded
        case Failure(e) => r == Fail(e) && settings == old(settings)
    {
      var loaded := AddFromLinesListedInFile(Settings, fs, path, settings, AddSetting);
      if loaded.Failure? {
        return Fail(loaded.error);
      }
      settings := loaded.value;
      return Pass;
    }

    /** `addSettingsToEnvironment`: inserts the settings one by one, in
        whatever order the map yields them. */
    method AddSettingsToEnvironment(environment: Environment) returns (r: Environment)
      ensures r == Overlay(settings, environment)
    {
      r := environment;
      var remaining := settings.Keys;
      assert settings - remaining == map[];
      while remaining != {}
        invariant remaining <= settings.Keys
        invariant r == Overlay(settings - remaining, environment)
        decreases remaining
      {
        var name :| name in remaining;
        OverlayInsert(settings - remaining, name, settings[name], environment);
        assert (settings - remaining)[name := settings[name]] == settings - (remaining - {name});
        r := r[ToOsString(name) := settings[name]];
        remaining := remaining - {name};
      }
      assert settings - remaining == settings;
    }
  }
}
