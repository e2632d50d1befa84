# environment-sanity, modelled in Dafny

environment-sanity is a launcher for Unix programs, typically used on a `#!` line. It
runs a named program with a cleaned environment:

- The inherited environment, minus `HOME`, goes through a black list and then a
  white list.
- A set of forced settings is laid over what remains.
- The process is replaced by the program, with the result as its whole environment.

Each list starts from built-in defaults. Each can be extended by an optional
per-program file under `.environment-sanity/settings/<program>/` in the user's
home folder, as `home_dir` reports it once `HOME` has been removed from the
environment: a `black`, `white` or `settings` file. Every file is read as line-feed-separated records.
Any irregularity ends the run with a fatal diagnostic.

The model follows the program's own structure:

- `Bytes` covers raw bytes, the `memchr` search and the UTF-8 bytes Rust gives a
  string literal.
- `Names` covers the environment-variable name type, the two raw-byte
  constructors and the fatal conditions.
- `Records` is the line-file reader. It is a generic fold over a per-record
  callback, so the NUL check and the callback interleave as in the program, and
  the first failing record wins. The reader is also an imperative method with a
  loop proved against that fold.
- `Lists` holds the three list types as classes: `BlackList` and `WhiteList`
  over a set field, `SettingsList` over a map field. Their methods update the
  field in place. Each file load is proved against a pure function of the old
  field, and lemmas state what that function does.
- `CommandLine` is the argument parser.
- `DefaultLiterals` and `Defaults` hold the default tables, the configuration
  paths and `defaultSettings`. `defaultSettings` is an imperative method of
  successive inserts.
- `Launcher` is `main`: a pure `Launch` function and a `Run` method over the list
  objects, proved equal to it. Lemmas state what the launched program finally
  sees.

Parameters stand in for the outside world:

- the home folder, `None` when `home_dir` fails;
- the argument vector;
- the file system, a map from path to entry;
- the OS family;
- the inherited environment.

`fatalExit!` becomes a `Failure(Fatal)` result. `execute` becomes the `Exec`
value that the pipeline ends with.

Three quirks of the source are reproduced as written:

- **NUL suffix on file names.** Names and values read from files get a NUL byte
  appended (`src/lib.rs:60-71`), but names from literals and from the inherited
  environment do not. So no file entry can ever match a live variable or a
  default. A black- or white-list file never changes which inherited variables
  pass. A settings file never overrides a default setting: the program always
  sees `TZ=Etc/UTC` (`LaunchTimeZone`). Instead the file adds NUL-suffixed
  entries: the record `TZ<TAB>Europe/London` leaves `TZ` at `Etc/UTC` and adds
  the key `TZ\0` with the value `Europe/London\0`.
- **Two black-list defaults end in a space.** `"LD_BIND_NOW "` and `"LDD_ARGV0 "`
  (`src/main.rs:92`, `src/main.rs:112`) therefore never match the variables the
  dynamic loader reads.
- **Every settings record needs a TAB.** An empty record has no TAB, so it is
  fatal too: an empty line inside a settings file ends the run. A trailing line
  feed does not produce an empty record.

## Model

| member | source | states |
|---|---|---|
| Bytes.IndexOf | src/lib.rs:230 | `memchr`: None exactly when the byte is absent; otherwise an in-range index holding the byte with no earlier occurrence |
| Bytes.IndexOfFirst | src/lib.rs:194 | the first occurrence of a byte is the index `memchr` returns |
| Bytes.EncodeChar | src/lib.rs:79-84 | the UTF-8 encoding of one character: 1 to 4 bytes, the lead byte announcing the length, decoding back to the scalar; ASCII is one byte equal to the character |
| Bytes.DecodeEncode | src/lib.rs:79-84 | decoding the bytes of a string literal gives back its characters' scalar values |
| Bytes.EncodeInjective | src/lib.rs:79-84 | two strings have the same bytes exactly when they are equal |
| Bytes.EncodeAscii | src/lib.rs:79-84 | an ASCII literal's bytes are its characters, one byte each |
| Bytes.EncodeNulFree | src/lib.rs:79-84 | a literal without U+0000 has no NUL byte |
| Bytes.EncodeAppend | src/lib.rs:79-84 | the bytes of a concatenation are the concatenated bytes |
| Names.OsStringFromRawBytesWithoutADelimiter | src/lib.rs:60-64 | the result is the raw bytes followed by exactly one NUL |
| Names.FromRawBytesWithoutADelimiter | src/lib.rs:68-71 | a file-sourced name is the record's bytes followed by a NUL |
| Names.FromStr | src/lib.rs:79-84 | the name of a literal: its UTF-8 bytes, nothing appended (a definition; `Names.FromStrAscii` and `Names.FromStrInjective` state its properties) |
| Names.ToOsString | src/lib.rs:73-76 | the name's bytes, unchanged (a definition; used by `Lists.Overlay`) |
| Names.FromStrAscii | src/lib.rs:79-84 | a name built from an ASCII literal has the literal's bytes, with nothing appended |
| Names.FromStrInjective | src/lib.rs:79-84 | two literals give the same name exactly when they are the same literal |
| Names.FromRawBytesInjective | src/lib.rs:68-71 | two records give the same name exactly when they are byte-identical |
| Names.FileNameIsNeverNulFree | src/lib.rs:60-71 | a file-sourced name never equals a name whose bytes hold no NUL, such as a live variable's |
| Names.FileNameIsNeverALiteral | src/lib.rs:60-84 | a file-sourced name never equals the name of a NUL-free literal |
| CommandLine.ParseCommandLineArguments | src/lib.rs:251-284 | succeeds exactly when argv has a second element that is non-empty and holds no `/`; the result is that element and the rest of argv in order; each failure is named: missing, empty, or a path |
| Records.Split | src/lib.rs:223 | no record produced by splitting holds a line feed |
| Records.SplitTerminated | src/lib.rs:223 | writing LF-free records one per line and splitting gives back exactly those records, empty ones included |
| Records.TerminatedSplit | src/lib.rs:223 | re-joining the records, each followed by an LF, restores the file, plus one LF when it did not end in one |
| Records.Fold | src/lib.rs:222-239 | over the records from a given line number: each record is checked for a NUL, then handed to the callback; the first failure ends the run (a definition; `Records.FoldStopsAtFirstNul` and the list lemmas state what it yields) |
| Records.LinesListedInFile | src/lib.rs:211-240 | an unreadable file is `CouldNotOpen`; otherwise the fold over the file's records from line zero (a definition; `Records.AddFromLinesListedInFile` is proved equal to it) |
| Records.AddFromLinesListedInFile | src/lib.rs:211-240 | the reader loop, which counts lines from zero, returns exactly the fold of NUL checks and callbacks over the records; an unreadable file is `CouldNotOpen` |
| Records.FirstWithNul | src/lib.rs:230-233 | None exactly when no record holds a NUL; otherwise the index of the first record that does |
| Records.FoldStopsAtFirstNul | src/lib.rs:222-239 | with a callback that never fails, reading fails exactly when a record holds a NUL, at the first such record, with its zero-based index and the column of its first NUL |
| Lists.BlackList.constructor | src/lib.rs:92-100 | the black set is exactly the defaults |
| Lists.BlackList.AddToFromFile | src/lib.rs:102-108 | on success the set becomes what loading the file gives; on failure the error is returned |
| Lists.BlackListFileOnlyAdds | src/lib.rs:102-108 | loading fails iff the file is unreadable (`CouldNotOpen`) or a record holds a NUL (the first one is reported); otherwise the new set is the old one plus every record's NUL-suffixed name |
| Lists.BlackList.IsBlackListed | src/lib.rs:110-113 | byte-exact membership of the name in the black set (a definition; `Lists.WhiteList.FilterEnvironment` states what it decides) |
| Lists.BlackList.IsNotBlackListed | src/lib.rs:115-118 | the negation of `IsBlackListed` (a definition; `Lists.WhiteList.FilterEnvironment` states what it decides) |
| Lists.CheckedDefaults | src/lib.rs:126-138 | fails iff some default is black-listed, naming the first such default; otherwise the white set is exactly the defaults |
| Lists.WhiteList.Empty | src/lib.rs:128 | a white list with no names that refers to the given black list |
| Lists.WhiteList.New | src/lib.rs:126-138 | the result is the checked defaults with a reference to the black list, or the error for the first black-listed default |
| Lists.WhiteList.AddToFromFile | src/lib.rs:140-153 | on success the set becomes what loading the file against the black list gives; on failure the error is returned |
| Lists.WhiteListFileSkipsBlackListed | src/lib.rs:140-153 | fails exactly as a black-list file does; otherwise adds every listed name that is not black-listed, and black-listed ones leave the set unchanged |
| Lists.WhiteList.IsWhiteListed | src/lib.rs:155-158 | byte-exact membership of the name in the white set (a definition; `Lists.WhiteList.FilterEnvironment` states what it decides) |
| Lists.WhiteList.FilterEnvironment | src/lib.rs:160-167 | an inherited variable is kept exactly when `BlackList.IsNotBlackListed` and `WhiteList.IsWhiteListed` hold of its name, wrapped without a NUL; kept values are unchanged |
| Lists.FileEntriesNeverMatchLiveNames | src/lib.rs:160-167 | for an environment with NUL-free names, adding file-sourced names to either list does not change the filtered environment |
| Lists.SettingsList.constructor | src/lib.rs:175-178 | the settings are exactly the defaults |
| Lists.ParseSetting | src/lib.rs:194-200 | no setting exactly when the record has no TAB |
| Lists.ParseSettingRoundTrip | src/lib.rs:194-200 | `name TAB value`, with a TAB-free name, parses to that name and value, each NUL-suffixed; further TABs belong to the value |
| Lists.FirstBadSetting | src/lib.rs:194-196 | None exactly when every record is NUL-free and holds a TAB; otherwise the index of the first record that is not |
| Lists.SettingsFileOutcome | src/lib.rs:189-206 | loading fails iff the file is unreadable or has a bad record; the first bad record is reported, with a NUL taking precedence over a missing TAB; otherwise every record is inserted in file order |
| Lists.SettingNameParses | src/lib.rs:199 | the name a record with a TAB sets is the one it parses to, and it holds a NUL |
| Lists.LastSettingNone | src/lib.rs:202 | no last setting exactly when no record sets the name |
| Lists.LastSettingIsLast | src/lib.rs:202 | the found record sets the name, and no later record does |
| Lists.SettledLastWins | src/lib.rs:202 | last write wins: a name is present iff it was already present or some record sets it; it takes the value of its last record, or otherwise keeps its old value |
| Lists.SettingsFileKeepsNulFreeNames | src/lib.rs:189-206 | a loaded settings file never adds, removes or changes a NUL-free name |
| Lists.SettingsList.AddToFromFile | src/lib.rs:189-206 | on success the map becomes what loading the file gives; on failure the error is returned |
| Lists.Overlay | src/lib.rs:180-187 | a name is in the result iff it is inherited or set; a set name has its setting's value, any other its inherited value |
| Lists.OverlayInsert | src/lib.rs:182-185 | inserting one more setting before the overlay is the same as overwriting that one entry after it, so insertion order does not matter |
| Lists.SettingsList.AddSettingsToEnvironment | src/lib.rs:180-187 | the insert loop, taking names in any order, yields exactly the overlay of the settings on the environment |
| DefaultLiterals.PathNotBlack | src/main.rs:76-128 | "PATH" is not a black-list literal |
| DefaultLiterals.TmpDirNotBlack | src/main.rs:76-128 | "TMPDIR" is not a black-list literal |
| DefaultLiterals.NoSettingIsPath | src/main.rs:156-220 | no variable that `defaultSettings` sets is PATH |
| DefaultLiterals.TextInjective | src/main.rs:156-220 | different setting variables have different literals |
| DefaultLiterals.LoaderLiteralsHaveASpace | src/main.rs:92-112 | "LD_BIND_NOW " and "LDD_ARGV0 ", each with a trailing space, are black-list literals |
| DefaultLiterals.LdBindNowNotListed | src/main.rs:92 | "LD_BIND_NOW" without the space is not listed |
| DefaultLiterals.LddArgv0NotListed | src/main.rs:112 | "LDD_ARGV0" without the space is not listed |
| Defaults.DefaultBlackList | src/main.rs:76-128 | the 35 black-list literals in order, as names (a definition; `Defaults.DefaultListsDisjoint` and `Defaults.TrailingSpaceDefaults` state its properties) |
| Defaults.DefaultWhiteList | src/main.rs:130-154 | PATH and TMPDIR, as names (a definition; `Defaults.DefaultListsDisjoint` and `Launcher.TmpDirWhiteListed` state its properties) |
| Defaults.FromLiterals | src/main.rs:76-154 | each literal becomes the name of its own bytes, in order |
| Defaults.InLiterals | src/main.rs:76-154 | a literal's name is in a list's names exactly when the literal is in the list |
| Defaults.DefaultListsDisjoint | src/main.rs:76-154 | no name is on both default lists |
| Defaults.DefaultWhiteListAccepted | src/lib.rs:126-138 | building the white list from its defaults against the default black list never fails |
| Defaults.TrailingSpaceDefaults | src/main.rs:92-112 | the black list holds "LD_BIND_NOW " and "LDD_ARGV0 " but not "LD_BIND_NOW" or "LDD_ARGV0" |
| Defaults.KindFileNames | src/main.rs:65 | the lower-cased file kinds are "black", "white" and "settings" |
| Defaults.SettingsFor | src/main.rs:60-74 | returns the per-program path exactly when it names a regular file |
| Defaults.Join | src/main.rs:63-65 | `PathBuf::join` on Unix: an absolute path replaces the base; otherwise one `/` separates them unless the base is empty or already ends in one (a definition; `Defaults.JoinRelative` states the case the program uses) |
| Defaults.JoinRelative | src/main.rs:63-65 | joining a relative path onto a base that does not end in `/` inserts exactly one `/` |
| Defaults.ConfigPathLayout | src/main.rs:62-65 | with a home folder that does not end in `/` and a bare program name, the file is `home/.environment-sanity/settings/program/kind` |
| Defaults.TemporaryFolderLayout | src/main.rs:167-173 | with the same conditions, TMPDIR is `home/.environment-sanity/tmp/program` |
| Defaults.KeyInjective | src/main.rs:156-220 | different setting variables have different names |
| Defaults.VarOs | src/main.rs:195-212 | `var_os` is Some exactly when the variable is inherited, with its inherited value |
| Defaults.CommonTableLookup | src/main.rs:161-209 | every variable other than USER and LOGNAME is in the common table, with its per-variable value |
| Defaults.DefaultTableLookup | src/main.rs:156-220 | the successive inserts set exactly the variables that have a per-variable value, to that value |
| Defaults.KeyedLookup | src/main.rs:156-220 | the keyed map holds a variable's name exactly when the table holds the variable, with the same value |
| Defaults.DefaultSettingsLookup | src/main.rs:156-220 | a variable is in the default settings iff `defaultSettings` sets it, with the value it sets |
| Defaults.DefaultSettingsKeys | src/main.rs:156-220 | every key of the default settings is the name of one of the setting variables |
| Defaults.DefaultTimeZone | src/main.rs:161 | TZ is always set, to "Etc/UTC" |
| Defaults.DefaultHome | src/main.rs:164 | HOME is always set, to the home folder |
| Defaults.DefaultTemporaryFolder | src/main.rs:167-173 | TMPDIR is always set, to the per-program temporary folder |
| Defaults.DefaultNoAnalytics | src/main.rs:176 | HOMEBREW_NO_ANALYTICS is always set, to "1" |
| Defaults.DefaultSettingsLocale | src/main.rs:183-209 | the eight locale variables are "C.UTF-8" on Linux and "UTF-8" elsewhere |
| Defaults.DefaultSettingsLinuxUser | src/main.rs:194-198 | on Linux, USER is set iff LOGNAME is inherited, to its value |
| Defaults.DefaultSettingsLinuxNoLogName | src/main.rs:183-199 | on Linux, LOGNAME is never set |
| Defaults.DefaultSettingsOtherLogName | src/main.rs:211-215 | elsewhere, LOGNAME is set iff USER is inherited, to its value |
| Defaults.DefaultSettingsOtherNoUser | src/main.rs:200-216 | elsewhere, USER is never set |
| Defaults.DefaultSettings | src/main.rs:156-220 | the successive inserts build exactly the default settings map |
| Launcher.WithoutHome | src/main.rs:52 | after `remove_var("HOME")`, the inherited environment is unchanged except that HOME is absent |
| Launcher.NotAFileName | src/lib.rs:242-249 | a NUL-free name is never one that a list file adds |
| Launcher.KeyNulFree | src/main.rs:156-220 | the names of the default settings hold no NUL |
| Launcher.BlackNamesNulFree | src/main.rs:27-31 | whether a NUL-free name is black-listed is decided by the defaults alone |
| Launcher.WhiteDefaultsAccepted | src/main.rs:33 | whatever the black-list file holds, the default white list is accepted |
| Launcher.WhiteNamesNulFree | src/main.rs:33-37 | whether a NUL-free name is white-listed is decided by the defaults alone |
| Launcher.LoadedSettingsNulFree | src/main.rs:39-43 | the setting of a NUL-free name is the default's, whatever the settings file holds |
| Launcher.LaunchNulFreeName | src/main.rs:21-48 | a NUL-free name reaches the program iff it is a default setting, or an inherited name other than HOME that is white-listed and not black-listed by default; its value is the setting's if there is one, else the inherited one |
| Launcher.LaunchDefaultSetting | src/main.rs:39-46 | every variable that `defaultSettings` sets reaches the program with the default value |
| Launcher.LaunchHome | src/main.rs:126 | HOME is black-listed, yet the program sees HOME bound to the home folder |
| Launcher.LaunchTemporaryFolder | src/main.rs:135 | the program sees TMPDIR bound to the per-program temporary folder, never the inherited value |
| Launcher.LaunchTimeZone | src/main.rs:161 | the program always sees TZ=Etc/UTC, whatever the settings file says |
| Launcher.TmpDirWhiteListed | src/main.rs:135 | TMPDIR is on the default white list |
| Launcher.PathPassesLists | src/main.rs:134 | PATH is NUL-free, is not HOME, is white-listed and is not black-listed |
| Launcher.PathIsNoSetting | src/main.rs:156-220 | no default setting is PATH |
| Launcher.LaunchPath | src/main.rs:45-46 | PATH reaches the program iff it is inherited, with the inherited value |
| Launcher.BlackNamesFailure | src/main.rs:27-31 | the black list fails only because its file is unreadable or holds a NUL |
| Launcher.WhiteNamesFailure | src/main.rs:33-37 | once the black list is complete, the white list fails only because its file is unreadable or holds a NUL |
| Launcher.LoadedSettingsFailure | src/main.rs:39-43 | the settings fail only because their file is unreadable or has a record with a NUL or without a TAB |
| Launcher.LaunchFailures | src/main.rs:21-48 | no home folder fails first, then a bad command line; after that a failure is always an unreadable file or a bad record, never a default-list clash |
| Launcher.LoadBlackList | src/main.rs:27-31 | builds a fresh black list whose set is the complete black list, or returns its error |
| Launcher.LoadWhiteList | src/main.rs:33-37 | builds a fresh white list, over the given black list, whose set is the complete white list, or returns its error |
| Launcher.LoadSettingsList | src/main.rs:39-43 | builds a fresh settings list whose map is the complete settings, or returns its error |
| Launcher.Launch | src/main.rs:21-48 | `main` as one value: no home folder, then a bad command line, then the black list, the white list and the settings, each failing with its first error; on success the program, its arguments and the settings laid over the filtered HOME-less environment (a definition; `Launcher.LaunchNulFreeName` and `Launcher.LaunchFailures` state what it yields) |
| Launcher.Run | src/main.rs:21-48 | `main` over the list objects, in the program's order, yields exactly `Launch` |

## Left out

- File I/O: opening and reading are one abstract outcome. A file that cannot be opened and a line that cannot be read both become `CouldNotOpen`, because the model reads a whole file at once.
- `execute` (`src/lib.rs:286-297`): the exec system call and its failure are not modelled. The pipeline ends with the `Exec` value it would be given: program, arguments and the complete environment, which `env_clear` makes the only one. The standard library's `Command` refuses an environment holding a NUL byte, so an `Exec` whose environment holds entries added by a settings file (all NUL-suffixed) would not start the program at all; the model does not capture that refusal and makes no claim that the program sees those entries.
- Diagnostic text: the message text of `warn!` and `fatalExit!`, the stderr writes and the exit status. Each fatal condition is one `Fatal` constructor carrying the data its message names. The warning for a black-listed white-list file entry has no effect on state and is not modelled.
- `home_dir`, `var_os`, `vars_os` and `remove_var` are parameters. The home folder is a single value, although `settingsFor` and `defaultSettings` query it again each time.
- `cfg!(target_os = "linux")` is the `isLinux` parameter.
- `Path::exists`/`is_file` are the file-system map's `RegularFile` entries.
- `to_lowercase` is modelled for ASCII only; it is applied only to the literals "Black", "White" and "Settings".
- `HashSet`/`HashMap` capacity and iteration order are not modelled. `Lists.SettingsList.AddSettingsToEnvironment` takes names in an arbitrary order, and its result is proved independent of that order.
- On a fatal error, the list methods leave their field as it was. The program exits instead, so no later state is observable.
- The lemmas about NUL-free names (`Launcher.LaunchNulFreeName`, `Launcher.LaunchPath`, `Lists.FileEntriesNeverMatchLiveNames`) state facts about names without a NUL. Unix environment names never hold one.
- Launcher.LaunchTemporaryFolder: does not restate that TMPDIR is white-listed; `Launcher.TmpDirWhiteListed` states it separately.
- The derived traits of `EnvironmentVariable` (`Debug`, `Clone`, ordering, hashing) are not modelled beyond byte equality; `to_os_string` is `Names.ToOsString`.
