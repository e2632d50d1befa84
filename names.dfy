/** Environment-variable names, OS strings and the program's fatal
    diagnostics (src/lib.rs:29-85). */
module Names {
  import opened Bytes

  /** A Unix `OsString`: raw bytes. */
  type OsString = seq<byte>

  /** A name: the wrapped `OsString`; equality is byte-exact. */
  datatype EnvironmentVariable = EnvironmentVariable(bytes: OsString)

  /** The file kinds the program reads; `Name` is the `&'static str` it passes. */
  datatype FileKind = Black | White | Settings {
    function Name(): string {
      match this
      case Black => "Black"
      case White => "White"
      case Settings => "Settings"
    }
  }

  /** The conditions under which `fatalExit!` ends the process. The message
      text is not modelled, only what it identifies. */
  datatype Fatal =
    | CouldNotOpen(kind: FileKind, path: OsString)
    | ContainsNul(kind: FileKind, path: OsString, line: nat, column: nat)
    | NoTabDelimiter(kind: FileKind, path: OsString, line: nat)
    | InBothDefaultLists(name: EnvironmentVariable)
    | NoProgramName
    | EmptyProgramName
    | ProgramNameIsAPath(programName: OsString)
    | NoHomeDirectory

  /** `osStringFromRawBytesWithoutADelimiter`: the record's bytes with a NUL
      pushed on the end. */
  function OsStringFromRawBytesWithoutADelimiter(raw: seq<byte>): (r: OsString)
    ensures |r| == |raw| + 1 && r[..|raw|] == raw && r[|raw|] == Nul
  {
    raw + [Nul]
  }

  /** `EnvironmentVariable::fromRawBytesWithoutADelimiter`: a name read from a
      file, which therefore also ends in a NUL. */
  function FromRawBytesWithoutADelimiter(raw: seq<byte>): (r: EnvironmentVariable)
    ensures |r.bytes| == |raw| + 1 && r.bytes[..|raw|] == raw && r.bytes[|raw|] == Nul
  {
    EnvironmentVariable(OsStringFromRawBytesWithoutADelimiter(raw))
  }

  /** `From<&str> for EnvironmentVariable`: exactly the string's bytes, its
      UTF-8 encoding, with nothing appended. */
  function FromStr(s: string): EnvironmentVariable {
    EnvironmentVariable(Encode(s))
  }

  /** An ASCII literal's name has one byte per character, equal to it. */
  lemma FromStrAscii(s: string)
    requires IsAscii(s)
    ensures |FromStr(s).bytes| == |s| && forall i :: 0 <= i < |s| ==> FromStr(s).bytes[i] as int == s[i] as int
  {
    EncodeAscii(s);
  }

  /** Different literals make different names. */
  lemma FromStrInjective(s: string, t: string)
    ensures FromStr(s) == FromStr(t) <==> s == t
  {
    EncodeInjective(s, t);
  }

  /** `to_os_string`: the wrapped bytes, unchanged. */
  function ToOsString(name: EnvironmentVariable): OsString {
    name.bytes
  }

  /** Reading the same record twice gives the same name, and different
      records give different names. */
  lemma FromRawBytesInjective(a: seq<byte>, b: seq<byte>)
    ensures FromRawBytesWithoutADelimiter(a) == FromRawBytesWithoutADelimiter(b) <==> a == b
  {
    if FromRawBytesWithoutADelimiter(a) == FromRawBytesWithoutADelimiter(b) {
      assert a == FromRawBytesWithoutADelimiter(a).bytes[..|a|];
    }
  }

  /** A name read from a file never equals a name whose bytes hold no NUL:
      neither a name built from a NUL-free literal nor a live environment
      name. */
  lemma FileNameIsNeverNulFree(raw: seq<byte>, other: OsString)
    requires Nul !in other
    ensures FromRawBytesWithoutADelimiter(raw) != EnvironmentVariable(other)
  {
    var n := FromRawBytesWithoutADelimiter(raw);
    assert n.bytes[|raw|] == Nul;
  }

  /** In particular a file-sourced name never equals a literal default. */
  lemma FileNameIsNeverALiteral(raw: seq<byte>, s: string)
    requires forall i :: 0 <= i < |s| ==> s[i] != '\0'
    ensures FromRawBytesWithoutADelimiter(raw) != FromStr(s)
  {
    EncodeNulFree(s);
    FileNameIsNeverNulFree(raw, Encode(s));
  }
}
