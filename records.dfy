/** The line-file reader (src/lib.rs:209-249): a configuration file is split
    on LF into records numbered from zero; the first record holding a NUL
    ends the run, and every earlier record is handed to the caller's
    callback, which may itself end the run. */
module Records {
  import opened Wrappers
  import opened Bytes
  import opened Names

  /** What a path names. `File::open` on a regular file either yields its
      bytes or fails (open and read failures are one outcome, `None`). */
  datatype FsEntry = RegularFile(content: Option<seq<byte>>) | NotAFile

  type FileSystem = map<OsString, FsEntry>

  /** `File::open` followed by reading to the end. */
  function ReadFile(fs: FileSystem, path: OsString): Option<seq<byte>> {
    if path in fs && fs[path].RegularFile? then fs[path].content else None
  }

  /** `BufRead::split(LineFeed)`: the records between line feeds, without
      the delimiter; a trailing empty segment after the last LF is not a
      record. */
  function Split(content: seq<byte>): (r: seq<seq<byte>>)
    ensures forall i :: 0 <= i < |r| ==> LineFeed !in r[i]
    decreases |content|
  {
    if content == [] then []
    else match IndexOf(content, LineFeed)
      case None => [content]
      case Some(k) => [content[..k]] + Split(content[k + 1..])
  }

  /** The inverse of `Split`: every record followed by an LF. */
  function Terminated(records: seq<seq<byte>>): seq<byte> {
    if records == [] then [] else records[0] + [LineFeed] + Terminated(records[1..])
  }

  /** Writing LF-free records one per line and splitting the file gives
      back exactly those records, empty ones included. */
  lemma {:induction false} SplitTerminated(records: seq<seq<byte>>)
    requires forall i :: 0 <= i < |records| ==> LineFeed !in records[i]
    ensures Split(Terminated(records)) == records
  {
    if records != [] {
      var rest := Terminated(records[1..]);
      var content := records[0] + [LineFeed] + rest;
      assert content[..|records[0]|] == records[0];
      assert content[|records[0]|] == LineFeed;
      assert IndexOf(content, LineFeed) == Some(|records[0]|);
      assert content[|records[0]| + 1..] == rest;
      SplitTerminated(records[1..]);
      assert [records[0]] + records[1..] == records;
    }
  }

  /** `content` with an LF appended unless it is empty or already ends in one. */
  function Closed(content: seq<byte>): seq<byte> {
    if content == [] || content[|content| - 1] == LineFeed then content else content + [LineFeed]
  }

  /** Splitting loses nothing: putting an LF after every record restores the
      file, plus one LF when the file did not end in one. */
  lemma {:induction false} TerminatedSplit(content: seq<byte>)
    ensures Terminated(Split(content)) == Closed(content)
    decreases |content|
  {
    if content != [] {
      var found := IndexOf(content, LineFeed);
      if found.None? {
        assert Split(content) == [content];
        assert Terminated([content]) == content + [LineFeed] + Terminated([]);
      } else {
        var k := found.value;
        TerminatedSplit(content[k + 1..]);
        ClosedAt(content, k);
      }
    }
  }

  // One step of TerminatedSplit: the record before the first LF, then the rest.
  lemma ClosedAt(content: seq<byte>, k: nat)
    requires IndexOf(content, LineFeed) == Some(k)
    requires Terminated(Split(content[k + 1..])) == Closed(content[k + 1..])
    ensures Terminated(Split(content)) == Closed(content)
  {
    var head, rest := content[..k], content[k + 1..];
    var records := Split(rest);
    assert Split(content) == [head] + records;
    TerminatedCons(head, records);
    Around(content, k);
    ClosedCons(head, rest);
  }

  lemma Around(content: seq<byte>, k: nat)
    requires k < |content| && content[k] == LineFeed
    ensures content == content[..k] + [LineFeed] + content[k + 1..]
  {
    assert content == content[..k] + content[k..];
    assert content[k..] == [content[k]] + content[k + 1..];
  }

  lemma TerminatedCons(head: seq<byte>, tail: seq<seq<byte>>)
    ensures Terminated([head] + tail) == head + [LineFeed] + Terminated(tail)
  {
    assert ([head] + tail)[1..] == tail;
  }

  lemma ClosedCons(head: seq<byte>, rest: seq<byte>)
    ensures Closed(head + [LineFeed] + rest) == head + [LineFeed] + Closed(rest)
  {
    var content := head + [LineFeed] + rest;
    if rest != [] {
      assert content[|content| - 1] == rest[|rest| - 1];
      assert content + [LineFeed] == head + [LineFeed] + (rest + [LineFeed]);
    } else {
      assert content == head + [LineFeed];
    }
  }

  /** The callback a list passes to the reader: given the state so far, a
      record, the file kind, the path and the record's zero-based index, it
      gives the new state or a fatal error. */
  type Step<!S> = (S, seq<byte>, FileKind, OsString, nat) -> Result<S, Fatal>

  /** What reading `records`, the first of which has index `line`, does to
      `state`: each record is first checked for a NUL, then handed to `add`;
      the first failure ends the run. */
  function Fold<S>(kind: FileKind, path: OsString, records: seq<seq<byte>>, line: nat, state: S, add: Step<S>): Result<S, Fatal>
    decreases |records|
  {
    if records == [] then Success(state)
    else match IndexOf(records[0], Nul)
      case Some(column) => Failure(ContainsNul(kind, path, line, column))
      case None =>
        match add(state, records[0], kind, path, line)
        case Failure(e) => Failure(e)
        case Success(next) => Fold(kind, path, records[1..], line + 1, next, add)
  }

  /** The whole effect of `addFromLinesListedInFile` on `state`. */
  function LinesListedInFile<S>(kind: FileKind, fs: FileSystem, path: OsString, state: S, add: Step<S>): Result<S, Fatal> {
    match ReadFile(fs, path)
    case None => Failure(CouldNotOpen(kind, path))
    case Some(content) => Fold(kind, path, Split(content), 0, state, add)
  }

  /** `addFromLinesListedInFile`: reads the file record by record, counting
      lines from zero. */
  method AddFromLinesListedInFile<S>(kind: FileKind, fs: FileSystem, path: OsString, state: S, add: Step<S>)
    returns (r: Result<S, Fatal>)
    ensures r == LinesListedInFile(kind, fs, path, state, add)
  {
    var file := ReadFile(fs, path);
    if file.None? {
      return Failure(CouldNotOpen(kind, path));
    }
    var records := Split(file.value);
    var line := 0;
    var current := state;
    while line < |records|
      invariant line <= |records|
      invariant Fold(kind, path, records, 0, state, add) == Fold(kind, path, records[line..], line, current, add)
    {
      var record := records[line];
      assert records[line..][0] == record && records[line..][1..] == records[line + 1..];
      var column := IndexOf(record, Nul);
      if column.Some? {
        return Failure(ContainsNul(kind, path, line, column.value));
      }
      var added := add(current, record, kind, path, line);
      if added.Failure? {
        return Failure(added.error);
      }
      current := added.value;
      line := line + 1;
    }
    return Success(current);
  }

  /** A step that never fails. */
  ghost predicate Total<S(!new)>(add: Step<S>) {
    forall s, record, kind, path, line :: add(s, record, kind, path, line).Success?
  }

  /** The index of the first record that holds a NUL, if any. */
  function FirstWithNul(records: seq<seq<byte>>): (r: Option<nat>)
    ensures r.None? <==> forall i :: 0 <= i < |records| ==> Nul !in records[i]
    ensures r.Some? ==>
      && r.value < |records| && Nul in records[r.value]
      && forall i :: 0 <= i < r.value ==> Nul !in records[i]
  {
    if records == [] then None
    else if Nul in records[0] then Some(0)
    else match FirstWithNul(records[1..])
      case None => None
      case Some(j) => Some(j + 1)
  }

  /** With a callback that never fails, reading aborts exactly when some
      record holds a NUL, and then at the first such record, naming its
      index and the column of its first NUL; no later record reaches the
      callback. */
  lemma {:induction false} FoldStopsAtFirstNul<S(!new)>(kind: FileKind, path: OsString, records: seq<seq<byte>>, line: nat, state: S, add: Step<S>)
    requires Total(add)
    ensures Fold(kind, path, records, line, state, add).Failure? <==> FirstWithNul(records).Some?
    ensures FirstWithNul(records).Some? ==>
      var j := FirstWithNul(records).value;
      Fold(kind, path, records, line, state, add) ==
        Failure(ContainsNul(kind, path, line + j, IndexOf(records[j], Nul).value))
    decreases |records|
  {
    if records != [] && Nul !in records[0] {
      assert add(state, records[0], kind, path, line).Success?;
      var next := add(state, records[0], kind, path, line).value;
      FoldStopsAtFirstNul(kind, path, records[1..], line + 1, next, add);
    }
  }
}
