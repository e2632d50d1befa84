/** `parseCommandLineArguments` (src/lib.rs:251-284), over the argument
    vector it would read from the OS. */
module CommandLine {
  import opened Wrappers
  import opened Bytes
  import opened Names

  /** Skips argv[0]; the next argument is the program to invoke, which must
      be present, non-empty and free of `/`; the rest pass through in order. */
  function ParseCommandLineArguments(args: seq<OsString>): (r: Result<(OsString, seq<OsString>), Fatal>)
    ensures r.Success? <==> |args| >= 2 && args[1] != [] && Slash !in args[1]
    ensures r.Success? ==> r.value == (args[1], args[2..])
    ensures |args| < 2 ==> r == Failure(NoProgramName)
    ensures |args| >= 2 && args[1] == [] ==> r == Failure(EmptyProgramName)
    ensures |args| >= 2 && args[1] != [] && Slash in args[1] ==> r == Failure(ProgramNameIsAPath(args[1]))
  {
    var input := if args == [] then [] else args[1..];
    if input == [] then Failure(NoProgramName)
    else if input[0] == [] then Failure(EmptyProgramName)
    else if IndexOf(input[0], Slash).Some? then Failure(ProgramNameIsAPath(input[0]))
    else Success((input[0], input[1..]))
  }
}
