/** Validation of bob's own command line (readCommandLineArgs in bob.cc). */
module Cli {
  import opened Wrappers

  /** The message `fatal` prints on a usage error. */
  const Usage := "usage: bob BOBFILE"

  /** The status `fatal` passes to exit(). */
  const FatalStatus := 1

  /** What `main` learns from its arguments: the path of the command file. */
  datatype CommandLineArgs = CommandLineArgs(bobFile: string)

  /** A call of `fatal`: the message written to standard error and the process's exit status. */
  datatype Fatal = Fatal(message: string, exitStatus: int)

  /**
   * readCommandLineArgs: `argv` is the whole argument vector, so argc == |argv| and
   * argv[0] is the program's own name. Exactly one further argument is accepted;
   * anything else is a fatal usage error. The out-parameter becomes the Success value.
   */
  method ReadCommandLineArgs(argv: seq<string>) returns (r: Result<CommandLineArgs, Fatal>)
    ensures r.Failure? <==> |argv| != 2
    ensures r.Failure? ==> r.error == Fatal(Usage, FatalStatus)
    ensures r.Success? ==> r.value.bobFile == argv[1]
  {
    if |argv| < 2 {
      return Failure(Fatal(Usage, FatalStatus));
    }
    if |argv| > 2 {
      return Failure(Fatal(Usage, FatalStatus));
    }
    return Success(CommandLineArgs(argv[1]));
  }
}
