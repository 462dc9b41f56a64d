/**
 * What the services layer asks of the operating system and what it gets
 * back. The subprocess itself is not modelled: a run is an abstract outcome.
 */
module Subprocess {
  import opened Models

  /** A subprocess request: a shell line, or an argument vector run directly. */
  datatype Command = Shell(line: string, cwd: Path) | Exec(argv: seq<string>, cwd: Path)

  /** An exception raised while running a subprocess. */
  datatype RunError =
    | FileNotFound(message: string)   // `FileNotFoundError`, e.g. no `docker` binary
    | OtherError(message: string)     // any other exception; `message` is `str(e)`

  /** How a `subprocess.run` call with captured output ends. */
  datatype RunOutcome =
    | Exited(code: int, stdout: string, stderr: string)
    | TimedOut                        // `subprocess.TimeoutExpired`
    | Raised(error: RunError)

  /** `["docker", "compose", *args]` run in `cwd`. */
  function Compose(args: seq<string>, cwd: Path): Command {
    Exec(["docker", "compose"] + args, cwd)
  }
}
