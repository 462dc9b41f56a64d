/**
 * Starting, stopping, restarting, installing and reading the logs of a
 * service: which command runs, in what order, and how its outcome becomes
 * the `(success, message)` pair shown to the user.
 */
module Lifecycle {
  import opened Wrappers
  import opened Text
  import opened Models
  import opened Subprocess

  /** The `(success, message)` pair every lifecycle action returns. */
  datatype ActionResult = ActionResult(success: bool, message: string)

  /** How `_run_shell_command` reports a subprocess run. */
  function ShellReport(o: RunOutcome): (r: ActionResult)
    ensures r.success <==> o.Exited? && o.code == 0
    ensures o.Exited? ==> r.message != ""
    // Success reports stdout, ignoring stderr, where `docker compose` writes its progress.
    ensures o.Exited? && o.code == 0 ==> r.message == (if o.stdout != "" then o.stdout else "Success")
    // Failure prefers stderr, then stdout.
    ensures o.Exited? && o.code != 0 ==>
      r.message == (if o.stderr != "" then o.stderr else if o.stdout != "" then o.stdout else "Unknown error")
    ensures o.TimedOut? ==> r.message == "Command timed out"
    ensures o.Raised? ==> r.message == o.error.message
  {
    match o
    case Exited(code, stdout, stderr) =>
      if code == 0 then ActionResult(true, if stdout != "" then stdout else "Success")
      else ActionResult(false, if stderr != "" then stderr else if stdout != "" then stdout else "Unknown error")
    case TimedOut => ActionResult(false, "Command timed out")
    case Raised(e) => ActionResult(false, e.message)
  }

  /** How `_run_compose_command` reports a run: as the shell runner, except that a missing `docker` binary has its own message. */
  function ComposeReport(o: RunOutcome): (r: ActionResult)
    ensures o.Raised? && o.error.FileNotFound? ==> r == ActionResult(false, "Docker not found")
    ensures !(o.Raised? && o.error.FileNotFound?) ==> r == ShellReport(o)
  {
    match o
    case Raised(FileNotFound(_)) => ActionResult(false, "Docker not found")
    case _ => ShellReport(o)
  }

  /** A custom verb command goes through the shell runner, a `docker compose` default through the compose runner. */
  function Report(c: Command, o: RunOutcome): (r: ActionResult)
    ensures r.success <==> o.Exited? && o.code == 0
    ensures c.Shell? ==> r == ShellReport(o)
    ensures c.Exec? ==> r == ComposeReport(o)
  {
    match c
    case Shell(_, _) => ShellReport(o)
    case Exec(_, _) => ComposeReport(o)
  }

  /** What `start` runs: the custom start command if it is non-empty, else `docker compose up -d`, in the service directory. */
  function StartCommand(config: ServiceConfig): (c: Command)
    ensures c.cwd == config.path
    ensures Truthy(config.lifecycle.start) ==> c == Shell(config.lifecycle.start.value, config.path)
    ensures !Truthy(config.lifecycle.start) ==> c == Exec(["docker", "compose", "up", "-d"], config.path)
  {
    if Truthy(config.lifecycle.start) then Shell(config.lifecycle.start.value, config.path)
    else Compose(["up", "-d"], config.path)
  }

  /** What `stop` runs: the custom stop command if it is non-empty, else `docker compose down`. */
  function StopCommand(config: ServiceConfig): (c: Command)
    ensures c.cwd == config.path
    ensures Truthy(config.lifecycle.stop) ==> c == Shell(config.lifecycle.stop.value, config.path)
    ensures !Truthy(config.lifecycle.stop) ==> c == Exec(["docker", "compose", "down"], config.path)
  {
    if Truthy(config.lifecycle.stop) then Shell(config.lifecycle.stop.value, config.path)
    else Compose(["down"], config.path)
  }

  /**
   * The lifecycle manager. Subprocesses are not run: `respond(n, c)` is the
   * outcome of the `n`-th command this object launches, and `trace` records
   * every command launched, in order.
   */
  class ServiceLifecycle {
    const servicesDir: Path
    const respond: (nat, Command) -> RunOutcome
    var launched: nat
    ghost var trace: seq<Command>

    ghost predicate Valid()
      reads this
    {
      launched == |trace|
    }

    constructor (servicesDir: Path, respond: (nat, Command) -> RunOutcome)
      ensures Valid() && trace == []
      ensures this.servicesDir == servicesDir && this.respond == respond
    {
      this.servicesDir := servicesDir;
      this.respond := respond;
      launched := 0;
      trace := [];
    }

    /** Launches `c` and reports its outcome with the runner `c` belongs to. */
    method Run(c: Command) returns (r: ActionResult)
      requires Valid()
      modifies this
      ensures Valid() && trace == old(trace) + [c]
      ensures r == Report(c, respond(old(launched), c))
    {
      var outcome := respond(launched, c);
      launched := launched + 1;
      trace := trace + [c];
      r := Report(c, outcome);
    }

    method Start(config: ServiceConfig) returns (r: ActionResult)
      requires Valid()
      modifies this
      ensures Valid() && trace == old(trace) + [StartCommand(config)]
      ensures r == Report(StartCommand(config), respond(old(launched), StartCommand(config)))
    {
      r := Run(StartCommand(config));
    }

    method Stop(config: ServiceConfig) returns (r: ActionResult)
      requires Valid()
      modifies this
      ensures Valid() && trace == old(trace) + [StopCommand(config)]
      ensures r == Report(StopCommand(config), respond(old(launched), StopCommand(config)))
    {
      r := Run(StopCommand(config));
    }

    /**
     * A custom restart command runs alone. Otherwise stop runs first, and
     * start runs only when stop succeeded.
     */
    method Restart(config: ServiceConfig) returns (r: ActionResult)
      requires Valid()
      modifies this
      ensures Valid()
      ensures Truthy(config.lifecycle.restart) ==>
        var c := Shell(config.lifecycle.restart.value, config.path);
        trace == old(trace) + [c] && r == ShellReport(respond(old(launched), c))
      ensures !Truthy(config.lifecycle.restart) ==>
        var stop := StopCommand(config);
        var stopped := Report(stop, respond(old(launched), stop));
        var start := StartCommand(config);
        var started := Report(start, respond(old(launched) + 1, start));
        if !stopped.success then
          trace == old(trace) + [stop] && r == ActionResult(false, "Failed to stop: " + stopped.message)
        else
          trace == old(trace) + [stop, start]
          && r == (if started.success then ActionResult(true, "Restarted successfully")
                   else ActionResult(false, "Failed to start: " + started.message))
    {
      if Truthy(config.lifecycle.restart) {
        r := Run(Shell(config.lifecycle.restart.value, config.path));
        return;
      }
      var stopped := Stop(config);
      if !stopped.success {
        return ActionResult(false, "Failed to stop: " + stopped.message);
      }
      var started := Start(config);
      if !started.success {
        return ActionResult(false, "Failed to start: " + started.message);
      }
      r := ActionResult(true, "Restarted successfully");
    }
  }

  // ---------------------------------------------------------------------
  // install and logs: the command chosen and the lines yielded

  /** What a streamed process hands back: its output lines (`None` when there is no stdout pipe) and its exit code. */
  datatype Streamed = Streamed(output: Option<seq<string>>, returnCode: int)

  /** Every output line with trailing whitespace, including its terminator, removed. */
  function RStripAll(lines: seq<string>): (r: seq<string>)
    ensures |r| == |lines|
    ensures forall i :: 0 <= i < |r| ==> r[i] == RStrip(lines[i])
  {
    seq(|lines|, i requires 0 <= i < |lines| => RStrip(lines[i]))
  }

  function UpdateScript(config: ServiceConfig): Path {
    config.path.Join("update.sh")
  }

  /** What `install` runs: the custom install command wins over `update.sh`; with neither, nothing runs. */
  function InstallCommand(config: ServiceConfig, updateScriptExists: bool): (c: Option<Command>)
    ensures Truthy(config.lifecycle.install) ==> c == Some(Shell(config.lifecycle.install.value, config.path))
    ensures !Truthy(config.lifecycle.install) ==> (c.Some? <==> updateScriptExists)
    ensures !Truthy(config.lifecycle.install) && updateScriptExists ==>
      c == Some(Exec([UpdateScript(config).ToString()], config.path))
  {
    if Truthy(config.lifecycle.install) then Some(Shell(config.lifecycle.install.value, config.path))
    else if updateScriptExists then Some(Exec([UpdateScript(config).ToString()], config.path))
    else None
  }

  /** The lines `install` yields, given whether `update.sh` exists and how the process it launched ran. */
  function InstallOutput(config: ServiceConfig, updateScriptExists: bool, run: Streamed): (r: seq<string>)
    ensures r != []
    ensures InstallCommand(config, updateScriptExists).None? ==>
      r == ["Error: " + UpdateScript(config).ToString() + " not found and no lifecycle.install command"]
    ensures InstallCommand(config, updateScriptExists).Some? && run.output.None? ==>
      r == ["Error: Could not capture output"]
    ensures InstallCommand(config, updateScriptExists).Some? && run.output.Some? ==>
      && r[..|r| - 1] == RStripAll(run.output.value)
      && (r[|r| - 1] == "✅ Install completed successfully" <==> run.returnCode == 0)
      && (run.returnCode != 0 ==> r[|r| - 1] == "❌ Install failed with code " + IntToDecimal(run.returnCode))
  {
    if InstallCommand(config, updateScriptExists).None? then
      ["Error: " + UpdateScript(config).ToString() + " not found and no lifecycle.install command"]
    else if run.output.None? then
      ["Error: Could not capture output"]
    else
      var last := if run.returnCode == 0 then "✅ Install completed successfully"
        else "❌ Install failed with code " + IntToDecimal(run.returnCode);
      assert run.returnCode != 0 ==> last[0] == '❌' != "✅ Install completed successfully"[0];
      var r := RStripAll(run.output.value) + [last];
      assert r[..|r| - 1] == RStripAll(run.output.value);
      r
  }

  /** The command `logs` launches, built up the way the source builds it. */
  method LogsCommand(config: ServiceConfig, follow: bool, tail: int) returns (c: Command)
    ensures c.cwd == config.path
    ensures Truthy(config.lifecycle.logs) ==>
      c == Shell(config.lifecycle.logs.value
                 + (if follow then " -f" else "")
                 + (if tail != 0 then " --tail=" + IntToDecimal(tail) else ""),
                 config.path)
    ensures !Truthy(config.lifecycle.logs) ==>
      c == Exec(["docker", "compose", "logs", "--tail=" + IntToDecimal(tail)] + (if follow then ["-f"] else []),
                config.path)
  {
    if Truthy(config.lifecycle.logs) {
      var cmd := config.lifecycle.logs.value;
      if follow {
        cmd := cmd + " -f";
      }
      if tail != 0 {
        cmd := cmd + " --tail=" + IntToDecimal(tail);
      }
      c := Shell(cmd, config.path);
    } else {
      var cmdList := ["docker", "compose", "logs", "--tail=" + IntToDecimal(tail)];
      if follow {
        cmdList := cmdList + ["-f"];
      }
      c := Exec(cmdList, config.path);
    }
  }

  /** The lines `logs` yields for the output of the process it launched. */
  function LogsOutput(output: Option<seq<string>>): (r: seq<string>)
    ensures output.None? ==> r == ["Error: Could not capture logs"]
    ensures output.Some? ==> r == RStripAll(output.value)
  {
    if output.None? then ["Error: Could not capture logs"] else RStripAll(output.value)
  }
}
