/**
 * The health decision procedure: a custom status command if the service
 * has one, else the state of its docker compose containers, refined by an
 * HTTP probe of the primary port. The outside world is an `Observations`
 * record; `Checked.queries` lists what was asked of it, in order.
 */
module Health {
  import opened Wrappers
  import opened Text
  import opened Models
  import opened Subprocess

  /** How the GET of a health URL ends. */
  datatype ProbeOutcome =
    | Response(statusCode: int)
    | RequestFailed                   // `httpx.RequestError` or `httpx.TimeoutException`
    | ProbeRaised                     // any other exception; it propagates out of `check`

  /** What the outside world answers to each query a check of one service can make. */
  datatype Observations = Observations(
    statusRun: RunOutcome,            // the custom status command
    files: set<string>,               // the names present in the service directory
    psRun: RunOutcome,                // `docker compose ps --format json -q`
    probe: ProbeOutcome)              // the GET of the health URL

  datatype Query =
    | RunStatusCommand(cmd: Command)
    | FileExists(file: Path)
    | RunPs(cmd: Command)
    | HttpGet(url: string)

  /** `check` either returns a status or raises. */
  datatype Verdict = Returned(status: ServiceStatus) | Threw

  datatype Checked = Checked(verdict: Verdict, queries: seq<Query>)

  function PsCommand(path: Path): Command {
    Compose(["ps", "--format", "json", "-q"], path)
  }

  /** `_check_custom_status`: the exit code of the status command decides; a failed run is `ERROR`. */
  function CustomStatus(config: ServiceConfig, run: RunOutcome): (s: ServiceStatus)
    ensures !Truthy(config.lifecycle.status) ==> s == Error
    ensures Truthy(config.lifecycle.status) ==>
      && (s == Running <==> run.Exited? && run.code == 0)
      && (s == Stopped <==> run.Exited? && run.code != 0)
      && (s == Error <==> !run.Exited?)
  {
    if !Truthy(config.lifecycle.status) then Error
    else match run
      case Exited(code, _, _) => if code == 0 then Running else Stopped
      case TimedOut => Error
      case Raised(_) => Error
  }

  /** `_check_docker_status`: look for a compose file, `.yml` first, then ask `docker compose ps`. */
  function DockerStatus(path: Path, obs: Observations): (r: Checked)
    ensures |r.queries| >= 1 && r.queries[0] == FileExists(path.Join("docker-compose.yml"))
    ensures r.verdict == Returned(NotInstalled) <==>
      "docker-compose.yml" !in obs.files && "docker-compose.yaml" !in obs.files
    ensures r.verdict == Returned(NotInstalled) ==>
      r.queries == [FileExists(path.Join("docker-compose.yml")), FileExists(path.Join("docker-compose.yaml"))]
    ensures "docker-compose.yml" in obs.files ==>
      r.queries == [FileExists(path.Join("docker-compose.yml")), RunPs(PsCommand(path))]
    ensures "docker-compose.yml" !in obs.files && "docker-compose.yaml" in obs.files ==>
      r.queries == [FileExists(path.Join("docker-compose.yml")), FileExists(path.Join("docker-compose.yaml")),
                    RunPs(PsCommand(path))]
    ensures r.verdict != Returned(NotInstalled) ==>
      && (r.verdict == Returned(Running) <==> obs.psRun.Exited? && obs.psRun.code == 0 && Strip(obs.psRun.stdout) != "")
      && (r.verdict == Returned(Stopped) <==> obs.psRun.Exited? && obs.psRun.code == 0 && Strip(obs.psRun.stdout) == "")
      && (r.verdict == Threw <==> obs.psRun.Raised? && obs.psRun.error.OtherError?)
      && (r.verdict == Returned(Error) <==>
            (obs.psRun.Exited? && obs.psRun.code != 0) || obs.psRun.TimedOut?
            || (obs.psRun.Raised? && obs.psRun.error.FileNotFound?))
  {
    var probed := if "docker-compose.yml" in obs.files then [FileExists(path.Join("docker-compose.yml"))]
      else [FileExists(path.Join("docker-compose.yml")), FileExists(path.Join("docker-compose.yaml"))];
    if "docker-compose.yml" !in obs.files && "docker-compose.yaml" !in obs.files then
      Checked(Returned(NotInstalled), probed)
    else
      var queries := probed + [RunPs(PsCommand(path))];
      match obs.psRun
      case Exited(code, stdout, _) =>
        if code != 0 then Checked(Returned(Error), queries)
        else if Strip(stdout) == "" then Checked(Returned(Stopped), queries)
        else Checked(Returned(Running), queries)
      case TimedOut => Checked(Returned(Error), queries)
      case Raised(FileNotFound(_)) => Checked(Returned(Error), queries)
      case Raised(OtherError(_)) => Checked(Threw, queries)
  }

  /** `http://localhost:{port}{endpoint}`. */
  function HealthUrl(port: PortConfig): string
    requires port.healthEndpoint.Some?
  {
    "http://localhost:" + IntToDecimal(port.port) + port.healthEndpoint.value
  }

  /** `_check_health_endpoint`: `Some(healthy)`, or `None` when the request raised something other than a request error. */
  function EndpointHealthy(port: PortConfig, probe: ProbeOutcome): (r: Option<bool>)
    ensures !Truthy(port.healthEndpoint) ==> r == Some(true)
    ensures Truthy(port.healthEndpoint) ==>
      && (r == Some(true) <==> probe.Response? && 200 <= probe.statusCode < 300)
      && (r == None <==> probe.ProbeRaised?)
  {
    if !Truthy(port.healthEndpoint) then Some(true)
    else match probe
      case Response(code) => Some(200 <= code < 300)
      case RequestFailed => Some(false)
      case ProbeRaised => None
  }

  /** `check`: the status of one service. */
  function Check(config: ServiceConfig, obs: Observations): (r: Checked)
    // A custom status command decides alone: nothing else is queried.
    ensures Truthy(config.lifecycle.status) ==>
      r == Checked(Returned(CustomStatus(config, obs.statusRun)),
                   [RunStatusCommand(Shell(config.lifecycle.status.value, config.path))])
    // Otherwise the compose file and container queries come first.
    ensures !Truthy(config.lifecycle.status) ==>
      var docker := DockerStatus(config.path, obs);
      && |docker.queries| <= |r.queries| <= |docker.queries| + 1
      && r.queries[..|docker.queries|] == docker.queries
      && (docker.verdict == Returned(NotInstalled) ==> r == docker)
      && (docker.verdict == Returned(Stopped) ==> r == docker)
      && (docker.verdict == Threw ==> r == docker)
    // Running containers, and also a docker error, fall through to the probe of the primary port.
    ensures !Truthy(config.lifecycle.status) ==>
      var docker := DockerStatus(config.path, obs);
      var port := config.PrimaryPort();
      (docker.verdict == Returned(Running) || docker.verdict == Returned(Error)) ==>
        if port.Some? && Truthy(port.value.healthEndpoint) then
          && r.queries == docker.queries + [HttpGet(HealthUrl(port.value))]
          && (r.verdict == Returned(Running) <==> obs.probe.Response? && 200 <= obs.probe.statusCode < 300)
          && (r.verdict == Threw <==> obs.probe.ProbeRaised?)
          && (r.verdict == Returned(Unhealthy) <==>
                obs.probe.RequestFailed? || (obs.probe.Response? && !(200 <= obs.probe.statusCode < 300)))
        else
          r == Checked(Returned(Running), docker.queries)
    ensures r.verdict != Returned(Starting)
    ensures r.verdict == Returned(Error) ==> Truthy(config.lifecycle.status)
  {
    if Truthy(config.lifecycle.status) then
      Checked(Returned(CustomStatus(config, obs.statusRun)),
              [RunStatusCommand(Shell(config.lifecycle.status.value, config.path))])
    else
      var docker := DockerStatus(config.path, obs);
      if docker.verdict == Threw then docker
      else if docker.verdict.status == NotInstalled then docker
      else if docker.verdict.status == Stopped then docker
      else
        var port := config.PrimaryPort();
        if port.Some? && Truthy(port.value.healthEndpoint) then
          var queries := docker.queries + [HttpGet(HealthUrl(port.value))];
          assert queries[..|docker.queries|] == docker.queries;
          match EndpointHealthy(port.value, obs.probe)
          case Some(true) => Checked(Returned(Running), queries)
          case Some(false) => Checked(Returned(Unhealthy), queries)
          case None => Checked(Threw, queries)
        else
          Checked(Returned(Running), docker.queries)
  }

  /** The status `check_all` records for one outcome: a check that raised counts as `ERROR`. */
  function StatusOf(v: Verdict): ServiceStatus {
    if v.Threw? then Error else v.status
  }

  /**
   * The map `check_all` fills in: `statuses[i]` under the directory name of
   * `configs[i]`, later entries overwriting earlier ones.
   */
  function Record(configs: seq<ServiceConfig>, statuses: seq<ServiceStatus>): map<string, ServiceStatus>
    requires |statuses| == |configs|
  {
    if configs == [] then map[]
    else
      var n := |configs| - 1;
      Record(configs[..n], statuses[..n])[configs[n].DirName() := statuses[n]]
  }

  /** The status `check_all` records for `configs[i]`. */
  function StatusAt(configs: seq<ServiceConfig>, obs: seq<Observations>, i: nat): (s: ServiceStatus)
    requires |obs| == |configs| && i < |configs|
    ensures s != Starting
    ensures s == Error ==> Truthy(configs[i].lifecycle.status) || Check(configs[i], obs[i]).verdict == Threw
  {
    StatusOf(Check(configs[i], obs[i]).verdict)
  }

  /** The statuses of all services, in order. */
  function Statuses(configs: seq<ServiceConfig>, obs: seq<Observations>): (r: seq<ServiceStatus>)
    requires |obs| == |configs|
    ensures |r| == |configs|
    ensures forall i :: 0 <= i < |r| ==> r[i] != Starting
  {
    seq(|configs|, i requires 0 <= i < |configs| => StatusAt(configs, obs, i))
  }

  /** The map `check_all` returns. */
  function StatusMap(configs: seq<ServiceConfig>, obs: seq<Observations>): map<string, ServiceStatus>
    requires |obs| == |configs|
  {
    Record(configs, Statuses(configs, obs))
  }

  /** `check_all`, with the checks run one after another and `obs[i]` answering the queries of `configs[i]`. */
  method CheckAll(configs: seq<ServiceConfig>, obs: seq<Observations>) returns (statuses: map<string, ServiceStatus>)
    requires |obs| == |configs|
    ensures statuses == StatusMap(configs, obs)
  {
    ghost var recorded := Statuses(configs, obs);
    statuses := map[];
    var i := 0;
    while i < |configs|
      invariant 0 <= i <= |configs|
      invariant statuses == Record(configs[..i], recorded[..i])
    {
      var checked := Check(configs[i], obs[i]);
      statuses := statuses[configs[i].DirName() := StatusOf(checked.verdict)];
      assert StatusOf(checked.verdict) == recorded[..i + 1][i];
      assert configs[..i + 1][..i] == configs[..i] && recorded[..i + 1][..i] == recorded[..i];
      i := i + 1;
    }
    assert configs[..i] == configs && recorded[..i] == recorded;
  }

  /** The recorded map has exactly one entry per directory name. */
  lemma {:induction false} RecordKeys(configs: seq<ServiceConfig>, statuses: seq<ServiceStatus>)
    requires |statuses| == |configs|
    ensures Record(configs, statuses).Keys == set c | c in configs :: c.DirName()
  {
    if configs != [] {
      var n := |configs| - 1;
      RecordKeys(configs[..n], statuses[..n]);
      assert configs == configs[..n] + [configs[n]];
    }
  }

  /** No later service has the directory name of `configs[i]`. */
  predicate LastOfName(configs: seq<ServiceConfig>, i: nat)
    requires i < |configs|
  {
    forall j :: i < j < |configs| ==> configs[j].DirName() != configs[i].DirName()
  }

  /** The entry under a directory name is the status recorded for the last service with that name. */
  lemma {:induction false} RecordValues(configs: seq<ServiceConfig>, statuses: seq<ServiceStatus>)
    requires |statuses| == |configs|
    ensures forall i | 0 <= i < |configs| && LastOfName(configs, i) ::
      configs[i].DirName() in Record(configs, statuses) && Record(configs, statuses)[configs[i].DirName()] == statuses[i]
  {
    if configs != [] {
      var n := |configs| - 1;
      RecordValues(configs[..n], statuses[..n]);
      forall i | 0 <= i < n && LastOfName(configs, i)
        ensures configs[i].DirName() in Record(configs, statuses) && Record(configs, statuses)[configs[i].DirName()] == statuses[i]
      {
        assert configs[i].DirName() != configs[n].DirName();
        assert configs[..n][i] == configs[i] && statuses[..n][i] == statuses[i];
        assert LastOfName(configs[..n], i) by {
          forall j | i < j < n ensures configs[..n][j].DirName() != configs[..n][i].DirName() {
            assert configs[..n][j] == configs[j];
          }
        }
      }
    }
  }

  /** Every entry of the recorded map is the status recorded for some service of that name. */
  lemma {:induction false} RecordRange(configs: seq<ServiceConfig>, statuses: seq<ServiceStatus>)
    requires |statuses| == |configs|
    ensures forall k :: k in Record(configs, statuses) ==>
      exists i :: 0 <= i < |configs| && configs[i].DirName() == k && Record(configs, statuses)[k] == statuses[i]
  {
    if configs != [] {
      var n := |configs| - 1;
      RecordRange(configs[..n], statuses[..n]);
      forall k | k in Record(configs, statuses)
        ensures exists i :: 0 <= i < |configs| && configs[i].DirName() == k && Record(configs, statuses)[k] == statuses[i]
      {
        if k != configs[n].DirName() {
          assert k in Record(configs[..n], statuses[..n]);
          var i :| 0 <= i < n && configs[..n][i].DirName() == k && Record(configs[..n], statuses[..n])[k] == statuses[..n][i];
          assert configs[..n][i] == configs[i] && statuses[..n][i] == statuses[i];
        }
      }
    }
  }

  /** `check_all` has exactly one entry per directory name. */
  lemma StatusMapKeys(configs: seq<ServiceConfig>, obs: seq<Observations>)
    requires |obs| == |configs|
    ensures StatusMap(configs, obs).Keys == set c | c in configs :: c.DirName()
  {
    RecordKeys(configs, Statuses(configs, obs));
  }

  /**
   * The entry under a directory name is the status of the last service
   * with that name; a check that raised is recorded as `ERROR`.
   */
  lemma StatusMapValues(configs: seq<ServiceConfig>, obs: seq<Observations>)
    requires |obs| == |configs|
    ensures forall i | 0 <= i < |configs| && LastOfName(configs, i) ::
      configs[i].DirName() in StatusMap(configs, obs) && StatusMap(configs, obs)[configs[i].DirName()] == StatusAt(configs, obs, i)
  {
    RecordValues(configs, Statuses(configs, obs));
  }

  /** No entry of `check_all` is `STARTING`, and every entry is the status of a service with that directory name. */
  lemma StatusMapRange(configs: seq<ServiceConfig>, obs: seq<Observations>)
    requires |obs| == |configs|
    ensures forall k :: k in StatusMap(configs, obs) ==>
      exists i :: 0 <= i < |configs| && configs[i].DirName() == k && StatusMap(configs, obs)[k] == StatusAt(configs, obs, i)
    ensures forall k :: k in StatusMap(configs, obs) ==> StatusMap(configs, obs)[k] != Starting
  {
    RecordRange(configs, Statuses(configs, obs));
  }
}
