/** Service descriptor records, the run-state enumeration and their derived views. */
module Models {
  import opened Wrappers

  /** Python truthiness of an optional string: `None` and `""` both count as absent. */
  predicate Truthy(o: Option<string>) {
    o.Some? && o.value != ""
  }

  /** Runtime status of a service. */
  datatype ServiceStatus = NotInstalled | Stopped | Starting | Running | Unhealthy | Error {

    /** The status indicator shown next to a service. */
    function Symbol(): (r: string)
      ensures |r| == 1
      ensures r == "✕" <==> this == Unhealthy || this == Error
    {
      match this
      case NotInstalled => "◌"
      case Stopped => "○"
      case Starting => "◐"
      case Running => "●"
      case Unhealthy => "✕"
      case Error => "✕"
    }

    /** The colour the status is drawn in. */
    function Color(): (r: string)
      ensures r == "green" <==> this == Running
      ensures r == "red" <==> this == Unhealthy || this == Error
      ensures r == "yellow" <==> this == Starting
    {
      match this
      case NotInstalled => "dim"
      case Stopped => "white"
      case Starting => "yellow"
      case Running => "green"
      case Unhealthy => "red"
      case Error => "red"
    }
  }

  /** Two statuses share a symbol only when both are failures (`UNHEALTHY`, `ERROR`). */
  lemma SymbolsDistinguishAllButFailures(s: ServiceStatus, t: ServiceStatus)
    ensures s.Symbol() == t.Symbol() <==> s == t || (s.Color() == "red" && t.Color() == "red")
  {
  }

  /**
   * A filesystem path, as the segments below the root. `Name` is
   * `pathlib.Path.name`, `Join` is the `/` operator with a single
   * component.
   */
  datatype Path = Path(segments: seq<string>) {
    function Name(): string {
      if segments == [] then "" else segments[|segments| - 1]
    }

    function Join(component: string): (p: Path)
      ensures component != "" ==> p.Name() == component
    {
      if component == "" then this else Path(segments + [component])
    }

    /** `str(path)`. */
    function ToString(): string {
      "/" + JoinSegments(segments)
    }
  }

  function JoinSegments(parts: seq<string>): string {
    if parts == [] then ""
    else if |parts| == 1 then parts[0]
    else parts[0] + "/" + JoinSegments(parts[1..])
  }

  datatype VendorConfig = VendorConfig(url: string, gitRef: string)

  datatype PortConfig = PortConfig(name: string, port: int, healthEndpoint: Option<string>)

  datatype EnvVarConfig = EnvVarConfig(
    name: string,
    required: bool,
    secret: bool,
    default: Option<string>,
    description: Option<string>)

  /** Custom lifecycle commands; an absent verb falls back to a default. */
  datatype LifecycleCommands = LifecycleCommands(
    start: Option<string>,
    stop: Option<string>,
    restart: Option<string>,
    install: Option<string>,
    logs: Option<string>,
    status: Option<string>)

  /** `LifecycleCommands()`: no custom command for any verb. */
  const NoCustomCommands := LifecycleCommands(None, None, None, None, None, None)

  /** Index of the first port with a health endpoint, or `|ports|` if there is none. */
  function FirstEndpointIndex(ports: seq<PortConfig>): (i: nat)
    ensures i <= |ports|
    ensures i < |ports| ==> Truthy(ports[i].healthEndpoint)
    ensures forall j :: 0 <= j < i ==> !Truthy(ports[j].healthEndpoint)
  {
    if ports == [] then 0
    else if Truthy(ports[0].healthEndpoint) then 0
    else 1 + FirstEndpointIndex(ports[1..])
  }

  /** A service loaded from its `service.yaml`. */
  datatype ServiceConfig = ServiceConfig(
    name: string,
    description: string,
    category: string,
    path: Path,
    vendor: Option<VendorConfig>,
    ports: seq<PortConfig>,
    envVars: seq<EnvVarConfig>,
    systemDependencies: seq<string>,
    serviceDependencies: seq<string>,
    notes: map<string, string>,
    lifecycle: LifecycleCommands)
  {
    /** The directory name, used as the service ID. */
    function DirName(): string {
      path.Name()
    }

    /** The first port with a health endpoint, else the first port, else none. */
    function PrimaryPort(): (r: Option<PortConfig>)
      ensures r.None? <==> ports == []
      ensures r.Some? ==> r.value in ports
      ensures forall i ::
        (0 <= i < |ports| && Truthy(ports[i].healthEndpoint)
         && forall j :: 0 <= j < i ==> !Truthy(ports[j].healthEndpoint))
        ==> r == Some(ports[i])
      ensures (ports != [] && forall i :: 0 <= i < |ports| ==> !Truthy(ports[i].healthEndpoint))
        ==> r == Some(ports[0])
    {
      var i := FirstEndpointIndex(ports);
      if i < |ports| then Some(ports[i])
      else if ports != [] then Some(ports[0])
      else None
    }
  }

  /** `ServiceConfig(name, description, category, path)` with every other field defaulted. */
  function NewServiceConfig(name: string, description: string, category: string, path: Path): ServiceConfig {
    ServiceConfig(name, description, category, path, None, [], [], [], [], map[], NoCustomCommands)
  }

  /** A freshly constructed record has no ports, variables, dependencies, notes or custom commands. */
  lemma DefaultConfigIsBare(name: string, description: string, category: string, path: Path)
    ensures var c := NewServiceConfig(name, description, category, path);
      && c.vendor == None && c.ports == [] && c.envVars == []
      && c.systemDependencies == [] && c.serviceDependencies == [] && c.notes == map[]
      && !Truthy(c.lifecycle.start) && !Truthy(c.lifecycle.stop) && !Truthy(c.lifecycle.restart)
      && !Truthy(c.lifecycle.install) && !Truthy(c.lifecycle.logs) && !Truthy(c.lifecycle.status)
      && c.PrimaryPort() == None
  {
  }
}
