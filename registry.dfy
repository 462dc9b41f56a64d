/**
 * Service discovery: loading a parsed `service.yaml` tree into a
 * `ServiceConfig`, scanning the services directory, and the name-keyed cache.
 *
 * The filesystem below the services directory is a value: a listing from
 * entry name to entry, where a directory records whether it holds a
 * `service.yaml` and whether that file parsed.
 */
module Registry {
  import opened Wrappers
  import opened Models
  import opened StringOrder

  /** A parsed YAML document (`yaml.safe_load`), restricted to string keys. */
  datatype Yaml =
    | YNull
    | YBool(b: bool)
    | YInt(i: int)
    | YStr(s: string)
    | YList(items: seq<Yaml>)
    | YMap(fields: map<string, Yaml>)

  /** Why `_load_config` raised. */
  datatype LoadError =
    | Unreadable                  // the file could not be opened or is not valid YAML
    | NotAMapping(where: string)  // `.get` on something that is not a dict
    | MissingKey(key: string)     // `data[key]` on an absent key
    | WrongType(key: string)      // a value of the wrong kind
    | NotIterable(key: string)    // iterating over a scalar

  /** Python truthiness of a YAML value. */
  predicate YTruthy(y: Yaml) {
    match y
    case YNull => false
    case YBool(b) => b
    case YInt(i) => i != 0
    case YStr(s) => s != ""
    case YList(xs) => xs != []
    case YMap(m) => m != map[]
  }

  /** `m.get(key, default)`. */
  function GetOr(m: map<string, Yaml>, key: string, default: Yaml): Yaml {
    if key in m then m[key] else default
  }

  /** The YAML value an optional string is read from: the string itself, or `null`. */
  function OptYaml(o: Option<string>): Yaml {
    if o.Some? then YStr(o.value) else YNull
  }

  /** `m[key]` as a string. */
  function RequiredString(m: map<string, Yaml>, key: string): (r: Result<string, LoadError>)
    ensures key !in m ==> r == Failure(MissingKey(key))
    ensures r.Success? <==> key in m && m[key].YStr?
    ensures r.Success? ==> m[key] == YStr(r.value)
  {
    if key !in m then Failure(MissingKey(key))
    else if m[key].YStr? then Success(m[key].s)
    else Failure(WrongType(key))
  }

  /** `m.get(key)` as an optional string: absent and `null` give `None`, a string gives itself. */
  function OptionalString(m: map<string, Yaml>, key: string): (r: Result<Option<string>, LoadError>)
    ensures r.Success? <==> key !in m || m[key] == YNull || m[key].YStr?
    ensures r.Success? ==> GetOr(m, key, YNull) == OptYaml(r.value)
  {
    if key !in m || m[key] == YNull then Success(None)
    else if m[key].YStr? then Success(Some(m[key].s))
    else Failure(WrongType(key))
  }

  /** `m.get(key, False)` as a boolean. */
  function OptionalBool(m: map<string, Yaml>, key: string): (r: Result<bool, LoadError>)
    ensures r.Success? <==> key !in m || m[key].YBool?
    ensures r.Success? ==> GetOr(m, key, YBool(false)) == YBool(r.value)
  {
    if key !in m then Success(false)
    else if m[key].YBool? then Success(m[key].b)
    else Failure(WrongType(key))
  }

  /**
   * The items a `for` over a YAML value visits. A list gives its items; an
   * empty string or mapping gives none; a non-empty string or mapping gives
   * strings, which the loaders cannot subscript; anything else is not iterable.
   */
  function Items(y: Yaml, key: string): (r: Result<seq<Yaml>, LoadError>)
    ensures y.YList? ==> r == Success(y.items)
    ensures y == YStr("") || y == YMap(map[]) ==> r == Success([])
  {
    match y
    case YList(xs) => Success(xs)
    case YStr(s) => if s == "" then Success([]) else Failure(WrongType(key))
    case YMap(m) => if m == map[] then Success([]) else Failure(WrongType(key))
    case _ => Failure(NotIterable(key))
  }

  /** A list comprehension whose element constructor may raise: the first failure wins. */
  function LoadEach<T>(items: seq<Yaml>, load: Yaml -> Result<T, LoadError>): (r: Result<seq<T>, LoadError>)
    ensures r.Success? <==> forall i :: 0 <= i < |items| ==> load(items[i]).Success?
    ensures r.Success? ==> |r.value| == |items|
    ensures r.Success? ==> forall i :: 0 <= i < |items| ==> load(items[i]) == Success(r.value[i])
  {
    if items == [] then Success([])
    else
      var first :- load(items[0]);
      var rest :- LoadEach(items[1..], load);
      assert forall i :: 1 <= i < |items| ==> items[i] == items[1..][i - 1];
      Success([first] + rest)
  }

  /** One entry of `ports`. */
  function LoadPort(y: Yaml): (r: Result<PortConfig, LoadError>)
    ensures r.Success? <==> && y.YMap? && "name" in y.fields && y.fields["name"].YStr?
                            && "port" in y.fields && y.fields["port"].YInt?
                            && OptionalString(y.fields, "health_endpoint").Success?
    ensures r.Success? ==> && y.fields["name"] == YStr(r.value.name)
                           && y.fields["port"] == YInt(r.value.port)
                           && GetOr(y.fields, "health_endpoint", YNull) == OptYaml(r.value.healthEndpoint)
  {
    if !y.YMap? then Failure(WrongType("ports"))
    else
      var m := y.fields;
      var name :- RequiredString(m, "name");
      var port :- if "port" !in m then Failure(MissingKey("port"))
                  else if m["port"].YInt? then Success(m["port"].i)
                  else Failure(WrongType("port"));
      var endpoint :- OptionalString(m, "health_endpoint");
      Success(PortConfig(name, port, endpoint))
  }

  /** One entry of `env_vars`; `required` and `secret` default to false, the rest to `None`. */
  function LoadEnvVar(y: Yaml): (r: Result<EnvVarConfig, LoadError>)
    ensures r.Success? <==> && y.YMap? && "name" in y.fields && y.fields["name"].YStr?
                            && OptionalBool(y.fields, "required").Success? && OptionalBool(y.fields, "secret").Success?
                            && OptionalString(y.fields, "default").Success? && OptionalString(y.fields, "description").Success?
    ensures r.Success? ==> && y.fields["name"] == YStr(r.value.name)
                           && GetOr(y.fields, "required", YBool(false)) == YBool(r.value.required)
                           && GetOr(y.fields, "secret", YBool(false)) == YBool(r.value.secret)
                           && GetOr(y.fields, "default", YNull) == OptYaml(r.value.default)
                           && GetOr(y.fields, "description", YNull) == OptYaml(r.value.description)
  {
    if !y.YMap? then Failure(WrongType("env_vars"))
    else
      var m := y.fields;
      var name :- RequiredString(m, "name");
      var required :- OptionalBool(m, "required");
      var secret :- OptionalBool(m, "secret");
      var default :- OptionalString(m, "default");
      var description :- OptionalString(m, "description");
      Success(EnvVarConfig(name, required, secret, default, description))
  }

  /** The `ports` list comprehension: absent means no ports, and one bad entry fails the whole list. */
  function LoadPorts(data: map<string, Yaml>): (r: Result<seq<PortConfig>, LoadError>)
    ensures "ports" !in data ==> r == Success([])
    ensures "ports" in data && data["ports"].YList? ==>
      var items := data["ports"].items;
      && (r.Success? <==> forall i :: 0 <= i < |items| ==> LoadPort(items[i]).Success?)
      && (r.Success? ==> |r.value| == |items| && forall i :: 0 <= i < |items| ==> LoadPort(items[i]) == Success(r.value[i]))
  {
    var items :- Items(GetOr(data, "ports", YList([])), "ports");
    LoadEach(items, LoadPort)
  }

  /** The `env_vars` list comprehension: absent means no variables, and one bad entry fails the whole list. */
  function LoadEnvVars(data: map<string, Yaml>): (r: Result<seq<EnvVarConfig>, LoadError>)
    ensures "env_vars" !in data ==> r == Success([])
    ensures "env_vars" in data && data["env_vars"].YList? ==>
      var items := data["env_vars"].items;
      && (r.Success? <==> forall i :: 0 <= i < |items| ==> LoadEnvVar(items[i]).Success?)
      && (r.Success? ==> |r.value| == |items| && forall i :: 0 <= i < |items| ==> LoadEnvVar(items[i]) == Success(r.value[i]))
  {
    var items :- Items(GetOr(data, "env_vars", YList([])), "env_vars");
    LoadEach(items, LoadEnvVar)
  }

  /** `vendor`, read only when the key holds a truthy value, which must then be a mapping with `url` and `ref`. */
  function LoadVendor(data: map<string, Yaml>): (r: Result<Option<VendorConfig>, LoadError>)
    ensures ("vendor" !in data || !YTruthy(data["vendor"])) ==> r == Success(None)
    ensures "vendor" in data && YTruthy(data["vendor"]) ==>
      (r.Success? <==> && data["vendor"].YMap?
                       && RequiredString(data["vendor"].fields, "url").Success?
                       && RequiredString(data["vendor"].fields, "ref").Success?)
    ensures r.Success? ==> (r.value.Some? <==> "vendor" in data && YTruthy(data["vendor"]))
    ensures r.Success? && r.value.Some? ==>
      && "vendor" in data && data["vendor"].YMap?
      && "url" in data["vendor"].fields && data["vendor"].fields["url"] == YStr(r.value.value.url)
      && "ref" in data["vendor"].fields && data["vendor"].fields["ref"] == YStr(r.value.value.gitRef)
  {
    if "vendor" !in data || !YTruthy(data["vendor"]) then Success(None)
    else if !data["vendor"].YMap? then Failure(WrongType("vendor"))
    else
      var v := data["vendor"].fields;
      var url :- RequiredString(v, "url");
      var gitRef :- RequiredString(v, "ref");
      Success(Some(VendorConfig(url, gitRef)))
  }

  /** A list of strings stored as given (`dependencies.system`, `dependencies.services`). */
  function StringList(y: Yaml, key: string): (r: Result<seq<string>, LoadError>)
    ensures r.Success? <==> y.YList? && forall i :: 0 <= i < |y.items| ==> y.items[i].YStr?
    ensures r.Success? ==> |r.value| == |y.items| && forall i :: 0 <= i < |y.items| ==> y.items[i] == YStr(r.value[i])
  {
    if y.YList? && forall i :: 0 <= i < |y.items| ==> y.items[i].YStr? then
      Success(seq(|y.items|, i requires 0 <= i < |y.items| => y.items[i].s))
    else Failure(WrongType(key))
  }

  /** `dependencies`: a mapping whose `system` and `services` lists default to empty. */
  function LoadDependencies(data: map<string, Yaml>): (r: Result<(seq<string>, seq<string>), LoadError>)
    ensures "dependencies" !in data ==> r == Success(([], []))
    ensures var deps := GetOr(data, "dependencies", YMap(map[]));
      && (r.Success? <==> && deps.YMap?
                          && StringList(GetOr(deps.fields, "system", YList([])), "system").Success?
                          && StringList(GetOr(deps.fields, "services", YList([])), "services").Success?)
      && (r.Success? ==> && StringList(GetOr(deps.fields, "system", YList([])), "system") == Success(r.value.0)
                         && StringList(GetOr(deps.fields, "services", YList([])), "services") == Success(r.value.1))
  {
    var deps := GetOr(data, "dependencies", YMap(map[]));
    var depFields :- if deps.YMap? then Success(deps.fields) else Failure(NotAMapping("dependencies"));
    var systemDeps :- StringList(GetOr(depFields, "system", YList([])), "system");
    var serviceDeps :- StringList(GetOr(depFields, "services", YList([])), "services");
    Success((systemDeps, serviceDeps))
  }

  /** `lifecycle`: each verb's command is `get(verb)` of the mapping. */
  function LoadLifecycle(y: Yaml): (r: Result<LifecycleCommands, LoadError>)
    ensures y == YMap(map[]) ==> r == Success(NoCustomCommands)
    ensures r.Success? <==> && y.YMap?
                            && OptionalString(y.fields, "start").Success? && OptionalString(y.fields, "stop").Success?
                            && OptionalString(y.fields, "restart").Success? && OptionalString(y.fields, "install").Success?
                            && OptionalString(y.fields, "logs").Success? && OptionalString(y.fields, "status").Success?
    ensures r.Success? ==> && GetOr(y.fields, "start", YNull) == OptYaml(r.value.start)
                           && GetOr(y.fields, "stop", YNull) == OptYaml(r.value.stop)
                           && GetOr(y.fields, "restart", YNull) == OptYaml(r.value.restart)
                           && GetOr(y.fields, "install", YNull) == OptYaml(r.value.install)
                           && GetOr(y.fields, "logs", YNull) == OptYaml(r.value.logs)
                           && GetOr(y.fields, "status", YNull) == OptYaml(r.value.status)
  {
    if !y.YMap? then Failure(NotAMapping("lifecycle"))
    else
      var m := y.fields;
      var start :- OptionalString(m, "start");
      var stop :- OptionalString(m, "stop");
      var restart :- OptionalString(m, "restart");
      var install :- OptionalString(m, "install");
      var logs :- OptionalString(m, "logs");
      var status :- OptionalString(m, "status");
      Success(LifecycleCommands(start, stop, restart, install, logs, status))
  }

  /** `data.get("category", "optional")` as a string. */
  function LoadCategory(data: map<string, Yaml>): (r: Result<string, LoadError>)
    ensures r.Success? <==> "category" !in data || data["category"].YStr?
    ensures r.Success? ==> GetOr(data, "category", YStr("optional")) == YStr(r.value)
  {
    if "category" !in data then Success("optional")
    else if data["category"].YStr? then Success(data["category"].s)
    else Failure(WrongType("category"))
  }

  /** `notes`: a mapping of strings, stored as given. */
  function LoadNotes(y: Yaml): (r: Result<map<string, string>, LoadError>)
    ensures r.Success? <==> y.YMap? && forall k | k in y.fields :: y.fields[k].YStr?
    ensures r.Success? ==> r.value.Keys == y.fields.Keys && forall k | k in r.value :: y.fields[k] == YStr(r.value[k])
  {
    if y.YMap? && forall k | k in y.fields :: y.fields[k].YStr? then
      Success(map k | k in y.fields :: y.fields[k].s)
    else Failure(WrongType("notes"))
  }

  /**
   * `_load_config`: the parsed `service.yaml` of the directory `path`.
   * Fields are read in the source's order: vendor, ports, env_vars,
   * dependencies, lifecycle, then name, description, category and notes.
   */
  function LoadConfig(tree: Yaml, path: Path): (r: Result<ServiceConfig, LoadError>)
    ensures r.Success? <==> && tree.YMap?
                            && LoadVendor(tree.fields).Success?
                            && LoadPorts(tree.fields).Success? && LoadEnvVars(tree.fields).Success?
                            && LoadDependencies(tree.fields).Success?
                            && LoadLifecycle(GetOr(tree.fields, "lifecycle", YMap(map[]))).Success?
                            && RequiredString(tree.fields, "name").Success?
                            && RequiredString(tree.fields, "description").Success?
                            && LoadCategory(tree.fields).Success?
                            && LoadNotes(GetOr(tree.fields, "notes", YMap(map[]))).Success?
    ensures r.Success? ==> && r.value.path == path
                           && tree.fields["name"] == YStr(r.value.name)
                           && tree.fields["description"] == YStr(r.value.description)
                           && LoadCategory(tree.fields) == Success(r.value.category)
                           && LoadVendor(tree.fields) == Success(r.value.vendor)
                           && LoadPorts(tree.fields) == Success(r.value.ports)
                           && LoadEnvVars(tree.fields) == Success(r.value.envVars)
                           && LoadDependencies(tree.fields) == Success((r.value.systemDependencies, r.value.serviceDependencies))
                           && LoadLifecycle(GetOr(tree.fields, "lifecycle", YMap(map[]))) == Success(r.value.lifecycle)
                           && LoadNotes(GetOr(tree.fields, "notes", YMap(map[]))) == Success(r.value.notes)
  {
    if !tree.YMap? then Failure(NotAMapping("service.yaml"))
    else
      var data := tree.fields;
      var vendor :- LoadVendor(data);
      var ports :- LoadPorts(data);
      var envVars :- LoadEnvVars(data);
      var deps :- LoadDependencies(data);
      var lifecycle :- LoadLifecycle(GetOr(data, "lifecycle", YMap(map[])));
      var name :- RequiredString(data, "name");
      var description :- RequiredString(data, "description");
      var category :- LoadCategory(data);
      var notes :- LoadNotes(GetOr(data, "notes", YMap(map[])));
      Success(ServiceConfig(name, description, category, path, vendor, ports, envVars,
                            deps.0, deps.1, notes, lifecycle))
  }

  /** A descriptor holding only `name` and `description` loads as a freshly constructed record in category "optional". */
  lemma BareDescriptorLoads(name: string, description: string, path: Path)
    ensures LoadConfig(YMap(map["name" := YStr(name), "description" := YStr(description)]), path)
      == Success(NewServiceConfig(name, description, "optional", path))
  {
    var data := map["name" := YStr(name), "description" := YStr(description)];
    assert "vendor" !in data && "ports" !in data && "env_vars" !in data && "dependencies" !in data;
    assert "lifecycle" !in data && "category" !in data && "notes" !in data;
    assert LoadDependencies(data) == Success(([], []));
    assert LoadLifecycle(YMap(map[])) == Success(NoCustomCommands);
    assert LoadNotes(YMap(map[])) == Success(map[]);
  }

  // ---------------------------------------------------------------------
  // The services directory

  /** A `service.yaml` file: parsed, or unreadable / not valid YAML. */
  datatype Descriptor = Unparsable | Parsed(tree: Yaml)

  /** An entry of the services directory. */
  datatype Entry = RegularFile | Directory(descriptor: Option<Descriptor>)

  /** The services directory: `None` when it does not exist. */
  type ServicesDir = Option<map<string, Entry>>

  function LoadDescriptor(d: Descriptor, path: Path): (r: Result<ServiceConfig, LoadError>)
    ensures d.Unparsable? ==> r == Failure(Unreadable)
    ensures d.Parsed? ==> r == LoadConfig(d.tree, path)
    ensures r.Success? ==> r.value.path == path
  {
    match d
    case Unparsable => Failure(Unreadable)
    case Parsed(tree) => LoadConfig(tree, path)
  }

  /** The `service.yaml` under `dir/name`, if `name` is a directory holding one. */
  function DescriptorAt(fs: ServicesDir, name: string): Option<Descriptor> {
    if fs.Some? && name in fs.value && fs.value[name].Directory? then fs.value[name].descriptor
    else None
  }

  /** What one directory entry contributes to `discover`. */
  function LoadEntry(dir: Path, name: string, e: Entry): (r: Option<ServiceConfig>)
    ensures r.Some? <==> e.Directory? && e.descriptor.Some? && LoadDescriptor(e.descriptor.value, dir.Join(name)).Success?
    ensures r.Some? ==> LoadDescriptor(e.descriptor.value, dir.Join(name)) == Success(r.value)
    ensures r.Some? && name != "" ==> r.value.DirName() == name
  {
    if e.Directory? && e.descriptor.Some? then
      match LoadDescriptor(e.descriptor.value, dir.Join(name))
      case Success(c) => Some(c)
      case Failure(_) => None
    else None
  }

  /** The present values of `xs`, in order. */
  function Somes<T>(xs: seq<Option<T>>): seq<T> {
    if xs == [] then []
    else
      var front := Somes(xs[..|xs| - 1]);
      match xs[|xs| - 1]
      case Some(x) => front + [x]
      case None => front
  }

  /** What each of the entries `names` contributes, in that order. */
  function EntryLoads(dir: Path, listing: map<string, Entry>, names: seq<string>): (r: seq<Option<ServiceConfig>>)
    requires forall i :: 0 <= i < |names| ==> names[i] in listing
    ensures |r| == |names|
  {
    seq(|names|, i requires 0 <= i < |names| => LoadEntry(dir, names[i], listing[names[i]]))
  }

  /** The configs the entries `names` contribute, in that order. */
  ghost function LoadAll(dir: Path, listing: map<string, Entry>, names: seq<string>): seq<ServiceConfig>
    requires forall i :: 0 <= i < |names| ==> names[i] in listing
  {
    if names == [] then []
    else
      var last := names[|names| - 1];
      var front := LoadAll(dir, listing, names[..|names| - 1]);
      match LoadEntry(dir, last, listing[last])
      case Some(c) => front + [c]
      case None => front
  }

  /** `LoadAll` keeps the present values of the per-entry loads. */
  lemma {:induction false} LoadAllIsSomes(dir: Path, listing: map<string, Entry>, names: seq<string>)
    requires forall i :: 0 <= i < |names| ==> names[i] in listing
    ensures LoadAll(dir, listing, names) == Somes(EntryLoads(dir, listing, names))
  {
    if names != [] {
      var n := |names| - 1;
      LoadAllIsSomes(dir, listing, names[..n]);
      var loads := EntryLoads(dir, listing, names);
      assert loads[..n] == EntryLoads(dir, listing, names[..n]);
    }
  }

  /** What `discover` returns: the loadable entries, visited in sorted name order. */
  ghost function Discovered(dir: Path, fs: ServicesDir): seq<ServiceConfig> {
    if fs.None? then []
    else
      SortedSetSpec(fs.value.Keys);
      LoadAll(dir, fs.value, SortedSet(fs.value.Keys))
  }

  /** The cache entries that storing `configs` in order under their directory names writes. */
  function CacheOf(configs: seq<ServiceConfig>): map<string, ServiceConfig> {
    if configs == [] then map[]
    else
      var last := configs[|configs| - 1];
      CacheOf(configs[..|configs| - 1])[last.DirName() := last]
  }

  lemma LoadAllSnoc(dir: Path, listing: map<string, Entry>, names: seq<string>, name: string)
    requires forall i :: 0 <= i < |names| ==> names[i] in listing
    requires name in listing
    ensures forall i :: 0 <= i < |names + [name]| ==> (names + [name])[i] in listing
    ensures LoadAll(dir, listing, names + [name]) ==
      match LoadEntry(dir, name, listing[name])
      case Some(c) => LoadAll(dir, listing, names) + [c]
      case None => LoadAll(dir, listing, names)
  {
    assert (names + [name])[..|names|] == names;
  }

  lemma CacheOfSnoc(base: map<string, ServiceConfig>, configs: seq<ServiceConfig>, c: ServiceConfig)
    ensures base + CacheOf(configs + [c]) == (base + CacheOf(configs))[c.DirName() := c]
  {
    assert (configs + [c])[..|configs|] == configs;
  }

  predicate ValidNames(fs: ServicesDir) {
    fs.Some? ==> forall n | n in fs.value :: n != ""
  }

  ghost predicate AscendingDirNames(configs: seq<ServiceConfig>) {
    forall i, j | 0 <= i < j < |configs| :: Less(configs[i].DirName(), configs[j].DirName())
  }

  /** A value is among the present values exactly when it occurs. */
  lemma {:induction false} SomesSpec<T>(xs: seq<Option<T>>)
    ensures forall x :: x in Somes(xs) <==> Some(x) in xs
  {
    if xs != [] {
      var front := xs[..|xs| - 1];
      SomesSpec(front);
      assert xs == front + [xs[|xs| - 1]];
    }
  }

  /** Values keyed by strictly ascending names come out in ascending directory-name order. */
  lemma {:induction false} SomesAscending(xs: seq<Option<ServiceConfig>>, names: seq<string>)
    requires |xs| == |names| && StrictlyAscending(names)
    requires forall i :: 0 <= i < |xs| && xs[i].Some? ==> xs[i].value.DirName() == names[i]
    ensures AscendingDirNames(Somes(xs))
  {
    if xs != [] {
      var n := |xs| - 1;
      var front := xs[..n];
      SomesAscending(front, names[..n]);
      SomesSpec(front);
      var f := Somes(front);
      var r := Somes(xs);
      if xs[n].Some? {
        assert r == f + [xs[n].value];
        forall i, j | 0 <= i < j < |r| ensures Less(r[i].DirName(), r[j].DirName()) {
          if j == n || j == |r| - 1 {
            assert r[i] == f[i] && f[i] in f;
            var k :| 0 <= k < |front| && front[k] == Some(r[i]);
            assert r[i].DirName() == names[k];
          } else {
            assert r[i] == f[i] && r[j] == f[j];
          }
        }
      }
    }
  }

  /** Every config `LoadAll` returns comes from one of `names`, and every loadable name contributes. */
  lemma LoadAllSpec(dir: Path, listing: map<string, Entry>, names: seq<string>)
    requires forall i :: 0 <= i < |names| ==> names[i] in listing
    ensures forall c :: c in LoadAll(dir, listing, names) ==>
      exists i :: 0 <= i < |names| && LoadEntry(dir, names[i], listing[names[i]]) == Some(c)
    ensures forall i :: 0 <= i < |names| && LoadEntry(dir, names[i], listing[names[i]]).Some? ==>
      LoadEntry(dir, names[i], listing[names[i]]).value in LoadAll(dir, listing, names)
  {
    var loads := EntryLoads(dir, listing, names);
    LoadAllIsSomes(dir, listing, names);
    SomesSpec(loads);
    forall c | c in LoadAll(dir, listing, names)
      ensures exists i :: 0 <= i < |names| && LoadEntry(dir, names[i], listing[names[i]]) == Some(c)
    {
      var i :| 0 <= i < |loads| && loads[i] == Some(c);
    }
    forall i | 0 <= i < |names| && LoadEntry(dir, names[i], listing[names[i]]).Some?
      ensures LoadEntry(dir, names[i], listing[names[i]]).value in LoadAll(dir, listing, names)
    {
      assert loads[i] in loads;
    }
  }

  /** Entries visited in ascending name order yield configs in ascending directory-name order. */
  lemma LoadAllAscending(dir: Path, listing: map<string, Entry>, names: seq<string>)
    requires forall i :: 0 <= i < |names| ==> names[i] in listing && names[i] != ""
    requires StrictlyAscending(names)
    ensures AscendingDirNames(LoadAll(dir, listing, names))
  {
    LoadAllIsSomes(dir, listing, names);
    SomesAscending(EntryLoads(dir, listing, names), names);
  }

  /** `discover` lists the services in directory-name order. */
  lemma DiscoveredInNameOrder(dir: Path, fs: ServicesDir)
    requires ValidNames(fs)
    ensures AscendingDirNames(Discovered(dir, fs))
  {
    if fs.Some? {
      var names := SortedSet(fs.value.Keys);
      SortedSetSpec(fs.value.Keys);
      forall i | 0 <= i < |names| ensures names[i] in fs.value && names[i] != "" {
        assert names[i] in names;
      }
      LoadAllAscending(dir, fs.value, names);
    }
  }

  /**
   * `discover` returns exactly the entries that load. Plain files, directories
   * without `service.yaml` and descriptors that fail contribute nothing, and a
   * failing entry does not keep any other entry out.
   */
  lemma DiscoveredExactlyTheLoadable(dir: Path, fs: ServicesDir)
    requires fs.Some?
    ensures forall c :: c in Discovered(dir, fs) ==>
      exists n :: n in fs.value && LoadEntry(dir, n, fs.value[n]) == Some(c)
    ensures forall n :: n in fs.value && LoadEntry(dir, n, fs.value[n]).Some? ==>
      LoadEntry(dir, n, fs.value[n]).value in Discovered(dir, fs)
  {
    var names := SortedSet(fs.value.Keys);
    SortedSetSpec(fs.value.Keys);
    LoadAllSpec(dir, fs.value, names);
    forall n | n in fs.value && LoadEntry(dir, n, fs.value[n]).Some?
      ensures LoadEntry(dir, n, fs.value[n]).value in Discovered(dir, fs)
    {
      var i :| 0 <= i < |names| && names[i] == n;
    }
  }

  /** Storing configs with distinct directory names leaves each one under its name. */
  lemma {:induction false} CacheOfSpec(configs: seq<ServiceConfig>)
    requires forall i, j | 0 <= i < j < |configs| :: configs[i].DirName() != configs[j].DirName()
    ensures forall i :: 0 <= i < |configs| ==>
      configs[i].DirName() in CacheOf(configs) && CacheOf(configs)[configs[i].DirName()] == configs[i]
    ensures forall k :: k in CacheOf(configs) ==> exists i :: 0 <= i < |configs| && configs[i].DirName() == k
  {
    if configs != [] {
      var front := configs[..|configs| - 1];
      CacheOfSpec(front);
      forall i | 0 <= i < |front| ensures front[i] == configs[i] { }
    }
  }

  /** After `discover`, every service it returned is in the cache under its directory name. */
  lemma DiscoveredAreCached(dir: Path, fs: ServicesDir, before: map<string, ServiceConfig>)
    requires ValidNames(fs)
    ensures forall c :: c in Discovered(dir, fs) ==>
      c.DirName() in before + CacheOf(Discovered(dir, fs)) && (before + CacheOf(Discovered(dir, fs)))[c.DirName()] == c
  {
    var found := Discovered(dir, fs);
    DiscoveredInNameOrder(dir, fs);
    forall i, j | 0 <= i < j < |found| ensures found[i].DirName() != found[j].DirName() {
      LessIrreflexive(found[i].DirName());
    }
    CacheOfSpec(found);
  }

  /** Outcome of `get`. A descriptor that fails to load raises in the source. */
  datatype Lookup = Found(config: ServiceConfig) | Absent | LoadFailed(error: LoadError)

  class ServiceRegistry {
    const servicesDir: Path
    var cache: map<string, ServiceConfig>

    constructor (servicesDir: Path)
      ensures this.servicesDir == servicesDir && cache == map[]
    {
      this.servicesDir := servicesDir;
      cache := map[];
    }

    /** `discover`: scan the directory in sorted order, skipping entries that do not load. */
    method Discover(fs: ServicesDir) returns (services: seq<ServiceConfig>)
      modifies this
      ensures fs.None? ==> services == []
      ensures services == Discovered(servicesDir, fs)
      ensures cache == old(cache) + CacheOf(services)
      ensures old(cache).Keys <= cache.Keys
    {
      services := [];
      if fs.None? {
        return;
      }
      var listing := fs.value;
      var remaining := listing.Keys;
      ghost var done: seq<string> := [];
      while remaining != {}
        invariant remaining <= listing.Keys
        invariant forall i :: 0 <= i < |done| ==> done[i] in listing
        invariant SortedSet(listing.Keys) == done + SortedSet(remaining)
        invariant services == LoadAll(servicesDir, listing, done)
        invariant cache == old(cache) + CacheOf(services)
        decreases |remaining|
      {
        LeastExists(remaining);
        var name :| IsLeast(name, remaining);
        var entry := listing[name];
        ghost var before := services;
        LoadAllSnoc(servicesDir, listing, done, name);
        if entry.Directory? && entry.descriptor.Some? {
          var loaded := LoadDescriptor(entry.descriptor.value, servicesDir.Join(name));
          if loaded.Success? {
            var config := loaded.value;
            assert LoadEntry(servicesDir, name, entry) == Some(config);
            services := services + [config];
            cache := cache[config.DirName() := config];
            CacheOfSnoc(old(cache), before, config);
          } else {
            assert LoadEntry(servicesDir, name, entry) == None;
          }
        } else {
          assert LoadEntry(servicesDir, name, entry) == None;
        }
        AdvanceSorted(listing.Keys, done, remaining, name);
        done := done + [name];
        remaining := remaining - {name};
      }
      assert done == SortedSet(listing.Keys);
    }

    /** `get`: the cached config, else load `name/service.yaml` and cache it. */
    method Get(fs: ServicesDir, name: string) returns (r: Lookup)
      modifies this
      ensures name in old(cache) ==> r == Found(old(cache)[name]) && cache == old(cache)
      ensures name !in old(cache) && DescriptorAt(fs, name).None? ==> r == Absent && cache == old(cache)
      ensures name !in old(cache) && DescriptorAt(fs, name).Some? ==>
        match LoadDescriptor(DescriptorAt(fs, name).value, servicesDir.Join(name))
        case Success(c) => r == Found(c) && cache == old(cache)[name := c]
        case Failure(e) => r == LoadFailed(e) && cache == old(cache)
    {
      if name in cache {
        return Found(cache[name]);
      }
      var descriptor := DescriptorAt(fs, name);
      if descriptor.Some? {
        var loaded := LoadDescriptor(descriptor.value, servicesDir.Join(name));
        if loaded.Failure? {
          return LoadFailed(loaded.error);
        }
        cache := cache[name := loaded.value];
        return Found(loaded.value);
      }
      return Absent;
    }
  }
}
