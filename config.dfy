/** The resolved configuration of core/config.go and its lookups. */
module Config {
  import opened Results
  import opened Values

  datatype DatabaseConfig = DatabaseConfig(
    driver: string, scheme: string, host: string, port: int, service: string,
    username: string, password: string, parameters: map<string, string>)

  datatype ServiceConfig = ServiceConfig(
    baseURL: string, httpMethod: string, parameters: map<string, string>,
    withAuthz: string, trustCert: bool)

  /** `SourceConfig`: the `Type` tag and the open argument map. */
  datatype SourceConfig = SourceConfig(tag: string, arguments: Arguments)

  /** `AdapterConfig`: the `Type` tag, the execution `Order` and the arguments. */
  datatype AdapterConfig = AdapterConfig(tag: string, order: int, arguments: Arguments)

  /** `TargetConfig`: the `Type` tag, the arguments, and the `Output` name
      that targets/builder.go reads. */
  datatype TargetConfig = TargetConfig(tag: string, arguments: Arguments, output: string)

  datatype TaskConfig = TaskConfig(source: SourceConfig, adapters: map<string, AdapterConfig>, target: TargetConfig)

  datatype Config = Config(
    databases: map<string, DatabaseConfig>,
    services: map<string, ServiceConfig>,
    tasks: map<string, TaskConfig>,
    configFilename: string)

  function GetDatabaseConfig(cfg: Config, name: string): (r: Result<DatabaseConfig>)
    ensures r.Ok? <==> name in cfg.databases
    ensures r.Ok? ==> r.value == cfg.databases[name]
    ensures r.Err? ==> r.msg == "Missing configuration for database: " + name
  {
    if name !in cfg.databases then Err("Missing configuration for database: " + name)
    else Ok(cfg.databases[name])
  }

  function GetServiceConfig(cfg: Config, name: string): (r: Result<ServiceConfig>)
    ensures r.Ok? <==> name in cfg.services
    ensures r.Ok? ==> r.value == cfg.services[name]
    ensures r.Err? ==> r.msg == "Missing configuration for service: " + name
  {
    if name !in cfg.services then Err("Missing configuration for service: " + name)
    else Ok(cfg.services[name])
  }

  function GetSourceConfig(cfg: Config, name: string): (r: Result<SourceConfig>)
    ensures r.Ok? <==> name in cfg.tasks
    ensures r.Ok? ==> r.value == cfg.tasks[name].source
    ensures r.Err? ==> r.msg == "Missing configuration for task: " + name
  {
    if name !in cfg.tasks then Err("Missing configuration for task: " + name)
    else Ok(cfg.tasks[name].source)
  }

  function GetAdapterConfig(cfg: Config, name: string, key: string): (r: Result<AdapterConfig>)
    ensures r.Ok? <==> name in cfg.tasks && key in cfg.tasks[name].adapters
    ensures r.Ok? ==> r.value == cfg.tasks[name].adapters[key]
    ensures name !in cfg.tasks ==> r == Err("Missing configuration for task: " + name)
    ensures name in cfg.tasks && key !in cfg.tasks[name].adapters ==>
              r == Err("Missing configuration for adapter: " + key)
  {
    if name !in cfg.tasks then Err("Missing configuration for task: " + name)
    else if key !in cfg.tasks[name].adapters then Err("Missing configuration for adapter: " + key)
    else Ok(cfg.tasks[name].adapters[key])
  }

  function GetTargetConfig(cfg: Config, name: string): (r: Result<TargetConfig>)
    ensures r.Ok? <==> name in cfg.tasks
    ensures r.Ok? ==> r.value == cfg.tasks[name].target
    ensures r.Err? ==> r.msg == "Missing configuration for task: " + name
  {
    if name !in cfg.tasks then Err("Missing configuration for task: " + name)
    else Ok(cfg.tasks[name].target)
  }

  // -----------------------------------------------------------------------
  // GetAdapterNames

  /** `task.Adapters[name].Order`; a missing key reads as Go's zero value. */
  function OrderOf(adapters: map<string, AdapterConfig>, name: string): int
  {
    if name in adapters then adapters[name].order else 0
  }

  ghost predicate SortedByOrder(adapters: map<string, AdapterConfig>, names: seq<string>)
  {
    forall i, j :: 0 <= i < j < |names| ==> OrderOf(adapters, names[i]) <= OrderOf(adapters, names[j])
  }

  /** What `GetAdapterNames` promises about a known task: every adapter key
      exactly once (a permutation of the keys) in non-decreasing `Order`.
      Keys with equal `Order` may come out in any order. */
  ghost predicate IsAdapterOrder(adapters: map<string, AdapterConfig>, names: seq<string>)
  {
    multiset(names) == multiset(adapters.Keys) && SortedByOrder(adapters, names)
  }

  /** `GetAdapterNames`: collects the keys of the task's adapter map in map
      iteration order (unspecified, so chosen arbitrarily here), then sorts
      them by `Order` with a comparison sort. */
  method GetAdapterNames(cfg: Config, name: string) returns (names: seq<string>)
    ensures name !in cfg.tasks ==> names == []
    ensures name in cfg.tasks ==> IsAdapterOrder(cfg.tasks[name].adapters, names)
  {
    if name !in cfg.tasks {
      return [];
    }
    var adapters := cfg.tasks[name].adapters;
    var collected: seq<string> := [];
    var pending := adapters.Keys;
    while pending != {}
      invariant pending <= adapters.Keys
      invariant multiset(collected) + multiset(pending) == multiset(adapters.Keys)
      decreases |pending|
    {
      var key :| key in pending;
      collected := collected + [key];
      pending := pending - {key};
    }
    var a := new string[|collected|](i requires 0 <= i < |collected| => collected[i]);
    assert a[..] == collected;
    SortByOrder(a, adapters);
    names := a[..];
  }

  /** The in-place sort that `sort.Slice` performs on the collected names. */
  method SortByOrder(a: array<string>, adapters: map<string, AdapterConfig>)
    modifies a
    ensures multiset(a[..]) == old(multiset(a[..]))
    ensures SortedByOrder(adapters, a[..])
  {
    for i := 0 to a.Length
      invariant multiset(a[..]) == old(multiset(a[..]))
      invariant forall x, y :: 0 <= x < y < i ==> OrderOf(adapters, a[x]) <= OrderOf(adapters, a[y])
    {
      InsertByOrder(a, adapters, i);
    }
  }

  /** One insertion step: moves `a[i]` down past the names of larger
      `Order`, so that the prefix up to `i` is sorted. */
  method InsertByOrder(a: array<string>, adapters: map<string, AdapterConfig>, i: nat)
    requires i < a.Length
    requires forall x, y :: 0 <= x < y < i ==> OrderOf(adapters, a[x]) <= OrderOf(adapters, a[y])
    modifies a
    ensures multiset(a[..]) == old(multiset(a[..]))
    ensures forall x, y :: 0 <= x < y <= i ==> OrderOf(adapters, a[x]) <= OrderOf(adapters, a[y])
  {
    var j := i;
    while j > 0 && OrderOf(adapters, a[j - 1]) > OrderOf(adapters, a[j])
      invariant 0 <= j <= i
      invariant multiset(a[..]) == old(multiset(a[..]))
      invariant forall x, y :: 0 <= x < y <= i && x != j && y != j ==> OrderOf(adapters, a[x]) <= OrderOf(adapters, a[y])
      invariant forall y :: j < y <= i ==> OrderOf(adapters, a[j]) < OrderOf(adapters, a[y])
    {
      SwapAdjacent(a, j - 1);
      j := j - 1;
    }
  }

  method SwapAdjacent(a: array<string>, i: nat)
    requires i + 1 < a.Length
    modifies a
    ensures a[..] == old(a[..])[i := old(a[i + 1])][i + 1 := old(a[i])]
    ensures multiset(a[..]) == old(multiset(a[..]))
  {
    a[i], a[i + 1] := a[i + 1], a[i];
  }

  /** A name list that satisfies `IsAdapterOrder` holds only adapter keys,
      holds every one of them, and holds none twice. */
  lemma AdapterOrderNames(adapters: map<string, AdapterConfig>, names: seq<string>)
    requires IsAdapterOrder(adapters, names)
    ensures |names| == |adapters|
    ensures forall i :: 0 <= i < |names| ==> names[i] in adapters
    ensures forall k :: k in adapters ==> k in names
    ensures forall i, j :: 0 <= i < j < |names| ==> names[i] != names[j]
  {
    assert |multiset(names)| == |multiset(adapters.Keys)|;
    forall i | 0 <= i < |names| ensures names[i] in adapters {
      assert names[i] in multiset(names);
    }
    forall k | k in adapters ensures k in names {
      assert k in multiset(adapters.Keys);
    }
    forall i, j | 0 <= i < j < |names| ensures names[i] != names[j] {
      RepeatCounted(names, i, j);
    }
  }

  lemma RepeatCounted(s: seq<string>, i: nat, j: nat)
    requires i < j < |s|
    ensures s[i] == s[j] ==> multiset(s)[s[i]] >= 2
  {
    var x := s[i];
    assert s == s[..j] + s[j..];
    assert s[..j][i] == x && s[j..][0] == s[j];
    assert multiset(s)[x] == multiset(s[..j])[x] + multiset(s[j..])[x];
  }
}
