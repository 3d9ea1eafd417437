/** Start ordering and container configuration of
    `src/compose/orchestrator.rs`. */
module ComposeOrchestrator {
  import opened Common
  import opened ComposeModel
  import opened DependencyGraph
  import CC = ContainerConfigs

  /** The dependency graph of a compose file's services. */
  function ServiceGraph(services: map<string, ServiceConfig>): (g: Graph)
    ensures g.Keys == services.Keys
    ensures forall n :: n in services ==> g[n] == DependsOn(services[n])
  {
    map n | n in services :: DependsOn(services[n])
  }

  function CycleError(service: string): RuneError
  {
    ComposeErr("Circular dependency detected for service: " + service)
  }

  /** `topological_sort`: depth-first, with `visiting` holding the names
      whose dependencies are being sorted and `visited` the names already
      placed in `order`. Meeting a name that is still being visited is a
      cycle. `stack` (proof only) lists `visiting` in the order the names
      were entered, each depending on the next. */
  method TopologicalSort(g: Graph, service: string, visited: set<string>, visiting: set<string>,
                         order: seq<string>, ghost stack: seq<string>)
    returns (r: Outcome, visited': set<string>, visiting': set<string>, order': seq<string>)
    requires service in Names(g) && Elems(order) <= Names(g)
    requires Elems(order) == visited && Distinct(order) && visited !! visiting && DepsBefore(g, order)
    requires Elems(stack) == visiting && Walk(g, stack)
    requires |stack| > 0 ==> Edge(g, stack[|stack| - 1], service)
    decreases |Names(g) - visiting|, 1
    ensures r.Pass? ==> visiting' == visiting && service in visited' && visited <= visited'
    ensures r.Pass? ==> Elems(order') == visited' && Distinct(order') && DepsBefore(g, order')
    ensures r.Pass? ==> Elems(order') <= Names(g) && visited' !! visiting && order <= order'
    ensures r.Fail? ==> !Acyclic(g) && exists s :: r.error == CycleError(s)
  {
    if service in visited {
      return Pass, visited, visiting, order;
    }
    if service in visiting {
      ghost var j :| 0 <= j < |stack| && stack[j] == service;
      CycleFromWalk(g, stack, j, service);
      return Fail(CycleError(service)), visited, visiting, order;
    }
    var inner := visiting + {service};
    SmallerCard(Names(g) - inner, Names(g) - visiting);
    WalkExtend(g, stack, service);
    ElemsAppend(stack, service);
    var deps := if service in g then g[service] else [];
    var res, v, o := SortDependencies(g, service, deps, visited, inner, order, stack + [service]);
    if res.Fail? {
      return res, v, inner, o;
    }
    PlaceAfterDeps(g, o, service, deps);
    r, visited', visiting', order' := Pass, v + {service}, visiting, o + [service];
  }

  /** The loop of `topological_sort` over one service's dependencies, each
      sorted in turn while the service is being visited; the first failure
      is passed on. */
  method SortDependencies(g: Graph, service: string, deps: seq<string>, visited: set<string>,
                          inner: set<string>, order: seq<string>, ghost stack: seq<string>)
    returns (r: Outcome, v: set<string>, o: seq<string>)
    requires deps == (if service in g then g[service] else [])
    requires Elems(stack) == inner && Walk(g, stack) && |stack| > 0 && stack[|stack| - 1] == service
    requires Elems(order) == visited && Distinct(order) && visited !! inner && DepsBefore(g, order)
    requires Elems(order) <= Names(g)
    decreases |Names(g) - inner| + 1, 0
    ensures r.Pass? ==> Elems(o) == v && Distinct(o) && v !! inner && DepsBefore(g, o) && Elems(o) <= Names(g)
    ensures r.Pass? ==> visited <= v && order <= o && forall k :: 0 <= k < |deps| ==> deps[k] in v
    ensures r.Fail? ==> !Acyclic(g) && exists s :: r.error == CycleError(s)
  {
    v, o := visited, order;
    var i := 0;
    while i < |deps|
      invariant 0 <= i <= |deps|
      invariant Elems(o) == v && Distinct(o) && v !! inner && DepsBefore(g, o) && Elems(o) <= Names(g)
      invariant visited <= v && order <= o
      invariant forall k :: 0 <= k < i ==> deps[k] in v
    {
      assert Edge(g, service, deps[i]);
      DependencyIsName(g, service, deps[i]);
      var res, v2, _, o2 := TopologicalSort(g, deps[i], v, inner, o, stack);
      if res.Fail? {
        return res, v2, o2;
      }
      v, o := v2, o2;
      i := i + 1;
    }
    r := Pass;
  }

  /** `get_start_order`: sorts from every service in map order. The order
      exists exactly when the dependencies have no cycle; it then holds
      every service once, each after everything it depends on (undefined
      dependencies included). */
  method GetStartOrder(services: map<string, ServiceConfig>) returns (r: Result<seq<string>>)
    ensures r.Ok? <==> Acyclic(ServiceGraph(services))
    ensures r.Ok? ==> Distinct(r.value) && DepsBefore(ServiceGraph(services), r.value)
    ensures r.Ok? ==> (forall s :: s in services ==> s in r.value) && Elems(r.value) <= Names(ServiceGraph(services))
    ensures r.Err? ==> exists s :: r.error == CycleError(s)
  {
    var g := ServiceGraph(services);
    var keys := Enumerate(services.Keys);
    var visited: set<string> := {};
    var order: seq<string> := [];
    var i := 0;
    while i < |keys|
      invariant 0 <= i <= |keys|
      invariant Elems(order) == visited && Distinct(order) && DepsBefore(g, order) && Elems(order) <= Names(g)
      invariant forall k :: 0 <= k < i ==> keys[k] in visited
    {
      assert keys[i] in Elems(keys);
      var res, v, _, o := TopologicalSort(g, keys[i], visited, {}, order, []);
      if res.Fail? {
        return Err(res.error);
      }
      visited, order := v, o;
      i := i + 1;
    }
    forall s | s in g ensures s in order {
      assert s in Elems(keys);
      var k :| 0 <= k < |keys| && keys[k] == s;
      assert s in visited;
    }
    OrderedIsAcyclic(g, order);
    r := Ok(order);
  }

  /** The image a service runs: its own, or the project's build tag. */
  function ServiceImage(project: string, serviceName: string, service: ServiceConfig): (image: string)
    ensures service.image.Some? ==> image == service.image.value
    ensures service.image.None? ==> image == project + "-" + serviceName + ":latest"
  {
    if service.image.Some? then service.image.value else project + "-" + serviceName + ":latest"
  }

  /** A compose command as the container's argument vector: a shell line
      runs under `/bin/sh -c`. */
  function CommandArgs(c: CommandConfig): (r: seq<string>)
    ensures c.Shell? ==> r == ["/bin/sh", "-c", c.line]
    ensures c.Exec? ==> r == c.args
  {
    match c
    case Shell(s) => ["/bin/sh", "-c", s]
    case Exec(a) => a
  }

  /** A compose entrypoint as the container's: a shell line is one word. */
  function EntrypointArgs(c: CommandConfig): (r: seq<string>)
    ensures c.Shell? ==> r == [c.line]
    ensures c.Exec? ==> r == c.args
  {
    match c
    case Shell(s) => [s]
    case Exec(a) => a
  }

  /** The variables a list of `KEY=VALUE` items defines, the later item
      winning; an item without '=' defines nothing. */
  function EnvFromItems(items: seq<string>): (env: map<string, string>)
    ensures forall k :: k in env ==> exists i :: 0 <= i < |items| && SplitOnce(items[i], '=').0 == k
  {
    if items == [] then map[]
    else
      var env := EnvFromItems(items[..|items| - 1]);
      var kv := SplitOnce(items[|items| - 1], '=');
      if kv.1.Some? then env[kv.0 := kv.1.value] else env
  }

  /** The last item defining a key decides its value; items without '='
      leave the environment alone. */
  lemma EnvFromItemsLast(items: seq<string>, item: string)
    ensures SplitOnce(item, '=').1.Some? ==>
      EnvFromItems(items + [item]) == EnvFromItems(items)[SplitOnce(item, '=').0 := SplitOnce(item, '=').1.value]
    ensures SplitOnce(item, '=').1.None? ==> EnvFromItems(items + [item]) == EnvFromItems(items)
  {
    assert (items + [item])[..|items|] == items;
  }

  /** The entries of an environment map that carry a value. */
  function EnvFromMap(vars: map<string, Option<string>>): (env: map<string, string>)
    ensures forall k :: k in env <==> k in vars && vars[k].Some?
    ensures forall k :: k in env ==> env[k] == vars[k].value
  {
    map k | k in vars && vars[k].Some? :: vars[k].value
  }

  /** The loop of `service_to_container_config` over a list environment. */
  method CollectEnv(items: seq<string>) returns (env: map<string, string>)
    ensures env == EnvFromItems(items)
  {
    env := map[];
    var i := 0;
    while i < |items|
      invariant 0 <= i <= |items|
      invariant env == EnvFromItems(items[..i])
    {
      var kv := SplitOnce(items[i], '=');
      if kv.1.Some? {
        env := env[kv.0 := kv.1.value];
      }
      assert items[..i + 1] == items[..i] + [items[i]];
      EnvFromItemsLast(items[..i], items[i]);
      i := i + 1;
    }
    assert items[..|items|] == items;
  }

  /** The fields `service_to_container_config` sets on top of a new
      configuration. */
  function Assemble(project: string, serviceName: string, service: ServiceConfig, containerName: string,
                    env: map<string, string>, base: CC.ContainerConfig): (c: CC.ContainerConfig)
  {
    base.(cmd := if service.command.Some? then CommandArgs(service.command.value) else base.cmd,
          entrypoint := if service.entrypoint.Some? then EntrypointArgs(service.entrypoint.value) else base.entrypoint,
          env := env,
          workingDir := if service.workingDir.Some? then service.workingDir.value else base.workingDir,
          user := if service.user.Some? then service.user.value else base.user,
          hostname := if service.hostname.Some? then service.hostname.value else base.hostname,
          privileged := if service.privileged.Some? then service.privileged.value else base.privileged,
          labels := base.labels[ProjectLabel := project][ServiceLabel := serviceName])
  }

  const ProjectLabel := "com.docker.compose.project"
  const ServiceLabel := "com.docker.compose.service"

  /** `service_to_container_config`: a new container configuration named
      `containerName`, running the service's image and overriding command,
      entrypoint, environment, working directory, user, hostname and
      privilege where the service sets them, and labelled with the project
      and service. The identifier's UUID and the clock are parameters. */
  method ServiceToContainerConfig(project: string, serviceName: string, service: ServiceConfig,
                                  containerName: string, uuid: string, now: int)
    returns (c: CC.ContainerConfig)
    requires |CC.RemoveDashes(uuid)| >= 12
    ensures c.name == containerName && c.image == ServiceImage(project, serviceName, service)
    ensures c.cmd == (if service.command.Some? then CommandArgs(service.command.value) else [])
    ensures c.entrypoint == (if service.entrypoint.Some? then EntrypointArgs(service.entrypoint.value) else [])
    ensures service.environment.None? ==> c.env == map[]
    ensures service.environment.Some? && service.environment.value.EnvList? ==>
      c.env == EnvFromItems(service.environment.value.items)
    ensures service.environment.Some? && service.environment.value.EnvMap? ==>
      c.env == EnvFromMap(service.environment.value.vars)
    ensures c.workingDir == (if service.workingDir.Some? then service.workingDir.value else "/")
    ensures c.user == (if service.user.Some? then service.user.value else "")
    ensures c.hostname == (if service.hostname.Some? then service.hostname.value else containerName)
    ensures c.privileged == (service.privileged.Some? && service.privileged.value)
    ensures c.labels == map[ProjectLabel := project, ServiceLabel := serviceName]
    ensures c.status == CC.Creating && c.networkMode == "bridge" && c.exposedPorts == [] && c.volumes == []
  {
    var env: map<string, string> := map[];
    if service.environment.Some? {
      match service.environment.value {
        case EnvList(items) =>
          env := CollectEnv(items);
        case EnvMap(vars) =>
          env := EnvFromMap(vars);
      }
    }
    c := Assemble(project, serviceName, service, containerName, env, CC.New(containerName, ServiceImage(project, serviceName, service), uuid, now));
  }
}
