/** The container manager of `src/container/lifecycle.rs`: a map from id to
    container, with create/start/stop/pause/unpause/kill/remove and queries. */
module ContainerLifecycle {
  import opened Common
  import opened ContainerConfigs
  import opened ContainerRuntime

  /** Ids of the running containers of `m`. */
  function RunningIds(m: map<string, ContainerConfig>): set<string>
  {
    set id | id in m && m[id].status == Running
  }

  lemma RunningIdsBounded(m: map<string, ContainerConfig>)
    ensures |RunningIds(m)| <= |m|
  {
    assert RunningIds(m) <= m.Keys;
    SubsetCard(RunningIds(m), m.Keys);
  }

  lemma {:induction false} SubsetCard<T>(a: set<T>, b: set<T>)
    requires a <= b
    ensures |a| <= |b|
    decreases |b|
  {
    if a != {} {
      var x :| x in a;
      SubsetCard(a - {x}, b - {x});
    }
  }

  /** Whether `list(all)` shows a container. */
  predicate Listed(c: ContainerConfig, all: bool)
  {
    all || c.status == Running
  }

  /** The ids among `ids` whose containers `list(all)` shows. */
  function Selected(m: map<string, ContainerConfig>, ids: set<string>, all: bool): set<string>
    requires ids <= m.Keys
  {
    set id | id in ids && Listed(m[id], all)
  }

  lemma SelectedAdd(m: map<string, ContainerConfig>, ids: set<string>, id: string, all: bool)
    requires ids <= m.Keys && id in m && id !in ids
    ensures Selected(m, ids + {id}, all) == Selected(m, ids, all) + (if Listed(m[id], all) then {id} else {})
    ensures id !in Selected(m, ids, all)
  {
  }

  lemma SelectedAll(m: map<string, ContainerConfig>, all: bool)
    ensures |Selected(m, m.Keys, all)| == if all then |m| else |RunningIds(m)|
  {
    if all {
      assert Selected(m, m.Keys, all) == m.Keys;
    } else {
      assert Selected(m, m.Keys, all) == RunningIds(m);
    }
  }

  /** The containers among `ids` that `list(all)` shows. */
  function Shown(m: map<string, ContainerConfig>, ids: set<string>, all: bool): set<ContainerConfig>
    requires ids <= m.Keys
  {
    set id | id in ids && Listed(m[id], all) :: m[id]
  }

  lemma ShownAdd(m: map<string, ContainerConfig>, ids: set<string>, id: string, all: bool)
    requires ids <= m.Keys && id in m
    ensures Shown(m, ids + {id}, all) == Shown(m, ids, all) + (if Listed(m[id], all) then {m[id]} else {})
  {
  }

  lemma ShownAll(m: map<string, ContainerConfig>, all: bool)
    ensures forall c :: c in Shown(m, m.Keys, all) <==> c in m.Values && Listed(c, all)
  {
    forall c | c in m.Values && Listed(c, all)
      ensures c in Shown(m, m.Keys, all)
    {
      var id :| id in m && m[id] == c;
    }
  }

  /** `r` lists exactly the containers among `done` that `list(all)` shows, once each. */
  ghost predicate ListedSoFar(m: map<string, ContainerConfig>, done: set<string>, all: bool, r: seq<ContainerConfig>)
    requires done <= m.Keys
  {
    && (forall c :: c in r <==> c in Shown(m, done, all))
    && |r| == |Selected(m, done, all)|
  }

  lemma ListStep(m: map<string, ContainerConfig>, done: set<string>, id: string, all: bool, r: seq<ContainerConfig>)
    requires done <= m.Keys && id in m && id !in done
    requires ListedSoFar(m, done, all, r)
    ensures ListedSoFar(m, done + {id}, all, if Listed(m[id], all) then r + [m[id]] else r)
  {
    ListStepCount(m, done, id, all, r);
    ListStepMembers(m, done, id, all, r);
  }

  lemma ListStepCount(m: map<string, ContainerConfig>, done: set<string>, id: string, all: bool, r: seq<ContainerConfig>)
    requires done <= m.Keys && id in m && id !in done
    requires |r| == |Selected(m, done, all)|
    ensures |if Listed(m[id], all) then r + [m[id]] else r| == |Selected(m, done + {id}, all)|
  {
    SelectedAdd(m, done, id, all);
  }

  lemma ListStepMembers(m: map<string, ContainerConfig>, done: set<string>, id: string, all: bool, r: seq<ContainerConfig>)
    requires done <= m.Keys && id in m
    requires forall c :: c in r <==> c in Shown(m, done, all)
    ensures forall c :: c in (if Listed(m[id], all) then r + [m[id]] else r) <==> c in Shown(m, done + {id}, all)
  {
    ShownAdd(m, done, id, all);
  }

  /** Moving one id from the ids still to visit to the visited ones keeps
      the two a partition of `keys`. */
  lemma MoveDone(keys: set<string>, todo: set<string>, seen: set<string>, id: string)
    requires todo + seen == keys && todo !! seen && id in todo
    ensures (todo - {id}) + (seen + {id}) == keys && (todo - {id}) !! (seen + {id})
  {
  }

  class ContainerManager {
    var containers: map<string, ContainerConfig>
    var basePath: string

    /** Every container is filed under its own id. */
    ghost predicate Valid()
      reads this
    {
      forall id :: id in containers ==> containers[id].id == id
    }

    constructor (basePath: string)
      ensures Valid() && containers == map[] && this.basePath == basePath
    {
      containers := map[];
      this.basePath := basePath;
    }

    /** Files a new container under its id; an id already present is refused
        and the map is left alone. */
    method Create(config: ContainerConfig) returns (r: Result<string>)
      requires Valid()
      modifies this
      ensures Valid() && basePath == old(basePath)
      ensures config.id in old(containers) ==> r == Err(ContainerExists(config.id)) && containers == old(containers)
      ensures config.id !in old(containers) ==> r == Ok(config.id) && containers == old(containers)[config.id := config]
    {
      if config.id in containers {
        return Err(ContainerExists(config.id));
      }
      containers := containers[config.id := config];
      r := Ok(config.id);
    }

    /** Applies one command to the container filed under `id`. */
    method Drive(id: string, cmd: Command) returns (r: Outcome)
      requires Valid()
      modifies this
      ensures Valid() && basePath == old(basePath)
      ensures id !in old(containers) ==> r == Fail(ContainerNotFound(id)) && containers == old(containers)
      ensures id in old(containers) && Apply(old(containers)[id], cmd).Err? ==>
                r == Fail(Apply(old(containers)[id], cmd).error) && containers == old(containers)
      ensures id in old(containers) && Apply(old(containers)[id], cmd).Ok? ==>
                r == Pass && containers == old(containers)[id := Apply(old(containers)[id], cmd).value]
    {
      if id !in containers {
        return Fail(ContainerNotFound(id));
      }
      var next := Apply(containers[id], cmd);
      if next.Err? {
        return Fail(next.error);
      }
      Effect(containers[id], cmd);
      containers := containers[id := next.value];
      r := Pass;
    }

    method Start(id: string, now: int) returns (r: Outcome)
      requires Valid()
      modifies this
      ensures Valid() && basePath == old(basePath)
      ensures id !in old(containers) ==> r == Fail(ContainerNotFound(id)) && containers == old(containers)
      ensures id in old(containers) && old(containers)[id].status == Running ==>
                r == Fail(ContainerAlreadyRunning(id)) && containers == old(containers)
      ensures id in old(containers) && old(containers)[id].status != Running ==>
                r == Pass && containers == old(containers)[id := old(containers)[id].(status := Running, startedAt := Some(now))]
    {
      r := Drive(id, Command.Start(now));
    }

    method Stop(id: string, now: int) returns (r: Outcome)
      requires Valid()
      modifies this
      ensures Valid() && basePath == old(basePath)
      ensures id !in old(containers) ==> r == Fail(ContainerNotFound(id)) && containers == old(containers)
      ensures id in old(containers) && old(containers)[id].status != Running ==>
                r == Fail(ContainerNotRunning(id)) && containers == old(containers)
      ensures id in old(containers) && old(containers)[id].status == Running ==>
                r == Pass && containers == old(containers)[id := old(containers)[id].(status := Stopped, finishedAt := Some(now), exitCode := Some(0))]
    {
      r := Drive(id, Command.Stop(now));
    }

    method Pause(id: string) returns (r: Outcome)
      requires Valid()
      modifies this
      ensures Valid() && basePath == old(basePath)
      ensures id !in old(containers) ==> r == Fail(ContainerNotFound(id)) && containers == old(containers)
      ensures id in old(containers) && old(containers)[id].status != Running ==>
                r == Fail(ContainerNotRunning(id)) && containers == old(containers)
      ensures id in old(containers) && old(containers)[id].status == Running ==>
                r == Pass && containers == old(containers)[id := old(containers)[id].(status := Paused)]
    {
      r := Drive(id, Command.Pause);
    }

    method Unpause(id: string) returns (r: Outcome)
      requires Valid()
      modifies this
      ensures Valid() && basePath == old(basePath)
      ensures id !in old(containers) ==> r == Fail(ContainerNotFound(id)) && containers == old(containers)
      ensures id in old(containers) && old(containers)[id].status != Paused ==>
                r.Fail? && containers == old(containers)
      ensures id in old(containers) && old(containers)[id].status == Paused ==>
                r == Pass && containers == old(containers)[id := old(containers)[id].(status := Running)]
    {
      r := Drive(id, Command.Unpause);
    }

    method Kill(id: string, signal: Option<int>, now: int) returns (r: Outcome)
      requires Valid()
      modifies this
      ensures Valid() && basePath == old(basePath)
      ensures id !in old(containers) ==> r == Fail(ContainerNotFound(id)) && containers == old(containers)
      ensures id in old(containers) && old(containers)[id].status !in {Running, Paused} ==>
                r == Fail(ContainerNotRunning(id)) && containers == old(containers)
      ensures id in old(containers) && old(containers)[id].status in {Running, Paused} ==>
                r == Pass && containers == old(containers)[id := old(containers)[id].(status := Exited, finishedAt := Some(now), exitCode := Some(KilledExitCode))]
    {
      r := Drive(id, Command.Kill(signal, now));
    }

    /** Removes a container. A running one is refused unless `force`, in which
        case it is killed with SIGKILL first; on success the id leaves the map. */
    method Remove(id: string, force: bool, now: int) returns (r: Outcome)
      requires Valid()
      modifies this
      ensures Valid() && basePath == old(basePath)
      ensures id !in old(containers) ==> r == Fail(ContainerNotFound(id)) && containers == old(containers)
      ensures id in old(containers) && old(containers)[id].status == Running && !force ==>
                r.Fail? && containers == old(containers)
      ensures id in old(containers) && (old(containers)[id].status != Running || force) ==>
                r == Pass && containers == old(containers) - {id}
    {
      if id !in containers {
        return Fail(ContainerNotFound(id));
      }
      var c := containers[id];
      if force && c.status == Running {
        var killed := KillT(c, Some(9), now);
        c := killed.value;
      }
      var removed := RemoveT(c);
      if removed.Err? {
        return Fail(removed.error);
      }
      containers := containers - {id};
      r := Pass;
    }

    method Get(id: string) returns (r: Result<ContainerConfig>)
      ensures id in containers ==> r == Ok(containers[id])
      ensures id !in containers ==> r == Err(ContainerNotFound(id))
    {
      if id in containers {
        r := Ok(containers[id]);
      } else {
        r := Err(ContainerNotFound(id));
      }
    }

    /** All containers when `all`, otherwise exactly the running ones, each once. */
    method List(all: bool) returns (r: seq<ContainerConfig>)
      ensures forall c :: c in r <==> c in containers.Values && Listed(c, all)
      ensures |r| == if all then |containers| else |RunningIds(containers)|
    {
      var m := containers;
      r := [];
      var todo := m.Keys;
      while todo != {}
        invariant todo <= m.Keys
        invariant ListedSoFar(m, m.Keys - todo, all, r)
        decreases todo
      {
        var id :| id in todo;
        ghost var done := m.Keys - todo;
        ListStep(m, done, id, all, r);
        assert m.Keys - (todo - {id}) == done + {id};
        if Listed(m[id], all) {
          r := r + [m[id]];
        }
        todo := todo - {id};
      }
      assert m.Keys - todo == m.Keys;
      ShownAll(m, all);
      SelectedAll(m, all);
    }

    /** Some container with that name, if any. */
    method FindByName(name: string) returns (r: Option<ContainerConfig>)
      ensures r.Some? ==> r.value in containers.Values && r.value.name == name
      ensures r.None? ==> forall id :: id in containers ==> containers[id].name != name
    {
      var todo := containers.Keys;
      while todo != {}
        invariant todo <= containers.Keys
        invariant forall id :: id in containers.Keys - todo ==> containers[id].name != name
        decreases todo
      {
        var id :| id in todo;
        if containers[id].name == name {
          return Some(containers[id]);
        }
        todo := todo - {id};
      }
      r := None;
    }

    method Count() returns (n: nat)
      ensures n == |containers|
    {
      n := |containers|;
    }

    /** Number of running containers; never more than `Count`. */
    method RunningCount() returns (n: nat)
      ensures n == |RunningIds(containers)|
      ensures n <= |containers|
    {
      var m := containers;
      n := 0;
      var todo := m.Keys;
      ghost var seen: set<string> := {};
      while todo != {}
        invariant todo + seen == m.Keys && todo !! seen
        invariant n == |Selected(m, seen, false)|
        decreases todo
      {
        var id :| id in todo;
        SelectedAdd(m, seen, id, false);
        MoveDone(m.Keys, todo, seen, id);
        if m[id].status == Running {
          n := n + 1;
        }
        todo := todo - {id};
        seen := seen + {id};
      }
      SelectedAll(m, false);
      RunningIdsBounded(m);
    }
  }
}
