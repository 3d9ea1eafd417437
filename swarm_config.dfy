/** Swarm configs of `src/swarm/config.rs`: named, versioned blobs of
    non-secret data, kept in a map from id to config. The data is fixed at
    creation; updates are guarded by an optimistic version check. */
module SwarmConfig {
  import opened Common

  datatype ConfigTemplating = ConfigTemplating(name: Option<string>, options: map<string, string>)

  /** `ConfigSpec`; `data` is the base64 text, kept undecoded. */
  datatype ConfigSpec = ConfigSpec(
    name: string,
    labels: map<string, string>,
    data: string,
    templating: Option<ConfigTemplating>)

  /** `Config`; `version` is `version.index`. */
  datatype Config = Config(id: string, version: nat, createdAt: int, updatedAt: int, spec: ConfigSpec)

  /** `Config::new`: version 1, both timestamps `now`. The id is the random
      uuid the caller supplies. */
  function NewConfig(id: string, spec: ConfigSpec, now: int): (c: Config)
    ensures c.id == id && c.spec == spec && c.version == 1
    ensures c.createdAt == now && c.updatedAt == now
  {
    Config(id, 1, now, now, spec)
  }

  /** `Config::update`: the data may not change; name, labels and
      templating are replaced and the version goes up by one. */
  function UpdateConfig(c: Config, spec: ConfigSpec, now: int): (r: Result<Config>)
    ensures r.Err? <==> spec.data != c.spec.data
    ensures r.Err? ==> r.error == InvalidConfig("Config data cannot be modified after creation")
    ensures r.Ok? ==> r.value.spec == spec && r.value.version == c.version + 1
    ensures r.Ok? ==> r.value.id == c.id && r.value.createdAt == c.createdAt && r.value.updatedAt == now
  {
    if c.spec.data != spec.data then Err(InvalidConfig("Config data cannot be modified after creation"))
    else Ok(c.(spec := c.spec.(name := spec.name, labels := spec.labels, templating := spec.templating),
               version := c.version + 1, updatedAt := now))
  }

  /** The manager's `update` on a resolved config: the version check, then
      `Config::update`. */
  function UpdateChecked(c: Config, spec: ConfigSpec, version: nat, now: int): (r: Result<Config>)
    ensures c.version != version ==>
      r == Err(InvalidConfig("Config version mismatch: expected " + NatToString(c.version)
                             + ", got " + NatToString(version)))
    ensures c.version == version ==> r == UpdateConfig(c, spec, now)
  {
    if c.version != version then
      Err(InvalidConfig("Config version mismatch: expected " + NatToString(c.version)
                        + ", got " + NatToString(version)))
    else UpdateConfig(c, spec, now)
  }

  /** An update that succeeds makes the old version stale: repeating it
      with the same expected version is refused. */
  lemma UpdateThenStale(c: Config, spec: ConfigSpec, version: nat, now: int, later: int)
    requires UpdateChecked(c, spec, version, now).Ok?
    ensures UpdateChecked(UpdateChecked(c, spec, version, now).value, spec, version, later).Err?
  {
  }

  /** Updating with the current data and version keeps the data and the
      id, and advances the version to the next expected one. */
  lemma UpdateChain(c: Config, s1: ConfigSpec, s2: ConfigSpec, now1: int, now2: int)
    requires s1.data == c.spec.data && s2.data == c.spec.data
    ensures var c1 := UpdateChecked(c, s1, c.version, now1);
      && c1.Ok?
      && UpdateChecked(c1.value, s2, c.version + 1, now2).Ok?
      && UpdateChecked(c1.value, s2, c.version + 1, now2).value.version == c.version + 2
      && UpdateChecked(c1.value, s2, c.version + 1, now2).value.spec.data == c.spec.data
  {
  }

  /** `ConfigFilters`: each present list narrows the listing. */
  datatype ConfigFilters = ConfigFilters(ids: Option<seq<string>>, names: Option<seq<string>>, labels: Option<seq<string>>)

  /** A label filter: `key=value` needs that exact value; a bare `key`
      needs the key. */
  predicate LabelMatches(labels: map<string, string>, filter: string)
  {
    var (key, value) := SplitOnce(filter, '=');
    if value.Some? then key in labels && labels[key] == value.value else filter in labels
  }

  predicate IdMatches(c: Config, ids: seq<string>)
  {
    exists k :: 0 <= k < |ids| && IsPrefix(ids[k], c.id)
  }

  predicate NameMatches(c: Config, names: seq<string>)
  {
    c.spec.name in names
  }

  predicate LabelsMatch(c: Config, labels: seq<string>)
  {
    forall k :: 0 <= k < |labels| ==> LabelMatches(c.spec.labels, labels[k])
  }

  /** Whether a config survives all the filters that are present. */
  predicate Matches(c: Config, filters: Option<ConfigFilters>)
  {
    filters.Some? ==>
      PassesIds(c, filters.value.ids) && PassesNames(c, filters.value.names) && PassesLabels(c, filters.value.labels)
  }

  predicate PassesIds(c: Config, ids: Option<seq<string>>)
  {
    ids.Some? ==> IdMatches(c, ids.value)
  }

  predicate PassesNames(c: Config, names: Option<seq<string>>)
  {
    names.Some? ==> NameMatches(c, names.value)
  }

  predicate PassesLabels(c: Config, labels: Option<seq<string>>)
  {
    labels.Some? ==> LabelsMatch(c, labels.value)
  }

  /** A label filter without '=' matches exactly the configs carrying that
      key; with '=' it also pins the value. */
  lemma LabelFilterForms(labels: map<string, string>, key: string, value: string)
    requires '=' !in key
    ensures LabelMatches(labels, key) <==> key in labels
    ensures LabelMatches(labels, key + "=" + value) <==> key in labels && labels[key] == value
  {
    var (k, v) := SplitOnce(key + "=" + value, '=');
    assert (key + "=" + value)[|key|] == '=';
    FindCharFirst(key + "=" + value, '=', |key|);
    assert k == key && v == Some(value);
  }

  /** The first occurrence of `c` when it is at `n` and not before. */
  lemma FindCharFirst(s: string, c: char, n: nat)
    requires n < |s| && s[n] == c && c !in s[..n]
    ensures SplitOnce(s, c) == (s[..n], Some(s[n + 1..]))
  {
    FindCharAt(s, c, n);
  }

  /** Some stored config is named `name`. */
  predicate NameTaken(configs: map<string, Config>, name: string)
  {
    exists id :: id in configs && configs[id].spec.name == name
  }

  /** How `get`, `update` and `remove` pick a config: the id itself, else
      a config with that name. */
  predicate Resolves(configs: map<string, Config>, idOrName: string, id: string)
  {
    id in configs && (if idOrName in configs then id == idOrName else configs[id].spec.name == idOrName)
  }

  /** While names are unique, the resolved config is unique. */
  predicate UniqueNames(configs: map<string, Config>)
  {
    forall a, b :: a in configs && b in configs && configs[a].spec.name == configs[b].spec.name ==> a == b
  }

  lemma ResolvesUnique(configs: map<string, Config>, idOrName: string, a: string, b: string)
    requires UniqueNames(configs) && Resolves(configs, idOrName, a) && Resolves(configs, idOrName, b)
    ensures a == b
  {
  }

  /** `update` does not re-check names: renaming a config to the name of
      another yields two configs with one name. */
  lemma UpdateCanShareName(c: Config, d: Config, now: int)
    requires c.id != d.id && c.spec.name != d.spec.name
    ensures var spec := c.spec.(name := d.spec.name);
      var c' := UpdateChecked(c, spec, c.version, now).value;
      !UniqueNames(map[c.id := c', d.id := d])
  {
    var spec := c.spec.(name := d.spec.name);
    var c' := UpdateChecked(c, spec, c.version, now).value;
    var m := map[c.id := c', d.id := d];
    assert m[c.id].spec.name == m[d.id].spec.name;
  }

  function NotFound(idOrName: string): RuneError
  {
    InvalidConfig("Config not found: " + idOrName)
  }

  /** The filtering half of `list`: one `retain` pass per filter present. */
  method ApplyFilters(all: seq<Config>, f: ConfigFilters) returns (r: seq<Config>)
    ensures forall c :: c in r <==> c in all && Matches(c, Some(f))
    ensures |r| <= |all|
  {
    r := all;
    var keepId := c => PassesIds(c, f.ids);
    var keepName := c => PassesNames(c, f.names);
    var keepLabels := c => PassesLabels(c, f.labels);
    if f.ids.Some? {
      r := Retain(r, keepId);
    } else {
      FilterAll(r, keepId);
    }
    if f.names.Some? {
      r := Retain(r, keepName);
    } else {
      FilterAll(r, keepName);
    }
    if f.labels.Some? {
      r := Retain(r, keepLabels);
    } else {
      FilterAll(r, keepLabels);
    }
    assert r == Filter(Filter(Filter(all, keepId), keepName), keepLabels);
    forall c ensures c in r <==> c in all && Matches(c, Some(f)) {
      FilterThrice(all, keepId, keepName, keepLabels, c);
    }
  }

  class ConfigManager {
    var configs: map<string, Config>

    constructor ()
      ensures configs == map[]
    {
      configs := map[];
    }

    /** The first config (in map order) named `name`. */
    method FindByName(name: string) returns (r: Option<string>)
      ensures r.Some? ==> r.value in configs && configs[r.value].spec.name == name
      ensures r.None? <==> !NameTaken(configs, name)
    {
      var todo := configs.Keys;
      while todo != {}
        invariant todo <= configs.Keys
        invariant forall id :: id in configs.Keys - todo ==> configs[id].spec.name != name
        decreases todo
      {
        var id :| id in todo;
        if configs[id].spec.name == name {
          return Some(id);
        }
        todo := todo - {id};
      }
      r := None;
    }

    /** `create`: a name already in use is refused; otherwise the new
        config is stored under the uuid `id`. */
    method Create(spec: ConfigSpec, id: string, now: int) returns (r: Result<string>)
      modifies this
      ensures NameTaken(old(configs), spec.name) ==>
        r == Err(InvalidConfig("Config with name '" + spec.name + "' already exists")) && configs == old(configs)
      ensures !NameTaken(old(configs), spec.name) ==>
        r == Ok(id) && configs == old(configs)[id := NewConfig(id, spec, now)]
      ensures UniqueNames(old(configs)) && id !in old(configs) ==> UniqueNames(configs)
    {
      var existing := FindByName(spec.name);
      if existing.Some? {
        return Err(InvalidConfig("Config with name '" + spec.name + "' already exists"));
      }
      configs := configs[id := NewConfig(id, spec, now)];
      r := Ok(id);
    }

    /** `get`: by id, then by name. */
    method Get(idOrName: string) returns (r: Result<Config>)
      ensures r.Ok? <==> idOrName in configs || NameTaken(configs, idOrName)
      ensures r.Ok? ==> exists id :: Resolves(configs, idOrName, id) && r.value == configs[id]
      ensures r.Err? ==> r.error == NotFound(idOrName)
    {
      if idOrName in configs {
        assert Resolves(configs, idOrName, idOrName);
        return Ok(configs[idOrName]);
      }
      var found := FindByName(idOrName);
      if found.Some? {
        assert Resolves(configs, idOrName, found.value);
        return Ok(configs[found.value]);
      }
      r := Err(NotFound(idOrName));
    }

    /** Every stored config once, in map order. */
    method Values() returns (r: seq<Config>)
      ensures |r| == |configs|
      ensures forall k :: 0 <= k < |r| ==> r[k] in configs.Values
      ensures forall c :: c in configs.Values ==> c in r
    {
      var ids := Enumerate(configs.Keys);
      DistinctCard(ids);
      r := [];
      var i := 0;
      while i < |ids|
        invariant 0 <= i <= |ids| && |r| == i
        invariant forall k :: 0 <= k < i ==> r[k] == configs[ids[k]]
      {
        r := r + [configs[ids[i]]];
        i := i + 1;
      }
      forall c | c in configs.Values ensures c in r {
        var id :| id in configs && configs[id] == c;
        assert id in Elems(ids);
        var k :| 0 <= k < |ids| && ids[k] == id;
        assert r[k] == c;
      }
    }

    /** `list`: every config that passes the filters, once each. */
    method List(filters: Option<ConfigFilters>) returns (r: seq<Config>)
      ensures forall k :: 0 <= k < |r| ==> r[k] in configs.Values && Matches(r[k], filters)
      ensures forall c :: c in configs.Values && Matches(c, filters) ==> c in r
      ensures filters.None? ==> |r| == Count()
      ensures |r| <= Count()
    {
      r := Values();
      if filters.Some? {
        var all := r;
        r := ApplyFilters(all, filters.value);
        forall k | 0 <= k < |r| ensures r[k] in configs.Values && Matches(r[k], filters) {
          assert r[k] in r;
          assert r[k] in all;
          var j :| 0 <= j < |all| && all[j] == r[k];
        }
      }
    }

    /** `update`: resolve by id then name, check the expected version, then
        apply `Config::update` to that config alone. */
    method Update(idOrName: string, spec: ConfigSpec, version: nat, now: int) returns (r: Outcome)
      modifies this
      ensures !(idOrName in old(configs) || NameTaken(old(configs), idOrName)) ==>
        r == Fail(NotFound(idOrName)) && configs == old(configs)
      ensures (idOrName in old(configs) || NameTaken(old(configs), idOrName)) ==>
        exists id :: Resolves(old(configs), idOrName, id) &&
          match UpdateChecked(old(configs)[id], spec, version, now)
          case Ok(c) => r == Pass && configs == old(configs)[id := c]
          case Err(e) => r == Fail(e) && configs == old(configs)
    {
      var id;
      if idOrName in configs {
        id := idOrName;
      } else {
        var found := FindByName(idOrName);
        if found.None? {
          return Fail(NotFound(idOrName));
        }
        id := found.value;
      }
      assert Resolves(configs, idOrName, id);
      match UpdateChecked(configs[id], spec, version, now)
      case Ok(c) =>
        configs := configs[id := c];
        r := Pass;
      case Err(e) =>
        r := Fail(e);
    }

    /** `remove`: by id, then by name. */
    method Remove(idOrName: string) returns (r: Outcome)
      modifies this
      ensures !(idOrName in old(configs) || NameTaken(old(configs), idOrName)) ==>
        r == Fail(NotFound(idOrName)) && configs == old(configs)
      ensures (idOrName in old(configs) || NameTaken(old(configs), idOrName)) ==>
        r == Pass && exists id :: Resolves(old(configs), idOrName, id) && configs == old(configs) - {id}
    {
      if idOrName in configs {
        assert Resolves(configs, idOrName, idOrName);
        configs := configs - {idOrName};
        return Pass;
      }
      var found := FindByName(idOrName);
      if found.None? {
        return Fail(NotFound(idOrName));
      }
      assert Resolves(configs, idOrName, found.value);
      configs := configs - {found.value};
      r := Pass;
    }

    /** `count`: the number of stored configs, which is also how many an
        unfiltered `list` returns. */
    function Count(): (r: nat)
      reads this
      ensures r == |configs.Keys|
    {
      |configs|
    }
  }
}
