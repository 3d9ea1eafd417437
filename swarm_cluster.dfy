/** The swarm cluster of `src/swarm/cluster.rs`: cluster state, join
    tokens, the optional unlock key, and the maps of nodes and services. */
module SwarmCluster {
  import opened Common
  import opened SwarmNode
  import opened SwarmService

  datatype SwarmState = Inactive | Pending | Active | Locked | Error

  datatype TokenType = WorkerToken | ManagerToken

  /** `SwarmConfig`; the raft, dispatcher and CA settings are left out. */
  datatype ClusterConfig = ClusterConfig(
    name: string,
    listenAddr: string,
    advertiseAddr: string,
    dataPathAddr: Option<string>,
    dataPathPort: Option<nat>,
    defaultAddrPool: seq<string>,
    subnetSize: nat,
    forceNewCluster: bool,
    availability: string,
    autoLockManagers: bool,
    taskHistoryRetentionLimit: int)

  /** `SwarmConfig::default`. */
  const DefaultConfig := ClusterConfig("default", "0.0.0.0:2377", "", None, Some(4789), ["10.0.0.0/8"],
                                       24, false, "active", false, 5)

  const TokenPrefix := "SWMTKN-1-"
  const UnlockKeyPrefix := "SWMKEY-1-"

  function TokenTypeName(t: TokenType): string
  {
    match t
    case WorkerToken => "worker"
    case ManagerToken => "manager"
  }

  /** `generate_token`: the prefix, the first 8 characters of the cluster
      id, the token type, and 25 random characters (`random` is a uuid with
      its dashes removed). */
  function GenerateToken(t: TokenType, clusterId: string, random: string): (token: string)
    requires |clusterId| >= 8 && |random| >= 25
    ensures IsPrefix(TokenPrefix, token) && |token| == 44 + |TokenTypeName(t)|
  {
    TokenPrefix + clusterId[..8] + "-" + TokenTypeName(t) + "-" + random[..25]
  }

  /** `generate_unlock_key`. */
  function GenerateUnlockKey(random: string): (key: string)
    ensures IsPrefix(UnlockKeyPrefix, key) && |key| == |UnlockKeyPrefix| + |random|
  {
    UnlockKeyPrefix + random
  }

  /** `extract_cluster_id`: the text between the prefix and the next '-'. */
  function ExtractClusterId(token: string): (r: Result<string>)
    ensures r.Ok? ==> IsPrefix(TokenPrefix + r.value + "-", token) && '-' !in r.value
    ensures r.Err? ==> r.error == SwarmErr("Invalid token format")
    ensures r.Err? ==> !IsPrefix(TokenPrefix, token) || '-' !in token[|TokenPrefix|..]
  {
    if !IsPrefix(TokenPrefix, token) then Err(SwarmErr("Invalid token format"))
    else
      var rest := token[|TokenPrefix|..];
      match FindChar(rest, '-')
      case None => Err(SwarmErr("Invalid token format"))
      case Some(i) =>
        assert token == TokenPrefix + rest;
        assert TokenPrefix + rest[..i] + "-" == token[..|TokenPrefix| + i + 1];
        Ok(rest[..i])
  }

  /** The role a join token asks for: any token mentioning the prefix is
      accepted, and "-manager-" anywhere selects the manager role. */
  function JoinRole(token: string): (r: Result<NodeRole>)
    ensures r.Err? <==> !Contains(token, TokenPrefix)
    ensures r.Err? ==> r.error == SwarmErr("Invalid join token")
    ensures r.Ok? ==> (r.value == Manager <==> Contains(token, "-manager-"))
  {
    if !Contains(token, TokenPrefix) then Err(SwarmErr("Invalid join token"))
    else if Contains(token, "-manager-") then Ok(Manager)
    else Ok(Worker)
  }

  lemma ContainsAt(s: string, p: string, j: nat)
    requires |p| > 0 && MatchAt(s, p, j)
    ensures Contains(s, p)
  {
  }

  /** Generated tokens round-trip: the cluster id read back is the first
      8 characters of the id they were made from. */
  lemma ExtractGenerated(t: TokenType, clusterId: string, random: string)
    requires |clusterId| >= 8 && |random| >= 25 && '-' !in clusterId[..8]
    ensures ExtractClusterId(GenerateToken(t, clusterId, random)) == Ok(clusterId[..8])
  {
    var token := GenerateToken(t, clusterId, random);
    var rest := token[|TokenPrefix|..];
    assert rest == clusterId[..8] + "-" + TokenTypeName(t) + "-" + random[..25];
    assert rest[8] == '-' && rest[..8] == clusterId[..8];
    assert FindChar(rest, '-') == Some(8);
  }

  /** A generated manager token joins as a manager. */
  lemma JoinManagerToken(clusterId: string, random: string)
    requires |clusterId| >= 8 && |random| >= 25
    ensures JoinRole(GenerateToken(ManagerToken, clusterId, random)) == Ok(Manager)
  {
    var token := GenerateToken(ManagerToken, clusterId, random);
    assert MatchAt(token, TokenPrefix, 0);
    ContainsAt(token, TokenPrefix, 0);
    assert token[17..26] == "-manager-";
    assert MatchAt(token, "-manager-", 17);
    ContainsAt(token, "-manager-", 17);
  }

  /** A generated worker token joins as a worker: its id and random parts
      carry no '-', so "-manager-" cannot occur in it. */
  lemma JoinWorkerToken(clusterId: string, random: string)
    requires |clusterId| >= 8 && |random| >= 25
    requires '-' !in clusterId[..8] && '-' !in random[..25]
    ensures JoinRole(GenerateToken(WorkerToken, clusterId, random)) == Ok(Worker)
  {
    var token := GenerateToken(WorkerToken, clusterId, random);
    var id8 := clusterId[..8];
    var r25 := random[..25];
    assert MatchAt(token, TokenPrefix, 0);
    ContainsAt(token, TokenPrefix, 0);
    assert token == TokenPrefix + id8 + "-" + "worker" + "-" + r25;
    forall j: nat | j + 9 <= |token| ensures !MatchAt(token, "-manager-", j) {
      assert "-manager-"[0] == '-' && "-manager-"[8] == '-';
      if j < 9 {
        if j == 0 {
          assert token[0] == 'S';
        } else {
          assert token[j + 8] == id8[j - 1];
        }
      } else if j < 17 {
        assert token[j] == id8[j - 9];
      } else if j == 17 {
        assert token[25] == r25[0];
      } else if j < 24 {
        assert token[j] == "worker"[j - 18];
      } else if j == 24 {
        assert token[32] == r25[7];
      } else {
        assert token[j] == r25[j - 25];
      }
    }
    assert FindStr(token, "-manager-").None?;
  }

  /** Swarm information returned by `info`. */
  datatype SwarmInfo = SwarmInfo(id: string, name: string, state: SwarmState, nodeCount: nat,
                                 managerCount: nat, serviceCount: nat, createdAt: int, updatedAt: int)

  /** `NodeUpdate`: each present field replaces the node's own. */
  datatype NodeUpdate = NodeUpdate(role: Option<NodeRole>, availability: Option<string>, labels: Option<map<string, string>>)

  class SwarmCluster {
    const id: string
    var config: ClusterConfig
    var state: SwarmState
    var nodes: map<string, Node>
    var services: map<string, Service>
    var workerToken: string
    var managerToken: string
    var unlockKey: Option<string>
    const createdAt: int
    var updatedAt: int

    /** `init`: an active cluster with fresh tokens, an unlock key when
        auto-lock is on, and the local node as its only (manager) node.
        Random values and the local machine's details are parameters. */
    constructor Init(config: ClusterConfig, id: string, workerRandom: string, managerRandom: string,
                     keyRandom: string, nodeId: string, hostname: string, architecture: string, os: string, now: int)
      requires |id| >= 8 && |workerRandom| >= 25 && |managerRandom| >= 25
      ensures this.id == id && this.config == config && state == Active
      ensures workerToken == GenerateToken(WorkerToken, id, workerRandom)
      ensures managerToken == GenerateToken(ManagerToken, id, managerRandom)
      ensures unlockKey == (if config.autoLockManagers then Some(GenerateUnlockKey(keyRandom)) else None)
      ensures nodes.Keys == {nodeId} && fresh(nodes[nodeId])
      ensures nodes[nodeId].role == Manager && nodes[nodeId].state == Ready && nodes[nodeId].IsLeader()
      ensures services == map[] && createdAt == now && updatedAt == now
    {
      var local := new Node.NewLocal(Manager, nodeId, hostname, architecture, os, now);
      this.id := id;
      this.config := config;
      state := Active;
      workerToken := GenerateToken(WorkerToken, id, workerRandom);
      managerToken := GenerateToken(ManagerToken, id, managerRandom);
      unlockKey := if config.autoLockManagers then Some(GenerateUnlockKey(keyRandom)) else None;
      nodes := map[nodeId := local];
      services := map[];
      createdAt := now;
      updatedAt := now;
    }

    /** The cluster a successful `join` builds: default configuration with
        the given addresses, no tokens or key, and the local node in the
        role the token asked for. */
    constructor Joined(clusterId: string, role: NodeRole, listenAddr: string, advertiseAddr: string,
                       nodeId: string, hostname: string, architecture: string, os: string, now: int)
      ensures id == clusterId && state == Active
      ensures config == DefaultConfig.(listenAddr := listenAddr, advertiseAddr := advertiseAddr)
      ensures workerToken == "" && managerToken == "" && unlockKey == None
      ensures nodes.Keys == {nodeId} && fresh(nodes[nodeId]) && nodes[nodeId].role == role
      ensures services == map[] && createdAt == now && updatedAt == now
    {
      var local := new Node.NewLocal(role, nodeId, hostname, architecture, os, now);
      id := clusterId;
      config := DefaultConfig.(listenAddr := listenAddr, advertiseAddr := advertiseAddr);
      state := Active;
      workerToken := "";
      managerToken := "";
      unlockKey := None;
      nodes := map[nodeId := local];
      services := map[];
      createdAt := now;
      updatedAt := now;
    }

    /** Ids of the managers that are Ready. */
    function ReadyManagers(): set<string>
      reads this, nodes.Values
    {
      set n | n in nodes && nodes[n].role == Manager && nodes[n].state == Ready
    }

    /** Ids of all managers, whatever their state (what `info` counts). */
    function Managers(): set<string>
      reads this, nodes.Values
    {
      set n | n in nodes && nodes[n].role == Manager
    }

    /** `leave`: refused while at most one ready manager remains, unless
        forced; otherwise the cluster becomes Inactive. */
    method Leave(force: bool) returns (r: Outcome)
      modifies this
      ensures |old(ReadyManagers())| <= 1 && !force ==>
        r == Fail(SwarmErr("Cannot leave swarm: this is the last manager. Use force to leave anyway."))
        && state == old(state)
      ensures !(|old(ReadyManagers())| <= 1 && !force) ==> r == Pass && state == Inactive
      ensures nodes == old(nodes) && services == old(services) && unlockKey == old(unlockKey)
      ensures config == old(config) && workerToken == old(workerToken) && managerToken == old(managerToken) && updatedAt == old(updatedAt)
    {
      if |ReadyManagers()| <= 1 && !force {
        return Fail(SwarmErr("Cannot leave swarm: this is the last manager. Use force to leave anyway."));
      }
      state := Inactive;
      r := Pass;
    }

    /** The token of the given type. */
    function JoinToken(t: TokenType): (token: string)
      reads this
      ensures t == WorkerToken ==> token == workerToken
      ensures t == ManagerToken ==> token == managerToken
    {
      match t
      case WorkerToken => workerToken
      case ManagerToken => managerToken
    }

    /** `rotate_join_token`: a new token of that type replaces the old one;
        the other type's token is kept. */
    method RotateJoinToken(t: TokenType, random: string, now: int) returns (token: string)
      requires |id| >= 8 && |random| >= 25
      modifies this
      ensures token == GenerateToken(t, id, random) && JoinToken(t) == token
      ensures t == ManagerToken ==> JoinRole(JoinToken(t)) == Ok(Manager)
      ensures '-' !in id[..8] ==> ExtractClusterId(JoinToken(t)) == Ok(id[..8])
      ensures t == WorkerToken ==> managerToken == old(managerToken)
      ensures t == ManagerToken ==> workerToken == old(workerToken)
      ensures state == old(state) && nodes == old(nodes) && services == old(services)
      ensures unlockKey == old(unlockKey) && updatedAt == now && config == old(config)
    {
      token := GenerateToken(t, id, random);
      JoinManagerToken(id, random);
      if '-' !in id[..8] {
        ExtractGenerated(t, id, random);
      }
      match t {
        case WorkerToken => workerToken := token;
        case ManagerToken => managerToken := token;
      }
      updatedAt := now;
    }

    /** `rotate_unlock_key`: always installs a new key, which also enables
        locking. */
    method RotateUnlockKey(random: string, now: int) returns (key: string)
      modifies this
      ensures key == GenerateUnlockKey(random) && unlockKey == Some(key)
      ensures state == old(state) && nodes == old(nodes) && services == old(services) && updatedAt == now
      ensures config == old(config) && workerToken == old(workerToken) && managerToken == old(managerToken)
    {
      key := GenerateUnlockKey(random);
      unlockKey := Some(key);
      updatedAt := now;
    }

    /** `lock`: needs an unlock key. */
    method Lock() returns (r: Outcome)
      modifies this
      ensures old(unlockKey).None? ==> r == Fail(SwarmErr("Auto-lock is not enabled")) && state == old(state)
      ensures old(unlockKey).Some? ==> r == Pass && state == Locked
      ensures unlockKey == old(unlockKey) && nodes == old(nodes) && services == old(services)
      ensures config == old(config) && workerToken == old(workerToken) && managerToken == old(managerToken) && updatedAt == old(updatedAt)
    {
      if unlockKey.None? {
        return Fail(SwarmErr("Auto-lock is not enabled"));
      }
      state := Locked;
      r := Pass;
    }

    /** `unlock`: only the stored key makes the cluster Active. The current
        state is not consulted. */
    method Unlock(key: string) returns (r: Outcome)
      modifies this
      ensures old(unlockKey).None? ==> r == Fail(SwarmErr("Cluster is not locked")) && state == old(state)
      ensures old(unlockKey).Some? && key != old(unlockKey).value ==>
        r == Fail(SwarmErr("Invalid unlock key")) && state == old(state)
      ensures old(unlockKey).Some? && key == old(unlockKey).value ==> r == Pass && state == Active
      ensures r.Pass? <==> old(unlockKey) == Some(key)
      ensures unlockKey == old(unlockKey) && nodes == old(nodes) && services == old(services)
      ensures config == old(config) && workerToken == old(workerToken) && managerToken == old(managerToken) && updatedAt == old(updatedAt)
    {
      if unlockKey.None? {
        return Fail(SwarmErr("Cluster is not locked"));
      }
      if key != unlockKey.value {
        return Fail(SwarmErr("Invalid unlock key"));
      }
      state := Active;
      r := Pass;
    }

    /** `add_node`: inserts or replaces the node under its id. The cluster
        takes the node over (Rust moves it in), modelled as storing a copy
        the caller does not share. */
    method AddNode(node: Node)
      modifies this
      ensures node.id in nodes && fresh(nodes[node.id]) && nodes[node.id].Same(node)
      ensures nodes == old(nodes)[node.id := nodes[node.id]]
      ensures services == old(services) && state == old(state)
      ensures config == old(config) && workerToken == old(workerToken) && managerToken == old(managerToken)
      ensures unlockKey == old(unlockKey) && updatedAt == old(updatedAt)
    {
      var stored := new Node.Clone(node);
      nodes := nodes[node.id := stored];
    }

    /** `remove_node`: unknown ids are not found; a Ready node needs
        `force`. */
    method RemoveNode(nodeId: string, force: bool) returns (r: Outcome)
      modifies this
      ensures nodeId !in old(nodes) ==> r == Fail(NodeNotFound(nodeId)) && nodes == old(nodes)
      ensures nodeId in old(nodes) && old(nodes)[nodeId].state == Ready && !force ==>
        r == Fail(SwarmErr("Cannot remove active node. Drain it first or use force.")) && nodes == old(nodes)
      ensures nodeId in old(nodes) && (old(nodes)[nodeId].state != Ready || force) ==>
        r == Pass && nodes == old(nodes) - {nodeId}
      ensures services == old(services) && state == old(state)
      ensures config == old(config) && workerToken == old(workerToken) && managerToken == old(managerToken)
      ensures unlockKey == old(unlockKey) && updatedAt == old(updatedAt)
    {
      if nodeId !in nodes {
        return Fail(NodeNotFound(nodeId));
      }
      if nodes[nodeId].state == Ready && !force {
        return Fail(SwarmErr("Cannot remove active node. Drain it first or use force."));
      }
      nodes := nodes - {nodeId};
      r := Pass;
    }

    /** `list_nodes`: a copy of every node, once each, in the order of
        `ids`. */
    method ListNodes() returns (r: seq<Node>, ghost ids: seq<string>)
      ensures Elems(ids) == nodes.Keys && Distinct(ids) && |r| == |ids| == |nodes|
      ensures forall k :: 0 <= k < |r| ==> fresh(r[k]) && r[k].Same(nodes[ids[k]])
    {
      var keys := Enumerate(nodes.Keys);
      DistinctCard(keys);
      ids := keys;
      r := [];
      var i := 0;
      while i < |keys|
        invariant 0 <= i <= |keys| && |r| == i
        invariant forall k :: 0 <= k < i ==> fresh(r[k]) && r[k].Same(nodes[keys[k]])
      {
        var copy := new Node.Clone(nodes[keys[i]]);
        r := r + [copy];
        i := i + 1;
      }
    }

    /** `get_node`: a copy of the stored node. */
    method GetNode(nodeId: string) returns (r: Result<Node>)
      ensures nodeId in nodes ==> r.Ok? && fresh(r.value) && r.value.Same(nodes[nodeId])
      ensures nodeId !in nodes ==> r == Err(NodeNotFound(nodeId))
    {
      if nodeId !in nodes {
        return Err(NodeNotFound(nodeId));
      }
      var copy := new Node.Clone(nodes[nodeId]);
      r := Ok(copy);
    }

    /** `update_node`: replaces the role, availability and labels that the
        update carries. The manager status is not touched, so a node made
        a manager this way has none. */
    method UpdateNode(nodeId: string, updates: NodeUpdate) returns (r: Outcome)
      modifies if nodeId in nodes then {nodes[nodeId]} else {}
      ensures nodeId !in nodes ==> r == Fail(NodeNotFound(nodeId))
      ensures nodeId in nodes ==>
        var n := nodes[nodeId];
        && r == Pass
        && n.role == (if updates.role.Some? then updates.role.value else old(n.role))
        && n.availability == (if updates.availability.Some? then updates.availability.value else old(n.availability))
        && n.labels == (if updates.labels.Some? then updates.labels.value else old(n.labels))
        && n.state == old(n.state) && n.managerStatus == old(n.managerStatus)
        && n.version == old(n.version) && n.updatedAt == old(n.updatedAt)
      ensures nodes == old(nodes)
    {
      if nodeId !in nodes {
        return Fail(NodeNotFound(nodeId));
      }
      var n := nodes[nodeId];
      if updates.role.Some? {
        n.role := updates.role.value;
      }
      if updates.availability.Some? {
        n.availability := updates.availability.value;
      }
      if updates.labels.Some? {
        n.labels := updates.labels.value;
      }
      r := Pass;
    }

    /** `create_service`: stores (or replaces) the service under its id;
        like `add_node`, the cluster keeps a copy of its own. */
    method CreateService(service: Service) returns (r: Result<string>)
      modifies this
      ensures r == Ok(service.id)
      ensures service.id in services && fresh(services[service.id]) && services[service.id].Same(service)
      ensures services == old(services)[service.id := services[service.id]]
      ensures nodes == old(nodes) && state == old(state)
      ensures config == old(config) && workerToken == old(workerToken) && managerToken == old(managerToken)
      ensures unlockKey == old(unlockKey) && updatedAt == old(updatedAt)
    {
      var stored := new Service.Clone(service);
      services := services[service.id := stored];
      r := Ok(service.id);
    }

    /** `list_services`: a copy of every service, once each, in the order
        of `ids`. */
    method ListServices() returns (r: seq<Service>, ghost ids: seq<string>)
      ensures Elems(ids) == services.Keys && Distinct(ids) && |r| == |ids| == |services|
      ensures forall k :: 0 <= k < |r| ==> fresh(r[k]) && r[k].Same(services[ids[k]])
    {
      var keys := Enumerate(services.Keys);
      DistinctCard(keys);
      ids := keys;
      r := [];
      var i := 0;
      while i < |keys|
        invariant 0 <= i <= |keys| && |r| == i
        invariant forall k :: 0 <= k < i ==> fresh(r[k]) && r[k].Same(services[keys[k]])
      {
        var copy := new Service.Clone(services[keys[i]]);
        r := r + [copy];
        i := i + 1;
      }
    }

    /** Some stored service is named `name`. */
    predicate ServiceNamed(name: string)
      reads this, services.Values
    {
      exists sid :: sid in services && services[sid].spec.name == name
    }

    /** The first service (in map order) named `name`. */
    method FindServiceByName(name: string) returns (r: Option<string>)
      ensures r.Some? ==> r.value in services && services[r.value].spec.name == name
      ensures r.None? <==> !ServiceNamed(name)
    {
      var todo := services.Keys;
      while todo != {}
        invariant todo <= services.Keys
        invariant forall sid :: sid in services.Keys - todo ==> services[sid].spec.name != name
        decreases todo
      {
        var sid :| sid in todo;
        if services[sid].spec.name == name {
          return Some(sid);
        }
        todo := todo - {sid};
      }
      r := None;
    }

    /** `get_service`: by id, then by name; a copy of the stored service. */
    method GetService(idOrName: string) returns (r: Result<Service>)
      ensures idOrName in services ==> r.Ok? && fresh(r.value) && r.value.Same(services[idOrName])
      ensures idOrName !in services && ServiceNamed(idOrName) ==>
        && r.Ok? && fresh(r.value) && r.value.spec.name == idOrName
        && exists sid :: sid in services && r.value.Same(services[sid])
      ensures idOrName !in services && !ServiceNamed(idOrName) ==> r == Err(ServiceNotFound(idOrName))
    {
      if idOrName in services {
        var copy := new Service.Clone(services[idOrName]);
        return Ok(copy);
      }
      var found := FindServiceByName(idOrName);
      if found.Some? {
        var copy := new Service.Clone(services[found.value]);
        return Ok(copy);
      }
      r := Err(ServiceNotFound(idOrName));
    }

    /** `remove_service`: by id, then by name. */
    method RemoveService(idOrName: string) returns (r: Outcome)
      modifies this
      ensures idOrName in old(services) ==> r == Pass && services == old(services) - {idOrName}
      ensures idOrName !in old(services) && old(ServiceNamed(idOrName)) ==>
        r == Pass && exists sid :: sid in old(services) && old(services[sid].spec.name) == idOrName
                                   && services == old(services) - {sid}
      ensures idOrName !in old(services) && !old(ServiceNamed(idOrName)) ==>
        r == Fail(ServiceNotFound(idOrName)) && services == old(services)
      ensures nodes == old(nodes) && state == old(state)
      ensures config == old(config) && workerToken == old(workerToken) && managerToken == old(managerToken)
      ensures unlockKey == old(unlockKey) && updatedAt == old(updatedAt)
    {
      if idOrName in services {
        services := services - {idOrName};
        return Pass;
      }
      var found := FindServiceByName(idOrName);
      if found.None? {
        return Fail(ServiceNotFound(idOrName));
      }
      services := services - {found.value};
      r := Pass;
    }

    /** `update`: replaces the configuration. */
    method Update(config: ClusterConfig, now: int) returns (r: Outcome)
      modifies this
      ensures r == Pass && this.config == config && updatedAt == now
      ensures state == old(state) && nodes == old(nodes) && services == old(services)
      ensures workerToken == old(workerToken) && managerToken == old(managerToken) && unlockKey == old(unlockKey)
    {
      this.config := config;
      updatedAt := now;
      r := Pass;
    }

    /** `info`: counts of nodes, managers (any state) and services. */
    method Info() returns (info: SwarmInfo)
      ensures info == SwarmInfo(id, config.name, state, |nodes|, |Managers()|, |services|, createdAt, updatedAt)
      ensures info.managerCount <= info.nodeCount
    {
      assert Managers() <= nodes.Keys;
      SubsetCardinality(Managers(), nodes.Keys);
      info := SwarmInfo(id, config.name, state, |nodes|, |Managers()|, |services|, createdAt, updatedAt);
    }
  }

  lemma SubsetCardinality<T>(a: set<T>, b: set<T>)
    requires a <= b
    ensures |a| <= |b|
  {
    assert b == a + (b - a);
  }

  /** `join`: the token must mention the prefix (its "-manager-" part picks
      the role) and must start with the prefix followed by the cluster id. */
  method Join(joinToken: string, remoteAddrs: seq<string>, listenAddr: string, advertiseAddr: string,
              nodeId: string, hostname: string, architecture: string, os: string, now: int)
    returns (r: Result<SwarmCluster>)
    ensures JoinRole(joinToken).Err? ==> r == Err(SwarmErr("Invalid join token"))
    ensures JoinRole(joinToken).Ok? && ExtractClusterId(joinToken).Err? ==> r == Err(SwarmErr("Invalid token format"))
    ensures JoinRole(joinToken).Ok? && ExtractClusterId(joinToken).Ok? ==>
      && r.Ok? && fresh(r.value)
      && r.value.id == ExtractClusterId(joinToken).value
      && r.value.state == Active
      && r.value.nodes.Keys == {nodeId}
      && r.value.nodes[nodeId].role == JoinRole(joinToken).value
      && r.value.config == DefaultConfig.(listenAddr := listenAddr, advertiseAddr := advertiseAddr)
      && r.value.workerToken == "" && r.value.managerToken == "" && r.value.unlockKey.None?
      && r.value.services == map[] && r.value.createdAt == now && r.value.updatedAt == now
  {
    var role := JoinRole(joinToken);
    if role.Err? {
      return Err(role.error);
    }
    var clusterId := ExtractClusterId(joinToken);
    if clusterId.Err? {
      return Err(clusterId.error);
    }
    var c := new SwarmCluster.Joined(clusterId.value, role.value, listenAddr, advertiseAddr,
                                     nodeId, hostname, architecture, os, now);
    r := Ok(c);
  }

  /** A token that mentions the prefix somewhere other than at the start
      passes the role check but fails to yield a cluster id. */
  lemma MentionNotEnough()
    ensures JoinRole("x" + TokenPrefix + "abc-worker-").Ok?
    ensures ExtractClusterId("x" + TokenPrefix + "abc-worker-").Err?
  {
    var t := "x" + TokenPrefix + "abc-worker-";
    assert MatchAt(t, TokenPrefix, 1);
    ContainsAt(t, TokenPrefix, 1);
    assert t[0] != TokenPrefix[0];
  }
}
