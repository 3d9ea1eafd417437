/** Bridge networks and the network manager (`src/network/bridge.rs`). A
    bridge network is its record plus its address allocator; the manager
    keeps the networks by id and a name-to-id index. */
module NetworkBridge {
  import opened Common
  import opened NetworkConfig

  /** `BridgeNetwork`: owned by the manager's map, so a value here. */
  datatype BridgeNetwork = BridgeNetwork(config: Network, allocator: Allocator)

  /** The subnet a bridge allocates from: the first pool's, or the default
      subnet when there is no pool. */
  function BridgeSubnet(config: Network): (r: string)
    ensures |config.ipam.config| > 0 ==> r == config.ipam.config[0].subnet
    ensures |config.ipam.config| == 0 ==> r == DefaultSubnet
  {
    if |config.ipam.config| > 0 then config.ipam.config[0].subnet else DefaultSubnet
  }

  /** A new network given a subnet keeps the default pool first, so its
      bridge still allocates from the default subnet. */
  lemma SubnetKeepsDefaultPool(name: string, id: string, created: nat, subnet: string)
    ensures BridgeSubnet(WithSubnet(NewNetwork(name, id, created), subnet)) == DefaultSubnet
    ensures WithSubnet(NewNetwork(name, id, created), subnet).ipam.config[1].subnet == subnet
  {
  }

  /** `BridgeNetwork::new`: the record with an allocator for its subnet;
      a subnet the allocator refuses is the error. */
  function NewBridge(config: Network): (r: Result<BridgeNetwork>)
    ensures r.Ok? <==> NewAllocator(BridgeSubnet(config)).Ok?
    ensures r.Ok? ==> r.value == BridgeNetwork(config, NewAllocator(BridgeSubnet(config)).value)
    ensures r.Err? ==> r.error == NewAllocator(BridgeSubnet(config)).error
  {
    match NewAllocator(BridgeSubnet(config))
    case Err(e) => Err(e)
    case Ok(al) => Ok(BridgeNetwork(config, al))
  }

  /** The bridge of a default network: its record as
      `create_default_networks` builds it, and `BridgeNetwork::new` on it,
      which succeeds with only the gateway allocated. */
  method DefaultBridge(name: string, id: string, driver: NetworkDriver, created: nat) returns (b: BridgeNetwork)
    ensures b.config.name == name && b.config.id == id && b.config.driver == driver
    ensures b.allocator.taken == [Ipv4(172, 17, 0, 1)]
  {
    var config := DefaultNetwork(name, id, driver, created);
    DefaultPoolBridge(config);
    b := NewBridge(config).value;
  }

  /** A record whose first pool is the default subnet gets a bridge. */
  lemma DefaultPoolBridge(config: Network)
    requires |config.ipam.config| > 0 && config.ipam.config[0].subnet == DefaultSubnet
    ensures NewBridge(config).Ok?
    ensures NewBridge(config).value.allocator.taken == [Ipv4(172, 17, 0, 1)]
  {
    DefaultSubnetAccepted();
  }

  /** The address recorded for an endpoint: the text before the first `/`
      of its IPv4 address, when it parses. */
  function EndpointIp(c: NetworkContainer): Option<Ipv4>
  {
    match c.ipv4Address
    case None => None
    case Some(text) => ParseIpv4(Split(text, '/')[0])
  }

  /** An endpoint's address written as `<ip>/16` is read back as `<ip>`. */
  lemma EndpointIpRoundTrip(c: NetworkContainer, ip: Ipv4)
    requires c.ipv4Address == Some(FormatIpv4(ip) + "/16")
    ensures EndpointIp(c) == Some(ip)
  {
    CidrSplit(ip, "16");
    Ipv4RoundTrip(ip);
    assert FormatIpv4(ip) + "/" + "16" == FormatIpv4(ip) + "/16";
  }

  lemma CidrSplit(ip: Ipv4, bits: string)
    requires '/' !in bits
    ensures Split(FormatIpv4(ip) + "/" + bits, '/')[0] == FormatIpv4(ip)
  {
    SplitCidr(ip, bits);
  }

  /** `BridgeNetwork::connect`: allocates an address and records the
      endpoint (replacing any earlier one for the same container, whose
      address stays allocated). `endpointId` and `mac` are the random
      endpoint id and locally administered MAC address. */
  method Connect(net: BridgeNetwork, containerId: string, containerName: string, endpointId: string, mac: string)
    returns (c: NetworkContainer, ip: Ipv4, net': BridgeNetwork)
    requires |net.allocator.taken| < Span
    ensures ip !in net.allocator.taken && EndpointIp(c) == Some(ip)
    ensures c == NetworkContainer(containerId, containerName, endpointId, mac, Some(FormatIpv4(ip) + "/16"), None)
    ensures net'.allocator.taken == net.allocator.taken + [ip]
    ensures net'.config == net.config.(containers := net.config.containers[containerId := c])
  {
    var al;
    ip, al := Allocate(net.allocator);
    c := NetworkContainer(containerId, containerName, endpointId, mac, Some(FormatIpv4(ip) + "/16"), None);
    EndpointIpRoundTrip(c, ip);
    net' := BridgeNetwork(net.config.(containers := net.config.containers[containerId := c]), al);
  }

  /** `BridgeNetwork::disconnect`: an unconnected container is an error;
      otherwise the endpoint goes and its address is released. */
  function Disconnect(net: BridgeNetwork, containerId: string): (r: Result<BridgeNetwork>)
    ensures containerId !in net.config.containers <==> r.Err?
    ensures r.Err? ==> r.error == ContainerErr("Container " + containerId + " not connected to network " + net.config.name)
    ensures r.Ok? ==>
      && r.value.config == net.config.(containers := net.config.containers - {containerId})
      && var ip := EndpointIp(net.config.containers[containerId]);
      && (ip.None? ==> r.value.allocator == net.allocator)
      && (ip.Some? ==> r.value.allocator == Release(net.allocator, ip.value) && ip.value !in r.value.allocator.taken)
  {
    if containerId !in net.config.containers then
      Err(ContainerErr("Container " + containerId + " not connected to network " + net.config.name))
    else
      var config := net.config.(containers := net.config.containers - {containerId});
      match EndpointIp(net.config.containers[containerId])
      case None => Ok(BridgeNetwork(config, net.allocator))
      case Some(ip) => Ok(BridgeNetwork(config, Release(net.allocator, ip)))
  }

  /** The networks `prune` removes: no endpoints and not a default one. */
  predicate Prunable(n: BridgeNetwork)
  {
    n.config.containers == map[] && n.config.name != "bridge" && n.config.name != "host" && n.config.name != "none"
  }

  /** The record of a default network: `bridge` also gets the default
      subnet and gateway through the builder; the others keep the default
      pool. */
  function DefaultNetwork(name: string, id: string, driver: NetworkDriver, created: nat): (r: Network)
    ensures r.name == name && r.id == id && r.driver == driver
    ensures |r.ipam.config| > 0 && r.ipam.config[0].subnet == DefaultSubnet
  {
    if name == "bridge" then WithGateway(WithSubnet(WithDriver(NewNetwork(name, id, created), driver), DefaultSubnet), "172.17.0.1")
    else NewNetwork(name, id, created).(driver := driver)
  }

  /** The id an id-or-name denotes: an id first, then a name. */
  function Resolve(networks: map<string, BridgeNetwork>, names: map<string, string>, idOrName: string): (r: Option<string>)
    ensures idOrName in networks ==> r == Some(idOrName)
    ensures idOrName !in networks && idOrName in names ==> r == Some(names[idOrName])
    ensures idOrName !in networks && idOrName !in names ==> r == None
  {
    if idOrName in networks then Some(idOrName)
    else if idOrName in names then Some(names[idOrName])
    else None
  }

  /** `get`: the record of the network an id-or-name denotes; a name whose
      id has no network is not found either. */
  function Lookup(networks: map<string, BridgeNetwork>, names: map<string, string>, idOrName: string): (r: Result<Network>)
    ensures r.Ok? <==> Resolve(networks, names, idOrName).Some? && Resolve(networks, names, idOrName).value in networks
    ensures r.Ok? ==> r.value == networks[Resolve(networks, names, idOrName).value].config
    ensures r.Err? ==> r.error == NetworkNotFound(idOrName)
  {
    match Resolve(networks, names, idOrName)
    case None => Err(NetworkNotFound(idOrName))
    case Some(id) => if id in networks then Ok(networks[id].config) else Err(NetworkNotFound(idOrName))
  }

  /** The outcome of `create` and the maps after it. */
  datatype Created = Created(result: Result<string>, networks: map<string, BridgeNetwork>, names: map<string, string>)

  /** `create`, given the outcome `made` of building the record's bridge:
      a failed build is the error, before the name is checked; a taken name
      is refused; otherwise the network is stored under its id and its name
      indexed. */
  function CreateIn(networks: map<string, BridgeNetwork>, names: map<string, string>, config: Network,
                    made: Result<BridgeNetwork>): (c: Created)
    ensures made.Err? ==> c == Created(Err(made.error), networks, names)
    ensures made.Ok? && config.name in names ==>
      c == Created(Err(NetworkErr("Network " + config.name + " already exists")), networks, names)
    ensures made.Ok? && config.name !in names ==>
      && c.result == Ok(config.id)
      && c.networks.Keys == networks.Keys + {config.id} && c.names.Keys == names.Keys + {config.name}
      && c.networks[config.id] == made.value
      && (forall id :: id in networks && id != config.id ==> c.networks[id] == networks[id])
      && c.names[config.name] == config.id
      && (forall n :: n in names && n != config.name ==> c.names[n] == names[n])
  {
    match made
    case Err(e) => Created(Err(e), networks, names)
    case Ok(bridge) =>
      if config.name in names then Created(Err(NetworkErr("Network " + config.name + " already exists")), networks, names)
      else Created(Ok(config.id), networks[config.id := bridge], names[config.name := config.id])
  }

  /** `create_default_networks`: creating `bridge`, `host` and `none` in
      turn on empty maps, each with its bridge built, succeeds each time and
      leaves exactly the three. */
  lemma DefaultsCreated(bridge: Network, host: Network, none: Network, b: BridgeNetwork, h: BridgeNetwork, n: BridgeNetwork)
    requires bridge.name == "bridge" && host.name == "host" && none.name == "none"
    requires bridge.id != host.id && bridge.id != none.id && host.id != none.id
    ensures var c1 := CreateIn(map[], map[], bridge, Ok(b));
      var c2 := CreateIn(c1.networks, c1.names, host, Ok(h));
      var c3 := CreateIn(c2.networks, c2.names, none, Ok(n));
      && c1.result.Ok? && c2.result.Ok? && c3.result.Ok?
      && c3.networks == map[bridge.id := b, host.id := h, none.id := n]
      && c3.names == map["bridge" := bridge.id, "host" := host.id, "none" := none.id]
  {
    var c1 := CreateIn(map[], map[], bridge, Ok(b));
    assert c1.networks == map[bridge.id := b] && c1.names == map["bridge" := bridge.id];
    var c2 := CreateIn(c1.networks, c1.names, host, Ok(h));
    assert "host" != "bridge";
    assert c2.networks == c1.networks[host.id := h] && c2.names == c1.names["host" := host.id];
    var c3 := CreateIn(c2.networks, c2.names, none, Ok(n));
    assert "none" != "bridge" && "none" != "host" by { assert "none"[0] != "host"[0]; }
    assert c3.networks == c2.networks[none.id := n] && c3.names == c2.names["none" := none.id];
  }

  /** After a successful `create` the network is found by its id, and by
      its name unless that name is some network's id. */
  lemma CreateFound(networks: map<string, BridgeNetwork>, names: map<string, string>, config: Network)
    requires NewBridge(config).Ok? && config.name !in names
    ensures var c := CreateIn(networks, names, config, NewBridge(config));
      && Lookup(c.networks, c.names, config.id) == Ok(config)
      && (config.name !in c.networks ==> Lookup(c.networks, c.names, config.name) == Ok(config))
  {
  }


  class NetworkManager {
    var networks: map<string, BridgeNetwork>
    var names: map<string, string>

    /** `get`. */
    function Get(idOrName: string): Result<Network>
      reads this
    {
      Lookup(networks, names, idOrName)
    }

    /** `NetworkManager::new`: exactly the default `bridge`, `host` and
        `none` networks, the maps three successful `create` calls leave
        (`DefaultsCreated`). The three ids are the random network ids; they
        differ. */
    constructor(bridgeId: string, hostId: string, noneId: string, created: nat)
      requires bridgeId != hostId && bridgeId != noneId && hostId != noneId
      ensures names == map["bridge" := bridgeId, "host" := hostId, "none" := noneId]
      ensures networks.Keys == {bridgeId, hostId, noneId}
      ensures networks[bridgeId].config.name == "bridge" && networks[bridgeId].config.driver == Bridge
      ensures networks[hostId].config.name == "host" && networks[hostId].config.driver == Host
      ensures networks[noneId].config.name == "none" && networks[noneId].config.driver == NoDriver
    {
      var b := DefaultBridge("bridge", bridgeId, Bridge, created);
      var h := DefaultBridge("host", hostId, Host, created);
      var n := DefaultBridge("none", noneId, NoDriver, created);
      DefaultsCreated(b.config, h.config, n.config, b, h, n);
      networks := map[bridgeId := b, hostId := h, noneId := n];
      names := map["bridge" := bridgeId, "host" := hostId, "none" := noneId];
    }

    /** `create`. */
    method Create(config: Network) returns (r: Result<string>)
      modifies this
      ensures Created(r, networks, names) == CreateIn(old(networks), old(names), config, NewBridge(config))
    {
      var bridge := NewBridge(config);
      if bridge.Err? {
        return Err(bridge.error);
      }
      if config.name in names {
        return Err(NetworkErr("Network " + config.name + " already exists"));
      }
      networks := networks[config.id := bridge.value];
      names := names[config.name := config.id];
      r := Ok(config.id);
    }

    /** `remove`. */
    method Remove(idOrName: string) returns (r: Outcome)
      modifies this
      ensures Removed(r, networks, names) == RemoveIn(old(networks), old(names), idOrName)
    {
      var id;
      if idOrName in networks {
        id := idOrName;
      } else if idOrName in names {
        id := names[idOrName];
      } else {
        return Fail(NetworkNotFound(idOrName));
      }
      // Removing an id that has no network (a stale name) changes nothing.
      if id in networks {
        if networks[id].config.containers != map[] {
          return Fail(NetworkErr("Network " + idOrName + " has active endpoints"));
        }
        names := names - {networks[id].config.name};
        networks := networks - {id};
      }
      r := Pass;
    }

    /** `list`: every network's record once, in the map's order. */
    method List() returns (r: seq<Network>)
      ensures |r| == |networks|
      ensures forall k :: 0 <= k < |r| ==> exists id :: id in networks && r[k] == networks[id].config
      ensures forall id :: id in networks ==> networks[id].config in r
    {
      var ids := Enumerate(networks.Keys);
      DistinctCard(ids);
      r := [];
      var i := 0;
      while i < |ids|
        invariant 0 <= i <= |ids| && |r| == i
        invariant forall k :: 0 <= k < i ==> r[k] == networks[ids[k]].config
      {
        r := r + [networks[ids[i]].config];
        i := i + 1;
      }
      forall id | id in networks ensures networks[id].config in r {
        assert id in Elems(ids);
        var k :| 0 <= k < |ids| && ids[k] == id;
        assert r[k] == networks[id].config;
      }
    }

    /** `connect` on the manager: resolve, then connect on that network. */
    method ConnectContainer(idOrName: string, containerId: string, containerName: string, endpointId: string, mac: string)
      returns (r: Result<NetworkContainer>)
      requires var id := Resolve(networks, names, idOrName);
        id.Some? && id.value in networks ==> |networks[id.value].allocator.taken| < Span
      modifies this
      ensures names == old(names)
      ensures (old(Resolve(networks, names, idOrName)).None? || old(Resolve(networks, names, idOrName)).value !in old(networks)) ==>
        r == Err(NetworkNotFound(idOrName)) && networks == old(networks)
      ensures old(Resolve(networks, names, idOrName)).Some? && old(Resolve(networks, names, idOrName)).value in old(networks) ==>
        var id := old(Resolve(networks, names, idOrName)).value;
        && r.Ok?
        && networks.Keys == old(networks).Keys
        && (forall other :: other in networks && other != id ==> networks[other] == old(networks)[other])
        && networks[id].config.containers == old(networks)[id].config.containers[containerId := r.value]
        && EndpointIp(r.value).Some?
        && EndpointIp(r.value).value !in old(networks)[id].allocator.taken
        && r.value == NetworkContainer(containerId, containerName, endpointId, mac, Some(FormatIpv4(EndpointIp(r.value).value) + "/16"), None)
        && networks[id].config == old(networks)[id].config.(containers := old(networks)[id].config.containers[containerId := r.value])
        && networks[id].allocator.taken == old(networks)[id].allocator.taken + [EndpointIp(r.value).value]
    {
      var found := Resolve(networks, names, idOrName);
      if found.None? || found.value !in networks {
        return Err(NetworkNotFound(idOrName));
      }
      var id := found.value;
      var c, ip, net' := Connect(networks[id], containerId, containerName, endpointId, mac);
      networks := networks[id := net'];
      r := Ok(c);
    }

    /** `disconnect` on the manager: resolve, then disconnect on that network. */
    method DisconnectContainer(idOrName: string, containerId: string) returns (r: Outcome)
      modifies this
      ensures names == old(names)
      ensures (old(Resolve(networks, names, idOrName)).None? || old(Resolve(networks, names, idOrName)).value !in old(networks)) ==>
        r == Fail(NetworkNotFound(idOrName)) && networks == old(networks)
      ensures old(Resolve(networks, names, idOrName)).Some? && old(Resolve(networks, names, idOrName)).value in old(networks) ==>
        var id := old(Resolve(networks, names, idOrName)).value;
        match Disconnect(old(networks)[id], containerId)
        case Err(e) => r == Fail(e) && networks == old(networks)
        case Ok(net') => r == Pass && networks == old(networks)[id := net']
    {
      var found := Resolve(networks, names, idOrName);
      if found.None? || found.value !in networks {
        return Fail(NetworkNotFound(idOrName));
      }
      var id := found.value;
      match Disconnect(networks[id], containerId)
      case Err(e) =>
        r := Fail(e);
      case Ok(net') =>
        networks := networks[id := net'];
        r := Pass;
    }

    /** `prune`: removes every network with no endpoints other than the
        three defaults, and returns their ids. */
    method Prune() returns (removed: seq<string>)
      modifies this
      ensures Distinct(removed)
      ensures Elems(removed) == set id | id in old(networks) && Prunable(old(networks)[id])
      ensures networks == Kept(old(networks), Elems(removed))
      ensures names == old(names) - NamesOf(old(networks), Elems(removed))
    {
      ghost var start := networks;
      ghost var startNames := names;
      removed := Enumerate(set id | id in networks && Prunable(networks[id]));
      assert forall j :: 0 <= j < |removed| ==> removed[j] in Elems(removed);
      ghost var done: set<string> := {};
      var i := 0;
      while i < |removed|
        invariant 0 <= i <= |removed|
        invariant done == Elems(removed[..i])
        invariant forall j :: 0 <= j < |removed| ==> removed[j] in start && Prunable(start[removed[j]])
        invariant networks == Kept(start, done) && names == startNames - NamesOf(start, done)
      {
        var id := removed[i];
        assert id !in done by {
          assert forall k :: 0 <= k < i ==> removed[k] != id;
        }
        PruneStep(start, startNames, done, id);
        var outcome := Remove(id);
        assert removed[..i + 1] == removed[..i] + [id];
        ElemsAppend(removed[..i], id);
        done := done + {id};
        i := i + 1;
      }
      assert removed[..i] == removed;
    }
  }

  /** The outcome of `remove` and the maps after it. */
  datatype Removed = Removed(outcome: Outcome, networks: map<string, BridgeNetwork>, names: map<string, string>)

  /** `remove`: an unknown id-or-name is not found; a network with
      endpoints is refused; otherwise the network and its name go. A name
      whose id has no network is removed from nothing. */
  function RemoveIn(networks: map<string, BridgeNetwork>, names: map<string, string>, idOrName: string): (c: Removed)
    ensures Resolve(networks, names, idOrName).None? ==> c == Removed(Fail(NetworkNotFound(idOrName)), networks, names)
    ensures Resolve(networks, names, idOrName).Some? ==>
      var id := Resolve(networks, names, idOrName).value;
      && (id in networks && networks[id].config.containers != map[] ==>
            c == Removed(Fail(NetworkErr("Network " + idOrName + " has active endpoints")), networks, names))
      && (id in networks && networks[id].config.containers == map[] ==>
            c == Removed(Pass, networks - {id}, names - {networks[id].config.name}))
      && (id !in networks ==> c == Removed(Pass, networks, names))
    ensures c.outcome.Pass? <==> Resolve(networks, names, idOrName).Some? && Resolve(networks, names, idOrName).value !in c.networks
  {
    match Resolve(networks, names, idOrName)
    case None => Removed(Fail(NetworkNotFound(idOrName)), networks, names)
    case Some(id) =>
      if id !in networks then Removed(Pass, networks, names)
      else if networks[id].config.containers != map[] then
        Removed(Fail(NetworkErr("Network " + idOrName + " has active endpoints")), networks, names)
      else Removed(Pass, networks - {id}, names - {networks[id].config.name})
  }

  /** One step of `prune`: removing the next prunable id from what is left
      takes that network and its name out as well. */
  lemma PruneStep(start: map<string, BridgeNetwork>, startNames: map<string, string>, done: set<string>, id: string)
    requires id in start && Prunable(start[id]) && id !in done
    ensures RemoveIn(Kept(start, done), startNames - NamesOf(start, done), id)
      == Removed(Pass, Kept(start, done + {id}), startNames - NamesOf(start, done + {id}))
  {
    KeptStep(start, done, id);
    assert startNames - NamesOf(start, done + {id}) == (startNames - NamesOf(start, done)) - {start[id].config.name};
  }

  /** The networks left after removing the ids in `done`. */
  function Kept(networks: map<string, BridgeNetwork>, done: set<string>): map<string, BridgeNetwork>
  {
    map id | id in networks && id !in done :: networks[id]
  }

  /** The names of the networks in `done`. */
  function NamesOf(networks: map<string, BridgeNetwork>, done: set<string>): set<string>
  {
    set id | id in done && id in networks :: networks[id].config.name
  }

  lemma KeptStep(networks: map<string, BridgeNetwork>, done: set<string>, id: string)
    requires id in networks && id !in done
    ensures Kept(networks, done + {id}) == Kept(networks, done) - {id}
    ensures NamesOf(networks, done + {id}) == NamesOf(networks, done) + {networks[id].config.name}
  {
  }
}
