/** Network configuration (`src/network/config.rs`): the network record and
    its builder steps, IPv4 addresses in dotted-quad text, and the address
    allocator that hands out host addresses of a subnet. */
module NetworkConfig {
  import opened Common

  // ---------------------------------------------------------------------
  // IPv4 addresses

  datatype Ipv4 = Ipv4(a: byte, b: byte, c: byte, d: byte)

  /** One octet as Rust's `Ipv4Addr` parser reads it: one to three decimal
      digits, no leading zero, value below 256. */
  function ParseOctet(s: string): (r: Option<byte>)
    ensures r.Some? <==> 1 <= |s| <= 3 && AllDigits(s) && (|s| == 1 || s[0] != '0') && DigitsValue(s) < 256
    ensures r.Some? ==> r.value as int == DigitsValue(s)
  {
    if 1 <= |s| <= 3 && AllDigits(s) && (|s| == 1 || s[0] != '0') && DigitsValue(s) < 256
    then Some(DigitsValue(s) as byte) else None
  }

  /** `str::parse::<Ipv4Addr>`: exactly four dot-separated octets. */
  function ParseIpv4(s: string): (r: Option<Ipv4>)
    ensures r.Some? ==> |Split(s, '.')| == 4
  {
    var parts := Split(s, '.');
    if |parts| != 4 then None
    else match (ParseOctet(parts[0]), ParseOctet(parts[1]), ParseOctet(parts[2]), ParseOctet(parts[3]))
      case (Some(a), Some(b), Some(c), Some(d)) => Some(Ipv4(a, b, c, d))
      case _ => None
  }

  /** `Display for Ipv4Addr`. */
  function FormatIpv4(ip: Ipv4): (r: string)
    ensures 7 <= |r| <= 15
  {
    NatToStringShape(ip.a as nat);
    NatToStringShape(ip.b as nat);
    NatToStringShape(ip.c as nat);
    NatToStringShape(ip.d as nat);
    var parts := [NatToString(ip.a as nat), NatToString(ip.b as nat), NatToString(ip.c as nat), NatToString(ip.d as nat)];
    assert |Join(parts, '.')| == |parts[0]| + |parts[1]| + |parts[2]| + |parts[3]| + 3 by {
      assert parts[1..][1..][1..] == [parts[3]];
      assert |Join(parts[1..][1..], '.')| == |parts[2]| + |parts[3]| + 1;
      assert |Join(parts[1..], '.')| == |parts[1]| + |parts[2]| + |parts[3]| + 2;
    }
    Join(parts, '.')
  }

  /** The decimal rendering of a value below 256 is short and has no
      leading zero. */
  lemma {:induction false} NatToStringShape(n: nat)
    ensures n > 0 ==> NatToString(n)[0] != '0'
    ensures n < 10 ==> |NatToString(n)| == 1
    ensures n < 100 ==> |NatToString(n)| <= 2
    ensures n < 1000 ==> |NatToString(n)| <= 3
  {
    if n >= 10 {
      NatToStringShape(n / 10);
      assert NatToString(n)[..|NatToString(n)| - 1] == NatToString(n / 10);
    }
  }

  lemma OctetRoundTrip(x: byte)
    ensures ParseOctet(NatToString(x as nat)) == Some(x)
  {
    NatToStringShape(x as nat);
  }

  /** Printing an address and parsing it back gives the address. */
  lemma Ipv4RoundTrip(ip: Ipv4)
    ensures ParseIpv4(FormatIpv4(ip)) == Some(ip)
    ensures '/' !in FormatIpv4(ip)
  {
    var parts := [NatToString(ip.a as nat), NatToString(ip.b as nat), NatToString(ip.c as nat), NatToString(ip.d as nat)];
    forall i | 0 <= i < 4 ensures '.' !in parts[i] && '/' !in parts[i] {
      assert AllDigits(parts[i]);
    }
    SplitJoin(parts, '.');
    NotInJoin(parts, '.', '/');
    OctetRoundTrip(ip.a);
    OctetRoundTrip(ip.b);
    OctetRoundTrip(ip.c);
    OctetRoundTrip(ip.d);
  }

  // ---------------------------------------------------------------------
  // Network records and their builder

  datatype NetworkDriver = Bridge | Host | NoDriver | Overlay | Macvlan | Ipvlan

  datatype NetworkScope = Local | Swarm | Global

  datatype IpamPoolConfig = IpamPoolConfig(
    subnet: string, gateway: Option<string>, ipRange: Option<string>, auxAddresses: map<string, string>)

  datatype IpamConfig = IpamConfig(driver: string, config: seq<IpamPoolConfig>, options: map<string, string>)

  /** A container's endpoint on a network. */
  datatype NetworkContainer = NetworkContainer(
    containerId: string, name: string, endpointId: string, macAddress: string,
    ipv4Address: Option<string>, ipv6Address: Option<string>)

  datatype Network = Network(
    id: string, name: string, driver: NetworkDriver, scope: NetworkScope,
    enableIpv6: bool, ipam: IpamConfig, internal: bool, attachable: bool, ingress: bool,
    options: map<string, string>, labels: map<string, string>,
    containers: map<string, NetworkContainer>, created: nat)

  /** The default bridge subnet, `172.17.0.0/16`, built from its base
      address so that the proofs about it need not unfold the text. */
  const DefaultBase := Ipv4(172, 17, 0, 0)
  const DefaultSubnet: string := FormatIpv4(DefaultBase) + "/" + "16"

  /** `IpamConfig::default`: the default driver and one pool, the default
      bridge subnet with its gateway. */
  function DefaultIpam(): (r: IpamConfig)
    ensures r.driver == "default" && |r.config| == 1 && r.options == map[]
    ensures r.config[0].subnet == DefaultSubnet && r.config[0].gateway == Some("172.17.0.1")
  {
    IpamConfig("default", [IpamPoolConfig(DefaultSubnet, Some("172.17.0.1"), None, map[])], map[])
  }

  /** `NetworkConfig::new(name)` over the defaults; `id` is the 12-character
      random identifier and `created` the creation time. */
  function NewNetwork(name: string, id: string, created: nat): (r: Network)
    ensures r.name == name && r.id == id && r.created == created
    ensures r.driver == Bridge && r.scope == Local && r.ipam == DefaultIpam()
    ensures r.attachable && !r.internal && !r.ingress && !r.enableIpv6
    ensures r.containers == map[] && r.labels == map[] && r.options == map[]
  {
    Network(id, name, Bridge, Local, false, DefaultIpam(), false, true, false, map[], map[], map[], created)
  }

  function WithDriver(n: Network, driver: NetworkDriver): (r: Network)
    ensures r.driver == driver && r.(driver := n.driver) == n
  {
    n.(driver := driver)
  }

  /** `subnet`: appends a pool for the subnet, with no gateway. */
  function WithSubnet(n: Network, subnet: string): (r: Network)
    ensures r.ipam.config == n.ipam.config + [IpamPoolConfig(subnet, None, None, map[])]
    ensures r.(ipam := n.ipam) == n && r.ipam.(config := n.ipam.config) == n.ipam
  {
    n.(ipam := n.ipam.(config := n.ipam.config + [IpamPoolConfig(subnet, None, None, map[])]))
  }

  /** `gateway`: sets the gateway of the last pool only; without a pool it
      changes nothing. */
  function WithGateway(n: Network, gateway: string): (r: Network)
    ensures |r.ipam.config| == |n.ipam.config|
    ensures |n.ipam.config| == 0 ==> r == n
    ensures |n.ipam.config| > 0 ==>
      var k := |n.ipam.config| - 1;
      && r.ipam.config[k] == n.ipam.config[k].(gateway := Some(gateway))
      && r.ipam.config[..k] == n.ipam.config[..k]
    ensures r.(ipam := n.ipam) == n && r.ipam.(config := n.ipam.config) == n.ipam
  {
    var pools := n.ipam.config;
    if |pools| == 0 then n
    else
      var k := |pools| - 1;
      n.(ipam := n.ipam.(config := pools[..k] + [pools[k].(gateway := Some(gateway))]))
  }

  function WithLabel(n: Network, key: string, value: string): (r: Network)
    ensures r.labels == n.labels[key := value] && r.(labels := n.labels) == n
  {
    n.(labels := n.labels[key := value])
  }

  function WithInternal(n: Network, internal: bool): (r: Network)
    ensures r.internal == internal && r.(internal := n.internal) == n
  {
    n.(internal := internal)
  }

  /** A subnet followed by a gateway yields one new pool carrying both. */
  lemma SubnetThenGateway(n: Network, subnet: string, gateway: string)
    ensures WithGateway(WithSubnet(n, subnet), gateway).ipam.config
      == n.ipam.config + [IpamPoolConfig(subnet, Some(gateway), None, map[])]
  {
    var m := WithSubnet(n, subnet);
    var k := |m.ipam.config| - 1;
    assert m.ipam.config[..k] == n.ipam.config;
  }

  // ---------------------------------------------------------------------
  // Address allocation

  /** Number of addresses in the low two octets of an address. */
  const Span: nat := 0x1_0000

  /** Position of an address within its /16: `c * 256 + d`. */
  function Low(ip: Ipv4): (k: nat)
    ensures k < Span
  {
    ip.c as nat * 256 + ip.d as nat
  }

  /** The address with the same first two octets at position `k` of the /16. */
  function InSixteen(ip: Ipv4, k: nat): (r: Ipv4)
    requires k < Span
    ensures r.a == ip.a && r.b == ip.b && Low(r) == k
  {
    Ipv4(ip.a, ip.b, (k / 256) as byte, (k % 256) as byte)
  }

  /** The address `off` steps after `ip`, counting in the low two octets
      and wrapping from `x.y.255.255` back to `x.y.0.0`. */
  function At(ip: Ipv4, off: nat): (r: Ipv4)
    requires off < Span
    ensures r.a == ip.a && r.b == ip.b
    ensures Low(r) == if Low(ip) + off < Span then Low(ip) + off else Low(ip) + off - Span
  {
    var k := Low(ip) + off;
    InSixteen(ip, if k < Span then k else k - Span)
  }

  /** Fewer than a full turn of steps never revisits an address. */
  lemma AtDistinct(ip: Ipv4, i: nat, j: nat)
    requires i < j < Span
    ensures At(ip, i) != At(ip, j)
  {
    assert Low(At(ip, i)) != Low(At(ip, j));
  }

  /** The octet step of the search: the last octet wraps and carries into
      the third, which wraps in turn. It moves one position along the /16. */
  function Step(ip: Ipv4): (r: Ipv4)
    ensures r.a == ip.a && r.b == ip.b
    ensures Low(r) == if Low(ip) + 1 < Span then Low(ip) + 1 else 0
  {
    var d := if ip.d == 255 then 0 else ip.d + 1;
    var c := if d == 0 then (if ip.c == 255 then 0 else ip.c + 1) else ip.c;
    Ipv4(ip.a, ip.b, c, d)
  }

  lemma LowInjective(x: Ipv4, y: Ipv4)
    requires x.a == y.a && x.b == y.b && Low(x) == Low(y)
    ensures x == y
  {
  }

  lemma StepAt(ip: Ipv4, off: nat)
    requires off + 1 < Span
    ensures Step(At(ip, off)) == At(ip, off + 1)
  {
    LowInjective(Step(At(ip, off)), At(ip, off + 1));
  }

  /** If the first `off + 1` addresses from `ip` are all taken, more than
      `off` addresses are recorded. */
  lemma TakenBound(ip: Ipv4, taken: seq<Ipv4>, off: nat)
    requires off < Span
    requires forall j :: 0 <= j <= off ==> At(ip, j) in taken
    ensures off < |taken|
  {
    var visited := seq(off + 1, j requires 0 <= j <= off => At(ip, j));
    forall i, j | 0 <= i < j < |visited| ensures visited[i] != visited[j] {
      AtDistinct(ip, i, j);
    }
    DistinctCard(visited);
    ElemsCard(taken);
    assert Elems(visited) <= Elems(taken);
    assert Elems(taken) == Elems(visited) + (Elems(taken) - Elems(visited));
  }

  /** `IpAllocator`: the subnet text, the addresses handed out (the
      gateway first) and the next address to try. */
  datatype Allocator = Allocator(subnet: string, taken: seq<Ipv4>, next: Ipv4)

  /** `IpAllocator::new`: the subnet must be `<address>/<bits>`; `.1` of the
      base's /24 is reserved for the gateway and `.2` is tried first. The
      prefix length itself is not read. */
  function NewAllocator(subnet: string): (r: Result<Allocator>)
    ensures |Split(subnet, '/')| != 2 ==> r == Err(NetworkErr("Invalid subnet: " + subnet))
    ensures |Split(subnet, '/')| == 2 && ParseIpv4(Split(subnet, '/')[0]).None? ==>
      r == Err(NetworkErr("Invalid IP: " + Split(subnet, '/')[0]))
    ensures r.Ok? ==>
      var base := ParseIpv4(Split(subnet, '/')[0]).value;
      && r.value.subnet == subnet
      && r.value.taken == [Ipv4(base.a, base.b, base.c, 1)]
      && r.value.next == Ipv4(base.a, base.b, base.c, 2)
  {
    var parts := Split(subnet, '/');
    if |parts| != 2 then Err(NetworkErr("Invalid subnet: " + subnet))
    else match ParseIpv4(parts[0])
      case None => Err(NetworkErr("Invalid IP: " + parts[0]))
      case Some(base) =>
        Ok(Allocator(subnet, [Ipv4(base.a, base.b, base.c, 1)], Ipv4(base.a, base.b, base.c, 2)))
  }

  lemma DefaultBaseText()
    ensures FormatIpv4(DefaultBase) == "172.17.0.0"
  {
    assert NatToString(172) == "172";
    assert NatToString(17) == "17";
    assert NatToString(0) == "0";
  }

  /** An address followed by `/` and a prefix length splits back into the two. */
  lemma SplitCidr(ip: Ipv4, bits: string)
    requires '/' !in bits
    ensures Split(FormatIpv4(ip) + "/" + bits, '/') == [FormatIpv4(ip), bits]
  {
    Ipv4RoundTrip(ip);
    SplitPair(FormatIpv4(ip), bits, '/');
  }

  /** Any printed address with a prefix length is accepted; the gateway is
      `.1` and the search starts at `.2` of the address's /24. */
  lemma CidrAccepted(ip: Ipv4, bits: string)
    requires '/' !in bits
    ensures NewAllocator(FormatIpv4(ip) + "/" + bits)
      == Ok(Allocator(FormatIpv4(ip) + "/" + bits, [Ipv4(ip.a, ip.b, ip.c, 1)], Ipv4(ip.a, ip.b, ip.c, 2)))
  {
    SplitCidr(ip, bits);
    Ipv4RoundTrip(ip);
  }

  lemma DefaultSubnetText()
    ensures DefaultSubnet == "172.17.0.0/16"
  {
    DefaultBaseText();
  }

  /** The default bridge subnet is accepted. */
  lemma DefaultSubnetAccepted()
    ensures NewAllocator(DefaultSubnet)
      == Ok(Allocator(DefaultSubnet, [Ipv4(172, 17, 0, 1)], Ipv4(172, 17, 0, 2)))
  {
    CidrAccepted(DefaultBase, "16");
  }

  /** `IpAllocator::allocate`. The next address is handed out when free;
      otherwise the low two octets are stepped, with carry, until a free
      address turns up. The address after the one handed out becomes the
      next to try (its last octet wraps without carry). When every address
      of the /16 is taken the source never returns; a free one is required
      here. */
  method Allocate(al: Allocator) returns (ip: Ipv4, al': Allocator)
    requires |al.taken| < Span
    ensures ip !in al.taken
    ensures al.next !in al.taken ==> ip == al.next
    ensures exists off :: (0 <= off < Span && ip == At(al.next, off)
      && forall j :: 0 <= j < off ==> At(al.next, j) in al.taken)
    ensures al' == al.(taken := al.taken + [ip], next := Ipv4(ip.a, ip.b, ip.c, if ip.d == 255 then 0 else ip.d + 1))
  {
    ip := al.next;
    assert ip == At(al.next, 0);
    if ip in al.taken {
      ghost var off := 0;
      var candidate := ip;
      while true
        invariant off < Span && candidate == At(al.next, off)
        invariant forall j :: 0 <= j <= off ==> At(al.next, j) in al.taken
        decreases Span - off
      {
        TakenBound(al.next, al.taken, off);
        StepAt(al.next, off);
        candidate := Step(candidate);
        off := off + 1;
        if candidate !in al.taken {
          ip := candidate;
          break;
        }
      }
    }
    al' := al.(taken := al.taken + [ip], next := Ipv4(ip.a, ip.b, ip.c, if ip.d == 255 then 0 else ip.d + 1));
  }

  /** `IpAllocator::release`: drops every record of the address. */
  function Release(al: Allocator, ip: Ipv4): (r: Allocator)
    ensures Elems(r.taken) == Elems(al.taken) - {ip}
    ensures |r.taken| <= |al.taken|
    ensures r.subnet == al.subnet && r.next == al.next
  {
    al.(taken := Without(al.taken, ip))
  }

  /** `retain(|a| a != x)`: the sequence with every `x` removed, order kept. */
  function Without<T(==)>(s: seq<T>, x: T): (r: seq<T>)
    ensures Elems(r) == Elems(s) - {x}
    ensures |r| <= |s|
  {
    if s == [] then []
    else
      assert s == [s[0]] + s[1..];
      if s[0] == x then Without(s[1..], x)
      else
        var w := Without(s[1..], x);
        assert Elems([s[0]] + w) == {s[0]} + Elems(w);
        [s[0]] + w
  }

  /** A fresh allocator hands out `.2` and then `.3` of its subnet's /24
      (`172.17.0.2` and `172.17.0.3` for the default bridge subnet, by
      `DefaultSubnetAccepted`). */
  method FirstAllocations(subnet: string) returns (ip1: Ipv4, ip2: Ipv4)
    requires NewAllocator(subnet).Ok?
    ensures var next := NewAllocator(subnet).value.next;
      ip1 == next && ip2 == Ipv4(next.a, next.b, next.c, 3)
  {
    var al := NewAllocator(subnet).value;
    ghost var first := al.next;
    assert al.taken == [Ipv4(first.a, first.b, first.c, 1)] && first.d == 2;
    ip1, al := Allocate(al);
    assert al.taken == [Ipv4(first.a, first.b, first.c, 1), first];
    ip2, al := Allocate(al);
  }
}
