/** Container configuration values: status, ports, mounts, resource limits
    and the builder-style constructors of `src/container/config.rs`. */
module ContainerConfigs {
  import opened Common

  /** Lifecycle status of a container. */
  datatype ContainerStatus =
    Creating | Created | Running | Paused | Stopped | Exited | Removing | Dead

  /** The status as displayed and serialised: its lowercase name. */
  function StatusName(s: ContainerStatus): (r: string)
    ensures |r| > 0 && forall i :: 0 <= i < |r| ==> 'a' <= r[i] <= 'z'
  {
    match s
    case Creating => "creating"
    case Created => "created"
    case Running => "running"
    case Paused => "paused"
    case Stopped => "stopped"
    case Exited => "exited"
    case Removing => "removing"
    case Dead => "dead"
  }

  /** Distinct statuses display differently, so the name identifies the status. */
  lemma StatusNameInjective(s: ContainerStatus, t: ContainerStatus)
    ensures StatusName(s) == StatusName(t) <==> s == t
  {
  }

  datatype Protocol = Tcp | Udp

  datatype PortMapping = PortMapping(hostPort: nat, containerPort: nat, protocol: Protocol)

  datatype VolumeMount = VolumeMount(hostPath: string, containerPath: string, readOnly: bool)

  /** Resource limits (the floating-point `cpus` field is not modelled). */
  datatype ResourceLimits = ResourceLimits(
    memoryLimit: Option<nat>,
    memoryReservation: Option<nat>,
    cpuShares: Option<nat>,
    cpuQuota: Option<int>,
    cpuPeriod: Option<nat>,
    pidsLimit: Option<int>)

  const NoLimits := ResourceLimits(None, None, None, None, None, None)

  /** The configuration and runtime record of one container; timestamps are
      instants supplied by the caller's clock. */
  datatype ContainerConfig = ContainerConfig(
    id: string,
    name: string,
    image: string,
    cmd: seq<string>,
    entrypoint: seq<string>,
    env: map<string, string>,
    workingDir: string,
    user: string,
    exposedPorts: seq<PortMapping>,
    volumes: seq<VolumeMount>,
    labels: map<string, string>,
    hostname: string,
    domainname: string,
    networkMode: string,
    privileged: bool,
    readOnlyRootfs: bool,
    resources: ResourceLimits,
    status: ContainerStatus,
    createdAt: int,
    startedAt: Option<int>,
    finishedAt: Option<int>,
    exitCode: Option<int>,
    pid: Option<nat>)

  /** `s` with every '-' removed. */
  function RemoveDashes(s: string): (r: string)
    ensures '-' !in r && |r| <= |s|
    ensures forall c :: c in r <==> c in s && c != '-'
  {
    if |s| == 0 then ""
    else if s[0] == '-' then RemoveDashes(s[1..])
    else [s[0]] + RemoveDashes(s[1..])
  }

  /** The default configuration. The identifier is the first 12 characters
      of a freshly generated UUID with its dashes removed; the UUID text and
      the current instant are parameters. */
  function Default(uuid: string, now: int): (r: ContainerConfig)
    requires |RemoveDashes(uuid)| >= 12
    ensures |r.id| == 12 && '-' !in r.id
    ensures r.status == Creating && r.workingDir == "/" && r.networkMode == "bridge"
    ensures r.name == "" && r.image == "" && r.hostname == ""
    ensures r.cmd == [] && r.entrypoint == [] && r.env == map[] && r.labels == map[]
    ensures r.exposedPorts == [] && r.volumes == [] && r.resources == NoLimits
    ensures !r.privileged && !r.readOnlyRootfs && r.createdAt == now
    ensures r.startedAt == None && r.finishedAt == None && r.exitCode == None && r.pid == None
  {
    var id := RemoveDashes(uuid)[..12];
    assert forall i :: 0 <= i < 12 ==> id[i] in RemoveDashes(uuid);
    ContainerConfig(id, "", "", [], [], map[], "/", "", [], [], map[], "", "", "bridge",
                    false, false, NoLimits, Creating, now, None, None, None, None)
  }

  /** A default configuration carrying a name and an image; the hostname is
      the name. */
  function New(name: string, image: string, uuid: string, now: int): (r: ContainerConfig)
    requires |RemoveDashes(uuid)| >= 12
    ensures r.name == name && r.image == image && r.hostname == name
    ensures r == Default(uuid, now).(name := name, image := image, hostname := name)
  {
    Default(uuid, now).(name := name, image := image, hostname := name)
  }

  function WithCmd(c: ContainerConfig, cmd: seq<string>): (r: ContainerConfig)
    ensures r.cmd == cmd && r.(cmd := c.cmd) == c
  {
    c.(cmd := cmd)
  }

  /** Adds (or replaces) one environment variable. */
  function WithEnv(c: ContainerConfig, key: string, value: string): (r: ContainerConfig)
    ensures key in r.env && r.env[key] == value
    ensures r.env.Keys == c.env.Keys + {key}
    ensures forall k :: k in c.env && k != key ==> r.env[k] == c.env[k]
    ensures r.(env := c.env) == c
  {
    c.(env := c.env[key := value])
  }

  function WithWorkingDir(c: ContainerConfig, dir: string): (r: ContainerConfig)
    ensures r.workingDir == dir && r.(workingDir := c.workingDir) == c
  {
    c.(workingDir := dir)
  }

  /** Appends one TCP port mapping; nothing else changes. */
  function WithPort(c: ContainerConfig, hostPort: nat, containerPort: nat): (r: ContainerConfig)
    requires hostPort < U16 && containerPort < U16
    ensures |r.exposedPorts| == |c.exposedPorts| + 1
    ensures r.exposedPorts[..|c.exposedPorts|] == c.exposedPorts
    ensures r.exposedPorts[|c.exposedPorts|].protocol == Tcp
    ensures r.exposedPorts[|c.exposedPorts|].hostPort == hostPort
    ensures r.exposedPorts[|c.exposedPorts|].containerPort == containerPort
    ensures r.(exposedPorts := c.exposedPorts) == c
  {
    c.(exposedPorts := c.exposedPorts + [PortMapping(hostPort, containerPort, Tcp)])
  }

  /** Appends one writable bind mount; nothing else changes. */
  function WithVolume(c: ContainerConfig, hostPath: string, containerPath: string): (r: ContainerConfig)
    ensures |r.volumes| == |c.volumes| + 1
    ensures r.volumes[..|c.volumes|] == c.volumes
    ensures !r.volumes[|c.volumes|].readOnly
    ensures r.volumes[|c.volumes|].hostPath == hostPath
    ensures r.volumes[|c.volumes|].containerPath == containerPath
    ensures r.(volumes := c.volumes) == c
  {
    c.(volumes := c.volumes + [VolumeMount(hostPath, containerPath, false)])
  }
}
