/** The compose file as data (`src/compose/config.rs`), reduced to the
    fields the parser and the orchestrator read. A map-valued form whose
    values are never read (the `depends_on` conditions, the per-network
    settings of a service) is kept as its keys in iteration order. */
module ComposeModel {
  import opened Common

  datatype BuildConfig =
    | BuildSimple(path: string)
    | BuildFull(context: Option<string>, dockerfile: Option<string>)

  /** A command as one shell line or as an argument vector. */
  datatype CommandConfig = Shell(line: string) | Exec(args: seq<string>)

  /** `KEY=VALUE` items, or a map whose entries may have no value. */
  datatype EnvironmentConfig =
    | EnvList(items: seq<string>)
    | EnvMap(vars: map<string, Option<string>>)

  /** A list of names, or the keys of a map (in iteration order). */
  datatype NameList = Listed(names: seq<string>) | Keyed(keys: seq<string>)

  function NamesOf(n: NameList): (r: seq<string>)
  {
    match n
    case Listed(ns) => ns
    case Keyed(ks) => ks
  }

  /** A service volume: the short `src:dst` text, or the long form with a
      mount type and a source. */
  datatype ServiceVolume =
    | ShortVolume(spec: string)
    | LongVolume(mountType: Option<string>, source: Option<string>, target: string)

  datatype ServiceConfig = ServiceConfig(
    image: Option<string>,
    build: Option<BuildConfig>,
    command: Option<CommandConfig>,
    entrypoint: Option<CommandConfig>,
    containerName: Option<string>,
    hostname: Option<string>,
    environment: Option<EnvironmentConfig>,
    volumes: Option<seq<ServiceVolume>>,
    networks: Option<NameList>,
    dependsOn: Option<NameList>,
    restart: Option<string>,
    workingDir: Option<string>,
    user: Option<string>,
    privileged: Option<bool>)

  /** The dependencies a service lists. */
  function DependsOn(s: ServiceConfig): (r: seq<string>)
    ensures s.dependsOn.None? ==> r == []
  {
    if s.dependsOn.None? then [] else NamesOf(s.dependsOn.value)
  }

  /** The networks a service names. */
  function NetworksOf(s: ServiceConfig): (r: seq<string>)
    ensures s.networks.None? ==> r == []
  {
    if s.networks.None? then [] else NamesOf(s.networks.value)
  }

  /** Top-level definitions, reduced to the fields that name their backing. */
  datatype NetworkConfig = NetworkConfig(driver: Option<string>)
  datatype VolumeConfig = VolumeConfig(driver: Option<string>)
  datatype SecretConfig = SecretConfig(file: Option<string>)
  datatype ConfigConfig = ConfigConfig(file: Option<string>)

  datatype ComposeConfig = ComposeConfig(
    version: Option<string>,
    name: Option<string>,
    services: map<string, ServiceConfig>,
    networks: map<string, NetworkConfig>,
    volumes: map<string, VolumeConfig>,
    secrets: map<string, SecretConfig>,
    configs: map<string, ConfigConfig>)

  /** `ComposeConfig::default`: version "3.8" and nothing defined. */
  const DefaultCompose := ComposeConfig(Some("3.8"), None, map[], map[], map[], map[], map[])
}
