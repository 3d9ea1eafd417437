/** One container instance and its state transitions
    (`src/container/runtime.rs`). Each transition is specified by a pure
    function on the configuration; the `Container` class applies it in place. */
module ContainerRuntime {
  import opened Common
  import opened ContainerConfigs

  /** Exit code recorded by `kill` (128 + SIGKILL). */
  const KilledExitCode := 137

  function StartT(c: ContainerConfig, now: int): (r: Result<ContainerConfig>)
  {
    if c.status == Running then Err(ContainerAlreadyRunning(c.id))
    else Ok(c.(status := Running, startedAt := Some(now)))
  }

  function StopT(c: ContainerConfig, now: int): (r: Result<ContainerConfig>)
  {
    if c.status != Running then Err(ContainerNotRunning(c.id))
    else Ok(c.(status := Stopped, finishedAt := Some(now), exitCode := Some(0)))
  }

  function PauseT(c: ContainerConfig): (r: Result<ContainerConfig>)
  {
    if c.status != Running then Err(ContainerNotRunning(c.id))
    else Ok(c.(status := Paused))
  }

  function UnpauseT(c: ContainerConfig): (r: Result<ContainerConfig>)
  {
    if c.status != Paused then Err(ContainerErr("Container is not paused"))
    else Ok(c.(status := Running))
  }

  /** The signal is accepted (defaulting to SIGTERM) but not otherwise used. */
  function KillT(c: ContainerConfig, signal: Option<int>, now: int): (r: Result<ContainerConfig>)
  {
    if c.status != Running && c.status != Paused then Err(ContainerNotRunning(c.id))
    else Ok(c.(status := Exited, finishedAt := Some(now), exitCode := Some(KilledExitCode)))
  }

  function RemoveT(c: ContainerConfig): (r: Result<ContainerConfig>)
  {
    if c.status == Running then Err(ContainerErr("Cannot remove a running container"))
    else Ok(c.(status := Removing))
  }

  /** The operator commands a container accepts. */
  datatype Command =
    | Start(now: int)
    | Stop(now: int)
    | Pause
    | Unpause
    | Kill(signal: Option<int>, now: int)
    | Remove

  function Apply(c: ContainerConfig, cmd: Command): Result<ContainerConfig>
  {
    match cmd
    case Start(now) => StartT(c, now)
    case Stop(now) => StopT(c, now)
    case Pause => PauseT(c)
    case Unpause => UnpauseT(c)
    case Kill(sig, now) => KillT(c, sig, now)
    case Remove => RemoveT(c)
  }

  /** Which statuses each command accepts: the guard of every transition,
      both directions. */
  lemma Guards(c: ContainerConfig, cmd: Command)
    ensures cmd.Start? ==> (Apply(c, cmd).Ok? <==> c.status != Running)
    ensures cmd.Stop? ==> (Apply(c, cmd).Ok? <==> c.status == Running)
    ensures cmd.Pause? ==> (Apply(c, cmd).Ok? <==> c.status == Running)
    ensures cmd.Unpause? ==> (Apply(c, cmd).Ok? <==> c.status == Paused)
    ensures cmd.Kill? ==> (Apply(c, cmd).Ok? <==> c.status in {Running, Paused})
    ensures cmd.Remove? ==> (Apply(c, cmd).Ok? <==> c.status != Running)
  {
  }

  /** The status each successful command produces. */
  function Target(cmd: Command): ContainerStatus
  {
    match cmd
    case Start(_) => Running
    case Stop(_) => Stopped
    case Pause => Paused
    case Unpause => Running
    case Kill(_, _) => Exited
    case Remove => Removing
  }

  /** The error each refused command reports. */
  lemma Errors(c: ContainerConfig, cmd: Command)
    requires Apply(c, cmd).Err?
    ensures cmd.Start? ==> Apply(c, cmd).error == ContainerAlreadyRunning(c.id)
    ensures cmd.Stop? || cmd.Pause? || cmd.Kill? ==> Apply(c, cmd).error == ContainerNotRunning(c.id)
    ensures cmd.Unpause? || cmd.Remove? ==> Apply(c, cmd).error.ContainerErr?
  {
  }

  /** A successful command reaches its target status and never changes the
      identity or the configuration; only status, timestamps and exit code move. */
  lemma Effect(c: ContainerConfig, cmd: Command)
    requires Apply(c, cmd).Ok?
    ensures Apply(c, cmd).value.status == Target(cmd)
    ensures Apply(c, cmd).value.(status := c.status, startedAt := c.startedAt,
                                 finishedAt := c.finishedAt, exitCode := c.exitCode) == c
    ensures cmd.Start? ==> Apply(c, cmd).value.startedAt == Some(cmd.now)
    ensures cmd.Stop? ==> Apply(c, cmd).value.exitCode == Some(0) && Apply(c, cmd).value.finishedAt == Some(cmd.now)
    ensures cmd.Kill? ==> Apply(c, cmd).value.exitCode == Some(KilledExitCode) && Apply(c, cmd).value.finishedAt == Some(cmd.now)
    ensures cmd.Pause? || cmd.Unpause? || cmd.Remove? ==> Apply(c, cmd).value == c.(status := Target(cmd))
  {
  }

  /** Record consistency kept by every transition: a running or paused
      container has a start time, a stopped or exited one an exit code and a
      finish time. */
  ghost predicate Consistent(c: ContainerConfig)
  {
    && (c.status == Running || c.status == Paused ==> c.startedAt.Some?)
    && (c.status == Stopped || c.status == Exited ==> c.exitCode.Some? && c.finishedAt.Some?)
  }

  lemma {:induction false} ApplyPreservesConsistent(c: ContainerConfig, cmd: Command)
    requires Consistent(c)
    ensures Apply(c, cmd).Ok? ==> Consistent(Apply(c, cmd).value)
  {
    match cmd
    case Start(now) =>
    case Stop(now) =>
    case Pause =>
    case Unpause =>
    case Kill(sig, now) =>
    case Remove =>
  }

  /** Runs commands in order, ignoring refused ones (they change nothing). */
  function Run(c: ContainerConfig, cmds: seq<Command>): ContainerConfig
    decreases |cmds|
  {
    if |cmds| == 0 then c
    else
      var next := Apply(c, cmds[0]);
      Run(if next.Ok? then next.value else c, cmds[1..])
  }

  /** From a fresh configuration, any command history yields a consistent
      record with the same identity. */
  lemma {:induction false} RunConsistent(c: ContainerConfig, cmds: seq<Command>)
    requires Consistent(c)
    ensures Consistent(Run(c, cmds)) && Run(c, cmds).id == c.id
    decreases |cmds|
  {
    if |cmds| > 0 {
      ApplyPreservesConsistent(c, cmds[0]);
      var next := Apply(c, cmds[0]);
      if next.Ok? { Effect(c, cmds[0]); }
      RunConsistent(if next.Ok? then next.value else c, cmds[1..]);
    }
  }

  lemma DefaultConsistent(uuid: string, now: int)
    requires |RemoveDashes(uuid)| >= 12
    ensures Consistent(Default(uuid, now))
  {
  }

  /** A container: its configuration plus the root filesystem and bundle
      directories derived from the base path and the id. */
  class Container {
    var config: ContainerConfig
    const rootfs: string
    const bundle: string

    constructor (config: ContainerConfig, basePath: string)
      ensures this.config == config
      ensures bundle == basePath + "/" + config.id
      ensures rootfs == bundle + "/rootfs"
    {
      this.config := config;
      bundle := basePath + "/" + config.id;
      rootfs := basePath + "/" + config.id + "/rootfs";
    }

    function Id(): (r: string)
      reads this
      ensures r == config.id
    {
      config.id
    }

    function Status(): (r: ContainerStatus)
      reads this
      ensures r == config.status
    {
      config.status
    }

    predicate IsRunning()
      reads this
      ensures IsRunning() <==> Status() == Running
    {
      config.status == Running
    }

    /** Applies `cmd` in place: on success the configuration becomes the
        transition's result, on refusal nothing changes. */
    method Perform(cmd: Command) returns (r: Outcome)
      modifies this
      ensures Apply(old(config), cmd).Ok? ==> r == Pass && config == Apply(old(config), cmd).value
      ensures Apply(old(config), cmd).Err? ==> r == Fail(Apply(old(config), cmd).error) && config == old(config)
    {
      var next := Apply(config, cmd);
      if next.Ok? {
        config := next.value;
        r := Pass;
      } else {
        r := Fail(next.error);
      }
    }

    method Start(now: int) returns (r: Outcome)
      modifies this
      ensures old(config.status) == Running ==> r == Fail(ContainerAlreadyRunning(config.id)) && config == old(config)
      ensures old(config.status) != Running ==> r == Pass && config == old(config).(status := Running, startedAt := Some(now))
    {
      r := Perform(Command.Start(now));
    }

    method Stop(now: int) returns (r: Outcome)
      modifies this
      ensures old(config.status) != Running ==> r == Fail(ContainerNotRunning(config.id)) && config == old(config)
      ensures old(config.status) == Running ==> r == Pass && config == old(config).(status := Stopped, finishedAt := Some(now), exitCode := Some(0))
    {
      r := Perform(Command.Stop(now));
    }

    method Pause() returns (r: Outcome)
      modifies this
      ensures old(config.status) != Running ==> r == Fail(ContainerNotRunning(config.id)) && config == old(config)
      ensures old(config.status) == Running ==> r == Pass && config == old(config).(status := Paused)
    {
      r := Perform(Command.Pause);
    }

    method Unpause() returns (r: Outcome)
      modifies this
      ensures old(config.status) != Paused ==> r == Fail(ContainerErr("Container is not paused")) && config == old(config)
      ensures old(config.status) == Paused ==> r == Pass && config == old(config).(status := Running)
    {
      r := Perform(Command.Unpause);
    }

    method Kill(signal: Option<int>, now: int) returns (r: Outcome)
      modifies this
      ensures old(config.status) !in {Running, Paused} ==> r == Fail(ContainerNotRunning(config.id)) && config == old(config)
      ensures old(config.status) in {Running, Paused} ==> r == Pass && config == old(config).(status := Exited, finishedAt := Some(now), exitCode := Some(KilledExitCode))
    {
      r := Perform(Command.Kill(signal, now));
    }

    method Remove() returns (r: Outcome)
      modifies this
      ensures old(config.status) == Running ==> r == Fail(ContainerErr("Cannot remove a running container")) && config == old(config)
      ensures old(config.status) != Running ==> r == Pass && config == old(config).(status := Removing)
    {
      r := Perform(Command.Remove);
    }
  }
}
