/** Swarm services of `src/swarm/service.rs`: a desired-state spec with a
    version counter and the previous spec kept for one-step rollback. */
module SwarmService {
  import opened Common

  /** How many tasks a service wants. */
  datatype ServiceMode =
    | Replicated(replicas: nat)
    | Global
    | ReplicatedJob(maxConcurrent: nat, totalCompletions: nat)
    | GlobalJob

  /** The service's task template, reduced to the container image it runs. */
  datatype TaskTemplate = TaskTemplate(image: Option<string>)

  /** `ServiceSpec`, reduced to its name, labels, task image, mode and
      network names; the update and rollback configs and the endpoint spec
      are left out. */
  datatype ServiceSpec = ServiceSpec(
    name: string,
    labels: map<string, string>,
    taskTemplate: TaskTemplate,
    mode: Option<ServiceMode>,
    networks: seq<string>)

  /** `ServiceSpec::default`: unnamed, one replica. */
  const DefaultSpec := ServiceSpec("", map[], TaskTemplate(None), Some(Replicated(1)), [])

  datatype UpdateStatus = UpdateStatus(state: string, startedAt: Option<int>, completedAt: Option<int>, message: string)

  /** `replicas` on a mode: the replica count of a replicated service,
      the completion target of a replicated job, none for global ones, and
      one when no mode is set. */
  function ReplicasOf(mode: Option<ServiceMode>): (n: nat)
    ensures mode.None? ==> n == 1
    ensures mode.Some? && (mode.value.Global? || mode.value.GlobalJob?) ==> n == 0
    ensures mode.Some? && mode.value.Replicated? ==> n == mode.value.replicas
    ensures mode.Some? && mode.value.ReplicatedJob? ==> n == mode.value.totalCompletions
  {
    match mode
    case None => 1
    case Some(Replicated(n)) => n
    case Some(Global) => 0
    case Some(ReplicatedJob(_, total)) => total
    case Some(GlobalJob) => 0
  }

  /** What `scale` does to the mode: only a replicated service takes the
      new count. */
  function Scaled(mode: Option<ServiceMode>, replicas: nat): (r: Option<ServiceMode>)
    ensures mode.Some? && mode.value.Replicated? ==> r == Some(Replicated(replicas))
    ensures !(mode.Some? && mode.value.Replicated?) ==> r == mode
  {
    match mode
    case Some(Replicated(_)) => Some(Replicated(replicas))
    case _ => mode
  }

  /** Scaling sets the replica count of a replicated service and leaves
      every other mode's count alone; the default spec is replicated. */
  lemma ScaleReplicas(mode: Option<ServiceMode>, replicas: nat)
    ensures mode.Some? && mode.value.Replicated? ==> ReplicasOf(Scaled(mode, replicas)) == replicas
    ensures !(mode.Some? && mode.value.Replicated?) ==> ReplicasOf(Scaled(mode, replicas)) == ReplicasOf(mode)
    ensures ReplicasOf(DefaultSpec.mode) == 1 && ReplicasOf(Scaled(DefaultSpec.mode, replicas)) == replicas
  {
  }

  /** Scaling twice is scaling once to the last count. */
  lemma ScaleTwice(mode: Option<ServiceMode>, a: nat, b: nat)
    ensures Scaled(Scaled(mode, a), b) == Scaled(mode, b)
  {
  }

  class Service {
    const id: string
    var spec: ServiceSpec
    var previousSpec: Option<ServiceSpec>
    var updateStatus: Option<UpdateStatus>
    var version: nat
    const createdAt: int
    var updatedAt: int

    /** `Service::new`: version 1, nothing to roll back to. The id is the
        random uuid the caller supplies. */
    constructor (id: string, spec: ServiceSpec, now: int)
      ensures this.id == id && this.spec == spec
      ensures previousSpec == None && updateStatus == None && version == 1
      ensures createdAt == now && updatedAt == now
    {
      this.id := id;
      this.spec := spec;
      previousSpec := None;
      updateStatus := None;
      version := 1;
      createdAt := now;
      updatedAt := now;
    }

    /** A copy of a service, as Rust's `clone` makes one. */
    constructor Clone(other: Service)
      ensures Same(other)
    {
      id := other.id;
      spec := other.spec;
      previousSpec := other.previousSpec;
      updateStatus := other.updateStatus;
      version := other.version;
      createdAt := other.createdAt;
      updatedAt := other.updatedAt;
    }

    /** Every field of this service equals the other's. */
    predicate Same(other: Service)
      reads this, other
    {
      && id == other.id && spec == other.spec && previousSpec == other.previousSpec
      && updateStatus == other.updateStatus && version == other.version
      && createdAt == other.createdAt && updatedAt == other.updatedAt
    }

    /** `replicas`: a replicated service's count, a job's completion
        target, none for global services, one when no mode is set. */
    function Replicas(): (n: nat)
      reads this
      ensures spec.mode.None? ==> n == 1
      ensures spec.mode.Some? && (spec.mode.value.Global? || spec.mode.value.GlobalJob?) ==> n == 0
      ensures spec.mode.Some? && spec.mode.value.Replicated? ==> n == spec.mode.value.replicas
      ensures spec.mode.Some? && spec.mode.value.ReplicatedJob? ==> n == spec.mode.value.totalCompletions
    {
      ReplicasOf(spec.mode)
    }

    /** `update`: the current spec becomes the previous one, the new spec
        takes over, and the version goes up by one. */
    method Update(newSpec: ServiceSpec, now: int)
      modifies this
      ensures spec == newSpec && previousSpec == Some(old(spec))
      ensures version == old(version) + 1 && updatedAt == now
      ensures updateStatus == Some(UpdateStatus("updating", Some(now), None, ""))
    {
      previousSpec := Some(spec);
      spec := newSpec;
      version := version + 1;
      updatedAt := now;
      updateStatus := Some(UpdateStatus("updating", Some(now), None, ""));
    }

    /** `rollback`: swaps the spec with the previous one and bumps the
        version; without a previous spec it fails and changes nothing. */
    method Rollback(now: int) returns (r: Outcome)
      modifies this
      ensures old(previousSpec).None? ==>
        r == Fail(ServiceErr("No previous specification to rollback to"))
        && spec == old(spec) && previousSpec == None && version == old(version)
        && updatedAt == old(updatedAt) && updateStatus == old(updateStatus)
      ensures old(previousSpec).Some? ==>
        r == Pass && spec == old(previousSpec).value && previousSpec == Some(old(spec))
        && version == old(version) + 1 && updatedAt == now
        && updateStatus == Some(UpdateStatus("rollback_started", Some(now), None, ""))
    {
      if previousSpec.None? {
        return Fail(ServiceErr("No previous specification to rollback to"));
      }
      var prev := previousSpec.value;
      previousSpec := Some(spec);
      spec := prev;
      version := version + 1;
      updatedAt := now;
      updateStatus := Some(UpdateStatus("rollback_started", Some(now), None, ""));
      r := Pass;
    }

    /** `scale`: sets the count of a replicated service; the version goes
        up by one whatever the mode. */
    method Scale(replicas: nat, now: int)
      modifies this
      ensures spec == old(spec).(mode := Scaled(old(spec).mode, replicas))
      ensures old(spec).mode.Some? && old(spec).mode.value.Replicated? ==> Replicas() == replicas
      ensures !(old(spec).mode.Some? && old(spec).mode.value.Replicated?) ==> Replicas() == old(Replicas())
      ensures previousSpec == old(previousSpec) && updateStatus == old(updateStatus)
      ensures version == old(version) + 1 && updatedAt == now
    {
      ScaleReplicas(spec.mode, replicas);
      spec := spec.(mode := Scaled(spec.mode, replicas));
      version := version + 1;
      updatedAt := now;
    }
  }
}
