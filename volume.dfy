/** Named volumes of `src/storage/volume.rs`: a map from name to volume,
    with a per-volume reference count that guards removal and pruning. */
module Volume {
  import opened Common

  datatype VolumeDriver = Local | Nfs | Custom(name: string)

  datatype VolumeScope = LocalScope | GlobalScope

  /** Usage data; `refCount` is the number of containers using the volume. */
  datatype UsageData = UsageData(size: int, refCount: int)

  datatype Volume = Volume(
    name: string,
    driver: VolumeDriver,
    mountpoint: string,
    scope: VolumeScope,
    options: map<string, string>,
    labels: map<string, string>,
    createdAt: int,
    usageData: Option<UsageData>,
    status: map<string, string>)

  predicate IsAbsolute(p: string)
  {
    |p| > 0 && p[0] == '/'
  }

  /** `Path::join`: an absolute `name` replaces the base; otherwise `name`
      is appended after a single separator. */
  function JoinPath(base: string, name: string): (r: string)
    ensures IsAbsolute(name) ==> r == name
    ensures !IsAbsolute(name) && base != "" ==> IsPrefix(base, r) && IsSuffix(name, r) && |r| >= |base| + |name|
    ensures !IsAbsolute(name) && base != "" && base[|base| - 1] != '/' ==> |r| > |base| && r[|base|] == '/'
  {
    if IsAbsolute(name) then name
    else if base == "" || base[|base| - 1] == '/' then base + name
    else base + "/" + name
  }

  /** `Volume::new`: a local volume under the base directory, with no
      options, labels, status or usage data. */
  function NewVolume(name: string, basePath: string, now: int): (v: Volume)
    ensures v.name == name && v.driver == Local && v.scope == LocalScope
    ensures v.mountpoint == JoinPath(basePath, name)
    ensures v.usageData == None && v.options == map[] && v.labels == map[] && v.status == map[]
  {
    Volume(name, Local, JoinPath(basePath, name), LocalScope, map[], map[], now, None, map[])
  }

  /** The reference count, reading absent usage data as zero. */
  function RefCount(v: Volume): int
  {
    if v.usageData.None? then 0 else v.usageData.value.refCount
  }

  /** What `remove` refuses without `force`. */
  predicate InUse(v: Volume)
  {
    v.usageData.Some? && v.usageData.value.refCount > 0
  }

  /** What `prune` removes: no usage data, or a zero count. */
  predicate Unused(v: Volume)
  {
    v.usageData.None? || v.usageData.value.refCount == 0
  }

  /** `add_reference` on one volume. */
  function AddRef(v: Volume): (r: Volume)
    ensures RefCount(r) == RefCount(v) + 1
    ensures r.usageData.Some?
    ensures r == v.(usageData := r.usageData)
  {
    match v.usageData
    case Some(u) => v.(usageData := Some(u.(refCount := u.refCount + 1)))
    case None => v.(usageData := Some(UsageData(0, 1)))
  }

  /** `remove_reference` on one volume: the count saturates at zero, and
      a volume without usage data is left alone. */
  function DropRef(v: Volume): (r: Volume)
    ensures RefCount(v) >= 1 ==> RefCount(r) == RefCount(v) - 1
    ensures RefCount(v) <= 0 ==> RefCount(r) == 0 || (v.usageData.None? && r == v)
    ensures RefCount(r) >= 0
    ensures r.usageData.None? <==> v.usageData.None?
    ensures r == v.(usageData := r.usageData)
  {
    match v.usageData
    case Some(u) => v.(usageData := Some(u.(refCount := if u.refCount - 1 > 0 then u.refCount - 1 else 0)))
    case None => v
  }

  /** Taking a reference and dropping it again restores the count. */
  lemma AddDropRef(v: Volume)
    requires RefCount(v) >= 0
    ensures RefCount(DropRef(AddRef(v))) == RefCount(v)
  {
  }

  /** A referenced volume is in use and not pruned. */
  lemma ReferencedIsInUse(v: Volume)
    requires RefCount(v) >= 0
    ensures InUse(AddRef(v)) && !Unused(AddRef(v))
  {
  }

  /** With a count that never goes negative, the two filters are
      complementary: `prune` removes exactly what a plain `remove` may. */
  lemma UnusedIffNotInUse(v: Volume)
    requires RefCount(v) >= 0
    ensures Unused(v) <==> !InUse(v)
  {
  }

  /** The manager's invariant: every volume is stored under its own name
      and no count is negative. */
  predicate WellFormed(volumes: map<string, Volume>)
  {
    forall n :: n in volumes ==> volumes[n].name == n && RefCount(volumes[n]) >= 0
  }

  /** The volumes `prune` keeps. */
  function Kept(volumes: map<string, Volume>, done: set<string>): map<string, Volume>
  {
    map n | n in volumes && n !in done :: volumes[n]
  }

  class VolumeManager {
    var volumes: map<string, Volume>
    const basePath: string

    /** `VolumeManager::new` (creating the base directory is left out). */
    constructor (basePath: string)
      ensures volumes == map[] && this.basePath == basePath
      ensures WellFormed(volumes)
    {
      volumes := map[];
      this.basePath := basePath;
    }

    /** `create`. The duplicate check runs on the name given; an empty name
        is then replaced by the first 12 characters of `uuidHex` (the
        random id with its dashes removed). */
    method Create(name: string, driver: Option<VolumeDriver>, options: map<string, string>,
                  labels: map<string, string>, uuidHex: string, now: int) returns (r: Result<Volume>)
      requires |uuidHex| >= 12
      requires WellFormed(volumes)
      modifies this
      ensures WellFormed(volumes)
      ensures name in old(volumes) ==>
        r == Err(VolumeErr("Volume " + name + " already exists")) && volumes == old(volumes)
      ensures name !in old(volumes) ==>
        var n := if name == "" then uuidHex[..12] else name;
        && r.Ok?
        && r.value.name == n
        && r.value.mountpoint == JoinPath(basePath, n)
        && r.value.driver == (if driver.Some? then driver.value else Local)
        && r.value.options == options && r.value.labels == labels
        && r.value.usageData == None
        && volumes == old(volumes)[n := r.value]
    {
      if name in volumes {
        return Err(VolumeErr("Volume " + name + " already exists"));
      }
      var volumeName := if name == "" then uuidHex[..12] else name;
      var volume := NewVolume(volumeName, basePath, now);
      if driver.Some? {
        volume := volume.(driver := driver.value);
      }
      volume := volume.(options := options, labels := labels);
      volumes := volumes[volumeName := volume];
      r := Ok(volume);
    }

    /** `get`. */
    function Get(name: string): (r: Result<Volume>)
      reads this
      ensures r.Ok? <==> name in volumes
      ensures r.Ok? ==> r.value == volumes[name]
      ensures r.Err? ==> r.error == VolumeNotFound(name)
    {
      if name in volumes then Ok(volumes[name]) else Err(VolumeNotFound(name))
    }

    /** `list`: every volume once. */
    method List() returns (r: seq<Volume>)
      ensures |r| == |volumes|
      ensures forall v :: v in r <==> v in volumes.Values
    {
      var names := Enumerate(volumes.Keys);
      DistinctCard(names);
      r := [];
      var i := 0;
      while i < |names|
        invariant 0 <= i <= |names| && |r| == i
        invariant forall k :: 0 <= k < i ==> r[k] == volumes[names[k]]
      {
        r := r + [volumes[names[i]]];
        i := i + 1;
      }
      forall v | v in volumes.Values ensures v in r {
        var n :| n in volumes && volumes[n] == v;
        assert n in Elems(names);
        var k :| 0 <= k < |names| && names[k] == n;
        assert r[k] == v;
      }
    }

    /** `remove`: unknown names are not found; a volume in use is refused
        unless `force`; otherwise it goes. */
    method Remove(name: string, force: bool) returns (r: Outcome)
      requires WellFormed(volumes)
      modifies this
      ensures WellFormed(volumes)
      ensures name !in old(volumes) ==> r == Fail(VolumeNotFound(name)) && volumes == old(volumes)
      ensures name in old(volumes) && InUse(old(volumes)[name]) && !force ==>
        r == Fail(VolumeErr("Volume " + name + " is in use by "
                            + NatToString(old(volumes)[name].usageData.value.refCount) + " container(s)"))
        && volumes == old(volumes)
      ensures name in old(volumes) && (!InUse(old(volumes)[name]) || force) ==>
        r == Pass && volumes == old(volumes) - {name}
    {
      if name !in volumes {
        return Fail(VolumeNotFound(name));
      }
      var volume := volumes[name];
      if volume.usageData.Some? && volume.usageData.value.refCount > 0 && !force {
        return Fail(VolumeErr("Volume " + name + " is in use by "
                              + NatToString(volume.usageData.value.refCount) + " container(s)"));
      }
      volumes := volumes - {name};
      r := Pass;
    }

    /** `prune`: removes (forcibly) every volume without usage data or with
        a zero count, and returns their names. */
    method Prune() returns (removed: seq<string>)
      requires WellFormed(volumes)
      modifies this
      ensures WellFormed(volumes)
      ensures Distinct(removed)
      ensures Elems(removed) == set n | n in old(volumes) && Unused(old(volumes)[n])
      ensures volumes == Kept(old(volumes), Elems(removed))
      ensures forall n :: n in volumes ==> InUse(volumes[n])
    {
      ghost var start := volumes;
      removed := Enumerate(set n | n in volumes && Unused(volumes[n]));
      assert forall j :: 0 <= j < |removed| ==> removed[j] in Elems(removed);
      ghost var done: set<string> := {};
      var i := 0;
      while i < |removed|
        invariant 0 <= i <= |removed|
        invariant done == Elems(removed[..i])
        invariant forall j :: 0 <= j < |removed| ==> removed[j] in start && Unused(start[removed[j]])
        invariant volumes == Kept(start, done)
        invariant WellFormed(volumes)
      {
        var name := removed[i];
        assert name in Elems(removed);
        assert name !in done by {
          assert forall k :: 0 <= k < i ==> removed[k] != name;
        }
        assert Kept(start, done + {name}) == Kept(start, done) - {name};
        var outcome := Remove(name, true);
        assert removed[..i + 1] == removed[..i] + [name];
        ElemsAppend(removed[..i], name);
        done := done + {name};
        i := i + 1;
      }
      assert removed[..i] == removed;
      forall n | n in volumes ensures InUse(volumes[n]) {
        UnusedIffNotInUse(start[n]);
      }
    }

    /** `add_reference`. */
    method AddReference(name: string) returns (r: Outcome)
      requires WellFormed(volumes)
      modifies this
      ensures WellFormed(volumes)
      ensures name !in old(volumes) ==> r == Fail(VolumeNotFound(name)) && volumes == old(volumes)
      ensures name in old(volumes) ==> r == Pass && volumes == old(volumes)[name := AddRef(old(volumes)[name])]
    {
      if name !in volumes {
        return Fail(VolumeNotFound(name));
      }
      volumes := volumes[name := AddRef(volumes[name])];
      r := Pass;
    }

    /** `remove_reference`. */
    method RemoveReference(name: string) returns (r: Outcome)
      requires WellFormed(volumes)
      modifies this
      ensures WellFormed(volumes)
      ensures name !in old(volumes) ==> r == Fail(VolumeNotFound(name)) && volumes == old(volumes)
      ensures name in old(volumes) ==> r == Pass && volumes == old(volumes)[name := DropRef(old(volumes)[name])]
    {
      if name !in volumes {
        return Fail(VolumeNotFound(name));
      }
      volumes := volumes[name := DropRef(volumes[name])];
      r := Pass;
    }
  }
}
