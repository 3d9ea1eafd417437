/** Linux namespace kinds, their clone flags and their `/proc` paths, after
    `src/runtime/namespace.rs`. Entering or creating namespaces (the
    `unshare`, `sethostname` and user-mapping system calls) is not part of
    this model. */
module Namespaces {
  import opened Common

  datatype NamespaceType = Mount | Uts | Ipc | Net | Pid | User | Cgroup

  /** The `CLONE_NEW*` flag of each kind (the values of
      `src/runtime/syscall.rs`), as the 32-bit word the kernel takes. */
  function CloneFlag(t: NamespaceType): (f: bv32)
    ensures f != 0 && f & (f - 1) == 0
  {
    match t
    case Mount => 0x0002_0000
    case Uts => 0x0400_0000
    case Ipc => 0x0800_0000
    case Net => 0x4000_0000
    case Pid => 0x2000_0000
    case User => 0x1000_0000
    case Cgroup => 0x0200_0000
  }

  /** The file name of each kind under `/proc/<pid>/ns/`. */
  function ProcName(t: NamespaceType): (name: string)
    ensures |name| > 0 && '/' !in name
  {
    match t
    case Mount => "mnt"
    case Uts => "uts"
    case Ipc => "ipc"
    case Net => "net"
    case Pid => "pid"
    case User => "user"
    case Cgroup => "cgroup"
  }

  /** The kind whose file has the given name. */
  function KindNamed(name: string): (r: Option<NamespaceType>)
    ensures r.Some? ==> ProcName(r.value) == name
  {
    if name == "mnt" then Some(Mount)
    else if name == "uts" then Some(Uts)
    else if name == "ipc" then Some(Ipc)
    else if name == "net" then Some(Net)
    else if name == "pid" then Some(Pid)
    else if name == "user" then Some(User)
    else if name == "cgroup" then Some(Cgroup)
    else None
  }

  /** Each file name names one kind only. */
  lemma KindNamedProcName(t: NamespaceType)
    ensures KindNamed(ProcName(t)) == Some(t)
  {
  }

  /** Two kinds never share a flag bit. */
  lemma CloneFlagsDisjoint(a: NamespaceType, b: NamespaceType)
    ensures a != b <==> CloneFlag(a) & CloneFlag(b) == 0
  {
  }

  /** `NamespaceType::all`, user namespace first. */
  const AllKinds: seq<NamespaceType> := [User, Mount, Uts, Ipc, Net, Pid, Cgroup]

  /** The list holds every kind exactly once. */
  lemma AllKindsComplete(t: NamespaceType)
    ensures t in AllKinds && Distinct(AllKinds) && |AllKinds| == 7
  {
  }

  /** `get_clone_flags`: the flags of the listed kinds or-ed together,
      starting from 0. */
  function GetCloneFlags(kinds: seq<NamespaceType>): (r: bv32)
    ensures r == 0 <==> kinds == []
  {
    if kinds == [] then 0 else GetCloneFlags(kinds[..|kinds| - 1]) | CloneFlag(kinds[|kinds| - 1])
  }

  /** The combined flags carry a kind's bit exactly when the kind is listed. */
  lemma {:induction false} GetCloneFlagsHas(kinds: seq<NamespaceType>, t: NamespaceType)
    ensures GetCloneFlags(kinds) & CloneFlag(t) != 0 <==> t in kinds
  {
    if kinds != [] {
      var init := kinds[..|kinds| - 1];
      var last := kinds[|kinds| - 1];
      GetCloneFlagsHas(init, t);
      CloneFlagsDisjoint(last, t);
      assert kinds == init + [last];
      var a, b, f := GetCloneFlags(init), CloneFlag(last), CloneFlag(t);
      assert (a | b) & f == (a & f) | (b & f);
    }
  }

  /** The flags of every kind together. */
  lemma AllKindsFlags()
    ensures GetCloneFlags(AllKinds) == 0x7E02_0000
  {
    var k := AllKinds;
    assert k[..6][..5][..4][..3][..2][..1][..0] == [];
    assert GetCloneFlags(k[..1]) == 0x1000_0000;
    assert GetCloneFlags(k[..2]) == 0x1002_0000 by { assert k[..2][..1] == k[..1]; }
    assert GetCloneFlags(k[..3]) == 0x1402_0000 by { assert k[..3][..2] == k[..2]; }
    assert GetCloneFlags(k[..4]) == 0x1C02_0000 by { assert k[..4][..3] == k[..3]; }
    assert GetCloneFlags(k[..5]) == 0x5C02_0000 by { assert k[..5][..4] == k[..4]; }
    assert GetCloneFlags(k[..6]) == 0x7C02_0000 by { assert k[..6][..5] == k[..5]; }
    assert k[..7] == k;
  }

  /** The combined flags carry no bit outside the seven namespace flags. */
  lemma {:induction false} GetCloneFlagsWithin(kinds: seq<NamespaceType>)
    ensures GetCloneFlags(kinds) & !GetCloneFlags(AllKinds) == 0
  {
    AllKindsFlags();
    if kinds != [] {
      GetCloneFlagsWithin(kinds[..|kinds| - 1]);
    }
  }

  /** A namespace of one kind, of the calling process or of a given one. */
  datatype Namespace = Namespace(kind: NamespaceType, pid: Option<nat>)

  /** `Namespace::new`. */
  function New(kind: NamespaceType): (ns: Namespace)
    ensures ns.kind == kind && ns.pid.None?
  {
    Namespace(kind, None)
  }

  /** `Namespace::for_process`: the pid is a `u32`. */
  function ForProcess(kind: NamespaceType, pid: nat): (ns: Namespace)
    requires pid < 0x1_0000_0000
    ensures ns.kind == kind && ns.pid == Some(pid)
  {
    Namespace(kind, Some(pid))
  }

  /** The process part of the path: the pid, or `self`. */
  function PidPart(pid: Option<nat>): (s: string)
    ensures '/' !in s && |s| > 0
  {
    if pid.Some? then NatToString(pid.value) else "self"
  }

  /** `Namespace::path`. */
  function Path(ns: Namespace): (r: string)
    ensures IsPrefix("/proc/", r) && IsSuffix("/ns/" + ProcName(ns.kind), r)
  {
    "/proc/" + PidPart(ns.pid) + "/ns/" + ProcName(ns.kind)
  }

  /** Reading a namespace path back: `/proc/<pid or self>/ns/<name>`. */
  function ParsePath(path: string): Option<Namespace>
  {
    var parts := Split(path, '/');
    if |parts| != 5 || parts[0] != "" || parts[1] != "proc" || parts[3] != "ns" then None
    else match KindNamed(parts[4])
      case None => None
      case Some(kind) =>
        if parts[2] == "self" then Some(Namespace(kind, None))
        else match ParseNat(parts[2], 0x1_0000_0000)
          case None => None
          case Some(pid) => Some(Namespace(kind, Some(pid)))
  }

  lemma PathAsJoin(ns: Namespace)
    ensures Path(ns) == Join(["", "proc", PidPart(ns.pid), "ns", ProcName(ns.kind)], '/')
  {
    var p, k := PidPart(ns.pid), ProcName(ns.kind);
    var parts := ["", "proc", p, "ns", k];
    assert parts[1..][1..][1..][1..] == [k];
    assert parts[1..][1..][1..] == ["ns", k];
    assert Join(["ns", k], '/') == "ns/" + k;
    assert parts[1..][1..] == [p, "ns", k];
    assert Join([p, "ns", k], '/') == p + "/ns/" + k;
    assert parts[1..] == ["proc", p, "ns", k];
    assert Join(["proc", p, "ns", k], '/') == "proc/" + p + "/ns/" + k;
  }

  /** The path names its namespace: reading it back gives the kind and the
      process it was made from. */
  lemma ParsePathOfPath(ns: Namespace)
    requires ns.pid.Some? ==> ns.pid.value < 0x1_0000_0000
    ensures ParsePath(Path(ns)) == Some(ns)
  {
    PathAsJoin(ns);
    var parts := ["", "proc", PidPart(ns.pid), "ns", ProcName(ns.kind)];
    SplitJoin(parts, '/');
    KindNamedProcName(ns.kind);
    if ns.pid.Some? {
      var s := NatToString(ns.pid.value);
      assert s != "self" by {
        assert IsDigit(s[0]);
      }
    }
  }

  /** Two namespaces have the same path only when they are the same. */
  lemma PathInjective(a: Namespace, b: Namespace)
    requires a.pid.Some? ==> a.pid.value < 0x1_0000_0000
    requires b.pid.Some? ==> b.pid.value < 0x1_0000_0000
    ensures Path(a) == Path(b) <==> a == b
  {
    ParsePathOfPath(a);
    ParsePathOfPath(b);
  }
}
