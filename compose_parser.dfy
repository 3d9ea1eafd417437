/** Merging, validation and variable interpolation of compose files, after
    `src/compose/parser.rs`. Reading files and YAML decoding are not
    modelled. */
module ComposeParser {
  import opened Common
  import opened ComposeModel

  // ----- merge_configs -----

  /** One service merged over an existing one: the overlay's image, build
      and command replace the existing ones when present; every other field
      stays as it was. */
  function MergeService(existing: ServiceConfig, overlay: ServiceConfig): (r: ServiceConfig)
    ensures overlay.image.Some? ==> r.image == overlay.image
    ensures overlay.build.Some? ==> r.build == overlay.build
    ensures overlay.command.Some? ==> r.command == overlay.command
    ensures r.(image := existing.image, build := existing.build, command := existing.command) == existing
  {
    existing.(image := if overlay.image.Some? then overlay.image else existing.image,
              build := if overlay.build.Some? then overlay.build else existing.build,
              command := if overlay.command.Some? then overlay.command else existing.command)
  }

  /** The services after a merge: existing ones merged, new ones inserted. */
  function MergeServices(base: map<string, ServiceConfig>, overlay: map<string, ServiceConfig>): (m: map<string, ServiceConfig>)
    ensures m.Keys == base.Keys + overlay.Keys
  {
    map n | n in base.Keys + overlay.Keys ::
      if n in overlay then (if n in base then MergeService(base[n], overlay[n]) else overlay[n]) else base[n]
  }

  /** The configuration `merge_configs` returns. */
  function Merge(base: ComposeConfig, overlay: ComposeConfig): ComposeConfig
  {
    ComposeConfig(
      if overlay.version.Some? then overlay.version else base.version,
      if overlay.name.Some? then overlay.name else base.name,
      MergeServices(base.services, overlay.services),
      base.networks + overlay.networks,
      base.volumes + overlay.volumes,
      base.secrets + overlay.secrets,
      base.configs + overlay.configs)
  }

  /** Inserts every entry of `extra`, replacing entries with the same key. */
  method InsertAll<V>(m: map<string, V>, extra: map<string, V>) returns (r: map<string, V>)
    ensures r == m + extra
  {
    var keys := Enumerate(extra.Keys);
    r := m;
    var i := 0;
    while i < |keys|
      invariant 0 <= i <= |keys|
      invariant r.Keys == m.Keys + Elems(keys[..i])
      invariant forall k :: k in r ==> r[k] == if k in Elems(keys[..i]) then extra[k] else m[k]
    {
      assert keys[i] in Elems(keys);
      assert keys[..i + 1] == keys[..i] + [keys[i]];
      ElemsAppend(keys[..i], keys[i]);
      r := r[keys[i] := extra[keys[i]]];
      i := i + 1;
    }
    assert keys[..i] == keys;
  }

  /** The entry for `n` once the overlay services named in `done` are merged. */
  function MergedEntry(base: map<string, ServiceConfig>, overlay: map<string, ServiceConfig>, done: set<string>, n: string): ServiceConfig
    requires n in base || (n in done && n in overlay)
  {
    if n in done && n in overlay then (if n in base then MergeService(base[n], overlay[n]) else overlay[n]) else base[n]
  }

  /** One overlay service merged into the map built so far. */
  lemma MergeStep(base: map<string, ServiceConfig>, overlay: map<string, ServiceConfig>, done: set<string>, n: string,
                  services: map<string, ServiceConfig>)
    requires n in overlay && n !in done && done <= overlay.Keys
    requires services.Keys == base.Keys + done
    requires forall m :: m in services ==> services[m] == MergedEntry(base, overlay, done, m)
    ensures var next := if n in services then services[n := MergeService(services[n], overlay[n])] else services[n := overlay[n]];
      next.Keys == base.Keys + (done + {n}) &&
      forall m :: m in next ==> next[m] == MergedEntry(base, overlay, done + {n}, m)
  {
  }

  /** Once every overlay service is merged, the map is `MergeServices`. */
  lemma MergeDone(base: map<string, ServiceConfig>, overlay: map<string, ServiceConfig>, services: map<string, ServiceConfig>)
    requires services.Keys == base.Keys + overlay.Keys
    requires forall m :: m in services ==> services[m] == MergedEntry(base, overlay, overlay.Keys, m)
    ensures services == MergeServices(base, overlay)
  {
  }

  /** One overlay service merged into, or added to, the services so far. */
  method MergeOne(base: map<string, ServiceConfig>, overlay: map<string, ServiceConfig>, done: set<string>, n: string,
                  services: map<string, ServiceConfig>) returns (next: map<string, ServiceConfig>)
    requires n in overlay && n !in done && done <= overlay.Keys
    requires services.Keys == base.Keys + done
    requires forall m :: m in services ==> services[m] == MergedEntry(base, overlay, done, m)
    ensures next.Keys == base.Keys + (done + {n})
    ensures forall m :: m in next ==> next[m] == MergedEntry(base, overlay, done + {n}, m)
  {
    MergeStep(base, overlay, done, n, services);
    if n in services {
      next := services[n := MergeService(services[n], overlay[n])];
    } else {
      next := services[n := overlay[n]];
    }
  }

  /** The service loop of `merge_configs`. */
  method MergeServiceMaps(base: map<string, ServiceConfig>, overlay: map<string, ServiceConfig>)
    returns (services: map<string, ServiceConfig>)
    ensures services == MergeServices(base, overlay)
  {
    var names := Enumerate(overlay.Keys);
    services := base;
    var i := 0;
    while i < |names|
      invariant 0 <= i <= |names|
      invariant services.Keys == base.Keys + Elems(names[..i])
      invariant forall n :: n in services ==> services[n] == MergedEntry(base, overlay, Elems(names[..i]), n)
    {
      var n := names[i];
      assert n in Elems(names);
      assert n !in Elems(names[..i]);
      services := MergeOne(base, overlay, Elems(names[..i]), n, services);
      assert names[..i + 1] == names[..i] + [n];
      ElemsAppend(names[..i], n);
      i := i + 1;
    }
    assert names[..i] == names;
    MergeDone(base, overlay, services);
  }

  /** `merge_configs`: the overlay's version and name win when present; its
      services are merged into or added to the base's; its networks,
      volumes, secrets and configs replace or join the base's. */
  method MergeConfigs(base: ComposeConfig, overlay: ComposeConfig) returns (r: ComposeConfig)
    ensures r == Merge(base, overlay)
  {
    var services := MergeServiceMaps(base.services, overlay.services);
    var networks := InsertAll(base.networks, overlay.networks);
    var volumes := InsertAll(base.volumes, overlay.volumes);
    var secrets := InsertAll(base.secrets, overlay.secrets);
    var configs := InsertAll(base.configs, overlay.configs);
    r := ComposeConfig(
      if overlay.version.Some? then overlay.version else base.version,
      if overlay.name.Some? then overlay.name else base.name,
      services, networks, volumes, secrets, configs);
  }

  /** A configuration that defines nothing. */
  const EmptyCompose := ComposeConfig(None, None, map[], map[], map[], map[], map[])

  /** Merging in an empty overlay changes nothing. */
  lemma MergeEmpty(c: ComposeConfig)
    ensures Merge(c, EmptyCompose) == c
  {
    assert MergeServices(c.services, map[]) == c.services;
  }

  /** Merging a configuration into itself changes nothing. */
  lemma MergeIdempotent(c: ComposeConfig)
    ensures Merge(c, c) == c
  {
    assert MergeServices(c.services, c.services) == c.services;
  }

  /** `parse_files` starts from the default configuration: the first file's
      content comes through, with version "3.8" when it names none. */
  lemma MergeOntoDefault(c: ComposeConfig)
    ensures Merge(DefaultCompose, c) == c.(version := if c.version.Some? then c.version else Some("3.8"))
  {
    assert MergeServices(map[], c.services) == c.services;
  }

  lemma MergeServiceAssoc(a: ServiceConfig, b: ServiceConfig, c: ServiceConfig)
    ensures MergeService(MergeService(a, b), c) == MergeService(a, MergeService(b, c))
  {
  }

  lemma MergeServicesAssoc(a: map<string, ServiceConfig>, b: map<string, ServiceConfig>, c: map<string, ServiceConfig>)
    ensures MergeServices(MergeServices(a, b), c) == MergeServices(a, MergeServices(b, c))
  {
    var left := MergeServices(MergeServices(a, b), c);
    var right := MergeServices(a, MergeServices(b, c));
    forall n | n in left ensures left[n] == right[n] {
      if n in a && n in b && n in c {
        MergeServiceAssoc(a[n], b[n], c[n]);
      }
    }
  }

  lemma UnionAssoc<V>(a: map<string, V>, b: map<string, V>, c: map<string, V>)
    ensures (a + b) + c == a + (b + c)
  {
  }

  /** Merging is associative, so a sequence of files merges to the same
      result however the merges are grouped. */
  lemma MergeAssociative(a: ComposeConfig, b: ComposeConfig, c: ComposeConfig)
    ensures Merge(Merge(a, b), c) == Merge(a, Merge(b, c))
  {
    MergeServicesAssoc(a.services, b.services, c.services);
    UnionAssoc(a.networks, b.networks, c.networks);
    UnionAssoc(a.volumes, b.volumes, c.volumes);
    UnionAssoc(a.secrets, b.secrets, c.secrets);
    UnionAssoc(a.configs, b.configs, c.configs);
  }

  // ----- validate -----

  function MissingImageError(name: string): RuneError
  {
    ComposeParse("Service '" + name + "' must have either 'image' or 'build' specified")
  }

  function UnknownDependencyError(name: string, dep: string): RuneError
  {
    ComposeParse("Service '" + name + "' depends on unknown service '" + dep + "'")
  }

  function NetworkWarning(name: string, net: string): string
  {
    "Service '" + name + "' references undefined network '" + net + "' (will be created)"
  }

  function VolumeWarning(name: string, vol: string): string
  {
    "Service '" + name + "' references undefined volume '" + vol + "' (will be created)"
  }

  /** A network reference that draws a warning: not "default" and not
      defined at the top level. */
  predicate UndefinedNetwork(c: ComposeConfig, net: string)
  {
    net != "default" && net !in c.networks
  }

  /** A long-form named-volume mount whose source is not defined. */
  predicate UndefinedVolume(c: ComposeConfig, v: ServiceVolume)
  {
    v.LongVolume? && v.mountType == Some("volume") && v.source.Some? && v.source.value !in c.volumes
  }

  /** A service that fails validation. */
  predicate ServiceInvalid(c: ComposeConfig, s: ServiceConfig)
  {
    (s.image.None? && s.build.None?) || exists d :: d in DependsOn(s) && d !in c.services
  }

  /** `deps[i]` is the first listed dependency that is not a defined service. */
  predicate FirstUnknownAt(c: ComposeConfig, deps: seq<string>, i: int)
  {
    0 <= i < |deps| && deps[i] !in c.services && forall j :: 0 <= j < i ==> deps[j] in c.services
  }

  /** The first listed dependency that is not a defined service. */
  function UnknownDependency(c: ComposeConfig, name: string, deps: seq<string>): (r: Option<RuneError>)
    ensures r.None? <==> forall d :: d in deps ==> d in c.services
    ensures r.Some? ==> exists i :: FirstUnknownAt(c, deps, i) && r.value == UnknownDependencyError(name, deps[i])
  {
    if deps == [] then None
    else if deps[0] !in c.services then Some(UnknownDependencyError(name, deps[0]))
    else
      var r := UnknownDependency(c, name, deps[1..]);
      assert forall d :: d in deps <==> d == deps[0] || d in deps[1..];
      if r.Some? then
        var i :| FirstUnknownAt(c, deps[1..], i) && r.value == UnknownDependencyError(name, deps[1..][i]);
        assert deps[i + 1] == deps[1..][i];
        assert FirstUnknownAt(c, deps, i + 1);
        r
      else r
  }

  /** The error a service draws, if any: a missing image and build first,
      then its first unknown dependency. */
  function ServiceError(c: ComposeConfig, name: string, s: ServiceConfig): (r: Option<RuneError>)
    ensures r.Some? <==> ServiceInvalid(c, s)
    ensures s.image.None? && s.build.None? ==> r == Some(MissingImageError(name))
  {
    if s.image.None? && s.build.None? then Some(MissingImageError(name))
    else UnknownDependency(c, name, DependsOn(s))
  }

  /** Warnings for the undefined networks among `nets`, in order. */
  function NetworkWarnings(c: ComposeConfig, name: string, nets: seq<string>): (r: seq<string>)
    ensures forall w :: w in r <==> exists net :: net in nets && UndefinedNetwork(c, net) && w == NetworkWarning(name, net)
  {
    if nets == [] then []
    else
      var rest := NetworkWarnings(c, name, nets[1..]);
      assert forall net :: net in nets <==> net == nets[0] || net in nets[1..];
      if UndefinedNetwork(c, nets[0]) then [NetworkWarning(name, nets[0])] + rest else rest
  }

  /** Warnings for the undefined named volumes among `vols`, in order. */
  function VolumeWarnings(c: ComposeConfig, name: string, vols: seq<ServiceVolume>): (r: seq<string>)
    ensures forall w :: w in r <==> exists v :: v in vols && UndefinedVolume(c, v) && w == VolumeWarning(name, v.source.value)
  {
    if vols == [] then []
    else
      var rest := VolumeWarnings(c, name, vols[1..]);
      assert forall v :: v in vols <==> v == vols[0] || v in vols[1..];
      if UndefinedVolume(c, vols[0]) then [VolumeWarning(name, vols[0].source.value)] + rest else rest
  }

  /** The warnings one valid service draws: networks, then volumes. */
  function ServiceWarnings(c: ComposeConfig, name: string, s: ServiceConfig): seq<string>
  {
    NetworkWarnings(c, name, NetworksOf(s)) + VolumeWarnings(c, name, if s.volumes.Some? then s.volumes.value else [])
  }

  /** The warnings of the services in `names`, in that order. */
  function WarningsOf(c: ComposeConfig, names: seq<string>): seq<string>
    requires forall n :: n in names ==> n in c.services
  {
    if names == [] then []
    else
      var last := names[|names| - 1];
      WarningsOf(c, names[..|names| - 1]) + ServiceWarnings(c, last, c.services[last])
  }

  /** Visiting one more service appends its warnings. */
  lemma WarningsOfStep(c: ComposeConfig, names: seq<string>, i: nat)
    requires i < |names| && forall n :: n in names ==> n in c.services
    ensures WarningsOf(c, names[..i + 1]) == WarningsOf(c, names[..i]) + ServiceWarnings(c, names[i], c.services[names[i]])
  {
    assert names[..i + 1][..i] == names[..i];
  }

  /** A warning is collected exactly when one of the visited services draws it. */
  lemma {:induction false} WarningsOfMembers(c: ComposeConfig, names: seq<string>, w: string)
    requires forall n :: n in names ==> n in c.services
    ensures w in WarningsOf(c, names) <==> exists n :: n in names && w in ServiceWarnings(c, n, c.services[n])
  {
    if names != [] {
      var init := names[..|names| - 1];
      WarningsOfMembers(c, init, w);
      assert forall n :: n in names <==> n in init || n == names[|names| - 1];
    }
  }

  /** `validate`: visits the services in map order and stops at the first
      invalid one; otherwise collects warnings for undefined networks and
      named volumes. Validation fails exactly when some service is invalid,
      and warnings never cause a failure. */
  method Validate(c: ComposeConfig) returns (r: Result<seq<string>>)
    ensures r.Err? <==> exists n :: n in c.services && ServiceInvalid(c, c.services[n])
    ensures r.Err? ==> exists n :: n in c.services && ServiceError(c, n, c.services[n]) == Some(r.error)
    ensures r.Ok? ==> forall w :: w in r.value <==> exists n :: n in c.services && w in ServiceWarnings(c, n, c.services[n])
  {
    var names := Enumerate(c.services.Keys);
    var warnings: seq<string> := [];
    var i := 0;
    while i < |names|
      invariant 0 <= i <= |names|
      invariant forall k :: 0 <= k < i ==> !ServiceInvalid(c, c.services[names[k]])
      invariant warnings == WarningsOf(c, names[..i])
    {
      var n := names[i];
      assert n in Elems(names);
      var e := ServiceError(c, n, c.services[n]);
      if e.Some? {
        assert n in c.services && ServiceInvalid(c, c.services[n]);
        return Err(e.value);
      }
      WarningsOfStep(c, names, i);
      warnings := warnings + ServiceWarnings(c, n, c.services[n]);
      i := i + 1;
    }
    assert names[..i] == names;
    ValidateOk(c, names, warnings);
    r := Ok(warnings);
  }

  /** The end of a run that found no invalid service. */
  lemma ValidateOk(c: ComposeConfig, names: seq<string>, warnings: seq<string>)
    requires Elems(names) == c.services.Keys
    requires forall k :: 0 <= k < |names| ==> !ServiceInvalid(c, c.services[names[k]])
    requires warnings == WarningsOf(c, names)
    ensures !exists n :: n in c.services && ServiceInvalid(c, c.services[n])
    ensures forall w :: w in warnings <==> exists n :: n in c.services && w in ServiceWarnings(c, n, c.services[n])
  {
    forall n | n in c.services ensures !ServiceInvalid(c, c.services[n]) {
      assert n in Elems(names);
      var k :| 0 <= k < |names| && names[k] == n;
    }
    forall w ensures w in warnings <==> exists n :: n in c.services && w in ServiceWarnings(c, n, c.services[n]) {
      WarningsOfMembers(c, names, w);
    }
  }

  // ----- interpolate_string -----

  /** Rust's `str::replace` for a non-empty pattern: every occurrence, found
      left to right without overlap, is replaced. */
  function Replace(s: string, from: string, to: string): string
    requires |from| > 0
    decreases |s|
  {
    if |s| < |from| then s
    else if s[..|from|] == from then to + Replace(s[|from|..], from, to)
    else [s[0]] + Replace(s[1..], from, to)
  }

  /** A text without the pattern's first character is left alone. */
  lemma {:induction false} ReplaceAbsent(s: string, from: string, to: string)
    requires |from| > 0 && from[0] !in s
    ensures Replace(s, from, to) == s
    decreases |s|
  {
    if |s| >= |from| {
      assert s[..|from|][0] == s[0];
      ReplaceAbsent(s[1..], from, to);
    }
  }

  /** The first occurrence is replaced when nothing before it can start one. */
  lemma {:induction false} ReplaceFirst(a: string, from: string, to: string, b: string)
    requires |from| > 0 && from[0] !in a
    ensures Replace(a + from + b, from, to) == a + to + Replace(b, from, to)
    decreases |a|
  {
    var s := a + from + b;
    var rest := Replace(b, from, to);
    if a == [] {
      assert s == from + b && s[..|from|] == from && s[|from|..] == b;
    } else {
      ReplaceLeading(a, from, to, b);
      ReplaceFirst(a[1..], from, to, b);
      ConcatAssoc(a[1..], to, rest);
      ConsConcat(a, to + rest);
      ConcatAssoc(a, to, rest);
    }
  }

  /** A leading character that cannot start the pattern is copied. */
  lemma ReplaceLeading(a: string, from: string, to: string, b: string)
    requires a != [] && |from| > 0 && from[0] !in a
    ensures Replace(a + from + b, from, to) == [a[0]] + Replace(a[1..] + from + b, from, to)
  {
    var s := a + from + b;
    assert s[..|from|] != from by {
      assert s[..|from|][0] == a[0];
    }
    assert s[1..] == a[1..] + from + b;
  }

  /** Replacing a pattern by itself changes nothing. */
  lemma {:induction false} ReplaceSelf(s: string, p: string)
    requires |p| > 0
    ensures Replace(s, p, p) == s
    decreases |s|
  {
    if |s| >= |p| {
      if s[..|p|] == p {
        ReplaceSelf(s[|p|..], p);
        assert s == s[..|p|] + s[|p|..];
      } else {
        ReplaceSelf(s[1..], p);
        assert s == [s[0]] + s[1..];
      }
    }
  }

  /** The environment as a lookup table (keys are distinct in the source's
      hash map, so the order of the pairs does not matter for lookups). */
  function EnvLookup(env: seq<(string, string)>): (m: map<string, string>)
    ensures m.Keys == set p | p in env :: p.0
  {
    if env == [] then map[]
    else EnvLookup(env[1..])[env[0].0 := env[0].1]
  }

  /** Both spellings of one variable replaced by its value. */
  function SubstituteOne(s: string, key: string, value: string): string
  {
    Replace(Replace(s, "${" + key + "}", value), "$" + key, value)
  }

  /** The first loop of `interpolate_string`: each variable, in the hash
      map's iteration order, substituted in turn. */
  function SubstituteAll(s: string, env: seq<(string, string)>): string
    decreases |env|
  {
    if env == [] then s else SubstituteAll(SubstituteOne(s, env[0].0, env[0].1), env[1..])
  }

  predicate IsIdentStart(c: char)
  {
    'a' <= c <= 'z' || 'A' <= c <= 'Z' || c == '_'
  }

  predicate IsIdentChar(c: char)
  {
    IsIdentStart(c) || '0' <= c <= '9'
  }

  /** A name the `${NAME:-default}` pattern accepts. */
  predicate IsIdent(s: string)
  {
    |s| > 0 && IsIdentStart(s[0]) && forall i :: 0 <= i < |s| ==> IsIdentChar(s[i])
  }

  /** Length of the longest run of name characters at the start of `s`. */
  function IdentRun(s: string): (n: nat)
    ensures n <= |s| && forall i :: 0 <= i < n ==> IsIdentChar(s[i])
    ensures n < |s| ==> !IsIdentChar(s[n])
  {
    if s == [] || !IsIdentChar(s[0]) then 0 else 1 + IdentRun(s[1..])
  }

  /** A match of `\$\{([A-Za-z_][A-Za-z0-9_]*):-([^}]*)\}` at the start of
      `s`: the name, the default and the length matched. */
  function DefaultAt(s: string): (r: Option<(string, string, nat)>)
    ensures r.Some? ==> 0 < r.value.2 <= |s|
    ensures r.Some? ==> s[..r.value.2] == "${" + r.value.0 + ":-" + r.value.1 + "}"
    ensures r.Some? ==> IsIdent(r.value.0) && '}' !in r.value.1
    ensures |s| > 0 && s[0] != '$' ==> r.None?
  {
    if |s| < 2 || s[0] != '$' || s[1] != '{' then None
    else
      var n := IdentRun(s[2..]);
      if n == 0 || !IsIdentStart(s[2]) || 2 + n + 2 > |s| || s[2 + n] != ':' || s[3 + n] != '-' then None
      else
        var rest := s[4 + n..];
        match FindChar(rest, '}')
        case None => None
        case Some(k) =>
          var name := s[2..2 + n];
          var dflt := rest[..k];
          assert IsIdent(name) by {
            forall i | 0 <= i < |name|
              ensures IsIdentChar(name[i])
            {
              assert name[i] == s[2..][i];
            }
          }
          DefaultText(s, n, k);
          Some((name, dflt, 4 + n + k + 1))
  }

  /** The text a `${NAME:-default}` match covers, spelled out. */
  lemma DefaultText(s: string, n: nat, k: nat)
    requires 4 + n + k < |s|
    requires s[0] == '$' && s[1] == '{' && s[2 + n] == ':' && s[3 + n] == '-' && s[4 + n + k] == '}'
    ensures s[..4 + n + k + 1] == "${" + s[2..2 + n] + ":-" + s[4 + n..][..k] + "}"
  {
    var rest := s[4 + n..];
    assert s[..4 + n] == "${" + s[2..2 + n] + ":-";
    assert rest[..k + 1] == rest[..k] + "}";
    assert s[..4 + n + k + 1] == s[..4 + n] + rest[..k + 1];
  }

  /** The text `${NAME:-default}`. */
  function DefaultRef(name: string, dflt: string): string
  {
    "${" + name + ":-" + dflt + "}"
  }

  /** The second step of `interpolate_string`: every `${NAME:-default}`,
      leftmost first, becomes the variable's value, or the default when the
      variable is unset. */
  function ReplaceDefaults(s: string, env: map<string, string>): string
    decreases |s|
  {
    if s == [] then []
    else match DefaultAt(s)
      case Some((name, dflt, len)) =>
        (if name in env then env[name] else dflt) + ReplaceDefaults(s[len..], env)
      case None => [s[0]] + ReplaceDefaults(s[1..], env)
  }

  /** `interpolate_string`: the substitution loop, then the defaults. */
  method InterpolateString(s: string, env: seq<(string, string)>) returns (r: string)
    ensures r == ReplaceDefaults(SubstituteAll(s, env), EnvLookup(env))
  {
    r := s;
    var i := 0;
    while i < |env|
      invariant 0 <= i <= |env|
      invariant SubstituteAll(r, env[i..]) == SubstituteAll(s, env)
    {
      assert env[i..][1..] == env[i + 1..];
      r := SubstituteOne(r, env[i].0, env[i].1);
      i := i + 1;
    }
    r := ReplaceDefaults(r, EnvLookup(env));
  }

  /** Text without '$' passes through the defaults step unchanged. */
  lemma {:induction false} NoDollarDefaults(s: string, env: map<string, string>)
    requires '$' !in s
    ensures ReplaceDefaults(s, env) == s
    decreases |s|
  {
    if s != [] {
      NoDollarDefaults(s[1..], env);
      assert s == [s[0]] + s[1..];
    }
  }

  /** Text without '$' passes through the substitution loop unchanged. */
  lemma {:induction false} NoDollarSubstitute(s: string, env: seq<(string, string)>)
    requires '$' !in s
    ensures SubstituteAll(s, env) == s
    decreases |env|
  {
    if env != [] {
      ReplaceAbsent(s, "${" + env[0].0 + "}", env[0].1);
      ReplaceAbsent(s, "$" + env[0].0, env[0].1);
      NoDollarSubstitute(s, env[1..]);
    }
  }

  /** With a single variable set, interpolation is one substitution step
      followed by the defaults step. */
  lemma InterpolateSingle(s: string, key: string, value: string)
    ensures SubstituteAll(s, [(key, value)]) == SubstituteOne(s, key, value)
    ensures EnvLookup([(key, value)]) == map[key := value]
  {
    assert [(key, value)][1..] == [];
  }

  /** `${VAR}` becomes the variable's value. */
  lemma InterpolateBraced(a: string, key: string, value: string, b: string)
    requires '$' !in a && '$' !in b && '$' !in value
    ensures ReplaceDefaults(SubstituteAll(a + "${" + key + "}" + b, [(key, value)]), EnvLookup([(key, value)])) == a + value + b
  {
    var p := "${" + key + "}";
    var s := a + p + b;
    assert s == a + "${" + key + "}" + b;
    InterpolateSingle(s, key, value);
    ReplaceFirst(a, p, value, b);
    ReplaceAbsent(b, p, value);
    var mid := a + value + b;
    assert Replace(s, p, value) == mid;
    ReplaceAbsent(mid, "$" + key, value);
    assert SubstituteOne(s, key, value) == mid;
    NoDollarDefaults(mid, map[key := value]);
  }

  /** `$VAR` becomes the variable's value. */
  lemma InterpolateBare(a: string, key: string, value: string, b: string)
    requires '$' !in a && '$' !in b && '$' !in value && '$' !in key
    requires |key| > 0 && key[0] != '{'
    ensures ReplaceDefaults(SubstituteAll(a + "$" + key + b, [(key, value)]), EnvLookup([(key, value)])) == a + value + b
  {
    InterpolateSingle(a + "$" + key + b, key, value);
    SubstituteBare(a, key, value, b);
    NoDollarDefaults(a + value + b, map[key := value]);
  }

  /** The substitution step on text whose only reference is `$VAR`. */
  lemma SubstituteBare(a: string, key: string, value: string, b: string)
    requires '$' !in a && '$' !in b && '$' !in key
    requires |key| > 0 && key[0] != '{'
    ensures SubstituteOne(a + "$" + key + b, key, value) == a + value + b
  {
    var p := "$" + key;
    var s := a + p + b;
    assert s == a + "$" + key + b;
    ReplaceNoBrace(a, key, b, "${" + key + "}", value);
    assert Replace(s, "${" + key + "}", value) == s;
    ReplaceFirst(a, p, value, b);
    ReplaceAbsent(b, p, value);
  }

  /** The only '$' in the text is followed by something other than '{', so
      no `${...}` pattern occurs. */
  lemma {:induction false} ReplaceNoBrace(a: string, key: string, b: string, p: string, t: string)
    requires '$' !in a && '$' !in b && '$' !in key && |key| > 0 && key[0] != '{'
    requires |p| >= 2 && p[0] == '$' && p[1] == '{'
    ensures Replace(a + "$" + key + b, p, t) == a + "$" + key + b
    decreases |a|
  {
    var s := a + "$" + key + b;
    if |s| >= |p| {
      if a == [] {
        assert s[..|p|][1] == key[0];
        assert s[1..] == key + b;
        ReplaceAbsent(key + b, p, t);
        assert s == [s[0]] + s[1..];
      } else {
        assert s[..|p|][0] == a[0];
        assert s[1..] == a[1..] + "$" + key + b;
        ReplaceNoBrace(a[1..], key, b, p, t);
      }
    }
  }

  /** `${VAR:-d}` falls back to `d` when the variable is unset, and takes
      its value when it is set. */
  lemma InterpolateDefault(a: string, key: string, dflt: string, b: string, env: map<string, string>)
    requires '$' !in a && '$' !in b && '$' !in dflt && '}' !in dflt && IsIdent(key)
    ensures ReplaceDefaults(a + DefaultRef(key, dflt) + b, env) == a + (if key in env then env[key] else dflt) + b
  {
    var s := DefaultRef(key, dflt) + b;
    ConcatAssoc(a, DefaultRef(key, dflt), b);
    DefaultsSkip(a, s, env);
    DefaultMatch(key, dflt, b);
    var len := 4 + |key| + |dflt| + 1;
    assert s[len..] == b;
    var v := if key in env then env[key] else dflt;
    assert ReplaceDefaults(s, env) == v + ReplaceDefaults(b, env);
    NoDollarDefaults(b, env);
    ConcatAssoc(a, v, b);
  }

  /** The pattern is recognised at the start of the text. */
  lemma DefaultMatch(key: string, dflt: string, b: string)
    requires '}' !in dflt && IsIdent(key)
    ensures DefaultAt(DefaultRef(key, dflt) + b) == Some((key, dflt, 4 + |key| + |dflt| + 1))
  {
    var s := "${" + key + ":-" + dflt + "}" + b;
    var tail := ":-" + dflt + "}" + b;
    assert s[2..] == key + tail;
    IdentRunOf(key, tail);
    assert s[2] == key[0];
    assert s[2 + |key|] == ':' && s[3 + |key|] == '-';
    assert s[4 + |key|..] == dflt + "}" + b;
    FindCharAfter(dflt, '}', b);
    assert s[2..2 + |key|] == key;
    assert (dflt + "}" + b)[..|dflt|] == dflt;
  }

  lemma IdentRunOf(key: string, rest: string)
    requires IsIdent(key) && |rest| > 0 && !IsIdentChar(rest[0])
    ensures IdentRun(key + rest) == |key|
    decreases |key|
  {
    if |key| > 1 {
      assert (key + rest)[1..] == key[1..] + rest;
      IdentRunOf2(key[1..], rest);
    } else {
      assert (key + rest)[1..] == rest;
    }
  }

  lemma {:induction false} IdentRunOf2(key: string, rest: string)
    requires (forall i :: 0 <= i < |key| ==> IsIdentChar(key[i])) && |rest| > 0 && !IsIdentChar(rest[0])
    ensures IdentRun(key + rest) == |key|
    decreases |key|
  {
    if key == [] {
      assert key + rest == rest;
    } else {
      assert (key + rest)[1..] == key[1..] + rest;
      IdentRunOf2(key[1..], rest);
    }
  }

  lemma FindCharAfter(a: string, c: char, b: string)
    requires c !in a
    ensures FindChar(a + [c] + b, c) == Some(|a|)
  {
    var s := a + [c] + b;
    assert s[|a|] == c && s[..|a|] == a;
  }

  /** Text before the first '$' is copied through the defaults step. */
  /** A character other than '$' passes through the defaults step. */
  lemma DefaultsPlain(s: string, env: map<string, string>)
    requires s != [] && s[0] != '$'
    ensures ReplaceDefaults(s, env) == [s[0]] + ReplaceDefaults(s[1..], env)
  {
    assert DefaultAt(s).None?;
  }

  lemma {:induction false} DefaultsSkip(a: string, rest: string, env: map<string, string>)
    requires '$' !in a
    ensures ReplaceDefaults(a + rest, env) == a + ReplaceDefaults(rest, env)
    decreases |a|
  {
    if a != [] {
      var s := a + rest;
      var tail := ReplaceDefaults(rest, env);
      assert s[0] == a[0] && a[0] in a;
      DefaultsPlain(s, env);
      assert s[1..] == a[1..] + rest;
      DefaultsSkip(a[1..], rest, env);
      ConsConcat(a, tail);
    } else {
      assert a + rest == rest;
    }
  }

  /** A bare `$NAME` is replaced wherever the text merely starts with the
      name: with only `A` set, `$AB` turns into the value of `A` followed
      by `B`. */
  lemma BarePrefixSubstituted()
    ensures ReplaceDefaults(SubstituteAll("$AB", [("A", "x")]), EnvLookup([("A", "x")])) == "xB"
  {
    InterpolateBare("", "A", "x", "B");
  }
}
