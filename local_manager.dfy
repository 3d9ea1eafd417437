/** The browser client's offline container manager
    (`rune-wasm/src/client/local.rs`): containers and images kept in two
    maps, simulated start and stop, a creation counter, and export/import of
    the whole state. The JSON texts it reads and writes are given here as
    decoded values, and the clock and random source as parameters. */
module LocalClient {
  import opened Common

  datatype LocalContainer = LocalContainer(
    id: string,
    name: string,
    image: string,
    state: string,
    status: string,
    created: string,
    command: seq<string>,
    env: seq<string>,
    labels: map<string, string>,
    ports: seq<string>,
    volumes: seq<string>)

  datatype LocalImage = LocalImage(
    id: string,
    tags: seq<string>,
    size: nat,
    created: string,
    labels: map<string, string>)

  /** What serde made of a JSON argument: the value, or its error text. */
  datatype Decoded<T> = Decoded(value: T) | Undecodable(message: string)

  /** The fields `createContainer` reads from its JSON argument. */
  datatype CreateConfig = CreateConfig(
    image: string,
    name: Option<string>,
    cmd: Option<seq<string>>,
    env: Option<seq<string>>,
    labels: Option<map<string, string>>)

  /** The JSON replies: `{"success": true}` or `{"error": …}`. */
  datatype Reply = Success | Failure(error: string)

  /** The reply of `createContainer`: `{"Id", "Name"}` or `{"error"}`. */
  datatype CreateReply = Created(id: string, name: string) | CreateFailed(error: string)

  /** The exported state, `{"containers", "images", "idCounter"}`. */
  datatype State = State(containers: map<string, LocalContainer>, images: map<string, LocalImage>, idCounter: nat)

  const NotFound := "Container not found"
  const NoSuchImage := "Image not found"

  // ---------------------------------------------------------------------
  // Identifiers

  const LowerHexDigits: string := "0123456789abcdef"

  function Pow16(n: nat): (p: nat)
    ensures p >= 1
  {
    if n == 0 then 1 else 16 * Pow16(n - 1)
  }

  function HexDigitValue(c: char): nat
  {
    if '0' <= c <= '9' then (c as int - '0' as int) as nat
    else if 'a' <= c <= 'f' then (c as int - 'a' as int + 10) as nat
    else 0
  }

  /** The number a string of lower-case hex digits spells. */
  function HexNumber(s: string): nat
  {
    if s == [] then 0 else 16 * HexNumber(s[..|s| - 1]) + HexDigitValue(s[|s| - 1])
  }

  /** `format!("{:0<width>x}", n)`: lower-case hex, left-padded with zeros to
      at least `width` digits. */
  function HexPadded(n: nat, width: nat): (r: string)
    ensures |r| >= 1 && |r| >= width
    decreases n + width
  {
    if n < 16 && width <= 1 then [LowerHexDigits[n]]
    else HexPadded(n / 16, if width > 0 then width - 1 else 0) + [LowerHexDigits[n % 16]]
  }

  /** The padded digits spell the number back. */
  lemma {:induction false} HexPaddedValue(n: nat, width: nat)
    ensures HexNumber(HexPadded(n, width)) == n
    decreases n + width
  {
    var r := HexPadded(n, width);
    if n < 16 && width <= 1 {
      DigitValue(n);
      assert r[..0] == [];
    } else {
      var init := HexPadded(n / 16, if width > 0 then width - 1 else 0);
      HexPaddedValue(n / 16, if width > 0 then width - 1 else 0);
      assert r[..|r| - 1] == init;
      DigitValue(n % 16);
    }
  }

  lemma DigitValue(d: nat)
    requires d < 16
    ensures HexDigitValue(LowerHexDigits[d]) == d
  {
  }

  /** A number that fits takes exactly the padded width. */
  lemma {:induction false} HexPaddedLength(n: nat, width: nat)
    requires width >= 1 && n < Pow16(width)
    ensures |HexPadded(n, width)| == width
    decreases width
  {
    if !(n < 16 && width <= 1) {
      HexPaddedLength(n / 16, width - 1);
    }
  }

  /** `generate_id`: twelve hex digits of the clock, four of the counter and
      eight of the random word. */
  function IdOf(timestamp: nat, counter: nat, random: nat): (id: string)
    ensures |id| >= 24
  {
    HexPadded(timestamp, 12) + HexPadded(counter, 4) + HexPadded(random, 8)
  }

  /** While the clock fits twelve hex digits and the counter four, an id
      spells its three fields back. */
  lemma IdFields(timestamp: nat, counter: nat, random: nat)
    requires timestamp < Pow16(12) && counter < Pow16(4) && random < Pow16(8)
    ensures var id := IdOf(timestamp, counter, random);
      |id| == 24 && HexNumber(id[..12]) == timestamp && HexNumber(id[12..16]) == counter &&
      HexNumber(id[16..]) == random
  {
    HexPaddedLength(timestamp, 12);
    HexPaddedLength(counter, 4);
    HexPaddedLength(random, 8);
    HexPaddedValue(timestamp, 12);
    HexPaddedValue(counter, 4);
    HexPaddedValue(random, 8);
    var id := IdOf(timestamp, counter, random);
    assert id[..12] == HexPadded(timestamp, 12);
    assert id[12..16] == HexPadded(counter, 4);
    assert id[16..] == HexPadded(random, 8);
  }

  /** Ids made at the same millisecond with the same random word still
      differ when the counters do. */
  lemma IdsDistinct(timestamp: nat, c1: nat, c2: nat, random: nat)
    requires timestamp < Pow16(12) && c1 < Pow16(4) && c2 < Pow16(4) && random < Pow16(8)
    ensures IdOf(timestamp, c1, random) == IdOf(timestamp, c2, random) <==> c1 == c2
  {
    IdFields(timestamp, c1, random);
    IdFields(timestamp, c2, random);
  }

  /** The default name: `container_` and the first eight characters of the id. */
  function DefaultName(id: string): (name: string)
    requires |id| >= 8
    ensures |name| == 18 && name[..10] == "container_" && name[10..] == id[..8]
  {
    "container_" + id[..8]
  }

  /** Taking the last hex digit off a number whose low part has `b` digits. */
  lemma ShiftDigit(n: nat, high: nat, p: nat, low: nat)
    requires n == high * (16 * p) + low
    ensures n / 16 == high * p + low / 16 && n % 16 == low % 16
  {
    assert high * (16 * p) == 16 * (high * p);
    assert low == 16 * (low / 16) + low % 16;
  }

  /** The padded digits of `high * 16^b + low` in `a + b` places are those
      of `high` in `a` places, then those of `low` in `b`. */
  lemma {:induction false} HexPaddedSplit(n: nat, a: nat, b: nat, high: nat, low: nat)
    requires a >= 1 && b >= 1 && high < Pow16(a) && low < Pow16(b) && n == high * Pow16(b) + low
    ensures HexPadded(n, a + b) == HexPadded(high, a) + HexPadded(low, b)
    decreases b, 1
  {
    var p := Pow16(b - 1);
    assert Pow16(b) == 16 * p;
    ShiftDigit(n, high, p, low);
    if b == 1 {
      SplitLastDigit(n, a, high, low);
    } else {
      assert low / 16 < p;
      SplitStep(n, a, b, high, low);
    }
  }

  /** One hex place: the last digit of `n` is `low`. */
  lemma SplitLastDigit(n: nat, a: nat, high: nat, low: nat)
    requires a >= 1 && low < 16 && n / 16 == high && n % 16 == low
    ensures HexPadded(n, a + 1) == HexPadded(high, a) + HexPadded(low, 1)
  {
    var digit := [LowerHexDigits[low]];
    assert HexPadded(n, a + 1) == HexPadded(high, a) + digit;
    assert HexPadded(low, 1) == digit;
  }

  /** The step of the split: the last digit of `n` is that of `low`. */
  lemma {:induction false} SplitStep(n: nat, a: nat, b: nat, high: nat, low: nat)
    requires a >= 1 && b >= 2 && high < Pow16(a) && low / 16 < Pow16(b - 1)
    requires n / 16 == high * Pow16(b - 1) + low / 16 && n % 16 == low % 16
    ensures HexPadded(n, a + b) == HexPadded(high, a) + HexPadded(low, b)
    decreases b, 0
  {
    HexPaddedSplit(n / 16, a, b - 1, high, low / 16);
    var digit := [LowerHexDigits[low % 16]];
    var left, middle := HexPadded(high, a), HexPadded(low / 16, b - 1);
    assert HexPadded(n, a + b) == HexPadded(n / 16, a + (b - 1)) + digit;
    assert HexPadded(low, b) == middle + digit;
    assert (left + middle) + digit == left + (middle + digit);
  }

  /** The default name is made of the clock's high eight hex digits only:
      neither the counter nor the random word takes part, so containers
      created without a name within the same 65 536 milliseconds share
      their default name. */
  lemma DefaultNameFromClock(timestamp: nat, counter: nat, random: nat)
    requires timestamp < Pow16(12)
    ensures DefaultName(IdOf(timestamp, counter, random)) == "container_" + HexPadded(timestamp / 65536, 8)
  {
    assert Pow16(4) == 65536;
    assert Pow16(8) == 4294967296 by { assert Pow16(8) == Pow16(4) * Pow16(4) by { PowAdd(4, 4); } }
    assert Pow16(12) == 281474976710656 by { PowAdd(8, 4); }
    var high, low := timestamp / 65536, timestamp % 65536;
    HexPaddedSplit(timestamp, 8, 4, high, low);
    HexPaddedLength(high, 8);
    var id := IdOf(timestamp, counter, random);
    assert id[..8] == HexPadded(high, 8);
  }

  lemma {:induction false} PowAdd(a: nat, b: nat)
    ensures Pow16(a + b) == Pow16(a) * Pow16(b)
    decreases a
  {
    if a > 0 {
      PowAdd(a - 1, b);
    }
  }

  /** A new container: state `created`, missing lists and labels empty. */
  function NewContainer(id: string, config: CreateConfig, created: string): (c: LocalContainer)
    requires |id| >= 8
    ensures c.id == id && c.image == config.image && c.state == "created"
    ensures c.name == (if config.name.Some? then config.name.value else DefaultName(id))
    ensures c.ports == [] && c.volumes == []
  {
    LocalContainer(id, match config.name case Some(n) => n case None => DefaultName(id),
      config.image, "created", "Created", created,
      match config.cmd case Some(v) => v case None => [],
      match config.env case Some(v) => v case None => [],
      match config.labels case Some(v) => v case None => map[],
      [], [])
  }

  // ---------------------------------------------------------------------
  // Listing

  /** The values of a map in an iteration order of its keys. */
  function ValuesIn<K, V>(m: map<K, V>, order: seq<K>): (r: seq<V>)
    requires forall k :: k in order ==> k in m
    ensures |r| == |order| && forall i :: 0 <= i < |r| ==> r[i] == m[order[i]]
  {
    seq(|order|, i requires 0 <= i < |order| => m[order[i]])
  }

  lemma ValuesInExactly<K, V>(m: map<K, V>, order: seq<K>, v: V)
    requires Elems(order) == m.Keys
    ensures v in ValuesIn(m, order) <==> exists k :: k in m && m[k] == v
  {
    var r := ValuesIn(m, order);
    if exists k :: k in m && m[k] == v {
      var k :| k in m && m[k] == v;
      assert k in Elems(order);
      var i :| 0 <= i < |order| && order[i] == k;
      assert r[i] == v;
    }
  }

  predicate Listed(all: bool, c: LocalContainer)
  {
    all || c.state == "running"
  }

  /** The container listing over the maps' iteration order. */
  function ListOf(containers: map<string, LocalContainer>, all: bool, order: seq<string>): seq<LocalContainer>
    requires Elems(order) == containers.Keys
  {
    Filter(ValuesIn(containers, order), (c: LocalContainer) => Listed(all, c))
  }

  /** `list_containers(false)` lists exactly the running containers and
      `list_containers(true)` every container. */
  lemma ListExactly(containers: map<string, LocalContainer>, all: bool, order: seq<string>, c: LocalContainer)
    requires Elems(order) == containers.Keys
    ensures c in ListOf(containers, all, order) <==>
      (exists k :: k in containers && containers[k] == c) && (all || c.state == "running")
  {
    var vs := ValuesIn(containers, order);
    ValuesInExactly(containers, order, c);
    if c in vs && Listed(all, c) {
      FilterKeeps(vs, (c: LocalContainer) => Listed(all, c), c);
    }
  }

  // ---------------------------------------------------------------------
  // The manager

  class LocalContainerManager {
    var containers: map<string, LocalContainer>
    var images: map<string, LocalImage>
    var idCounter: nat

    /** Every container and image is stored under its own id. Importing a
        state does not check this. */
    predicate KeyedById()
      reads this
    {
      && (forall k :: k in containers ==> containers[k].id == k)
      && (forall k :: k in images ==> images[k].id == k)
    }

    /** `new`. */
    constructor ()
      ensures containers == map[] && images == map[] && idCounter == 0
      ensures KeyedById()
    {
      containers := map[];
      images := map[];
      idCounter := 0;
    }

    /** `generate_id`: the counter goes up by one and takes part in the id.
        `timestamp` is the clock in milliseconds, `random` the random word. */
    method GenerateId(timestamp: nat, random: nat) returns (id: string)
      modifies this
      ensures idCounter == old(idCounter) + 1
      ensures id == IdOf(timestamp, idCounter, random)
      ensures containers == old(containers) && images == old(images)
    {
      idCounter := idCounter + 1;
      id := IdOf(timestamp, idCounter, random);
    }

    /** `create_container`: a malformed configuration changes nothing; a
        good one adds a created container under a fresh id. */
    method CreateContainer(config: Decoded<CreateConfig>, timestamp: nat, random: nat, now: string)
      returns (reply: CreateReply)
      modifies this
      ensures config.Undecodable? ==>
        reply == CreateFailed(config.message) &&
        containers == old(containers) && images == old(images) && idCounter == old(idCounter)
      ensures config.Decoded? ==>
        var id := IdOf(timestamp, old(idCounter) + 1, random);
        && idCounter == old(idCounter) + 1
        && containers == old(containers)[id := NewContainer(id, config.value, now)]
        && reply == Created(id, NewContainer(id, config.value, now).name)
        && images == old(images)
      ensures old(KeyedById()) ==> KeyedById()
    {
      if config.Undecodable? {
        return CreateFailed(config.message);
      }
      var id := GenerateId(timestamp, random);
      var container := NewContainer(id, config.value, now);
      containers := containers[id := container];
      reply := Created(id, container.name);
    }

    /** The common shape of `start_container` and `stop_container`. */
    method SetState(id: string, state: string, status: string) returns (reply: Reply)
      modifies this
      ensures id in old(containers) ==>
        reply == Success && containers == old(containers)[id := old(containers)[id].(state := state, status := status)]
      ensures id !in old(containers) ==> reply == Failure(NotFound) && containers == old(containers)
      ensures images == old(images) && idCounter == old(idCounter)
      ensures old(KeyedById()) ==> KeyedById()
    {
      if id in containers {
        containers := containers[id := containers[id].(state := state, status := status)];
        reply := Success;
      } else {
        reply := Failure(NotFound);
      }
    }

    /** `start_container`: simulated; the container becomes `running`. */
    method StartContainer(id: string) returns (reply: Reply)
      modifies this
      ensures id in old(containers) ==>
        reply == Success && containers == old(containers)[id := old(containers)[id].(state := "running", status := "Up")]
      ensures id !in old(containers) ==> reply == Failure(NotFound) && containers == old(containers)
      ensures images == old(images) && idCounter == old(idCounter)
      ensures old(KeyedById()) ==> KeyedById()
    {
      reply := SetState(id, "running", "Up");
    }

    /** `stop_container`: simulated; the container becomes `exited`. */
    method StopContainer(id: string) returns (reply: Reply)
      modifies this
      ensures id in old(containers) ==>
        reply == Success && containers == old(containers)[id := old(containers)[id].(state := "exited", status := "Exited (0)")]
      ensures id !in old(containers) ==> reply == Failure(NotFound) && containers == old(containers)
      ensures images == old(images) && idCounter == old(idCounter)
      ensures old(KeyedById()) ==> KeyedById()
    {
      reply := SetState(id, "exited", "Exited (0)");
    }

    /** `remove_container`: fails exactly when the id is absent. */
    method RemoveContainer(id: string) returns (reply: Reply)
      modifies this
      ensures reply == (if id in old(containers) then Success else Failure(NotFound))
      ensures containers == old(containers) - {id}
      ensures images == old(images) && idCounter == old(idCounter)
      ensures old(KeyedById()) ==> KeyedById()
    {
      if id in containers {
        containers := containers - {id};
        reply := Success;
      } else {
        reply := Failure(NotFound);
      }
    }

    /** `list_containers`, in the map's iteration order `order`. */
    function ListContainers(all: bool, order: seq<string>): (r: seq<LocalContainer>)
      reads this
      requires Elems(order) == containers.Keys
      ensures |r| <= |order|
      ensures forall i :: 0 <= i < |r| ==> all || r[i].state == "running"
      ensures forall k :: k in containers && (all || containers[k].state == "running") ==> containers[k] in r
      ensures forall i :: 0 <= i < |r| ==> exists k :: k in containers && containers[k] == r[i]
    {
      forall k | k in containers && (all || containers[k].state == "running")
        ensures containers[k] in ListOf(containers, all, order)
      {
        ListExactly(containers, all, order, containers[k]);
      }
      var r := ListOf(containers, all, order);
      forall i | 0 <= i < |r| ensures exists k :: k in containers && containers[k] == r[i] {
        ListExactly(containers, all, order, r[i]);
      }
      r
    }

    /** `get_container`. */
    function GetContainer(id: string): (r: Option<LocalContainer>)
      reads this
      ensures r.Some? <==> id in containers
      ensures r.Some? ==> r.value == containers[id]
    {
      if id in containers then Some(containers[id]) else None
    }

    /** `add_image`: stored under its id, replacing any image of that id. */
    method AddImage(id: string, tags: seq<string>, size: nat, now: string)
      modifies this
      ensures images == old(images)[id := LocalImage(id, tags, size, now, map[])]
      ensures containers == old(containers) && idCounter == old(idCounter)
      ensures old(KeyedById()) ==> KeyedById()
    {
      images := images[id := LocalImage(id, tags, size, now, map[])];
    }

    /** `list_images`, in the map's iteration order `order`. */
    function ListImages(order: seq<string>): (r: seq<LocalImage>)
      reads this
      requires Elems(order) == images.Keys
      ensures |r| == |order| && forall i :: 0 <= i < |r| ==> r[i] == images[order[i]]
      ensures forall k :: k in images ==> images[k] in r
    {
      forall k | k in images ensures images[k] in ValuesIn(images, order) {
        var i :| 0 <= i < |order| && order[i] == k;
      }
      ValuesIn(images, order)
    }

    /** `remove_image`: fails exactly when the id is absent. */
    method RemoveImage(id: string) returns (reply: Reply)
      modifies this
      ensures reply == (if id in old(images) then Success else Failure(NoSuchImage))
      ensures images == old(images) - {id}
      ensures containers == old(containers) && idCounter == old(idCounter)
      ensures old(KeyedById()) ==> KeyedById()
    {
      if id in images {
        images := images - {id};
        reply := Success;
      } else {
        reply := Failure(NoSuchImage);
      }
    }

    /** `export_state`. */
    function ExportState(): (r: State)
      reads this
      ensures r.containers == containers && r.images == images && r.idCounter == idCounter
    {
      State(containers, images, idCounter)
    }

    /** `import_state`: a state that decodes replaces the whole manager; one
        that does not leaves it as it was. Importing what `export_state`
        wrote therefore restores containers, images and counter. */
    method ImportState(parsed: Option<State>) returns (ok: bool)
      modifies this
      ensures ok <==> parsed.Some?
      ensures ok ==> ExportState() == parsed.value
      ensures !ok ==> ExportState() == old(ExportState())
    {
      match parsed {
        case Some(state) =>
          containers := state.containers;
          images := state.images;
          idCounter := state.idCounter;
          ok := true;
        case None =>
          ok := false;
      }
    }

    /** `container_count`. */
    function ContainerCount(): (r: nat)
      reads this
      ensures r == |containers.Keys|
    {
      |containers|
    }

    /** The count is the length of the full listing over any iteration
        order that names each container once. */
    lemma CountListsAll(order: seq<string>)
      requires Elems(order) == containers.Keys && Distinct(order)
      ensures ContainerCount() == |ListContainers(true, order)|
    {
      DistinctCard(order);
      var vs := ValuesIn(containers, order);
      FilterAll(vs, (c: LocalContainer) => Listed(true, c));
    }

    /** `image_count`. */
    function ImageCount(): (r: nat)
      reads this
      ensures r == |images.Keys|
    {
      |images|
    }

    /** The count is the length of the image listing over any iteration
        order that names each image once. */
    lemma ImageCountLists(order: seq<string>)
      requires Elems(order) == images.Keys && Distinct(order)
      ensures ImageCount() == |ListImages(order)|
    {
      DistinctCard(order);
    }

    /** `clear`: both maps emptied and the counter reset. */
    method Clear()
      modifies this
      ensures containers == map[] && images == map[] && idCounter == 0
      ensures KeyedById()
    {
      containers := map[];
      images := map[];
      idCounter := 0;
    }
  }

  /** Export then import restores a manager: another manager that imports
      the exported state ends equal to it. */
  method ExportImport(source: LocalContainerManager, target: LocalContainerManager)
    requires source != target
    modifies target
    ensures target.ExportState() == source.ExportState()
    ensures target.ContainerCount() == source.ContainerCount() && target.ImageCount() == source.ImageCount()
  {
    var ok := target.ImportState(Some(source.ExportState()));
  }

  /** A container started then stopped is `exited`, whatever it was before,
      and no other container changes. */
  method StartThenStop(m: LocalContainerManager, id: string)
    modifies m
    requires id in m.containers
    ensures id in m.containers && m.containers[id].state == "exited" && m.containers[id].status == "Exited (0)"
    ensures forall k :: k in old(m.containers) && k != id ==> k in m.containers && m.containers[k] == old(m.containers[k])
    ensures m.containers.Keys == old(m.containers.Keys)
  {
    var a := m.StartContainer(id);
    var b := m.StopContainer(id);
  }
}
