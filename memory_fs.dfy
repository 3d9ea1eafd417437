/** The in-memory filesystem the browser builder works on
    (`builder-wasm/src/filesystem/memory.rs`): a map from normalised paths
    to file contents or directory markers. UTF-8 decoding and encoding are
    the standard library's and are passed in as functions; the JSON text of
    `list_dir`, `export_as_json` and `import_from_json` is not modelled, only
    the values it carries. */
module MemoryFs {
  import opened Common

  newtype Byte = b: int | 0 <= b < 256

  type Bytes = seq<Byte>

  /** `MemoryFile`: the bytes of a file, or an empty directory marker. */
  datatype MemoryFile = MemoryFile(content: Bytes, isDir: bool)

  // ----- normalize_path -----

  /** Trailing '/' removed while more than one character is left. */
  function TrimTrailing(s: string): (r: string)
    ensures IsPrefix(r, s)
    ensures |r| <= 1 || r[|r| - 1] != '/'
    ensures |s| > 0 ==> |r| > 0
    ensures forall i :: |r| <= i < |s| ==> s[i] == '/'
    decreases |s|
  {
    if |s| > 1 && s[|s| - 1] == '/' then TrimTrailing(s[..|s| - 1]) else s
  }

  /** `normalize_path`: no trailing '/' (unless the path is the root) and a
      leading '/'. */
  function Normalized(path: string): (r: string)
    ensures |r| > 0 && r[0] == '/'
    ensures r == "/" || r[|r| - 1] != '/'
  {
    var t := TrimTrailing(path);
    if |t| > 0 && t[0] == '/' then t else "/" + t
  }

  /** Normalising twice changes nothing. */
  lemma NormalizedIdempotent(path: string)
    ensures Normalized(Normalized(path)) == Normalized(path)
  {
    var n := Normalized(path);
    assert TrimTrailing(n) == n;
  }

  /** A trailing '/' and a missing leading '/' name the same path. */
  lemma NormalizedAliases(path: string)
    requires |path| == 0 || path[0] != '/'
    ensures Normalized(path + "/") == Normalized(path)
    ensures Normalized("/" + path) == Normalized(path)
  {
    if path != [] {
      assert (path + "/")[..|path + "/"| - 1] == path;
      assert ("/" + path)[1..] == path;
      TrimLeading(path);
    } else {
      assert TrimTrailing("/") == "/";
    }
  }

  lemma TrimLeading(path: string)
    requires |path| > 0 && path[0] != '/'
    ensures TrimTrailing("/" + path) == "/" + TrimTrailing(path)
    decreases |path|
  {
    var s := "/" + path;
    if |path| > 1 && path[|path| - 1] == '/' {
      assert s[..|s| - 1] == "/" + path[..|path| - 1];
      TrimLeading(path[..|path| - 1]);
    }
  }

  /** `normalize_path`, popping one '/' at a time. */
  method NormalizePath(path: string) returns (r: string)
    ensures r == Normalized(path)
  {
    r := path;
    while |r| > 1 && r[|r| - 1] == '/'
      invariant TrimTrailing(r) == TrimTrailing(path)
      decreases |r|
    {
      r := r[..|r| - 1];
    }
    if !(|r| > 0 && r[0] == '/') {
      r := "/" + r;
    }
  }

  // ----- reading -----

  /** `read_file` on a map of files: the bytes of a file; nothing for a
      directory or a missing path. */
  function ReadFrom(files: map<string, MemoryFile>, path: string): (r: Option<Bytes>)
    ensures r.Some? <==> Normalized(path) in files && !files[Normalized(path)].isDir
    ensures r.Some? ==> r.value == files[Normalized(path)].content
  {
    var n := Normalized(path);
    if n in files && !files[n].isDir then Some(files[n].content) else None
  }

  /** What a write leaves behind. */
  function Written(files: map<string, MemoryFile>, path: string, content: Bytes): map<string, MemoryFile>
  {
    files[Normalized(path) := MemoryFile(content, false)]
  }

  /** Reading after a write gives the written bytes back, under every
      spelling of the path; other paths read as before. */
  lemma ReadAfterWrite(files: map<string, MemoryFile>, p: string, q: string, content: Bytes)
    ensures ReadFrom(Written(files, p, content), q)
      == if Normalized(q) == Normalized(p) then Some(content) else ReadFrom(files, q)
  {
  }

  /** The text of a file, when its bytes are valid UTF-8. */
  function ReadTextFrom(files: map<string, MemoryFile>, path: string, decode: Bytes -> Option<string>): (r: Option<string>)
    ensures r.Some? ==> ReadFrom(files, path).Some? && decode(ReadFrom(files, path).value) == r
  {
    match ReadFrom(files, path)
    case None => None
    case Some(bytes) => decode(bytes)
  }

  /** Text written through the encoder reads back unchanged. */
  lemma ReadTextAfterWrite(files: map<string, MemoryFile>, path: string, text: string,
                           decode: Bytes -> Option<string>, encode: string -> Bytes)
    requires decode(encode(text)) == Some(text)
    ensures ReadTextFrom(Written(files, path, encode(text)), path, decode) == Some(text)
  {
    ReadAfterWrite(files, path, path, encode(text));
  }

  // ----- list_dir -----

  /** One entry of a directory listing. */
  datatype DirEntry = DirEntry(name: string, isDir: bool)

  /** The prefix the children of a directory share. */
  function ListPrefix(normalized: string): string
  {
    if |normalized| > 0 && normalized[|normalized| - 1] == '/' then normalized else normalized + "/"
  }

  lemma SplitHead(s: string, c: char)
    ensures Split(s, c)[0] == s || IsPrefix(Split(s, c)[0] + [c], s)
  {
    match FindChar(s, c)
    case None =>
    case Some(i) =>
      assert Split(s, c)[0] == s[..i];
      assert s[..i + 1] == s[..i] + [c];
  }

  /** The name of the immediate child of the directory a stored path lies
      under, if it does. */
  function ChildName(prefix: string, normalized: string, key: string): (r: Option<string>)
    ensures r.Some? ==> r.value != "" && '/' !in r.value && IsPrefix(prefix + r.value, key)
    ensures r.Some? ==> key == prefix + r.value || IsPrefix(prefix + r.value + "/", key)
    ensures r.Some? ==> IsPrefix(prefix, key) && key != normalized
  {
    if IsPrefix(prefix, key) && key != normalized then
      var rest := key[|prefix|..];
      var name := Split(rest, '/')[0];
      SplitHead(rest, '/');
      assert key == prefix + rest;
      if name == "" then None
      else
        assert name == rest || IsPrefix(name + "/", rest);
        assert (prefix + name + "/") == prefix + (name + "/");
        Some(name)
    else None
  }

  function IsDirIn(files: map<string, MemoryFile>, path: string): bool
  {
    path in files && files[path].isDir
  }

  /** The entries the keys give, in the order of `keys`. */
  function Entries(files: map<string, MemoryFile>, prefix: string, normalized: string, keys: seq<string>): (r: seq<DirEntry>)
    ensures |r| <= |keys|
    ensures forall e :: e in r <==>
      (e.isDir == IsDirIn(files, prefix + e.name) && exists k :: k in keys && ChildName(prefix, normalized, k) == Some(e.name))
  {
    if keys == [] then []
    else
      var init := keys[..|keys| - 1];
      var k := keys[|keys| - 1];
      var r := Entries(files, prefix, normalized, init) +
        match ChildName(prefix, normalized, k)
        case Some(name) => [DirEntry(name, IsDirIn(files, prefix + name))]
        case None => [];
      assert forall x :: x in init ==> x in keys;
      assert forall x :: x in keys ==> x in init || x == k;
      r
  }

  /** `list_dir`: one entry per stored path below the directory, named by
      its first segment there (so a directory holding several files is
      listed once per file); `order` is the iteration order of the map. */
  function ListDirIn(files: map<string, MemoryFile>, path: string, order: seq<string>): (r: seq<DirEntry>)
    requires Elems(order) == files.Keys
    ensures forall e :: e in r ==> e.name != "" && '/' !in e.name
    ensures forall e :: e in r ==> exists k :: k in files && IsPrefix(ListPrefix(Normalized(path)) + e.name, k)
    ensures forall e :: e in r ==> e.isDir == IsDirIn(files, ListPrefix(Normalized(path)) + e.name)
  {
    var n := Normalized(path);
    var r := Entries(files, ListPrefix(n), n, order);
    assert forall e :: e in r ==> exists k :: k in files && IsPrefix(ListPrefix(n) + e.name, k) by {
      forall e | e in r
        ensures exists k :: k in files && IsPrefix(ListPrefix(n) + e.name, k)
      {
        var k :| k in order && ChildName(ListPrefix(n), n, k) == Some(e.name);
        assert k in Elems(order);
      }
    }
    r
  }

  /** Every stored path strictly below a directory shows up in its listing. */
  lemma ListDirComplete(files: map<string, MemoryFile>, path: string, order: seq<string>, key: string)
    requires Elems(order) == files.Keys && key in files
    requires ChildName(ListPrefix(Normalized(path)), Normalized(path), key).Some?
    ensures var name := ChildName(ListPrefix(Normalized(path)), Normalized(path), key).value;
      DirEntry(name, IsDirIn(files, ListPrefix(Normalized(path)) + name)) in ListDirIn(files, path, order)
  {
    assert key in Elems(order);
  }

  // ----- export -----

  /** `export_as_json`, before serialisation: the files (not directories)
      whose bytes are valid UTF-8, as text. */
  function Exported(files: map<string, MemoryFile>, decode: Bytes -> Option<string>): (r: map<string, string>)
    ensures forall k :: k in r <==> k in files && !files[k].isDir && decode(files[k].content).Some?
    ensures forall k :: k in r ==> decode(files[k].content) == Some(r[k])
  {
    map k | k in files && !files[k].isDir && decode(files[k].content).Some? :: decode(files[k].content).value
  }

  /** `import_from_json`, after parsing: each pair written as a text file,
      in the order given. */
  function WriteAll(files: map<string, MemoryFile>, pairs: seq<(string, string)>, encode: string -> Bytes): map<string, MemoryFile>
  {
    if pairs == [] then files
    else
      var last := pairs[|pairs| - 1];
      Written(WriteAll(files, pairs[..|pairs| - 1], encode), last.0, encode(last.1))
  }

  /** The pairs of an exported map, in a given order of its keys. */
  function Pairs(exported: map<string, string>, order: seq<string>): (r: seq<(string, string)>)
    requires Elems(order) <= exported.Keys
    ensures |r| == |order|
  {
    seq(|order|, i requires 0 <= i < |order| => (order[i], exported[order[i]]))
  }

  /** Importing what was exported rebuilds the files, when every file is
      text that survives decoding and re-encoding and its path is already
      normalised. */
  lemma {:induction false} ImportRestores(files: map<string, MemoryFile>, order: seq<string>,
                                          decode: Bytes -> Option<string>, encode: string -> Bytes)
    requires forall k :: k in files ==> Normalized(k) == k && !files[k].isDir
    requires forall k :: k in files ==> decode(files[k].content).Some? && encode(decode(files[k].content).value) == files[k].content
    requires Elems(order) <= files.Keys
    ensures WriteAll(map[], Pairs(Exported(files, decode), order), encode) == map k | k in Elems(order) :: files[k]
  {
    var ex := Exported(files, decode);
    if order != [] {
      var init := order[..|order| - 1];
      var k := order[|order| - 1];
      ElemsInit(order);
      assert Elems(order) <= ex.Keys;
      WriteAllPairsStep(ex, order, encode);
      ImportRestores(files, init, decode, encode);
      assert MemoryFile(encode(ex[k]), false) == files[k];
      RestrictExtend(files, Elems(init), k);
    }
  }

  /** The elements of a non-empty sequence are those before the last one and the last one. */
  lemma ElemsInit<T>(s: seq<T>)
    requires s != []
    ensures Elems(s) == Elems(s[..|s| - 1]) + {s[|s| - 1]}
  {
    assert s == s[..|s| - 1] + [s[|s| - 1]];
    ElemsAppend(s[..|s| - 1], s[|s| - 1]);
  }

  /** Writing the pairs of a key order writes those of its prefix, then the last key. */
  lemma WriteAllPairsStep(ex: map<string, string>, order: seq<string>, encode: string -> Bytes)
    requires order != [] && Elems(order) <= ex.Keys
    ensures Elems(order[..|order| - 1]) <= ex.Keys
    ensures WriteAll(map[], Pairs(ex, order), encode)
      == Written(WriteAll(map[], Pairs(ex, order[..|order| - 1]), encode), order[|order| - 1], encode(ex[order[|order| - 1]]))
  {
    ElemsInit(order);
    var pairs := Pairs(ex, order);
    assert pairs[..|pairs| - 1] == Pairs(ex, order[..|order| - 1]);
  }

  lemma RestrictExtend(files: map<string, MemoryFile>, keys: set<string>, k: string)
    requires keys <= files.Keys && k in files
    ensures (map x | x in keys :: files[x])[k := files[k]] == map x | x in keys + {k} :: files[x]
  {
  }

  /** `InMemoryFilesystem`. */
  class InMemoryFilesystem {
    var files: map<string, MemoryFile>

    /** Every stored path is normalised. */
    predicate Valid()
      reads this
    {
      forall k :: k in files ==> Normalized(k) == k
    }

    constructor ()
      ensures files == map[] && Valid()
    {
      files := map[];
    }

    /** `write_file`. */
    method WriteFile(path: string, content: Bytes)
      requires Valid()
      modifies this
      ensures Valid()
      ensures files == Written(old(files), path, content)
    {
      var normalized := NormalizePath(path);
      NormalizedIdempotent(path);
      files := files[normalized := MemoryFile(content, false)];
    }

    /** `write_text_file`: the text's UTF-8 bytes. */
    method WriteTextFile(path: string, text: string, encode: string -> Bytes)
      requires Valid()
      modifies this
      ensures Valid()
      ensures files == Written(old(files), path, encode(text))
    {
      WriteFile(path, encode(text));
    }

    /** `read_file`. */
    function ReadFile(path: string): (r: Option<Bytes>)
      reads this
      ensures r.Some? <==> Normalized(path) in files && !files[Normalized(path)].isDir
      ensures r.Some? ==> r.value == files[Normalized(path)].content
    {
      ReadFrom(files, path)
    }

    /** `read_text_file`. */
    function ReadTextFile(path: string, decode: Bytes -> Option<string>): (r: Option<string>)
      reads this
      ensures ReadFile(path).None? ==> r.None?
      ensures ReadFile(path).Some? ==> r == decode(ReadFile(path).value)
    {
      ReadTextFrom(files, path, decode)
    }

    /** `exists`: a file or a directory is stored under the path. */
    function Exists(path: string): (r: bool)
      reads this
      ensures r <==> ReadFrom(files, path).Some? || IsDirIn(files, Normalized(path))
    {
      Normalized(path) in files
    }

    /** `mkdir`: records a directory marker, replacing a file of that name. */
    method Mkdir(path: string)
      requires Valid()
      modifies this
      ensures Valid()
      ensures files == old(files)[Normalized(path) := MemoryFile([], true)]
      ensures ReadFile(path).None? && IsDir(path)
    {
      var normalized := NormalizePath(path);
      NormalizedIdempotent(path);
      files := files[normalized := MemoryFile([], true)];
    }

    /** `remove`: true exactly when something was stored there; nothing is
      left there afterwards (entries below a directory stay). */
    method Remove(path: string) returns (removed: bool)
      requires Valid()
      modifies this
      ensures Valid()
      ensures removed == (Normalized(path) in old(files))
      ensures files == old(files) - {Normalized(path)}
      ensures !Exists(path)
    {
      var normalized := NormalizePath(path);
      removed := normalized in files;
      files := files - {normalized};
    }

    /** `list_dir`, `order` being the iteration order of the map. */
    function ListDir(path: string, order: seq<string>): (r: seq<DirEntry>)
      reads this
      requires Elems(order) == files.Keys
      ensures forall e :: e in r ==> e.name != "" && '/' !in e.name
      ensures forall e :: e in r ==> exists k :: k in files && IsPrefix(ListPrefix(Normalized(path)) + e.name, k)
      ensures forall e :: e in r ==> e.isDir == IsDirIn(files, ListPrefix(Normalized(path)) + e.name)
    {
      ListDirIn(files, path, order)
    }

    /** `get_size`: the length as a `u32`, truncated. */
    function GetSize(path: string): (r: Option<nat>)
      reads this
      ensures r.Some? <==> Exists(path)
      ensures r.Some? ==> r.value == |files[Normalized(path)].content| % 0x1_0000_0000
    {
      var n := Normalized(path);
      if n in files then Some(|files[n].content| % 0x1_0000_0000) else None
    }

    /** `is_dir`. */
    function IsDir(path: string): (r: bool)
      reads this
      ensures r ==> Exists(path) && ReadFile(path).None?
      ensures Exists(path) && ReadFile(path).None? ==> r
    {
      IsDirIn(files, Normalized(path))
    }

    /** `clear`. */
    method Clear()
      modifies this
      ensures files == map[] && Valid()
    {
      files := map[];
    }

    /** `file_count`: directories included. */
    function FileCount(): (r: nat)
      reads this
      ensures r == |files.Keys|
    {
      |files|
    }

    /** `export_as_json`, before serialisation. */
    function ExportAsJson(decode: Bytes -> Option<string>): (r: map<string, string>)
      reads this
      ensures forall k :: k in r <==> k in files && !files[k].isDir && decode(files[k].content).Some?
      ensures Valid() ==> forall k :: k in r ==> ReadTextFile(k, decode) == Some(r[k])
    {
      Exported(files, decode)
    }

    /** `import_from_json`: `None` is JSON that does not parse into a map
      of strings, which imports nothing and answers false; otherwise the
      pairs are written in map order and the answer is true. */
    method ImportFromJson(parsed: Option<seq<(string, string)>>, encode: string -> Bytes) returns (ok: bool)
      requires Valid()
      modifies this
      ensures Valid()
      ensures ok <==> parsed.Some?
      ensures files == if parsed.Some? then WriteAll(old(files), parsed.value, encode) else old(files)
    {
      if parsed.None? {
        return false;
      }
      var pairs := parsed.value;
      var i := 0;
      while i < |pairs|
        invariant 0 <= i <= |pairs| && Valid()
        invariant files == WriteAll(old(files), pairs[..i], encode)
      {
        assert pairs[..i + 1][..i] == pairs[..i];
        WriteTextFile(pairs[i].0, pairs[i].1, encode);
        i := i + 1;
      }
      assert pairs[..i] == pairs;
      ok := true;
    }
  }
}
