/** The registry's storage backend (`src/registry/storage.rs`). The on-disk
    layout below the storage root is modelled by its path functions; the
    files themselves by maps keyed the way the layout keys them. SHA-256 is
    a function fixed at construction, and manifest JSON decoding a parameter. */
module RegistryStorage {
  import opened Common

  predicate IsHexDigit(c: char)
  {
    ('0' <= c <= '9') || ('a' <= c <= 'f')
  }

  /** Lower-case hexadecimal text, as `format!("{:x}", hash)` renders a digest. */
  type Hex = s: string | forall i :: 0 <= i < |s| ==> IsHexDigit(s[i])

  /** A content digest as the registry writes it. */
  function Digest(hex: string): (r: string)
    ensures IsPrefix("sha256:", r) && StripPrefix(r, "sha256:") == hex
  {
    StripPrefixConcat("sha256:", hex);
    "sha256:" + hex
  }

  /** A digest has no surrounding whitespace, so reading it back from a
      link file and trimming it gives it back. */
  lemma DigestTrimmed(hex: Hex)
    ensures Trim(Digest(hex)) == Digest(hex)
  {
    var d := Digest(hex);
    assert d[0] == 's';
    if |hex| > 0 { assert d[|d| - 1] == hex[|hex| - 1]; }
    TrimUnchanged(d);
  }

  /** `blob_path`: `blobs/sha256/<hash>`, the hash being the digest without
      its `sha256:` prefix (a digest without the prefix is used as is). */
  function BlobPath(digest: string): (r: seq<string>)
    ensures |r| == 3 && r[0] == "blobs" && r[1] == "sha256"
    ensures IsPrefix("sha256:", digest) ==> Digest(r[2]) == digest
    ensures !IsPrefix("sha256:", digest) ==> r[2] == digest
  {
    ["blobs", "sha256", StripPrefix(digest, "sha256:")]
  }

  /** `manifest_path`: a digest reference names a revision directory, any
      other reference the `current` directory of that tag. */
  function ManifestPath(name: string, reference: string): (r: seq<string>)
    ensures |r| == 6 && r[..3] == ["repositories", name, "_manifests"]
    ensures IsPrefix("sha256:", reference) ==>
      r[3] == "revisions" && r[4] == "sha256" && Digest(r[5]) == reference
    ensures !IsPrefix("sha256:", reference) ==>
      r[3] == "tags" && r[4] == reference && r[5] == "current"
  {
    if IsPrefix("sha256:", reference) then
      ["repositories", name, "_manifests", "revisions", "sha256", StripPrefix(reference, "sha256:")]
    else
      ["repositories", name, "_manifests", "tags", reference, "current"]
  }

  /** A stored manifest revision: its `data` and `content-type` files. */
  datatype Revision = Revision(data: Bytes, contentType: string)

  /** The blob digests an image manifest refers to: its config and its layers. */
  datatype ManifestRefs = ManifestRefs(config: string, layers: seq<string>)

  /** Decoding of a manifest body as an OCI image manifest (`serde_json`). */
  type ManifestDecoder = Bytes -> Option<ManifestRefs>

  // ----- the repository walk of `list_repositories` -----

  /** The directory components of a repository name. */
  function Comps(name: string): (r: seq<string>)
    ensures |r| >= 1 && Join(r, '/') == name
  {
    Split(name, '/')
  }

  /** A directory entry the nested walk skips as internal. */
  predicate Hidden(c: string)
  {
    |c| > 0 && c[0] == '_'
  }

  /** A directory the walk descends to: below the top level, no component
      is skipped. */
  predicate Walked(q: seq<string>)
  {
    |q| >= 1 && forall k :: 1 <= k < |q| ==> !Hidden(q[k])
  }

  /** `q/_manifests` exists: `q` is a repository, or a repository name runs
      through `q/_manifests`. */
  predicate Marked(repos: set<string>, q: seq<string>)
  {
    exists m :: m in repos && (Comps(m) == q || (|q| < |Comps(m)| && Comps(m)[..|q| + 1] == q + ["_manifests"]))
  }

  /** What the nested walk pushes: every directory it reaches that holds a
      `_manifests` directory, named by its path. */
  function Found(repos: set<string>): set<string>
  {
    set n, k | n in repos && 1 <= k <= |Comps(n)| && Walked(Comps(n)[..k]) && Marked(repos, Comps(n)[..k])
      :: Join(Comps(n)[..k], '/')
  }

  /** The nested walk from top-level directory `t` pushes something. */
  predicate FoundUnder(repos: set<string>, t: string)
  {
    exists n, k :: n in repos && 1 <= k <= |Comps(n)| && Comps(n)[0] == t && Walked(Comps(n)[..k]) && Marked(repos, Comps(n)[..k])
  }

  /** `list_repositories` as written: what the walks push, and every
      top-level directory whose walk pushes nothing. */
  function Listed(repos: set<string>): set<string>
  {
    Found(repos) + set n | n in repos && !FoundUnder(repos, Comps(n)[0]) :: Comps(n)[0]
  }

  /** A repository whose own path is walked is found, under its top-level
      directory. */
  lemma WalkedFound(repos: set<string>, n: string)
    requires n in repos && Walked(Comps(n))
    ensures n in Found(repos) && FoundUnder(repos, Comps(n)[0])
  {
    var q := Comps(n);
    assert q[..|q|] == q;
    assert Marked(repos, q[..|q|]);
  }

  /** When no name has a hidden component, whatever the walk finds is a
      repository. */
  lemma FoundRepository(repos: set<string>, x: string)
    requires forall n :: n in repos ==> Walked(Comps(n))
    requires x in Found(repos)
    ensures x in repos
  {
    var n, k :| n in repos && 1 <= k <= |Comps(n)| && Walked(Comps(n)[..k]) && Marked(repos, Comps(n)[..k])
      && x == Join(Comps(n)[..k], '/');
    var q := Comps(n)[..k];
    var m :| m in repos && (Comps(m) == q || (|q| < |Comps(m)| && Comps(m)[..|q| + 1] == q + ["_manifests"]));
    if Comps(m) != q {
      ManifestsHidden(m, q);
      assert false;
    }
  }

  /** A name that runs through `q/_manifests` has a hidden component. */
  lemma ManifestsHidden(m: string, q: seq<string>)
    requires 1 <= |q| < |Comps(m)| && Comps(m)[..|q| + 1] == q + ["_manifests"]
    ensures !Walked(Comps(m))
  {
    assert Comps(m)[|q|] == (q + ["_manifests"])[|q|];
  }

  /** When no component of a name after the first starts with '_', the
      listing is exactly the repositories. */
  lemma ListedVisible(repos: set<string>)
    requires forall n :: n in repos ==> Walked(Comps(n))
    ensures Listed(repos) == repos
  {
    FoundVisible(repos);
    BareVisible(repos);
  }

  lemma FoundVisible(repos: set<string>)
    requires forall n :: n in repos ==> Walked(Comps(n))
    ensures Found(repos) == repos
  {
    forall n | n in repos ensures n in Found(repos) {
      WalkedFound(repos, n);
    }
    forall x | x in Found(repos) ensures x in repos {
      FoundRepository(repos, x);
    }
  }

  lemma BareVisible(repos: set<string>)
    requires forall n :: n in repos ==> Walked(Comps(n))
    ensures (set n | n in repos && !FoundUnder(repos, Comps(n)[0]) :: Comps(n)[0]) == {}
  {
    forall n | n in repos ensures FoundUnder(repos, Comps(n)[0]) {
      WalkedFound(repos, n);
    }
  }

  /** A repository below a component that starts with '_' is not listed:
      `a/_b` lists as the bare top-level directory `a`. */
  lemma ListedHidden()
    ensures Listed({"a/_b"}) == {"a"}
  {
    var repos := {"a/_b"};
    assert "a/_b" == "a" + ['/'] + "_b";
    SplitPair("a", "_b", '/');
    var c := Comps("a/_b");
    assert c == ["a", "_b"];
    assert !Marked(repos, c[..1]) by {
      assert c[..2] == c;
      assert "_b" != "_manifests";
      assert c[..1] + ["_manifests"] == ["a", "_manifests"];
    }
    assert !Walked(c[..2]) by { assert c[..2][1] == "_b"; }
    assert Found(repos) == {};
    assert !FoundUnder(repos, "a");
  }

  /** The second pass of `garbage_collect`: deletes the unreferenced blobs. */
  method Sweep(blobs: map<string, Bytes>, referenced: set<string>) returns (kept: map<string, Bytes>, deleted: seq<string>)
    ensures kept == map h | h in blobs && Digest(h) in referenced :: blobs[h]
    ensures Elems(deleted) == set h | h in blobs && Digest(h) !in referenced :: Digest(h)
  {
    deleted := [];
    kept := blobs;
    var todo := blobs.Keys;
    while todo != {}
      invariant todo <= blobs.Keys
      invariant kept == map h | h in blobs && (h in todo || Digest(h) in referenced) :: blobs[h]
      invariant Elems(deleted) == set h | h in blobs && h !in todo && Digest(h) !in referenced :: Digest(h)
      decreases |todo|
    {
      var h :| h in todo;
      ElemsAppend(deleted, Digest(h));
      if Digest(h) !in referenced {
        kept := kept - {h};
        deleted := deleted + [Digest(h)];
      }
      todo := todo - {h};
    }
  }

  class Storage {
    const root: string
    /** Lower-case hex SHA-256 of a byte string. */
    const sha256: Bytes -> Hex
    /** `blobs/sha256/<hash>`. */
    var blobs: map<string, Bytes>
    /** Repositories holding a `_manifests` directory. */
    var repos: set<string>
    /** `repositories/<name>/_manifests/revisions/sha256/<hash>`. */
    var revisions: map<(string, string), Revision>
    /** `repositories/<name>/_manifests/tags/<tag>` directories. */
    var tagDirs: set<(string, string)>
    /** `repositories/<name>/_manifests/tags/<tag>/current/link`: the digest a tag points at. */
    var links: map<(string, string), string>
    /** `uploads/<uuid>/data`. */
    var uploads: map<string, Bytes>

    /** Every tag and revision lives in a repository directory, and every
        tag link lies inside its tag directory. */
    ghost predicate Valid()
      reads this
    {
      && (forall p :: p in links ==> p in tagDirs)
      && (forall p :: p in tagDirs ==> p.0 in repos)
      && (forall p :: p in revisions ==> p.0 in repos)
    }

    /** `RegistryStorage::new`: an empty layout under `root`. */
    constructor(root: string, sha256: Bytes -> Hex)
      ensures Valid()
      ensures this.root == root && this.sha256 == sha256
      ensures blobs == map[] && repos == {} && revisions == map[] && tagDirs == {} && links == map[] && uploads == map[]
    {
      this.root := root;
      this.sha256 := sha256;
      blobs := map[];
      repos := {};
      revisions := map[];
      tagDirs := {};
      links := map[];
      uploads := map[];
    }

    /** What `get_manifest` reads for a reference: a digest names its
        revision, a tag follows its link (trimmed) to a revision. */
    function ManifestOf(name: string, reference: string): (r: Result<(string, Bytes)>)
      reads this
      ensures r.Err? ==> r.error == ImageNotFound(name + ":" + reference)
      ensures IsPrefix("sha256:", reference) ==>
        (r.Ok? <==> (name, StripPrefix(reference, "sha256:")) in revisions)
      ensures !IsPrefix("sha256:", reference) && r.Ok? ==> (name, reference) in links
    {
      var key :=
        if IsPrefix("sha256:", reference) then (name, StripPrefix(reference, "sha256:"))
        else if (name, reference) in links then (name, StripPrefix(Trim(links[(name, reference)]), "sha256:"))
        else (name, "");
      if (IsPrefix("sha256:", reference) || (name, reference) in links) && key in revisions then
        Ok((revisions[key].contentType, revisions[key].data))
      else Err(ImageNotFound(name + ":" + reference))
    }

    /** The tags `list_tags` reports for a repository. */
    function TagsOf(name: string): set<string>
      reads this
    {
      set p | p in tagDirs && p.0 == name :: p.1
    }

    /** The blob digests referenced by the manifest a tag resolves to. */
    function RefsAt(p: (string, string), decode: ManifestDecoder): set<string>
      reads this
    {
      match ManifestOf(p.0, p.1)
      case Err(_) => {}
      case Ok((_, content)) =>
        match decode(content)
        case None => {}
        case Some(m) => {m.config} + Elems(m.layers)
    }

    /** The digests referenced from the given tags. */
    function RefsOf(ps: set<(string, string)>, decode: ManifestDecoder): set<string>
      reads this
    {
      set p, d | p in ps && d in RefsAt(p, decode) :: d
    }

    /** The digests referenced from the tags of the named repositories. */
    function RefsFrom(names: set<string>, decode: ManifestDecoder): set<string>
      reads this
    {
      RefsOf((set p | p in tagDirs && p.0 in names), decode)
    }

    /** Everything reachable from a tagged manifest: what garbage collection
        must keep. */
    function Referenced(decode: ManifestDecoder): set<string>
      reads this
    {
      RefsFrom(repos, decode)
    }

    /** `list_repositories`: the result of the directory walk, each name
        once; the repositories themselves when no name has a component
        after the first that starts with '_'. */
    method ListRepositories() returns (r: seq<string>)
      ensures Elems(r) == Listed(repos) && Distinct(r)
    {
      r := Enumerate(Listed(repos));
    }

    /** `list_tags`: unknown repositories fail; otherwise every tag directory. */
    method ListTags(name: string) returns (r: Result<seq<string>>)
      ensures name !in repos <==> r.Err?
      ensures r.Err? ==> r.error == ImageNotFound(name)
      ensures r.Ok? ==> Elems(r.value) == TagsOf(name) && Distinct(r.value)
    {
      if name !in repos {
        return Err(ImageNotFound(name));
      }
      var tags := Enumerate(TagsOf(name));
      r := Ok(tags);
    }

    method GetManifest(name: string, reference: string) returns (r: Result<(string, Bytes)>)
      ensures r == ManifestOf(name, reference)
    {
      r := ManifestOf(name, reference);
    }

    /** `put_manifest`: stores the body under its own digest and, for a tag
        reference, points the tag at that digest. */
    method PutManifest(name: string, reference: string, contentType: string, body: Bytes) returns (digest: string)
      requires Valid()
      modifies this
      ensures Valid()
      ensures digest == Digest(sha256(body))
      ensures repos == old(repos) + {name}
      ensures revisions == old(revisions)[(name, sha256(body)) := Revision(body, contentType)]
      ensures IsPrefix("sha256:", reference) ==> tagDirs == old(tagDirs) && links == old(links)
      ensures !IsPrefix("sha256:", reference) ==>
        tagDirs == old(tagDirs) + {(name, reference)} && links == old(links)[(name, reference) := digest]
      ensures blobs == old(blobs) && uploads == old(uploads)
      ensures !IsPrefix("sha256:", reference) || reference == digest ==>
        ManifestOf(name, reference) == Ok((contentType, body))
    {
      var hash := sha256(body);
      digest := Digest(hash);
      DigestTrimmed(hash);
      repos := repos + {name};
      revisions := revisions[(name, hash) := Revision(body, contentType)];
      if !IsPrefix("sha256:", reference) {
        tagDirs := tagDirs + {(name, reference)};
        links := links[(name, reference) := digest];
      }
    }

    /** `delete_manifest`: a digest reference removes the revision; a tag
        reference removes the tag's `current` directory (its link) and
        leaves the tag directory in place. */
    method DeleteManifest(name: string, reference: string)
      requires Valid()
      modifies this
      ensures Valid()
      ensures IsPrefix("sha256:", reference) ==>
        revisions == old(revisions) - {(name, StripPrefix(reference, "sha256:"))} && links == old(links)
      ensures !IsPrefix("sha256:", reference) ==>
        links == old(links) - {(name, reference)} && revisions == old(revisions)
      ensures blobs == old(blobs) && uploads == old(uploads) && repos == old(repos) && tagDirs == old(tagDirs)
      ensures ManifestOf(name, reference).Err?
      ensures TagsOf(name) == old(TagsOf(name))
    {
      if IsPrefix("sha256:", reference) {
        revisions := revisions - {(name, StripPrefix(reference, "sha256:"))};
      } else {
        links := links - {(name, reference)};
      }
    }

    function BlobOf(digest: string): (r: Result<Bytes>)
      reads this
      ensures r.Ok? <==> BlobPath(digest)[2] in blobs
      ensures r.Ok? ==> r.value == blobs[BlobPath(digest)[2]]
      ensures r.Err? ==> r.error == ImageNotFound(digest)
    {
      var hash := StripPrefix(digest, "sha256:");
      if hash in blobs then Ok(blobs[hash]) else Err(ImageNotFound(digest))
    }

    /** `blob_exists`, and `mount_blob`, which only checks the blob is there. */
    method BlobExists(digest: string) returns (r: Outcome)
      ensures r.Pass? <==> BlobOf(digest).Ok?
      ensures r.Fail? ==> r.error == ImageNotFound(digest)
    {
      var b := BlobOf(digest);
      r := if b.Ok? then Pass else Fail(b.error);
    }

    method GetBlobSize(digest: string) returns (r: Result<nat>)
      ensures r.Ok? <==> BlobOf(digest).Ok?
      ensures r.Ok? ==> r.value == |BlobOf(digest).value|
      ensures r.Err? ==> r.error == ImageNotFound(digest)
    {
      var b := BlobOf(digest);
      r := if b.Ok? then Ok(|b.value|) else Err(b.error);
    }

    method GetBlob(digest: string) returns (r: Result<Bytes>)
      ensures r == BlobOf(digest)
    {
      r := BlobOf(digest);
    }

    method DeleteBlob(digest: string) returns (r: Outcome)
      modifies this
      ensures r.Pass? <==> old(BlobOf(digest)).Ok?
      ensures r.Fail? ==> r.error == ImageNotFound(digest) && blobs == old(blobs)
      ensures blobs == old(blobs) - {BlobPath(digest)[2]}
      ensures repos == old(repos) && revisions == old(revisions) && tagDirs == old(tagDirs)
      ensures links == old(links) && uploads == old(uploads)
    {
      var hash := StripPrefix(digest, "sha256:");
      if hash !in blobs {
        return Fail(ImageNotFound(digest));
      }
      blobs := blobs - {hash};
      r := Pass;
    }

    /** `create_upload`: an empty `data` file for the session. */
    method CreateUpload(uuid: string)
      modifies this
      ensures uploads == old(uploads)[uuid := []]
      ensures blobs == old(blobs) && repos == old(repos) && revisions == old(revisions)
      ensures tagDirs == old(tagDirs) && links == old(links)
    {
      uploads := uploads[uuid := []];
    }

    /** `append_upload`: appends to an existing upload. */
    method AppendUpload(uuid: string, data: Bytes) returns (r: Outcome)
      modifies this
      ensures r.Pass? <==> uuid in old(uploads)
      ensures r.Fail? ==> r.error == Internal("Upload " + uuid + " not found") && uploads == old(uploads)
      ensures r.Pass? ==> uploads == old(uploads)[uuid := old(uploads)[uuid] + data]
      ensures blobs == old(blobs) && repos == old(repos) && revisions == old(revisions)
      ensures tagDirs == old(tagDirs) && links == old(links)
    {
      if uuid !in uploads {
        return Fail(Internal("Upload " + uuid + " not found"));
      }
      uploads := uploads[uuid := uploads[uuid] + data];
      r := Pass;
    }

    /** `complete_upload`: the upload's digest must equal the expected one;
        then its content becomes the blob of that digest and the upload goes. */
    method CompleteUpload(name: string, uuid: string, expected: string) returns (r: Result<string>)
      modifies this
      ensures uuid !in old(uploads) ==> r == Err(Internal("Upload " + uuid + " not found"))
      ensures uuid in old(uploads) && Digest(sha256(old(uploads)[uuid])) != expected ==>
        r.Err? && r.error.InvalidConfig?
      ensures uuid in old(uploads) && Digest(sha256(old(uploads)[uuid])) == expected ==> r == Ok(expected)
      ensures r.Err? ==> blobs == old(blobs) && uploads == old(uploads)
      ensures r.Ok? ==>
        && uuid in old(uploads)
        && r.value == expected == Digest(sha256(old(uploads)[uuid]))
        && blobs == old(blobs)[sha256(old(uploads)[uuid]) := old(uploads)[uuid]]
        && uploads == old(uploads) - {uuid}
        && BlobOf(r.value) == Ok(old(uploads)[uuid])
      ensures repos == old(repos) && revisions == old(revisions) && tagDirs == old(tagDirs) && links == old(links)
    {
      if uuid !in uploads {
        return Err(Internal("Upload " + uuid + " not found"));
      }
      var content := uploads[uuid];
      var actual := Digest(sha256(content));
      if actual != expected {
        return Err(InvalidConfig("Digest mismatch: expected " + expected + ", got " + actual));
      }
      blobs := blobs[StripPrefix(actual, "sha256:") := content];
      uploads := uploads - {uuid};
      r := Ok(actual);
    }

    method DeleteUpload(uuid: string)
      modifies this
      ensures uploads == old(uploads) - {uuid}
      ensures blobs == old(blobs) && repos == old(repos) && revisions == old(revisions)
      ensures tagDirs == old(tagDirs) && links == old(links)
    {
      uploads := uploads - {uuid};
    }

    /** `garbage_collect`: collects every digest referenced from the
        manifests the tags of the listed repositories resolve to, then
        deletes every blob whose digest is not among them, returning the
        deleted digests. */
    method GarbageCollect(decode: ManifestDecoder) returns (deleted: seq<string>)
      requires Valid()
      modifies this
      ensures Valid()
      ensures blobs == map h | h in old(blobs) && Digest(h) in old(RefsFrom(Listed(repos), decode)) :: old(blobs)[h]
      ensures Elems(deleted) == set h | h in old(blobs) && Digest(h) !in old(RefsFrom(Listed(repos), decode)) :: Digest(h)
      ensures repos == old(repos) && revisions == old(revisions) && tagDirs == old(tagDirs)
      ensures links == old(links) && uploads == old(uploads)
    {
      var repoList := ListRepositories();
      var referenced := CollectReferenced(decode, repoList);
      var kept;
      kept, deleted := Sweep(blobs, referenced);
      blobs := kept;
    }

    /** Garbage collection over every repository rather than the listed
        ones: a blob survives exactly when some tag reaches it. */
    method GarbageCollectAll(decode: ManifestDecoder) returns (deleted: seq<string>)
      requires Valid()
      modifies this
      ensures Valid()
      ensures blobs == map h | h in old(blobs) && Digest(h) in old(Referenced(decode)) :: old(blobs)[h]
      ensures Elems(deleted) == set h | h in old(blobs) && Digest(h) !in old(Referenced(decode)) :: Digest(h)
      ensures repos == old(repos) && revisions == old(revisions) && tagDirs == old(tagDirs)
      ensures links == old(links) && uploads == old(uploads)
    {
      var repoList := Enumerate(repos);
      var referenced := CollectReferenced(decode, repoList);
      var kept;
      kept, deleted := Sweep(blobs, referenced);
      blobs := kept;
    }

    /** When every name is listed, the two collections keep the same blobs. */
    lemma ListedReferencedAll(decode: ManifestDecoder)
      requires forall n :: n in repos ==> Walked(Comps(n))
      ensures RefsFrom(Listed(repos), decode) == Referenced(decode)
    {
      ListedVisible(repos);
    }

    /** A tag of repository `a/_b` reaches blobs that must be kept, yet the
        first pass as written collects nothing, so `GarbageCollect` deletes
        every blob. */
    lemma GarbageCollectMissesHidden(decode: ManifestDecoder)
      requires Valid() && repos == {"a/_b"} && ("a/_b", "t") in tagDirs
      ensures RefsAt(("a/_b", "t"), decode) <= Referenced(decode)
      ensures RefsFrom(Listed(repos), decode) == {}
    {
      ListedHidden();
      assert (set p | p in tagDirs && p.0 in Listed(repos)) == {};
    }

    /** The first pass of `garbage_collect`: every tag of every repository
        in the list; a name that is no repository has no tags. */
    method CollectReferenced(decode: ManifestDecoder, repoList: seq<string>) returns (referenced: set<string>)
      requires Valid()
      ensures referenced == RefsFrom(Elems(repoList), decode)
    {
      referenced := {};
      var i := 0;
      while i < |repoList|
        invariant 0 <= i <= |repoList|
        invariant referenced == RefsOf(PairsOf(repoList[..i]), decode)
        decreases |repoList| - i
      {
        var refs := CollectRepository(repoList[i], decode);
        PairsOfStep(repoList, i);
        RefsOfUnion(PairsOf(repoList[..i]), RepoPairs(repoList[i]), decode);
        referenced := referenced + refs;
        i := i + 1;
      }
      PairsOfAll(repoList);
    }

    /** The tags of one repository, for the first pass. */
    method CollectRepository(repo: string, decode: ManifestDecoder) returns (refs: set<string>)
      requires Valid()
      ensures refs == RefsOf(RepoPairs(repo), decode)
    {
      refs := {};
      var tags := ListTags(repo);
      if tags.Err? {
        assert RepoPairs(repo) == {};
        return;
      }
      var ts := tags.value;
      var j := 0;
      while j < |ts|
        invariant 0 <= j <= |ts|
        invariant refs == RefsOf(TagPairs(repo, ts[..j]), decode)
        decreases |ts| - j
      {
        var m := ManifestOf(repo, ts[j]);
        TagPairsStep(repo, ts, j);
        RefsOfAdd(TagPairs(repo, ts[..j]), (repo, ts[j]), decode);
        if m.Ok? {
          var parsed := decode(m.value.1);
          if parsed.Some? {
            refs := refs + {parsed.value.config} + Elems(parsed.value.layers);
          }
        }
        j := j + 1;
      }
      assert ts[..j] == ts;
      TagPairsAll(repo, ts);
    }

    lemma PairsOfStep(rs: seq<string>, i: nat)
      requires i < |rs|
      ensures PairsOf(rs[..i + 1]) == PairsOf(rs[..i]) + RepoPairs(rs[i])
    {
      assert rs[..i + 1] == rs[..i] + [rs[i]];
      PairsOfAppend(rs[..i], rs[i]);
    }

    lemma PairsOfAll(rs: seq<string>)
      ensures rs[..|rs|] == rs && PairsOf(rs) == set p | p in tagDirs && p.0 in Elems(rs)
    {
      assert rs[..|rs|] == rs;
      forall p | p in tagDirs && p.0 in Elems(rs) ensures p in PairsOf(rs) {
        assert p.0 in Elems(rs);
      }
    }

    lemma TagPairsStep(repo: string, ts: seq<string>, j: nat)
      requires j < |ts|
      ensures TagPairs(repo, ts[..j + 1]) == TagPairs(repo, ts[..j]) + {(repo, ts[j])}
    {
      assert ts[..j + 1] == ts[..j] + [ts[j]];
    }

    lemma TagPairsAll(repo: string, ts: seq<string>)
      requires Elems(ts) == TagsOf(repo)
      ensures TagPairs(repo, ts) == RepoPairs(repo)
    {
      forall p | p in RepoPairs(repo) ensures p in TagPairs(repo, ts) {
        assert p.1 in TagsOf(repo);
      }
      forall p | p in TagPairs(repo, ts) ensures p in RepoPairs(repo) {
        var t :| t in ts && p == (repo, t);
        assert t in Elems(ts);
        var q :| q in tagDirs && q.0 == repo && q.1 == t;
        assert q == p;
      }
    }

    function RepoPairs(repo: string): set<(string, string)>
      reads this
    {
      set p | p in tagDirs && p.0 == repo
    }

    function PairsOf(rs: seq<string>): set<(string, string)>
      reads this
    {
      set p | p in tagDirs && p.0 in rs
    }

    function TagPairs(repo: string, ts: seq<string>): set<(string, string)>
    {
      set t | t in ts :: (repo, t)
    }

    lemma PairsOfAppend(rs: seq<string>, r: string)
      ensures PairsOf(rs + [r]) == PairsOf(rs) + RepoPairs(r)
    {
    }

    lemma RefsOfUnion(a: set<(string, string)>, b: set<(string, string)>, decode: ManifestDecoder)
      ensures RefsOf(a + b, decode) == RefsOf(a, decode) + RefsOf(b, decode)
    {
    }

    lemma RefsOfAdd(ps: set<(string, string)>, p: (string, string), decode: ManifestDecoder)
      ensures RefsOf(ps + {p}, decode) == RefsOf(ps, decode) + RefsAt(p, decode)
    {
    }
  }
}
