/** The registry's request handlers (`src/registry/server.rs`): paginated
    catalog and tag listings, manifest and blob access guarded by the size
    and delete settings, and the blob-upload sessions of the OCI
    Distribution Specification. */
module RegistryServer {
  import opened Common
  import opened Ordering
  import opened RegistryStorage

  const OciManifestV1: string := "application/vnd.oci.image.manifest.v1+json"
  const ManifestV2: string := "application/vnd.docker.distribution.manifest.v2+json"
  const OciIndexV1: string := "application/vnd.oci.image.index.v1+json"
  const ManifestListV2: string := "application/vnd.docker.distribution.manifest.list.v2+json"

  datatype RegistryConfig = RegistryConfig(
    address: string,
    port: nat,
    storagePath: string,
    tlsEnabled: bool,
    authEnabled: bool,
    authRealm: string,
    anonymousPull: bool,
    anonymousPush: bool,
    deleteEnabled: bool,
    maxManifestSize: nat,
    maxLayerSize: nat)

  /** `RegistryConfig::default`. */
  function DefaultConfig(): (c: RegistryConfig)
    ensures c.port == 5000 && c.deleteEnabled && !c.authEnabled && c.anonymousPull && !c.anonymousPush
    ensures c.maxManifestSize == 4 * 1024 * 1024 && c.maxLayerSize == 10 * 1024 * 1024 * 1024
  {
    RegistryConfig("0.0.0.0", 5000, "/var/lib/rune/registry", false, false, "Rune Registry",
      true, false, true, 4 * 1024 * 1024, 10 * 1024 * 1024 * 1024)
  }

  /** An upload in progress; the clock readings are parameters. */
  datatype UploadSession = UploadSession(uuid: string, repository: string, offset: nat, startedAt: int, lastChunkAt: int)

  datatype CatalogResponse = CatalogResponse(repositories: seq<string>)

  datatype TagsListResponse = TagsListResponse(name: string, tags: seq<string>)

  /** `validate_manifest`: image manifests and indexes must decode as such;
      any other media type is accepted as is. */
  function ValidateManifest(contentType: string, body: Bytes, isManifest: Bytes -> bool, isIndex: Bytes -> bool): (r: Outcome)
    ensures r.Fail? <==>
      ((contentType == OciManifestV1 || contentType == ManifestV2) && !isManifest(body))
      || ((contentType == OciIndexV1 || contentType == ManifestListV2) && !isIndex(body))
    ensures r.Fail? ==> r.error.InvalidConfig?
  {
    if contentType == OciManifestV1 || contentType == ManifestV2 then
      if isManifest(body) then Pass else Fail(InvalidConfig("Invalid manifest"))
    else if contentType == OciIndexV1 || contentType == ManifestListV2 then
      if isIndex(body) then Pass else Fail(InvalidConfig("Invalid index"))
    else Pass
  }

  /** One page of a listing: the listed names after `last`, sorted, once each, at most
      `n`; every eligible name left off comes after the whole page. */
  ghost predicate IsPage(page: seq<string>, names: set<string>, n: Option<nat>, last: Option<string>)
  {
    && Sorted(page)
    && Distinct(page)
    && (forall x :: x in page ==> x in names && AfterLast(last, x))
    && |page| == Cap(n, |Eligible(names, last)|)
    && (forall x :: x in names && AfterLast(last, x) && x !in page ==>
          forall k :: 0 <= k < |page| ==> Less(page[k], x))
  }

  /** Filter, sort and truncate over a listing that names each entry once. */
  method Page(listed: seq<string>, n: Option<nat>, last: Option<string>) returns (page: seq<string>)
    requires Distinct(listed)
    ensures IsPage(page, Elems(listed), n, last)
  {
    page := Paginate(listed, n, last);
    PaginateSpec(listed, n, last);
    AfterCount(listed, last);
  }

  class Server {
    const config: RegistryConfig
    const storage: Storage
    /** Whether a body decodes as an image manifest, and as an image index. */
    const isManifest: Bytes -> bool
    const isIndex: Bytes -> bool
    var uploads: map<string, UploadSession>

    /** The storage layout is consistent, and each session's offset is the
        number of bytes its upload file holds. */
    ghost predicate Valid()
      reads this, storage
    {
      && storage.Valid()
      && (forall u :: u in uploads ==> u in storage.uploads && uploads[u].offset == |storage.uploads[u]|)
    }

    constructor(config: RegistryConfig, sha256: Bytes -> Hex, isManifest: Bytes -> bool, isIndex: Bytes -> bool)
      ensures Valid() && fresh(storage)
      ensures this.config == config && this.isManifest == isManifest && this.isIndex == isIndex
      ensures uploads == map[] && storage.sha256 == sha256 && storage.root == config.storagePath
      ensures storage.repos == {} && storage.blobs == map[] && storage.uploads == map[]
    {
      this.config := config;
      this.isManifest := isManifest;
      this.isIndex := isIndex;
      storage := new Storage(config.storagePath, sha256);
      uploads := map[];
    }

    /** `GET /v2/_catalog`. */
    method ListRepositories(n: Option<nat>, last: Option<string>) returns (r: CatalogResponse)
      ensures IsPage(r.repositories, Listed(storage.repos), n, last)
    {
      var repos := storage.ListRepositories();
      var page := Page(repos, n, last);
      r := CatalogResponse(page);
    }

    /** `GET /v2/<name>/tags/list`. */
    method ListTags(name: string, n: Option<nat>, last: Option<string>) returns (r: Result<TagsListResponse>)
      ensures r.Err? <==> name !in storage.repos
      ensures r.Err? ==> r.error == ImageNotFound(name)
      ensures r.Ok? ==> r.value.name == name && IsPage(r.value.tags, storage.TagsOf(name), n, last)
    {
      var tags := storage.ListTags(name);
      if tags.Err? {
        return Err(tags.error);
      }
      var page := Page(tags.value, n, last);
      r := Ok(TagsListResponse(name, page));
    }

    method GetManifest(name: string, reference: string) returns (r: Result<(string, Bytes)>)
      ensures r == storage.ManifestOf(name, reference)
    {
      r := storage.GetManifest(name, reference);
    }

    /** `PUT /v2/<name>/manifests/<reference>`: a body over the size limit
        or one that does not decode as its media type is refused and nothing
        is stored; otherwise it is stored and readable under its reference. */
    method PutManifest(name: string, reference: string, contentType: string, body: Bytes) returns (r: Result<string>)
      requires Valid()
      modifies storage
      ensures Valid()
      ensures |body| > config.maxManifestSize ==> r.Err? && r.error.InvalidConfig?
      ensures r.Ok? <==> |body| <= config.maxManifestSize && ValidateManifest(contentType, body, isManifest, isIndex).Pass?
      ensures r.Err? ==> unchanged(storage)
      ensures r.Ok? ==>
        && r.value == Digest(storage.sha256(body))
        && storage.revisions == old(storage.revisions)[(name, storage.sha256(body)) := Revision(body, contentType)]
        && storage.repos == old(storage.repos) + {name}
        && (IsPrefix("sha256:", reference) ==> storage.tagDirs == old(storage.tagDirs) && storage.links == old(storage.links))
        && (!IsPrefix("sha256:", reference) ==>
              && storage.tagDirs == old(storage.tagDirs) + {(name, reference)}
              && storage.links == old(storage.links)[(name, reference) := r.value])
        && (!IsPrefix("sha256:", reference) || reference == r.value ==>
              storage.ManifestOf(name, reference) == Ok((contentType, body)))
      ensures storage.blobs == old(storage.blobs) && storage.uploads == old(storage.uploads)
    {
      if |body| > config.maxManifestSize {
        return Err(InvalidConfig("Manifest size " + NatToString(|body|) + " exceeds maximum " + NatToString(config.maxManifestSize)));
      }
      var valid := ValidateManifest(contentType, body, isManifest, isIndex);
      if valid.Fail? {
        return Err(valid.error);
      }
      var digest := storage.PutManifest(name, reference, contentType, body);
      r := Ok(digest);
    }

    /** `DELETE /v2/<name>/manifests/<reference>`, refused when deletes are disabled. */
    method DeleteManifest(name: string, reference: string) returns (r: Outcome)
      requires Valid()
      modifies storage
      ensures Valid()
      ensures r.Fail? <==> !config.deleteEnabled
      ensures r.Fail? ==> r.error == PermissionDenied("Delete operations are disabled") && unchanged(storage)
      ensures r.Pass? ==> storage.ManifestOf(name, reference).Err?
      ensures r.Pass? && IsPrefix("sha256:", reference) ==>
        && storage.revisions == old(storage.revisions) - {(name, StripPrefix(reference, "sha256:"))}
        && storage.links == old(storage.links)
      ensures r.Pass? && !IsPrefix("sha256:", reference) ==>
        storage.links == old(storage.links) - {(name, reference)} && storage.revisions == old(storage.revisions)
      ensures storage.blobs == old(storage.blobs) && storage.uploads == old(storage.uploads)
      ensures storage.repos == old(storage.repos) && storage.tagDirs == old(storage.tagDirs)
    {
      if !config.deleteEnabled {
        return Fail(PermissionDenied("Delete operations are disabled"));
      }
      storage.DeleteManifest(name, reference);
      r := Pass;
    }

    /** `HEAD /v2/<name>/blobs/<digest>`: the blob's size. */
    method BlobExists(name: string, digest: string) returns (r: Result<nat>)
      ensures r.Ok? <==> storage.BlobOf(digest).Ok?
      ensures r.Ok? ==> r.value == |storage.BlobOf(digest).value|
    {
      r := storage.GetBlobSize(digest);
    }

    method GetBlob(name: string, digest: string) returns (r: Result<Bytes>)
      ensures r == storage.BlobOf(digest)
    {
      r := storage.GetBlob(digest);
    }

    /** `DELETE /v2/<name>/blobs/<digest>`, refused when deletes are disabled. */
    method DeleteBlob(name: string, digest: string) returns (r: Outcome)
      requires Valid()
      modifies storage
      ensures Valid()
      ensures !config.deleteEnabled ==> r == Fail(PermissionDenied("Delete operations are disabled")) && unchanged(storage)
      ensures config.deleteEnabled ==> (r.Pass? <==> old(storage.BlobOf(digest)).Ok?)
      ensures r.Pass? ==> storage.BlobOf(digest).Err?
      ensures config.deleteEnabled ==> storage.blobs == old(storage.blobs) - {BlobPath(digest)[2]}
      ensures storage.uploads == old(storage.uploads) && storage.repos == old(storage.repos)
      ensures storage.revisions == old(storage.revisions) && storage.tagDirs == old(storage.tagDirs)
      ensures storage.links == old(storage.links)
    {
      if !config.deleteEnabled {
        return Fail(PermissionDenied("Delete operations are disabled"));
      }
      r := storage.DeleteBlob(digest);
    }

    /** `POST /v2/<name>/blobs/uploads/`: a cross-repository mount of an
        existing blob answers with the digest and opens nothing; otherwise a
        session `uuid` (freshly drawn by the caller) opens at offset 0. */
    method StartUpload(name: string, digest: Option<string>, mountFrom: Option<string>, uuid: string, now: int)
      returns (r: Result<(string, Option<string>)>)
      requires Valid()
      modifies this, storage
      ensures Valid()
      ensures digest.Some? && mountFrom.Some? && old(storage.BlobOf(digest.value)).Ok? ==>
        r == Ok(("", Some(digest.value))) && uploads == old(uploads) && unchanged(storage)
      ensures !(digest.Some? && mountFrom.Some? && old(storage.BlobOf(digest.value)).Ok?) ==>
        && r == Ok((uuid, None))
        && uploads == old(uploads)[uuid := UploadSession(uuid, name, 0, now, now)]
        && storage.uploads == old(storage.uploads)[uuid := []]
      ensures storage.blobs == old(storage.blobs) && storage.revisions == old(storage.revisions)
      ensures storage.repos == old(storage.repos) && storage.tagDirs == old(storage.tagDirs)
      ensures storage.links == old(storage.links)
    {
      if digest.Some? && mountFrom.Some? {
        var found := storage.BlobExists(digest.value);
        if found.Pass? {
          return Ok(("", Some(digest.value)));
        }
      }
      storage.CreateUpload(uuid);
      uploads := uploads[uuid := UploadSession(uuid, name, 0, now, now)];
      r := Ok((uuid, None));
    }

    /** `GET /v2/<name>/blobs/uploads/<uuid>`: the session's offset. */
    method GetUploadStatus(uuid: string) returns (r: Result<nat>)
      requires Valid()
      ensures uuid !in uploads <==> r.Err?
      ensures r.Err? ==> r.error == Internal("Upload " + uuid + " not found")
      ensures r.Ok? ==> r.value == uploads[uuid].offset == |storage.uploads[uuid]|
    {
      if uuid !in uploads {
        return Err(Internal("Upload " + uuid + " not found"));
      }
      r := Ok(uploads[uuid].offset);
    }

    /** `PATCH /v2/<name>/blobs/uploads/<uuid>`: a chunk must start at the
        session's offset; it is appended and the offset grows by its length. */
    method UploadChunk(uuid: string, data: Bytes, contentRange: Option<(nat, nat)>, now: int) returns (r: Result<nat>)
      requires Valid()
      modifies this, storage
      ensures Valid()
      ensures uuid !in old(uploads) ==> r == Err(Internal("Upload " + uuid + " not found"))
      ensures uuid in old(uploads) && contentRange.Some? && contentRange.value.0 != old(uploads[uuid].offset) ==>
        r.Err? && r.error.InvalidConfig?
      ensures r.Err? ==> uploads == old(uploads) && unchanged(storage)
      ensures r.Ok? <==> uuid in old(uploads) && (contentRange.None? || contentRange.value.0 == old(uploads[uuid].offset))
      ensures r.Ok? ==>
        && r.value == old(uploads[uuid].offset) + |data|
        && uploads == old(uploads)[uuid := old(uploads[uuid]).(offset := r.value, lastChunkAt := now)]
        && storage.uploads == old(storage.uploads)[uuid := old(storage.uploads[uuid]) + data]
      ensures storage.blobs == old(storage.blobs) && storage.revisions == old(storage.revisions)
      ensures storage.repos == old(storage.repos) && storage.tagDirs == old(storage.tagDirs)
      ensures storage.links == old(storage.links)
    {
      if uuid !in uploads {
        return Err(Internal("Upload " + uuid + " not found"));
      }
      var session := uploads[uuid];
      if contentRange.Some? && contentRange.value.0 != session.offset {
        return Err(InvalidConfig("Invalid content range start: expected " + NatToString(session.offset)
          + ", got " + NatToString(contentRange.value.0)));
      }
      var appended := storage.AppendUpload(uuid, data);
      if appended.Fail? {
        // A session always has its upload file.
        assert false;
        return Err(Internal("Upload " + uuid + " not found"));
      }
      var offset := session.offset + |data|;
      uploads := uploads[uuid := session.(offset := offset, lastChunkAt := now)];
      r := Ok(offset);
    }

    /** The bytes a completing request appends: its body, if any. */
    function FinalChunk(data: Option<Bytes>): Bytes
    {
      if data.Some? then data.value else []
    }

    /** `PUT /v2/<name>/blobs/uploads/<uuid>`: appends the final chunk if
        any, then the upload becomes the blob of `digest` when its content
        hashes to it, and the session closes. */
    method CompleteUpload(name: string, uuid: string, digest: string, data: Option<Bytes>, now: int) returns (r: Result<string>)
      requires Valid()
      modifies this, storage
      ensures Valid()
      ensures data.Some? && uuid !in old(uploads) ==> r.Err?
      ensures data.None? && uuid !in old(storage.uploads) ==> r == Err(Internal("Upload " + uuid + " not found"))
      ensures (data.None? || uuid in old(uploads)) && uuid in old(storage.uploads) ==>
        (r.Ok? <==> Digest(storage.sha256(old(storage.uploads[uuid]) + FinalChunk(data))) == digest)
      ensures (data.None? || uuid in old(uploads)) && uuid in old(storage.uploads) &&
              Digest(storage.sha256(old(storage.uploads[uuid]) + FinalChunk(data))) != digest ==>
                r.Err? && r.error.InvalidConfig?
      ensures r.Ok? ==>
        && r.value == digest
        && uuid !in uploads
        && uuid !in storage.uploads
        && uuid in old(storage.uploads)
        && Digest(storage.sha256(old(storage.uploads[uuid]) + FinalChunk(data))) == digest
        && storage.BlobOf(digest) == Ok(old(storage.uploads[uuid]) + FinalChunk(data))
        && storage.blobs == old(storage.blobs)[storage.sha256(old(storage.uploads[uuid]) + FinalChunk(data)) :=
                                               old(storage.uploads[uuid]) + FinalChunk(data)]
        && uploads == old(uploads) - {uuid}
        && storage.uploads == old(storage.uploads) - {uuid}
      ensures r.Err? ==> storage.blobs == old(storage.blobs)
      ensures r.Err? && data.Some? && uuid in old(uploads) ==>
        && uploads == old(uploads)[uuid := old(uploads[uuid]).(offset := old(uploads[uuid].offset) + |data.value|, lastChunkAt := now)]
        && storage.uploads == old(storage.uploads)[uuid := old(storage.uploads[uuid]) + data.value]
      ensures r.Err? && !(data.Some? && uuid in old(uploads)) ==>
        uploads == old(uploads) && storage.uploads == old(storage.uploads)
      ensures storage.revisions == old(storage.revisions) && storage.repos == old(storage.repos)
      ensures storage.tagDirs == old(storage.tagDirs) && storage.links == old(storage.links)
    {
      if data.Some? {
        var chunk := UploadChunk(uuid, data.value, None, now);
        if chunk.Err? {
          return Err(chunk.error);
        }
      }
      ghost var pending := storage.uploads;
      assert uuid in pending ==> pending[uuid] == old(storage.uploads[uuid]) + FinalChunk(data);
      var actual := storage.CompleteUpload(name, uuid, digest);
      if actual.Err? {
        return Err(actual.error);
      }
      if actual.value != digest {
        // The storage layer has already refused a mismatching digest.
        assert false;
        return Err(InvalidConfig("Digest mismatch: expected " + digest));
      }
      uploads := uploads - {uuid};
      r := Ok(actual.value);
    }

    /** `DELETE /v2/<name>/blobs/uploads/<uuid>`. */
    method CancelUpload(uuid: string)
      requires Valid()
      modifies this, storage
      ensures Valid()
      ensures uploads == old(uploads) - {uuid} && storage.uploads == old(storage.uploads) - {uuid}
      ensures storage.blobs == old(storage.blobs) && storage.revisions == old(storage.revisions)
      ensures storage.repos == old(storage.repos) && storage.tagDirs == old(storage.tagDirs)
      ensures storage.links == old(storage.links)
    {
      storage.DeleteUpload(uuid);
      uploads := uploads - {uuid};
    }
  }
}
