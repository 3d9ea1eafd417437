/** The local image store of `src/image/store.rs`: images by id and a map
    from repository tag to image id, updated in place. */
module ImageStore {
  import opened Common

  /** Image configuration (the subset of fields that the engine reads). */
  datatype ImageConfig = ImageConfig(
    user: string,
    env: seq<string>,
    cmd: seq<string>,
    entrypoint: seq<string>,
    workingDir: string,
    labels: map<string, string>,
    stopSignal: string)

  datatype Image = Image(
    id: string,
    repoTags: seq<string>,
    repoDigests: seq<string>,
    parent: string,
    comment: string,
    created: int,
    author: string,
    config: ImageConfig,
    architecture: string,
    os: string,
    size: nat,
    virtualSize: nat,
    layers: seq<string>)

  /** `tags` after every tag in `ts`, in order, has been pointed at `id`. */
  function Retag(tags: map<string, string>, ts: seq<string>, id: string): (r: map<string, string>)
    ensures r.Keys == tags.Keys + Elems(ts)
    ensures forall t :: t in ts ==> r[t] == id
    ensures forall t :: t in tags && t !in ts ==> r[t] == tags[t]
    decreases |ts|
  {
    if ts == [] then tags else Retag(tags[ts[0] := id], ts[1..], id)
  }

  /** Some stored id that starts with `reference`. */
  predicate HasPrefixMatch(images: map<string, Image>, reference: string)
  {
    exists id :: id in images && IsPrefix(reference, id)
  }

  /** Images that carry no tag: the ones `prune` removes. */
  function Dangling(images: map<string, Image>): set<string>
  {
    set id | id in images && images[id].repoTags == []
  }

  class ImageStore {
    var images: map<string, Image>
    var tags: map<string, string>
    const storagePath: string

    constructor (storagePath: string)
      ensures images == map[] && tags == map[] && this.storagePath == storagePath
    {
      images := map[];
      tags := map[];
      this.storagePath := storagePath;
    }

    /** Stores the image under its id and points each of its tags at it. */
    method Store(image: Image)
      modifies this
      ensures images == old(images)[image.id := image]
      ensures tags == Retag(old(tags), image.repoTags, image.id)
    {
      var i := 0;
      while i < |image.repoTags|
        invariant 0 <= i <= |image.repoTags|
        invariant Retag(tags, image.repoTags[i..], image.id) == Retag(old(tags), image.repoTags, image.id)
        invariant images == old(images)
      {
        assert image.repoTags[i..][1..] == image.repoTags[i + 1..];
        tags := tags[image.repoTags[i] := image.id];
        i := i + 1;
      }
      images := images[image.id := image];
    }

    /** Looks an image up by exact id, then by tag, then by id prefix. */
    method Get(reference: string) returns (r: Result<Image>)
      ensures reference in images ==> r == Ok(images[reference])
      ensures reference !in images && reference in tags && tags[reference] in images ==>
                r == Ok(images[tags[reference]])
      ensures reference !in images && !(reference in tags && tags[reference] in images) ==>
                (HasPrefixMatch(images, reference) <==> r.Ok?)
      ensures reference !in images && !(reference in tags && tags[reference] in images) && r.Ok? ==>
                exists id :: id in images && images[id] == r.value && IsPrefix(reference, id)
      ensures r.Err? ==> r.error == ImageNotFound(reference)
    {
      if reference in images {
        return Ok(images[reference]);
      }
      if reference in tags && tags[reference] in images {
        return Ok(images[tags[reference]]);
      }
      var found := FindByPrefix(reference);
      if found.Some? {
        return Ok(images[found.value]);
      }
      r := Err(ImageNotFound(reference));
    }

    /** Some stored id starting with `reference` (map iteration order is not
        specified, so which one is left open). */
    method FindByPrefix(reference: string) returns (r: Option<string>)
      ensures r.Some? ==> r.value in images && IsPrefix(reference, r.value)
      ensures r.None? <==> !HasPrefixMatch(images, reference)
    {
      var todo := images.Keys;
      while todo != {}
        invariant todo <= images.Keys
        invariant forall id :: id in images.Keys - todo ==> !IsPrefix(reference, id)
        decreases todo
      {
        var id :| id in todo;
        if IsPrefix(reference, id) {
          return Some(id);
        }
        todo := todo - {id};
      }
      r := None;
    }

    /** Every stored image, once each. */
    method List() returns (r: seq<Image>)
      ensures forall img :: img in r <==> img in images.Values
    {
      r := [];
      var todo := images.Keys;
      while todo != {}
        invariant todo <= images.Keys
        invariant forall img :: img in r <==> exists id :: id in images.Keys - todo && images[id] == img
        decreases todo
      {
        var id :| id in todo;
        r := r + [images[id]];
        todo := todo - {id};
      }
    }

    /** Which id `remove` acts on: the reference itself if it is an id, else
        what the tag maps to, else some id it is a prefix of. */
    method ResolveForRemove(reference: string) returns (r: Option<string>)
      ensures reference in images ==> r == Some(reference)
      ensures reference !in images && reference in tags ==> r == Some(tags[reference])
      ensures reference !in images && reference !in tags ==>
                (r.Some? <==> HasPrefixMatch(images, reference))
                && (r.Some? ==> r.value in images && IsPrefix(reference, r.value))
    {
      if reference in images {
        return Some(reference);
      }
      if reference in tags {
        return Some(tags[reference]);
      }
      r := FindByPrefix(reference);
    }

    /** Removes an image and the mapping of every tag it lists. The `force`
        flag only governs deleting the on-disk directory. */
    method Remove(reference: string, force: bool) returns (r: Outcome)
      modifies this
      ensures r.Fail? ==> r.error == ImageNotFound(reference) && images == old(images) && tags == old(tags)
      ensures reference in old(images) ==> r == Pass
      ensures reference !in old(images) && reference in old(tags) ==> (r == Pass <==> old(tags)[reference] in old(images))
      ensures reference !in old(images) && reference !in old(tags) ==> (r == Pass <==> HasPrefixMatch(old(images), reference))
      ensures r == Pass ==>
                exists id :: id in old(images)
                  && images == old(images) - {id}
                  && tags == old(tags) - Elems(old(images)[id].repoTags)
                  && (id == reference || (reference !in old(images) && reference in old(tags) && old(tags)[reference] == id)
                      || (reference !in old(images) && reference !in old(tags) && IsPrefix(reference, id)))
      ensures reference in old(images) ==>
                images == old(images) - {reference}
                && tags == old(tags) - Elems(old(images)[reference].repoTags)
    {
      var resolved := ResolveForRemove(reference);
      if resolved.None? || resolved.value !in images {
        return Fail(ImageNotFound(reference));
      }
      var id := resolved.value;
      var ts := images[id].repoTags;
      var i := 0;
      while i < |ts|
        invariant 0 <= i <= |ts|
        invariant tags == old(tags) - Elems(ts[..i])
        invariant images == old(images)
      {
        assert ts[..i + 1] == ts[..i] + [ts[i]];
        ElemsAppend(ts[..i], ts[i]);
        tags := tags - {ts[i]};
        i := i + 1;
      }
      assert ts[..i] == ts;
      images := images - {id};
      r := Pass;
    }

    /** Points `target` at the image named by `source` (an id or a tag) and
        records `target` once in that image's tag list. */
    method Tag(source: string, target: string) returns (r: Outcome)
      modifies this
      ensures source !in old(images) && source !in old(tags) ==>
                r == Fail(ImageNotFound(source)) && images == old(images) && tags == old(tags)
      ensures source in old(images) || source in old(tags) ==> r == Pass
      ensures r == Pass ==>
                var id := if source in old(images) then source else old(tags)[source];
                && tags == old(tags)[target := id]
                && (id in old(images) ==>
                      images == old(images)[id := old(images)[id].(repoTags :=
                        if target in old(images)[id].repoTags then old(images)[id].repoTags
                        else old(images)[id].repoTags + [target])])
                && (id !in old(images) ==> images == old(images))
    {
      var id: string;
      if source in images {
        id := source;
      } else if source in tags {
        id := tags[source];
      } else {
        return Fail(ImageNotFound(source));
      }
      tags := tags[target := id];
      if id in images && target !in images[id].repoTags {
        images := images[id := images[id].(repoTags := images[id].repoTags + [target])];
      }
      r := Pass;
    }

    /** The ids of the images without tags, each once. */
    method DanglingIds() returns (ids: seq<string>)
      ensures forall id :: id in ids <==> id in Dangling(images)
      ensures forall i, j :: 0 <= i < j < |ids| ==> ids[i] != ids[j]
    {
      ids := [];
      var todo := images.Keys;
      while todo != {}
        invariant todo <= images.Keys
        invariant forall id :: id in ids <==> id in Dangling(images) && id !in todo
        invariant forall i, j :: 0 <= i < j < |ids| ==> ids[i] != ids[j]
        decreases todo
      {
        var id :| id in todo;
        if images[id].repoTags == [] {
          ids := ids + [id];
        }
        todo := todo - {id};
      }
    }

    /** Removes every image without tags and returns their ids. */
    method Prune() returns (removed: seq<string>)
      modifies this
      ensures tags == old(tags)
      ensures forall id :: id in removed <==> id in Dangling(old(images))
      ensures images == old(images) - Dangling(old(images))
    {
      removed := DanglingIds();
      var i := 0;
      while i < |removed|
        invariant 0 <= i <= |removed|
        invariant images == old(images) - Elems(removed[..i])
        invariant tags == old(tags)
      {
        var id := removed[i];
        assert id !in Elems(removed[..i]);
        assert id in Dangling(old(images));
        assert id in images && images[id].repoTags == [];
        var _ := Remove(id, true);
        assert removed[..i + 1] == removed[..i] + [id];
        ElemsAppend(removed[..i], id);
        i := i + 1;
      }
      assert removed[..i] == removed;
      assert Elems(removed) == Dangling(old(images));
    }
  }
}
