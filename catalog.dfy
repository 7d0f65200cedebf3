/**
  The catalog store: the `Repository` whose state is the set of stored
  image aggregates. `InitSchema` rebuilds it empty; `Put` assembles one
  aggregate from a runtime image record and its inspect record and
  inserts it. The read operations are the functions of `Queries` applied
  to `images`.
*/
module CatalogStore {
  import opened Entities
  import opened TagSplit
  import opened SqlLike
  import opened Queries

  /** Every repository tag has a colon; `Put` faults on a tag without one. */
  predicate Splittable(img: ApiImage)
  {
    forall t :: t in img.repoTags ==> Colon in t
  }

  /** The tag row `Put` derives from the repository tag `t`. */
  function TagRow(owner: nat, t: string): (r: ImageTag)
    requires Colon in t
    ensures r.imageId == owner && r.tag == t
    ensures Colon !in r.name && Colon !in r.version
    ensures |r.name| < |t| && t[..|r.name|] == r.name && t[|r.name|] == Colon
    ensures Colons(t) == 1 <==> t == r.name + [Colon] + r.version
  {
    TagParts(t);
    ImageTag(owner, TagName(t), TagVersion(t), t)
  }

  /** The label row `Put` derives from the label `k` = `v`. */
  function LabelRow(owner: nat, k: string, v: string): ImageLabel
  {
    ImageLabel(owner, k, v, k + [Colon] + v)
  }

  /** The composite of a label row splits back into its key and its value at the colon after the key. */
  lemma LabelComposite(owner: nat, k: string, v: string)
    ensures var r := LabelRow(owner, k, v);
      && |r.composite| == |r.key| + 1 + |r.value|
      && r.composite[..|r.key|] == k && r.composite[|r.key|] == Colon && r.composite[|r.key| + 1..] == v
  {
    var c := k + [Colon] + v;
    assert c[..|k|] == k;
    assert c[|k| + 1..] == v;
  }

  /** The volume row `Put` derives from the volume `k` and its descriptor `d`. */
  function VolumeRow(owner: nat, k: string, d: VolumeDescriptor, fmt: Formatters): ImageVolume
  {
    ImageVolume(owner, k, fmt.volumeJson(d))
  }

  /** One tag row per repository tag, in the same order. */
  ghost predicate TagsFrom(owner: nat, tags: seq<ImageTag>, repoTags: seq<string>)
    requires forall t :: t in repoTags ==> Colon in t
  {
    |tags| == |repoTags| && forall i :: 0 <= i < |tags| ==> tags[i] == TagRow(owner, repoTags[i])
  }

  /** Exactly one label row per entry of the label map, in no particular order. */
  ghost predicate LabelsFrom(owner: nat, labels: seq<ImageLabel>, m: map<string, string>)
  {
    && |labels| == |m|
    && (forall i :: 0 <= i < |labels| ==> labels[i].key in m && labels[i] == LabelRow(owner, labels[i].key, m[labels[i].key]))
    && (forall i, j :: 0 <= i < j < |labels| ==> labels[i].key != labels[j].key)
    && (forall k :: k in m ==> exists i :: 0 <= i < |labels| && labels[i].key == k)
  }

  /** Exactly one volume row per entry of the volume map, in no particular order. */
  ghost predicate VolumesFrom(owner: nat, volumes: seq<ImageVolume>, m: map<string, VolumeDescriptor>, fmt: Formatters)
  {
    && |volumes| == |m|
    && (forall i :: 0 <= i < |volumes| ==> volumes[i].volume in m && volumes[i] == VolumeRow(owner, volumes[i].volume, m[volumes[i].volume], fmt))
    && (forall i, j :: 0 <= i < j < |volumes| ==> volumes[i].volume != volumes[j].volume)
    && (forall k :: k in m ==> exists i :: 0 <= i < |volumes| && volumes[i].volume == k)
  }

  /** `x` is the aggregate `Put` stores for `img` and `details` under primary key `owner`. */
  ghost predicate Ingested(x: Image, owner: nat, img: ApiImage, details: ImageDetails, fmt: Formatters)
    requires Splittable(img)
  {
    && x.id == owner
    && x.shortId == fmt.truncateId(img.id)
    && x.longId == img.id
    && x.createdAt == fmt.formatCreated(img.created)
    && x.size == fmt.byteSize(ToUint64(img.size))
    && x.virtualSize == fmt.byteSize(ToUint64(img.virtualSize))
    && TagsFrom(owner, x.tags, img.repoTags)
    && LabelsFrom(owner, x.labels, img.labels)
    && VolumesFrom(owner, x.volumes, details.containerConfig.volumes, fmt)
    && x.blob == ImageBlob(owner, fmt.summaryJson(img), fmt.detailsJson(details))
  }

  /** The tag loop of `Put`: one row per repository tag, name and version from `strings.Split`. */
  method BuildTags(repoTags: seq<string>) returns (tags: seq<ImageTag>)
    requires forall t :: t in repoTags ==> Colon in t
    ensures TagsFrom(0, tags, repoTags)
  {
    tags := [];
    for n := 0 to |repoTags|
      invariant |tags| == n
      invariant forall i :: 0 <= i < n ==> tags[i] == TagRow(0, repoTags[i])
    {
      var tag := repoTags[n];
      ColonsIff(tag);
      var name := Split(tag)[0];
      var version := Split(tag)[1];
      tags := tags + [ImageTag(0, name, version, tag)];
    }
  }

  /** The label loop of `Put`: the map's entries in an order the model leaves open. */
  method BuildLabels(m: map<string, string>) returns (labels: seq<ImageLabel>)
    ensures LabelsFrom(0, labels, m)
  {
    labels := [];
    var keys := m.Keys;
    while keys != {}
      invariant keys <= m.Keys
      invariant |labels| + |keys| == |m|
      invariant forall i :: 0 <= i < |labels| ==>
        labels[i].key in m && labels[i].key !in keys && labels[i] == LabelRow(0, labels[i].key, m[labels[i].key])
      invariant forall i, j :: 0 <= i < j < |labels| ==> labels[i].key != labels[j].key
      invariant forall k :: k in m && k !in keys ==> exists i :: 0 <= i < |labels| && labels[i].key == k
      decreases keys
    {
      var k :| k in keys;
      var v := m[k];
      ghost var before := labels;
      labels := labels + [ImageLabel(0, k, v, k + [Colon] + v)];
      keys := keys - {k};
      forall k' | k' in m && k' !in keys ensures exists i :: 0 <= i < |labels| && labels[i].key == k' {
        if k' == k {
          assert labels[|before|].key == k';
        } else {
          var i :| 0 <= i < |before| && before[i].key == k';
          assert labels[i].key == k';
        }
      }
    }
  }

  /** The volume loop of `Put`: the map's entries in an order the model leaves open. */
  method BuildVolumes(m: map<string, VolumeDescriptor>, fmt: Formatters) returns (volumes: seq<ImageVolume>)
    ensures VolumesFrom(0, volumes, m, fmt)
  {
    volumes := [];
    var keys := m.Keys;
    while keys != {}
      invariant keys <= m.Keys
      invariant |volumes| + |keys| == |m|
      invariant forall i :: 0 <= i < |volumes| ==>
        volumes[i].volume in m && volumes[i].volume !in keys && volumes[i] == VolumeRow(0, volumes[i].volume, m[volumes[i].volume], fmt)
      invariant forall i, j :: 0 <= i < j < |volumes| ==> volumes[i].volume != volumes[j].volume
      invariant forall k :: k in m && k !in keys ==> exists i :: 0 <= i < |volumes| && volumes[i].volume == k
      decreases keys
    {
      var k :| k in keys;
      ghost var before := volumes;
      volumes := volumes + [ImageVolume(0, k, fmt.volumeJson(m[k]))];
      keys := keys - {k};
      forall k' | k' in m && k' !in keys ensures exists i :: 0 <= i < |volumes| && volumes[i].volume == k' {
        if k' == k {
          assert volumes[|before|].volume == k';
        } else {
          var i :| 0 <= i < |before| && before[i].volume == k';
          assert volumes[i].volume == k';
        }
      }
    }
  }

  /**
    The first part of `Put`: the aggregate built in memory, before the
    store assigns its keys (every key is still 0).
  */
  method Assemble(img: ApiImage, details: ImageDetails, fmt: Formatters) returns (image: Image)
    requires Splittable(img)
    ensures Ingested(image, 0, img, details, fmt)
  {
    var tags := BuildTags(img.repoTags);
    var labels := BuildLabels(img.labels);
    var volumes := BuildVolumes(details.containerConfig.volumes, fmt);
    image := Image(
      0,
      fmt.truncateId(img.id),
      img.id,
      fmt.formatCreated(img.created),
      fmt.byteSize(ToUint64(img.size)),
      fmt.byteSize(ToUint64(img.virtualSize)),
      tags,
      labels,
      volumes,
      ImageBlob(0, fmt.summaryJson(img), fmt.detailsJson(details)));
  }

  function KeyTags(tags: seq<ImageTag>, key: nat): seq<ImageTag>
  {
    seq(|tags|, i requires 0 <= i < |tags| => tags[i].(imageId := key))
  }

  function KeyLabels(labels: seq<ImageLabel>, key: nat): seq<ImageLabel>
  {
    seq(|labels|, i requires 0 <= i < |labels| => labels[i].(imageId := key))
  }

  function KeyVolumes(volumes: seq<ImageVolume>, key: nat): seq<ImageVolume>
  {
    seq(|volumes|, i requires 0 <= i < |volumes| => volumes[i].(imageId := key))
  }

  /** What the store's insertion does to an aggregate: the new primary key, copied into every dependent row. */
  function AssignKeys(x: Image, key: nat): (r: Image)
    ensures r.id == key && Owned(r)
  {
    x.(id := key,
       tags := KeyTags(x.tags, key),
       labels := KeyLabels(x.labels, key),
       volumes := KeyVolumes(x.volumes, key),
       blob := x.blob.(imageId := key))
  }

  lemma TagsKeyed(tags: seq<ImageTag>, key: nat, repoTags: seq<string>)
    requires forall t :: t in repoTags ==> Colon in t
    requires TagsFrom(0, tags, repoTags)
    ensures TagsFrom(key, KeyTags(tags, key), repoTags)
  {
  }

  lemma LabelsKeyed(labels: seq<ImageLabel>, key: nat, m: map<string, string>)
    requires LabelsFrom(0, labels, m)
    ensures LabelsFrom(key, KeyLabels(labels, key), m)
  {
    var r := KeyLabels(labels, key);
    forall k | k in m ensures exists i :: 0 <= i < |r| && r[i].key == k {
      var i :| 0 <= i < |labels| && labels[i].key == k;
      assert r[i].key == k;
    }
  }

  lemma VolumesKeyed(volumes: seq<ImageVolume>, key: nat, m: map<string, VolumeDescriptor>, fmt: Formatters)
    requires VolumesFrom(0, volumes, m, fmt)
    ensures VolumesFrom(key, KeyVolumes(volumes, key), m, fmt)
  {
    var r := KeyVolumes(volumes, key);
    forall k | k in m ensures exists i :: 0 <= i < |r| && r[i].volume == k {
      var i :| 0 <= i < |volumes| && volumes[i].volume == k;
      assert r[i].volume == k;
    }
  }

  /** Assigning the key keeps everything `Put` derived from its inputs. */
  lemma KeysAssigned(x: Image, key: nat, img: ApiImage, details: ImageDetails, fmt: Formatters)
    requires Splittable(img) && Ingested(x, 0, img, details, fmt)
    ensures Ingested(AssignKeys(x, key), key, img, details, fmt)
  {
    TagsKeyed(x.tags, key, img.repoTags);
    LabelsKeyed(x.labels, key, img.labels);
    VolumesKeyed(x.volumes, key, details.containerConfig.volumes, fmt);
  }

  /** Appending an aggregate with a larger key that owns its rows keeps the store well formed. */
  lemma AppendWellFormed(table: seq<Image>, x: Image)
    requires WellFormed(table) && x.id >= 1 && Owned(x)
    requires forall i :: 0 <= i < |table| ==> table[i].id < x.id
    ensures WellFormed(table + [x])
    ensures forall i :: 0 <= i < |table + [x]| ==> (table + [x])[i].id <= x.id
    ensures (table + [x])[..|table|] == table && (table + [x])[|table|] == x
  {
  }

  class Catalog {
    /** The stored aggregates in primary-key order. */
    var images: seq<Image>
    /** The primary key the next insertion receives. */
    var nextId: nat

    ghost predicate Valid()
      reads this
    {
      && nextId >= 1
      && WellFormed(images)
      && forall i :: 0 <= i < |images| ==> images[i].id < nextId
    }

    /** A store whose tables are empty. */
    constructor ()
      ensures Valid() && images == [] && nextId == 1
    {
      images := [];
      nextId := 1;
    }

    /**
      `InitSchema`: drop the five tables and create them again. Every
      stored aggregate is gone and key numbering starts over, whatever the
      store held before.
    */
    method InitSchema()
      modifies this
      ensures Valid() && images == [] && nextId == 1
    {
      images := [];
      nextId := 1;
    }

    /**
      `Put`: insert the aggregate derived from `img` and `details` under
      the next primary key; the images stored before are unchanged.
    */
    method Put(img: ApiImage, details: ImageDetails, fmt: Formatters)
      requires Valid() && Splittable(img)
      modifies this
      ensures Valid()
      ensures |images| == |old(images)| + 1 && images[..|old(images)|] == old(images)
      ensures nextId == old(nextId) + 1
      ensures Ingested(images[|old(images)|], old(nextId), img, details, fmt)
    {
      var image := Assemble(img, details, fmt);
      var row := AssignKeys(image, nextId);
      KeysAssigned(image, nextId, img, details, fmt);
      AppendWellFormed(images, row);
      images := images + [row];
      nextId := nextId + 1;
    }
  }

  // -----------------------------------------------------------------------
  // What a caller can read back after `Put`.

  /** `Put` then `Exists`: the new short identity is found. */
  lemma PutThenExists(table: seq<Image>, x: Image)
    ensures Exists(table + [x], x.shortId)
  {
    assert (table + [x])[|table|] == x;
  }

  /**
    `Put` then `FindByLongId`: when no earlier image has the same full
    identity, the lookup returns the new aggregate with all its relations.
  */
  lemma PutThenFindByLongId(table: seq<Image>, x: Image)
    requires forall i :: 0 <= i < |table| ==> table[i].longId != x.longId
    ensures FindByLongId(table + [x], x.longId) == x
  {
    FirstAppend(table, x, MatchLongId(x.longId));
  }

  /** `Put` then `GetAll`: the listing grows by exactly the new aggregate, complete. */
  lemma PutThenGetAll(table: seq<Image>, x: Image)
    ensures GetAll(table + [x]) == GetAll(table) + [x]
  {
  }

  /**
    `Put` then `Get` (and `FindByShortId`): when no earlier image has the
    same short identity, the lookup returns the whole new aggregate.
  */
  lemma PutThenGet(table: seq<Image>, x: Image)
    requires forall i :: 0 <= i < |table| ==> table[i].shortId != x.shortId
    ensures Get(table + [x], x.shortId) == x
    ensures FindByShortId(table + [x], x.shortId) == x
  {
    FirstAppend(table, x, MatchShortId(x.shortId));
  }

  /** `Put` then `GetImagesWithLabels`: a record with at least one label is listed, without its blob. */
  lemma PutThenWithLabels(table: seq<Image>, x: Image, owner: nat, img: ApiImage, details: ImageDetails, fmt: Formatters)
    requires Splittable(img) && Ingested(x, owner, img, details, fmt)
    requires img.labels != map[]
    ensures Load(x, WithoutBlob) in GetImagesWithLabels(table + [x])
  {
    assert |img.labels| > 0;
    assert (table + [x])[|table|] == x;
  }

  /** `Put` then `GetImagesWithVolumes`: a record with at least one volume is listed with volumes and tags. */
  lemma PutThenWithVolumes(table: seq<Image>, x: Image, owner: nat, img: ApiImage, details: ImageDetails, fmt: Formatters)
    requires Splittable(img) && Ingested(x, owner, img, details, fmt)
    requires details.containerConfig.volumes != map[]
    ensures Load(x, VolumesAndTags) in GetImagesWithVolumes(table + [x])
  {
    assert |details.containerConfig.volumes| > 0;
    assert (table + [x])[|table|] == x;
  }

  /**
    A second `Put` of the same short identity is invisible to `Get`: the
    earlier image (lower primary key) keeps being returned.
  */
  lemma GetFirstWriteWins(table: seq<Image>, x: Image)
    requires exists i :: 0 <= i < |table| && table[i].shortId == x.shortId
    ensures Get(table + [x], x.shortId) == Get(table, x.shortId)
  {
    FirstAppend(table, x, MatchShortId(x.shortId));
  }

  /**
    `Put` then `FindByTag`: every repository tag of the record finds the
    new aggregate (without its blob) when no earlier image has that tag.
  */
  lemma PutThenFindByTag(table: seq<Image>, x: Image, owner: nat, img: ApiImage, details: ImageDetails, fmt: Formatters, n: nat)
    requires Splittable(img) && Ingested(x, owner, img, details, fmt)
    requires WellFormed(table + [x])
    requires n < |img.repoTags|
    requires forall i :: 0 <= i < |table| ==> !HasTag(table[i], img.repoTags[n])
    ensures FindByTag(table + [x], img.repoTags[n]) == Load(x, WithoutBlob)
  {
    var t := img.repoTags[n];
    var all := table + [x];
    assert x.tags[n].tag == t;
    assert HasTag(all[|table|], t);
    FindByTagOwner(all, t);
    assert forall j :: 0 <= j < |table| ==> all[j] == table[j];
  }

  /**
    `Put` then `GetImagesByLabel`: searching for a label key without
    wildcards finds the new image, since its composite `key:value` starts
    with the key.
  */
  lemma PutThenFindByLabel(table: seq<Image>, x: Image, owner: nat, img: ApiImage, details: ImageDetails, fmt: Formatters, k: string)
    requires Splittable(img) && Ingested(x, owner, img, details, fmt)
    requires k in img.labels && Literal(k)
    ensures Load(x, TagsAndLabels) in GetImagesByLabel(table + [x], k)
  {
    var i :| 0 <= i < |x.labels| && x.labels[i].key == k;
    var composite := x.labels[i].composite;
    assert composite == k + [Colon] + img.labels[k];
    assert composite[0..|k|] == k;
    OccurrenceContains(composite, k, 0);
    LikeContains(composite, k);
    assert LabelMatches(x, k);
    assert (table + [x])[|table|] == x;
  }

  /**
    `Put` then `GetImagesByVolume`: searching for a volume name without
    wildcards finds the new image.
  */
  lemma PutThenFindByVolume(table: seq<Image>, x: Image, owner: nat, img: ApiImage, details: ImageDetails, fmt: Formatters, k: string)
    requires Splittable(img) && Ingested(x, owner, img, details, fmt)
    requires k in details.containerConfig.volumes && Literal(k)
    ensures Load(x, VolumesAndTags) in GetImagesByVolume(table + [x], k)
  {
    var i :| 0 <= i < |x.volumes| && x.volumes[i].volume == k;
    assert k[0..|k|] == k;
    OccurrenceContains(k, k, 0);
    LikeContains(k, k);
    assert VolumeMatches(x, k);
    assert (table + [x])[|table|] == x;
  }

  /** The record of the client below: tagged `app:1.0` and `app:latest`, labelled `env=prod`, no volumes. */
  const SampleImage := ApiImage("abc123", 0, 0, 0, ["app:1.0", "app:latest"], map["env" := "prod"])
  const SampleDetails := ImageDetails(ContainerConfig(map[]))

  /** The sample record is found by its short identity. */
  lemma SampleExists(x: Image, fmt: Formatters)
    requires Splittable(SampleImage) && Ingested(x, 1, SampleImage, SampleDetails, fmt)
    ensures Exists([x], fmt.truncateId("abc123"))
  {
  }

  /** The sample record is found by its tag `app:1.0`, without its blob. */
  lemma SampleByTag(x: Image, fmt: Formatters)
    requires Splittable(SampleImage) && Ingested(x, 1, SampleImage, SampleDetails, fmt)
    ensures FindByTag([x], "app:1.0") == Load(x, WithoutBlob)
  {
    assert [] + [x] == [x];
    assert WellFormed([x]);
    PutThenFindByTag([], x, 1, SampleImage, SampleDetails, fmt, 0);
  }

  /** The sample record is found by its label key `env`. */
  lemma SampleByLabel(x: Image, fmt: Formatters)
    requires Splittable(SampleImage) && Ingested(x, 1, SampleImage, SampleDetails, fmt)
    ensures Load(x, TagsAndLabels) in GetImagesByLabel([x], "env")
  {
    assert [] + [x] == [x];
    assert "env"[0] == 'e' && "env"[1] == 'n' && "env"[2] == 'v';
    PutThenFindByLabel([], x, 1, SampleImage, SampleDetails, fmt, "env");
  }

  /** `missing` does not occur in `env:prod`, whatever the case. */
  lemma MissingNotInEnvProd()
    ensures !ContainsCI("env:prod", "missing")
  {
    var composite := "env:prod";
    forall i | 0 <= i <= |composite| - |"missing"| ensures !PrefixCI("missing", composite[i..]) {
      assert Fold("missing"[0]) != Fold(composite[i]);
    }
    ContainsWindow(composite, "missing");
  }

  /** The sample record has the one label row `env:prod`. */
  lemma SampleLabelRows(x: Image, fmt: Formatters)
    requires Splittable(SampleImage) && Ingested(x, 1, SampleImage, SampleDetails, fmt)
    ensures |x.labels| == 1 && x.labels[0].composite == "env:prod"
  {
    var m := SampleImage.labels;
    assert x.labels[0].key in m;
    assert m.Keys == {"env"};
  }

  /** `env:prod` is not LIKE `%missing%`. */
  lemma EnvProdNotLikeMissing()
    ensures !Like("env:prod", Pattern("missing"))
  {
    assert Literal("missing");
    LikeContains("env:prod", "missing");
    MissingNotInEnvProd();
  }

  /** No label of the sample record contains `missing`, so that search finds nothing. */
  lemma SampleNotByMissingLabel(x: Image, fmt: Formatters)
    requires Splittable(SampleImage) && Ingested(x, 1, SampleImage, SampleDetails, fmt)
    ensures GetImagesByLabel([x], "missing") == []
  {
    SampleLabelRows(x, fmt);
    EnvProdNotLikeMissing();
    assert !LabelMatches(x, "missing");
    assert [x][0] == x;
  }

  /** A client: rebuild the schema, ingest the sample record and read it back. */
  method Scenario(fmt: Formatters)
  {
    var catalog := new Catalog();
    catalog.InitSchema();
    assert Colon == "app:1.0"[3] && Colon == "app:latest"[3];
    catalog.Put(SampleImage, SampleDetails, fmt);
    assert catalog.images == [catalog.images[0]];
    var x := catalog.images[0];
    SampleExists(x, fmt);
    SampleByTag(x, fmt);
    SampleByLabel(x, fmt);
    SampleNotByMissingLabel(x, fmt);
    assert FindByTag(catalog.images, "app:1.0").longId == "abc123";
    assert GetImagesByLabel(catalog.images, "missing") == [];
  }
}
