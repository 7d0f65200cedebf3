/**
  The five entities of the image catalog and the records it ingests.

  An `Image` value is a whole aggregate: the `images` row together with its
  rows in `image_tags`, `image_labels`, `image_volumes` and `image_blobs`.
  Each dependent row carries the primary key of its owning image in
  `imageId`; the dependents' own primary keys are not modelled.
*/
module Entities {

  /** A row of `image_tags`: a repository tag split into name and version. */
  datatype ImageTag = ImageTag(imageId: nat, name: string, version: string, tag: string)

  /** A row of `image_labels`; `composite` is the `Label` column, `key:value`, used for searching. */
  datatype ImageLabel = ImageLabel(imageId: nat, key: string, value: string, composite: string)

  /** A row of `image_volumes`: a volume name and its JSON descriptor. */
  datatype ImageVolume = ImageVolume(imageId: nat, volume: string, data: string)

  /** The one row of `image_blobs` of an image: JSON of the summary and of the inspect record. */
  datatype ImageBlob = ImageBlob(imageId: nat, summary: string, details: string)

  /** An image aggregate; `id` is the primary key of its `images` row (0 for the zero value). */
  datatype Image = Image(
    id: nat,
    shortId: string,
    longId: string,
    createdAt: string,
    size: string,
    virtualSize: string,
    tags: seq<ImageTag>,
    labels: seq<ImageLabel>,
    volumes: seq<ImageVolume>,
    blob: ImageBlob)

  /** Go's zero values, which the lookups return when nothing matches. */
  const ZeroTag := ImageTag(0, "", "", "")
  const ZeroBlob := ImageBlob(0, "", "")
  const ZeroImage := Image(0, "", "", "", "", "", [], [], [], ZeroBlob)

  /** The summary record of an image as the container runtime lists it (fields the store reads). */
  datatype ApiImage = ApiImage(
    id: string,
    created: int,        // creation time, nanoseconds since the epoch (int64)
    size: int,           // int64 byte count
    virtualSize: int,    // int64 byte count
    repoTags: seq<string>,
    labels: map<string, string>)

  /** A volume's descriptor in the container configuration; it carries no data of its own. */
  datatype VolumeDescriptor = VolumeDescriptor

  datatype ContainerConfig = ContainerConfig(volumes: map<string, VolumeDescriptor>)

  /** The inspect record of an image (the part the store reads). */
  datatype ImageDetails = ImageDetails(containerConfig: ContainerConfig)

  /**
    The helpers the store calls but does not define: the short-identity
    truncation, the timestamp and byte-size formatting, and the JSON
    encodings. They are inputs of the model, fixed by the caller.
  */
  datatype Formatters = Formatters(
    truncateId: string -> string,
    formatCreated: int -> string,
    byteSize: nat -> string,
    summaryJson: ApiImage -> string,
    detailsJson: ImageDetails -> string,
    volumeJson: VolumeDescriptor -> string)

  const Two64: nat := 0x1_0000_0000_0000_0000
  const Two63: int := 0x8000_0000_0000_0000

  /** Go's conversion `uint64(x)` of an int64: two's-complement reinterpretation. */
  function ToUint64(x: int): (r: nat)
    ensures r < Two64
    ensures 0 <= x < Two64 ==> r == x
    ensures -Two63 <= x < 0 ==> r == x + Two64
  {
    x % Two64
  }

  /** Which related collections a query materialises with each image. */
  datatype Preload = Preload(blob: bool, volumes: bool, tags: bool, labels: bool)

  /** The image as a query returns it: relations that are not preloaded stay at their zero value. */
  function Load(x: Image, p: Preload): (r: Image)
    ensures r.(blob := x.blob, volumes := x.volumes, tags := x.tags, labels := x.labels) == x
    ensures p.blob && p.volumes && p.tags && p.labels ==> r == x
    ensures x == ZeroImage ==> r == ZeroImage
  {
    x.(blob := if p.blob then x.blob else ZeroBlob,
       volumes := if p.volumes then x.volumes else [],
       tags := if p.tags then x.tags else [],
       labels := if p.labels then x.labels else [])
  }

  /** Every dependent row of `x` belongs to `x`. */
  ghost predicate Owned(x: Image)
  {
    && (forall k :: 0 <= k < |x.tags| ==> x.tags[k].imageId == x.id)
    && (forall k :: 0 <= k < |x.labels| ==> x.labels[k].imageId == x.id)
    && (forall k :: 0 <= k < |x.volumes| ==> x.volumes[k].imageId == x.id)
    && x.blob.imageId == x.id
  }

  /**
    The shape of the store: positive primary keys in strictly increasing
    order (so sequence order is primary-key order), and every aggregate
    owns its dependent rows.
  */
  ghost predicate WellFormed(table: seq<Image>)
  {
    && (forall i :: 0 <= i < |table| ==> table[i].id >= 1 && Owned(table[i]))
    && (forall i, j :: 0 <= i < j < |table| ==> table[i].id < table[j].id)
  }
}
