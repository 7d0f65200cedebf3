/**
  The read operations of the catalog store, as functions of the stored
  aggregates `table` (the `images` rows in primary-key order, each with
  its dependent rows).

  The dependent tables are the concatenation of the aggregates'
  collections in that order, which is the order `Put` inserts them in.
  Each query materialises a fixed set of relations (its `Preload`).
*/
module Queries {
  import opened Entities
  import opened SqlLike

  const Everything := Preload(true, true, true, true)
  const WithoutBlob := Preload(false, true, true, true)
  const TagsAndLabels := Preload(false, false, true, true)
  const VolumesAndTags := Preload(false, true, true, false)

  function MatchShortId(id: string): Image -> bool { (x: Image) => x.shortId == id }
  function MatchLongId(id: string): Image -> bool { (x: Image) => x.longId == id }
  function MatchPrimaryKey(key: nat): Image -> bool { (x: Image) => x.id == key }

  /**
    GORM's `First`: the row with the lowest primary key among those that
    match, or the zero value when none does.
  */
  function First(table: seq<Image>, matches: Image -> bool): (r: Image)
    ensures (forall i :: 0 <= i < |table| ==> !matches(table[i])) ==> r == ZeroImage
    ensures (exists i :: 0 <= i < |table| && matches(table[i])) ==> r in table && matches(r)
    ensures forall k :: 0 <= k < |table| && matches(table[k]) && (forall j :: 0 <= j < k ==> !matches(table[j])) ==> r == table[k]
  {
    if table == [] then ZeroImage
    else if matches(table[0]) then table[0]
    else First(table[1..], matches)
  }

  /** `SELECT count(*)` over the rows that match. */
  function Count(table: seq<Image>, matches: Image -> bool): (n: nat)
    ensures n <= |table|
    ensures n == 0 <==> forall i :: 0 <= i < |table| ==> !matches(table[i])
  {
    if table == [] then 0
    else (if matches(table[0]) then 1 else 0) + Count(table[1..], matches)
  }

  /** `GetAll`: every stored aggregate, complete, in primary-key order. */
  function GetAll(table: seq<Image>): (r: seq<Image>)
    ensures r == table
  {
    seq(|table|, i requires 0 <= i < |table| => Load(table[i], Everything))
  }

  /** `Get`: the first image whose short identity is `id`, with all its relations. */
  function Get(table: seq<Image>, id: string): (r: Image)
    ensures r == ZeroImage || (r in table && r.shortId == id)
    ensures (forall i :: 0 <= i < |table| ==> table[i].shortId != id) ==> r == ZeroImage
    ensures forall k :: 0 <= k < |table| && table[k].shortId == id && (forall j :: 0 <= j < k ==> table[j].shortId != id) ==> r == table[k]
  {
    Load(First(table, MatchShortId(id)), Everything)
  }

  /** `FindByShortId`: the same query as `Get`. */
  function FindByShortId(table: seq<Image>, id: string): (r: Image)
    ensures r == ZeroImage || (r in table && r.shortId == id)
    ensures (forall i :: 0 <= i < |table| ==> table[i].shortId != id) ==> r == ZeroImage
    ensures forall k :: 0 <= k < |table| && table[k].shortId == id && (forall j :: 0 <= j < k ==> table[j].shortId != id) ==> r == table[k]
  {
    Get(table, id)
  }

  /** `FindByLongId`: the first image whose full identity is `id`, with all its relations. */
  function FindByLongId(table: seq<Image>, id: string): (r: Image)
    ensures r == ZeroImage || (r in table && r.longId == id)
    ensures (forall i :: 0 <= i < |table| ==> table[i].longId != id) ==> r == ZeroImage
    ensures forall k :: 0 <= k < |table| && table[k].longId == id && (forall j :: 0 <= j < k ==> table[j].longId != id) ==> r == table[k]
  {
    Load(First(table, MatchLongId(id)), Everything)
  }

  /** `Exists`: the count of images with short identity `id` is not zero. */
  function Exists(table: seq<Image>, id: string): (b: bool)
    ensures b <==> exists i :: 0 <= i < |table| && table[i].shortId == id
  {
    Count(table, MatchShortId(id)) != 0
  }

  /** Appending a row does not change a `First` lookup that already matched. */
  lemma {:induction false} FirstAppendMatched(table: seq<Image>, y: Image, matches: Image -> bool)
    requires exists i :: 0 <= i < |table| && matches(table[i])
    ensures First(table + [y], matches) == First(table, matches)
  {
    var rest := table[1..];
    assert (table + [y])[0] == table[0];
    if !matches(table[0]) {
      assert (table + [y])[1..] == rest + [y];
      var i :| 0 <= i < |table| && matches(table[i]);
      assert rest[i - 1] == table[i];
      FirstAppendMatched(rest, y, matches);
    }
  }

  /** When nothing matched, `First` finds the appended row exactly when it matches. */
  lemma {:induction false} FirstAppendUnmatched(table: seq<Image>, y: Image, matches: Image -> bool)
    requires forall i :: 0 <= i < |table| ==> !matches(table[i])
    ensures First(table + [y], matches) == (if matches(y) then y else ZeroImage)
  {
    if table == [] {
      assert table + [y] == [y];
    } else {
      var rest := table[1..];
      assert (table + [y])[0] == table[0];
      assert (table + [y])[1..] == rest + [y];
      forall i | 0 <= i < |rest| ensures !matches(rest[i]) {
        assert rest[i] == table[i + 1];
      }
      FirstAppendUnmatched(rest, y, matches);
    }
  }

  /**
    Appending a row changes a `First` lookup only when nothing matched
    before: the earliest match wins.
  */
  lemma FirstAppend(table: seq<Image>, y: Image, matches: Image -> bool)
    ensures (exists i :: 0 <= i < |table| && matches(table[i])) ==> First(table + [y], matches) == First(table, matches)
    ensures (forall i :: 0 <= i < |table| ==> !matches(table[i])) ==> First(table + [y], matches) == (if matches(y) then y else ZeroImage)
  {
    if exists i :: 0 <= i < |table| && matches(table[i]) {
      FirstAppendMatched(table, y, matches);
    } else {
      FirstAppendUnmatched(table, y, matches);
    }
  }

  /** In a well-formed store, `Exists` says whether `Get` finds a stored row. */
  lemma ExistsIffGetFinds(table: seq<Image>, id: string)
    requires WellFormed(table)
    ensures Exists(table, id) <==> Get(table, id).id != 0
  {
  }

  /** `Get` and `FindByShortId` always return the same image. */
  lemma GetIsFindByShortId(table: seq<Image>, id: string)
    ensures Get(table, id) == FindByShortId(table, id)
  {
  }

  /** The empty store, as the schema rebuild leaves it: nothing is found. */
  lemma EmptyStore(id: string, t: string)
    ensures GetAll([]) == [] && !Exists([], id) && Get([], id) == ZeroImage
    ensures FindByLongId([], id) == ZeroImage && FindByTag([], t) == ZeroImage
  {
  }

  // ---------------------------------------------------------------------
  // FindByTag: a lookup in image_tags, then one in images by primary key.

  /** The `image_tags` table in primary-key order. */
  function TagRows(table: seq<Image>): seq<ImageTag>
  {
    if table == [] then [] else table[0].tags + TagRows(table[1..])
  }

  /** GORM's `First` on `image_tags` where `tag = t`; the zero row when none matches. */
  function FirstTag(rows: seq<ImageTag>, t: string): (r: ImageTag)
    ensures (forall k :: 0 <= k < |rows| ==> rows[k].tag != t) ==> r == ZeroTag
    ensures forall k :: 0 <= k < |rows| && rows[k].tag == t && (forall j :: 0 <= j < k ==> rows[j].tag != t) ==> r == rows[k]
  {
    if rows == [] then ZeroTag
    else if rows[0].tag == t then rows[0]
    else FirstTag(rows[1..], t)
  }

  /**
    `FindByTag`: the owner of the first tag row named `t`, with volumes,
    tags and labels but no blob. On a miss the row's `ImageID` stays 0 and
    the second lookup finds nothing.
  */
  function FindByTag(table: seq<Image>, t: string): (r: Image)
    ensures r.blob == ZeroBlob
    ensures r == ZeroImage || exists i :: 0 <= i < |table| && r == Load(table[i], WithoutBlob)
  {
    var row := FirstTag(TagRows(table), t);
    Load(First(table, MatchPrimaryKey(row.imageId)), WithoutBlob)
  }

  predicate HasTag(x: Image, t: string)
  {
    exists k :: 0 <= k < |x.tags| && x.tags[k].tag == t
  }

  lemma {:induction false} FirstTagSkips(a: seq<ImageTag>, b: seq<ImageTag>, t: string)
    requires forall row :: row in a ==> row.tag != t
    ensures FirstTag(a + b, t) == FirstTag(b, t)
  {
    if a == [] {
      assert a + b == b;
    } else {
      assert a[0] in a;
      assert (a + b)[1..] == a[1..] + b;
      FirstTagSkips(a[1..], b, t);
    }
  }

  lemma {:induction false} FirstTagHit(a: seq<ImageTag>, b: seq<ImageTag>, t: string)
    requires exists k :: 0 <= k < |a| && a[k].tag == t
    ensures FirstTag(a + b, t) in a
  {
    if a[0].tag != t {
      assert (a + b)[1..] == a[1..] + b;
      var k :| 0 <= k < |a| && a[k].tag == t;
      assert a[1..][k - 1].tag == t;
      FirstTagHit(a[1..], b, t);
    }
  }

  /** Every row of `image_tags` of a well-formed store points at an image of the store. */
  lemma {:induction false} TagRowOwner(table: seq<Image>, t: string)
    requires WellFormed(table)
    ensures var row := FirstTag(TagRows(table), t);
      row == ZeroTag || exists i :: 0 <= i < |table| && row.imageId == table[i].id
  {
    if table != [] {
      if HasTag(table[0], t) {
        FirstTagHit(table[0].tags, TagRows(table[1..]), t);
      } else {
        FirstTagSkips(table[0].tags, TagRows(table[1..]), t);
        TagRowOwner(table[1..], t);
        var row := FirstTag(TagRows(table), t);
        if row != ZeroTag {
          var i :| 0 <= i < |table[1..]| && row.imageId == table[1..][i].id;
          assert row.imageId == table[i + 1].id;
        }
      }
    }
  }

  /** When the first image has tag `t`, its tag row comes first and `FindByTag` returns that image. */
  lemma FindByTagHead(table: seq<Image>, t: string)
    requires WellFormed(table) && table != [] && HasTag(table[0], t)
    ensures FindByTag(table, t) == Load(table[0], WithoutBlob)
  {
    assert TagRows(table) == table[0].tags + TagRows(table[1..]);
    FirstTagHit(table[0].tags, TagRows(table[1..]), t);
    assert FirstTag(TagRows(table), t).imageId == table[0].id;
  }

  /** When the first image lacks tag `t`, `FindByTag` answers as if it were not stored. */
  lemma FindByTagSkip(table: seq<Image>, t: string)
    requires WellFormed(table) && table != [] && !HasTag(table[0], t)
    ensures FindByTag(table, t) == FindByTag(table[1..], t)
  {
    var rest := table[1..];
    assert TagRows(table) == table[0].tags + TagRows(rest);
    FirstTagSkips(table[0].tags, TagRows(rest), t);
    TagRowOwner(rest, t);
    var row := FirstTag(TagRows(rest), t);
    assert row.imageId != table[0].id;
    assert First(table, MatchPrimaryKey(row.imageId)) == First(rest, MatchPrimaryKey(row.imageId));
  }

  /**
    In a well-formed store, `FindByTag(t)` is the first image (in
    primary-key order) that has a tag `t`, without its blob; when no image
    has that tag it is the zero image.
  */
  lemma {:induction false} FindByTagOwner(table: seq<Image>, t: string)
    requires WellFormed(table)
    ensures (forall i :: 0 <= i < |table| ==> !HasTag(table[i], t)) ==> FindByTag(table, t) == ZeroImage
    ensures forall k :: 0 <= k < |table| && HasTag(table[k], t) && (forall j :: 0 <= j < k ==> !HasTag(table[j], t)) ==>
      FindByTag(table, t) == Load(table[k], WithoutBlob)
  {
    if table == [] {
      return;
    }
    var rest := table[1..];
    if HasTag(table[0], t) {
      FindByTagHead(table, t);
    } else {
      FindByTagSkip(table, t);
      FindByTagOwner(rest, t);
      forall k | 0 <= k < |table| && HasTag(table[k], t) && (forall j :: 0 <= j < k ==> !HasTag(table[j], t))
        ensures FindByTag(table, t) == Load(table[k], WithoutBlob)
      {
        assert rest[k - 1] == table[k];
        forall j | 0 <= j < k - 1 ensures !HasTag(rest[j], t) {
          assert rest[j] == table[j + 1];
        }
      }
      if forall i :: 0 <= i < |table| ==> !HasTag(table[i], t) {
        forall i | 0 <= i < |rest| ensures !HasTag(rest[i], t) {
          assert rest[i] == table[i + 1];
        }
      }
    }
  }

  // ---------------------------------------------------------------------
  // Inner joins: one result row per matching dependent row, so an image
  // appears once for every row it matches (there is no DISTINCT).

  function Repeat(x: Image, n: nat): (r: seq<Image>)
    ensures |r| == n && forall i :: 0 <= i < n ==> r[i] == x
  {
    if n == 0 then [] else [x] + Repeat(x, n - 1)
  }

  /** The `%s%` pattern the filters build around the search text. */
  function Pattern(s: string): (r: string)
    ensures |r| == |s| + 2 && r[0] == Percent && r[|r| - 1] == Percent && r[1..|r| - 1] == s
  {
    [Percent] + s + [Percent]
  }

  /** The number of label rows whose composite matches `pattern`. */
  function LabelsLike(labels: seq<ImageLabel>, pattern: string): (n: nat)
    ensures n == 0 <==> forall k :: 0 <= k < |labels| ==> !Like(labels[k].composite, pattern)
  {
    if labels == [] then 0
    else (if Like(labels[0].composite, pattern) then 1 else 0) + LabelsLike(labels[1..], pattern)
  }

  /** The number of volume rows whose name matches `pattern`. */
  function VolumesLike(volumes: seq<ImageVolume>, pattern: string): (n: nat)
    ensures n == 0 <==> forall k :: 0 <= k < |volumes| ==> !Like(volumes[k].volume, pattern)
  {
    if volumes == [] then 0
    else (if Like(volumes[0].volume, pattern) then 1 else 0) + VolumesLike(volumes[1..], pattern)
  }

  /** Some label of `x` has a composite LIKE `%s%`. */
  predicate LabelMatches(x: Image, s: string)
  {
    exists k :: 0 <= k < |x.labels| && Like(x.labels[k].composite, Pattern(s))
  }

  /** Some volume of `x` has a name LIKE `%s%`. */
  predicate VolumeMatches(x: Image, s: string)
  {
    exists k :: 0 <= k < |x.volumes| && Like(x.volumes[k].volume, Pattern(s))
  }

  /** The join condition and WHERE clause of each filter. */
  datatype JoinOn = AnyLabel | LabelLike(s: string) | AnyVolume | VolumeLike(s: string)

  /** An image takes part in the join when it has at least one qualifying row. */
  predicate Joins(on: JoinOn, x: Image)
  {
    match on
    case AnyLabel => x.labels != []
    case LabelLike(s) => LabelMatches(x, s)
    case AnyVolume => x.volumes != []
    case VolumeLike(s) => VolumeMatches(x, s)
  }

  /** The number of dependent rows of `x` that survive the join and the WHERE clause. */
  function JoinRows(on: JoinOn, x: Image): (n: nat)
    ensures n > 0 <==> Joins(on, x)
  {
    match on
    case AnyLabel => |x.labels|
    case LabelLike(s) => LabelsLike(x.labels, Pattern(s))
    case AnyVolume => |x.volumes|
    case VolumeLike(s) => VolumesLike(x.volumes, Pattern(s))
  }

  /**
    `images INNER JOIN <dependent table> ON ... WHERE ...`: every image
    once per qualifying row, in primary-key order, loaded with `p`.
  */
  function InnerJoin(table: seq<Image>, on: JoinOn, p: Preload): (r: seq<Image>)
    ensures forall j :: 0 <= j < |r| ==> exists i :: 0 <= i < |table| && Joins(on, table[i]) && r[j] == Load(table[i], p)
    ensures forall i :: 0 <= i < |table| && Joins(on, table[i]) ==> Load(table[i], p) in r
    ensures r == [] <==> forall i :: 0 <= i < |table| ==> !Joins(on, table[i])
  {
    if table == [] then []
    else
      var head := Repeat(Load(table[0], p), JoinRows(on, table[0]));
      var tail := InnerJoin(table[1..], on, p);
      assert forall i :: 0 <= i < |table[1..]| ==> table[1..][i] == table[i + 1];
      head + tail
  }

  /** `GetImagesWithLabels`: exactly the images that have a label, without blob. */
  function GetImagesWithLabels(table: seq<Image>): (r: seq<Image>)
    ensures forall j :: 0 <= j < |r| ==> exists i :: 0 <= i < |table| && table[i].labels != [] && r[j] == Load(table[i], WithoutBlob)
    ensures forall i :: 0 <= i < |table| && table[i].labels != [] ==> Load(table[i], WithoutBlob) in r
    ensures r == [] <==> forall i :: 0 <= i < |table| ==> table[i].labels == []
  {
    InnerJoin(table, AnyLabel, WithoutBlob)
  }

  /** `GetImagesByLabel`: exactly the images with a label whose composite is LIKE `%lbl%`. */
  function GetImagesByLabel(table: seq<Image>, lbl: string): (r: seq<Image>)
    ensures forall j :: 0 <= j < |r| ==> exists i :: 0 <= i < |table| && LabelMatches(table[i], lbl) && r[j] == Load(table[i], TagsAndLabels)
    ensures forall i :: 0 <= i < |table| && LabelMatches(table[i], lbl) ==> Load(table[i], TagsAndLabels) in r
    ensures r == [] <==> forall i :: 0 <= i < |table| ==> !LabelMatches(table[i], lbl)
  {
    InnerJoin(table, LabelLike(lbl), TagsAndLabels)
  }

  /** `GetImagesWithVolumes`: exactly the images that have a volume, with volumes and tags. */
  function GetImagesWithVolumes(table: seq<Image>): (r: seq<Image>)
    ensures forall j :: 0 <= j < |r| ==> exists i :: 0 <= i < |table| && table[i].volumes != [] && r[j] == Load(table[i], VolumesAndTags)
    ensures forall i :: 0 <= i < |table| && table[i].volumes != [] ==> Load(table[i], VolumesAndTags) in r
    ensures r == [] <==> forall i :: 0 <= i < |table| ==> table[i].volumes == []
  {
    InnerJoin(table, AnyVolume, VolumesAndTags)
  }

  /** `GetImagesByVolume`: exactly the images with a volume whose name is LIKE `%vlm%`. */
  function GetImagesByVolume(table: seq<Image>, vlm: string): (r: seq<Image>)
    ensures forall j :: 0 <= j < |r| ==> exists i :: 0 <= i < |table| && VolumeMatches(table[i], vlm) && r[j] == Load(table[i], VolumesAndTags)
    ensures forall i :: 0 <= i < |table| && VolumeMatches(table[i], vlm) ==> Load(table[i], VolumesAndTags) in r
    ensures r == [] <==> forall i :: 0 <= i < |table| ==> !VolumeMatches(table[i], vlm)
  {
    InnerJoin(table, VolumeLike(vlm), VolumesAndTags)
  }

  /** For a search text without wildcards, the label filter is a case-insensitive substring test. */
  lemma LabelFilterIsSubstring(x: Image, lbl: string)
    requires Literal(lbl)
    ensures LabelMatches(x, lbl) <==> exists k :: 0 <= k < |x.labels| && ContainsCI(x.labels[k].composite, lbl)
  {
    forall k | 0 <= k < |x.labels| ensures Like(x.labels[k].composite, Pattern(lbl)) <==> ContainsCI(x.labels[k].composite, lbl) {
      LikeContains(x.labels[k].composite, lbl);
    }
  }

  /** For a search text without wildcards, the volume filter is a case-insensitive substring test. */
  lemma VolumeFilterIsSubstring(x: Image, vlm: string)
    requires Literal(vlm)
    ensures VolumeMatches(x, vlm) <==> exists k :: 0 <= k < |x.volumes| && ContainsCI(x.volumes[k].volume, vlm)
  {
    forall k | 0 <= k < |x.volumes| ensures Like(x.volumes[k].volume, Pattern(vlm)) <==> ContainsCI(x.volumes[k].volume, vlm) {
      LikeContains(x.volumes[k].volume, vlm);
    }
  }
}
