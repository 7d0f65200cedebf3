# Catalog store of gadget, modelled in Dafny

gadget keeps a local catalog of container images in an embedded SQLite
database through GORM. The `Repository` type in `repository.go` does the
following:

- it rebuilds the five tables (`InitSchema`);
- it ingests one image record and its inspect record as an aggregate: an
  `images` row plus rows in `image_tags`, `image_labels`,
  `image_volumes` and `image_blobs` (`Put`);
- it answers a fixed set of lookups, each of which preloads a fixed set of
  relations.

This project models that store.

- `entities.dfy` (module `Entities`) holds the five entities and the
  records `Put` reads. It also holds the preload policy (`Load`), Go's
  `uint64` conversion of an `int64`, and the shape of a stored table
  (`WellFormed`: positive primary keys, strictly increasing, and every
  dependent row carries its owner's key).
- `tag_split.dfy` (module `TagSplit`) models `strings.Split(tag, ":")`
  and what the tag's name (field 0) and version (field 1) are.
- `sql_like.dfy` (module `SqlLike`) models SQLite's `LIKE`:
  - `%` and `_` are wildcards;
  - letters A-Z match regardless of case;
  - with a search text that has no wildcards, `%w%` is a
    case-insensitive substring test.
- `queries.dfy` (module `Queries`) holds the read operations as functions
  of the stored aggregates (a `seq<Image>` in primary-key order):
  - GORM's `First`;
  - `Count`;
  - the tag lookup of `FindByTag`;
  - the inner joins of the four filters, which repeat an image once per
    matching dependent row.
- `catalog.dfy` (module `CatalogStore`) holds the store itself.
  - The class `Catalog` has the aggregates and the next primary key as
    fields. `InitSchema` and `Put` update those fields in place.
  - `Put` builds the aggregate with the same three loops as the source:
    tags, labels and volumes.
  - Lemmas about reading back after `Put` cover every lookup except the
    label and volume filters with wildcard search texts.
  - A small client shows the behaviour on a sample record: tags `app:1.0`
    and `app:latest`, label `env=prod`.

Three consequences of the code are worth stating up front:

- **Repeated short identity.** `Get` and `FindByShortId` use GORM's
  `First`, which orders by primary key. When several stored images share
  a short identity, the earliest one is returned, not the latest
  (`CatalogStore.GetFirstWriteWins`).
- **Case.** The label and volume filters use SQLite's `LIKE`. It ignores
  ASCII case, so `%ENV%` finds the label `env:prod`
  (`Queries.LabelFilterIsSubstring`).
- **Version.** A tag's version is field 1 of `strings.Split(tag, ":")`. It
  runs from the first colon to the second colon or the end. For
  `host:5000/app:1.0`, the name is `host` and the version is `5000/app`
  (`TagSplit.TagParts`).

## Model

| member | source | states |
|---|---|---|
| Entities.Load | repository.go:161-247 | the preload policy: a query returns the identity columns unchanged and each relation either as stored or empty; with all four relations preloaded, the stored aggregate itself; the zero image stays zero |
| Entities.ToUint64 | repository.go:111-112 | `uint64(x)` of an int64 is x itself when x is non-negative and x + 2^64 when it is negative; the result is always below 2^64 |
| TagSplit.Split | repository.go:125-126 | `strings.Split` on `:` yields one field more than the tag has colons, and no field contains a colon |
| TagSplit.TagName | repository.go:125 | the name is field 0 of the split: a colon-free prefix of the tag that runs to the first colon or the end |
| TagSplit.TagVersion | repository.go:126 | the version is field 1 of the split, which exists only when the tag has a colon; it contains no colon and fits after `name:` |
| TagSplit.ColonsIff | repository.go:125-126 | the split has a field 1 (the version exists) exactly when the tag contains a colon |
| TagSplit.JoinSplit | repository.go:125-126 | joining the split fields with `:` gives the tag back, so the split loses nothing |
| TagSplit.TagParts | repository.go:125-126 | name and version contain no colon; the tag starts with `name:` followed by the version, which runs to the end or to the next colon; the tag is exactly `name:version` iff it has one colon |
| SqlLike.Like | repository.go:231 | SQLite `LIKE` with `%`, `_` and ASCII case folding; a pattern without `%` matches only texts of its own length |
| SqlLike.LikeAnything | repository.go:231 | the pattern `%` matches every text |
| SqlLike.LikePrefix | repository.go:231 | for a search text without wildcards, `s LIKE 'w%'` iff `w` starts `s` up to ASCII case |
| SqlLike.LikeContains | repository.go:231 | for a search text without wildcards, `s LIKE '%w%'` iff `w` occurs in `s` up to ASCII case |
| SqlLike.OccurrenceContains | repository.go:231 | an exact occurrence of the search text is always matched |
| SqlLike.ContainsWindow | repository.go:231 | a case-insensitive occurrence is exactly a window of `s` that equals `w` letter by letter up to case |
| Queries.First | repository.go:169 | GORM's `First`: the zero image when nothing matches; otherwise the matching row with the lowest primary key |
| Queries.Count | repository.go:178 | the count is at most the table size and is zero iff no row matches |
| Queries.GetAll | repository.go:158-164 | every stored aggregate, with all four relations preloaded |
| Queries.Get | repository.go:166-172 | the zero image or a stored image with that short identity; the zero image when none has it; otherwise the earliest stored one |
| Queries.FindByShortId | repository.go:189-195 | the same result as `Get` |
| Queries.GetIsFindByShortId | repository.go:166-195 | `Get` and `FindByShortId` agree on every store and identity |
| Queries.FindByLongId | repository.go:197-202 | the zero image or a stored image with that full identity; the zero image on a miss; otherwise the earliest one |
| Queries.Exists | repository.go:174-187 | true iff some stored image has the short identity |
| Queries.ExistsIffGetFinds | repository.go:174-187 | in a well-formed store, `Exists` is true iff `Get` returns a stored row (non-zero key) |
| Queries.FirstAppend | repository.go:169 | storing another row does not change a `First` lookup that already matched; if nothing matched, the new row is found iff it matches |
| Queries.FirstAppendMatched | repository.go:169 | when an earlier row already matches, the appended row does not change `First` |
| Queries.FirstAppendUnmatched | repository.go:169 | when no earlier row matches, `First` returns the appended row if it matches and the zero image otherwise |
| Queries.EmptyStore | repository.go:158-218 | in the empty store, `GetAll` is empty, `Exists` is false, and `Get`, `FindByLongId` and `FindByTag` return the zero image |
| Queries.FindByTag | repository.go:204-218 | the result never carries a blob, and it is either the zero image or a stored image loaded with volumes, tags and labels |
| Queries.FirstTag | repository.go:208 | the tag-row lookup yields the zero tag row when no row has the tag, else the first such row |
| Queries.TagRowOwner | repository.go:208-215 | in a well-formed store, the found tag row is the zero row or points at a stored image |
| Queries.FindByTagHead | repository.go:204-218 | when the first image carries the tag, `FindByTag` returns it without its blob |
| Queries.FindByTagSkip | repository.go:204-218 | when the first image lacks the tag, `FindByTag` answers as if that image were not stored |
| Queries.FindByTagOwner | repository.go:204-218 | in a well-formed store, `FindByTag` is the zero image when no image has the tag; otherwise it is the earliest image with the tag, loaded with volumes, tags and labels but no blob |
| Queries.Pattern | repository.go:231 | the search text wrapped in one `%` on each side, as `"%"+lbl+"%"` builds it |
| Queries.LabelsLike | repository.go:231 | the number of label rows whose composite is LIKE the pattern; zero iff none is |
| Queries.VolumesLike | repository.go:247 | the number of volume rows whose name is LIKE the pattern; zero iff none is |
| Queries.JoinRows | repository.go:223-247 | an image has at least one row surviving the join and WHERE clause iff it satisfies the filter's condition |
| Queries.InnerJoin | repository.go:223-247 | every result is a stored image satisfying the join condition, loaded with the query's preloads; every such image is in the result; the result is empty iff none qualifies |
| Queries.GetImagesWithLabels | repository.go:220-226 | exactly the images with at least one label (each loaded without blob); empty iff no image has a label |
| Queries.GetImagesByLabel | repository.go:228-234 | exactly the images with a label whose `key:value` is LIKE `%lbl%` (tags and labels only); empty iff none matches |
| Queries.GetImagesWithVolumes | repository.go:236-242 | exactly the images with at least one volume (volumes and tags only); empty iff no image has a volume |
| Queries.GetImagesByVolume | repository.go:244-250 | exactly the images with a volume whose name is LIKE `%vlm%` (tags and volumes only); empty iff none matches |
| Queries.LabelFilterIsSubstring | repository.go:231 | for a search text without wildcards, an image passes the label filter iff one of its composites contains the text up to ASCII case |
| Queries.VolumeFilterIsSubstring | repository.go:247 | for a search text without wildcards, an image passes the volume filter iff one of its volume names contains the text up to ASCII case |
| CatalogStore.TagRow | repository.go:123-127 | the tag row: owned by the new image, holding the original tag, with a colon-free name that is the tag's text before its first colon and a colon-free version; the tag is `name:version` iff it has one colon |
| CatalogStore.LabelRow | repository.go:134-138 | the label row: key, value and the composite `key:value` |
| CatalogStore.LabelComposite | repository.go:138 | the composite splits back into the key and the value at the colon after the key |
| CatalogStore.VolumeRow | repository.go:147-151 | the volume row: the volume name and the JSON of its descriptor |
| CatalogStore.BuildTags | repository.go:122-130 | one tag row per repository tag, in order, with name and version from the split and the original tag |
| CatalogStore.BuildLabels | repository.go:133-141 | exactly one label row per label entry (distinct keys, every key present) with key, value and composite `key:value` |
| CatalogStore.BuildVolumes | repository.go:146-153 | exactly one volume row per volume entry (distinct names, every name present) with the descriptor's JSON |
| CatalogStore.Assemble | repository.go:106-153 | the in-memory aggregate: identities, formatted time and sizes, tag/label/volume rows and the blob with both JSON encodings, all keys still 0 |
| CatalogStore.AssignKeys | repository.go:155 | the insertion gives the aggregate its primary key and copies it into every dependent row |
| CatalogStore.TagsKeyed | repository.go:155 | assigning the key keeps the tag rows derived from the repository tags |
| CatalogStore.LabelsKeyed | repository.go:155 | assigning the key keeps the label rows derived from the label map |
| CatalogStore.VolumesKeyed | repository.go:155 | assigning the key keeps the volume rows derived from the volume map |
| CatalogStore.KeysAssigned | repository.go:155 | the inserted aggregate is still exactly what `Put` derived from its inputs, under the new key |
| CatalogStore.AppendWellFormed | repository.go:155 | inserting an aggregate that owns its rows under a key above every stored key keeps the store well formed |
| CatalogStore.Catalog.constructor | repository.go:18-20 | a new store holds no aggregates and numbers keys from 1 |
| CatalogStore.Catalog.InitSchema | repository.go:46-84 | whatever the store held, afterwards it is empty and well formed and key numbering restarts at 1 |
| CatalogStore.Catalog.Put | repository.go:103-156 | the store stays well formed; earlier aggregates are unchanged; one aggregate is added under the next key, and it is exactly the one derived from the inputs |
| CatalogStore.PutThenExists | repository.go:174-187 | after `Put`, `Exists` of the new short identity is true |
| CatalogStore.PutThenGetAll | repository.go:158-164 | after `Put`, `GetAll` lists the earlier aggregates and then the whole new one |
| CatalogStore.PutThenGet | repository.go:166-195 | after `Put` of a short identity no earlier image has, `Get` and `FindByShortId` return the whole new aggregate |
| CatalogStore.PutThenWithLabels | repository.go:220-226 | after `Put` of a record with at least one label, `GetImagesWithLabels` lists the new aggregate without its blob |
| CatalogStore.PutThenWithVolumes | repository.go:236-242 | after `Put` of a record with at least one volume, `GetImagesWithVolumes` lists the new aggregate with volumes and tags |
| CatalogStore.PutThenFindByLongId | repository.go:197-202 | after `Put` of a new full identity, `FindByLongId` returns the whole new aggregate |
| CatalogStore.GetFirstWriteWins | repository.go:166-172 | a later `Put` with a short identity already stored does not change what `Get` returns |
| CatalogStore.PutThenFindByTag | repository.go:204-218 | after `Put`, each of its repository tags that no earlier image has finds the new aggregate without its blob |
| CatalogStore.PutThenFindByLabel | repository.go:228-234 | after `Put`, searching for any of its label keys (without wildcards) finds the new aggregate |
| CatalogStore.PutThenFindByVolume | repository.go:244-250 | after `Put`, searching for any of its volume names (without wildcards) finds the new aggregate |
| CatalogStore.SampleExists | repository.go:174-187 | the sample record is found by its short identity |
| CatalogStore.SampleByTag | repository.go:204-218 | the sample record is found by its tag `app:1.0` |
| CatalogStore.SampleByLabel | repository.go:228-234 | the sample record is found by the label search `env` |
| CatalogStore.SampleLabelRows | repository.go:133-141 | the sample record has exactly one label row, `env:prod` |
| CatalogStore.EnvProdNotLikeMissing | repository.go:231 | `env:prod` is not LIKE `%missing%` |
| CatalogStore.MissingNotInEnvProd | repository.go:231 | `missing` does not occur in the composite `env:prod` up to case |
| CatalogStore.SampleNotByMissingLabel | repository.go:228-234 | the label search `missing` on the sample store is empty |

## Left out

- `InitDB`, `CloseDB`, `BackupSchema` and `repositoryFullName` are left out. They open, close and copy the database file, which is file-system I/O.
- Logging (`parrot.Debug`, `parrot.Error`) is left out. It has no effect on the store.
- `TruncateID`, `AsJson`, `bytefmt.ByteSize` and the time formatting are not part of this model. They are inputs: a `Formatters` value of functions chosen by the caller.
- Storage errors are not modelled. Every insert and query succeeds. In particular, if the count query of `Exists` fails, `count` stays -1 and `Exists` returns true; the model does not capture that.
- The entity struct definitions and their GORM tags are not part of this model.
  - A uniqueness constraint on `long_id` would make a second `Put` of the same full identity fail silently. The model always inserts.
  - The dependent rows' own primary keys are not modelled. Each dependent table is ordered like the aggregates that own its rows.
- Go map iteration order is left open. `BuildLabels` and `BuildVolumes` pick keys in an order the model does not fix. Their contracts state the rows as a set: every entry exactly once.
- Result order is left open where the queries issue no `ORDER BY`: in `GetAll`, in the four join filters, and in the preloaded collections. SQLite decides that order. The model returns primary-key order and insertion order. The filter contracts state only membership and emptiness, not order. `PutThenGetAll` relies on the model's order.
- GORM's handling of the `CreatedAt` column on insert is left out. The model stores the string `Put` formats.
- The `&imageTag == nil` test in `FindByTag` is always false, so its branch is dead. The model has no such branch. On a miss, the tag row keeps primary key 0, the second lookup finds nothing, and the zero image results.
- `FindByTag`'s second query is `Find` by primary key. The model uses the first image with that key; in a well-formed store that is the only one.
- Concurrency is left out. Every operation is one atomic step on the store.
- CatalogStore.Catalog.Put requires every repository tag to contain a colon. In the source, a tag without one makes `strings.Split(tag, ":")[1]` panic.
