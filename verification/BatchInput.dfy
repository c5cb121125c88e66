/** Batches of provider data: patches, masks, references, and the rows they are written to. */
module BatchInput {
  import opened Options
  import opened Catalogue

  datatype Value = Nil | Text(s: string) | Number(n: int) | Flag(b: bool) | Time(t: int) | Tags(tags: seq<string>)

  /** A stored row or a set of patched fields; a field that is absent from a patch is left alone. */
  type Fields = map<string, Value>

  datatype Patch = Missing | Set(value: Value)

  datatype LibraryPatch = Unspecified | In(library: Ref)

  datatype ItemRef =
    | Id(id: int)
    | Key(native: string, library: LibraryPatch, kind: int, expected: Option<int>)

  datatype AlbumPatch = KeepAlbum | ClearAlbum | SetAlbum(album: ItemRef)

  datatype FavoritePatch = KeepFavorite | SetFavorite(value: bool)

  /** One entity of a batch; `album` is used by songs only and `favorite` by dynamics only. */
  datatype Input = Input(
    item: ItemRef,
    onInsert: Fields,
    fields: Fields,
    album: AlbumPatch,
    favorite: FavoritePatch)

  datatype LibraryInput = LibraryInput(native: string, name: string)

  datatype ImageInput = ImageInput(item: ItemRef, imageType: int, native: Patch, freshness: Patch, remove: bool)

  datatype Mode = Merge | Replace

  datatype RelationInput = RelationInput(owner: ItemRef, mode: Mode, targets: seq<ItemRef>)

  datatype SongAlbumInput = SongAlbumInput(song: ItemRef, album: AlbumPatch)

  datatype MixContents = MixContents(mix: ItemRef, mode: Mode, songs: seq<ItemRef>)

  datatype Mask = Mask(included: Option<seq<string>>, excluded: Option<seq<string>>) {
    predicate Allows(name: string) {
      && (included.Some? ==> name in included.value)
      && (excluded.Some? ==> name !in excluded.value)
    }

    /** Include and exclude lists are not combined and name known fields only. */
    predicate Validates(names: seq<string>) {
      && !(included.Some? && excluded.Some?)
      && (included.Some? ==> forall n :: n in included.value ==> n in names)
      && (excluded.Some? ==> forall n :: n in excluded.value ==> n in names)
    }
  }

  datatype Batch = Batch(
    libraries: seq<LibraryInput>,
    albums: seq<Input>,
    artists: seq<Input>,
    songs: seq<Input>,
    remotes: seq<Input>,
    dynamics: seq<Input>,
    images: seq<ImageInput>,
    songAlbums: seq<SongAlbumInput>,
    albumArtists: seq<RelationInput>,
    songArtists: seq<RelationInput>,
    contents: seq<MixContents>,
    albumMask: Mask,
    artistMask: Mask,
    songMask: Mask,
    remoteMask: Mask,
    dynamicMask: Mask)

  const ALBUM_ROW: Fields := map[
    "name" := Text(""), "sort_name" := Nil, "track_count" := Number(0), "disc_count" := Number(0),
    "type" := Number(0), "duration" := Number(0), "language" := Nil, "description" := Nil,
    "company" := Nil, "publish_time" := Nil, "added_at" := Nil]
  const ARTIST_ROW: Fields := map[
    "name" := Text(""), "sort_name" := Nil, "description" := Text(""), "album_count" := Number(0),
    "music_count" := Number(0), "added_at" := Nil]
  const SONG_ROW: Fields := map[
    "name" := Text(""), "sort_name" := Nil, "track_number" := Number(0), "disc_number" := Number(0),
    "duration" := Number(0), "can_play" := Flag(true), "popularity" := Number(0), "tags" := Tags([]),
    "publish_time" := Nil, "added_at" := Nil]
  const REMOTE_ROW: Fields := map[
    "name" := Text(""), "description" := Nil, "track_count" := Number(0), "mix_type" := Text("normal")]
  const DYNAMIC_ROW: Fields := map[
    "is_external" := Flag(false), "remote_play_count" := Number(0), "remote_last_played_at" := Nil,
    "favorite_at" := Nil]

  const ALBUM_FIELDS := ["name", "sort_name", "track_count", "disc_count", "type", "duration", "language",
                         "description", "company", "publish_time", "added_at"]
  const ARTIST_FIELDS := ["name", "sort_name", "description", "album_count", "music_count", "added_at"]
  const SONG_FIELDS := ["name", "sort_name", "track_number", "disc_number", "duration", "can_play",
                        "popularity", "tags", "publish_time", "added_at"]
  const REMOTE_FIELDS := ["name", "description", "track_count", "mix_type"]
  const DYNAMIC_FIELDS := ["is_external", "remote_play_count", "remote_last_played_at", "favorite_at"]

  predicate Quantity(row: Fields, name: string) {
    name in row && row[name].Number? && row[name].n >= 0
  }

  /** An entity row needs a name and non-negative quantities. */
  predicate Accepted(row: Fields, quantities: seq<string>) {
    && "name" in row && row["name"].Text? && row["name"].s != ""
    && forall q :: q in quantities ==> Quantity(row, q)
  }

  /** The effect of one input on a row: a patched field is taken if the row is new or the mask allows it;
      otherwise a new row takes the field's insert default, if there is one. */
  function Patched(e: Input, row: Fields, inserted: bool, mask: Mask): Fields {
    map f | f in row ::
      if (inserted || mask.Allows(f)) && f in e.fields then e.fields[f]
      else if inserted && f in e.onInsert then e.onInsert[f]
      else row[f]
  }

  /** The fields in `done` have their final value, the others the old one. */
  ghost predicate PartlyPatched(out: Fields, row: Fields, target: Fields, done: seq<string>)
    requires target.Keys == row.Keys
  {
    && (forall f :: f in out <==> f in row)
    && (forall f :: f in row ==> out[f] == if f in done then target[f] else row[f])
  }

  lemma PatchedStep(out: Fields, row: Fields, target: Fields, names: seq<string>, i: nat, next: Fields)
    requires target.Keys == row.Keys && i < |names| && names[i] in row
    requires PartlyPatched(out, row, target, names[..i])
    requires next == out[names[i] := target[names[i]]]
    ensures PartlyPatched(next, row, target, names[..i + 1])
  {
    assert names[..i + 1] == names[..i] + [names[i]];
  }

  lemma PatchedWhole(out: Fields, row: Fields, target: Fields, names: seq<string>)
    requires target.Keys == row.Keys && PartlyPatched(out, row, target, names[..|names|])
    requires forall f :: f in names <==> f in row
    ensures out == target
  {
    assert names[..|names|] == names;
    assert forall f :: f in out <==> f in target;
    assert forall f :: f in out ==> out[f] == target[f];
  }

  /** Field by field, in declaration order: defaults first, then the patch, each only when it applies. */
  method ApplyInput(e: Input, row: Fields, names: seq<string>, inserted: bool, mask: Mask) returns (out: Fields)
    requires forall f :: f in names <==> f in row
    requires Distinct(names)
    ensures out == Patched(e, row, inserted, mask)
  {
    out := row;
    ghost var target := Patched(e, row, inserted, mask);
    for i := 0 to |names|
      invariant PartlyPatched(out, row, target, names[..i])
    {
      ghost var before := out;
      out := ApplyField(e, row, out, names[i], inserted, mask);
      assert names[i] in names;
      PatchedStep(before, row, target, names, i, before[names[i] := target[names[i]]]);
    }
    PatchedWhole(out, row, target, names);
  }

  method ApplyField(e: Input, ghost row: Fields, model: Fields, f: string, inserted: bool, mask: Mask) returns (out: Fields)
    requires f in row && f in model && model[f] == row[f]
    ensures out == model[f := Patched(e, row, inserted, mask)[f]]
  {
    out := model;
    if inserted && f in e.onInsert {
      out := out[f := e.onInsert[f]];
    }
    if (inserted || mask.Allows(f)) && f in e.fields {
      out := out[f := e.fields[f]];
    }
    assert out == model[f := Patched(e, row, inserted, mask)[f]];
  }

  /** Once a row is stored, a patch changes only fields that the mask allows and the patch names. */
  lemma MaskProtects(e: Input, row: Fields, mask: Mask, f: string)
    requires f in row
    ensures !mask.Allows(f) ==> Patched(e, row, false, mask)[f] == row[f]
    ensures mask.Allows(f) && f in e.fields ==> Patched(e, row, false, mask)[f] == e.fields[f]
    ensures f !in e.fields ==> Patched(e, row, false, mask)[f] == row[f]
  {
  }

  /** Applying the same input again, to what is then a stored row, changes nothing. */
  lemma PatchedTwice(e: Input, row: Fields, inserted: bool, mask: Mask)
    ensures Patched(e, Patched(e, row, inserted, mask), false, mask) == Patched(e, row, inserted, mask)
  {
    var once := Patched(e, row, inserted, mask);
    var twice := Patched(e, once, false, mask);
    assert forall f :: f in once <==> f in twice;
    assert forall f :: f in once ==> once[f] == twice[f];
  }

  /** The same, if one field was overwritten in between: the two results differ in that field only. */
  lemma PatchedAfterChange(e: Input, row: Fields, inserted: bool, mask: Mask, f: string, v: Value)
    requires f in row
    ensures var once := Patched(e, row, inserted, mask);
            Patched(e, once[f := v], false, mask)[f := v] == once[f := v]
    ensures var once := Patched(e, row, inserted, mask);
            Patched(e, once[f := v], false, mask)[f] in {v, once[f]}
  {
    var once := Patched(e, row, inserted, mask)[f := v];
    var twice := Patched(e, once, false, mask)[f := v];
    assert forall g :: g in once <==> g in twice;
    assert forall g :: g in once ==> once[g] == twice[g];
  }
}
