/** The writer of one provider: the loops that put a batch into the database inside one transaction. */
module BatchWriter {
  import opened Options
  import opened Catalogue
  import opened BatchInput
  import opened Registry
  import opened BatchTables
  import opened SyncBatch
  import opened BatchSteps

  class ProviderWriter {
    const provider: int
    var reg: Reg
    var t: Tables

    ghost function View(): Store
      reads this
    {
      Store(reg, t)
    }

    constructor (provider: int, db: Store)
      ensures this.provider == provider && View() == db
    {
      this.provider, reg, t := provider, db.reg, db.t;
    }

    method PutLibraries(es: seq<LibraryInput>) returns (ok: bool)
      modifies this`reg
      ensures ok <==> LibrariesOk(es)
      ensures ok ==> reg == WriteLibraries(old(reg), provider, es)
    {
      var seen: set<string> := {};
      for i := 0 to |es|
        invariant LibrariesOk(es[..i])
        invariant forall n :: n in seen <==> exists k :: 0 <= k < i && es[k].native == n
        invariant reg == WriteLibraries(old(reg), provider, es[..i])
      {
        if es[i].native == "" || es[i].native in seen {
          return false;
        }
        seen := seen + {es[i].native};
        reg := WriteLibrary(reg, provider, es[i]);
        assert es[..i + 1][..|es[..i + 1]| - 1] == es[..i];
      }
      assert es[..|es|] == es;
      ok := true;
    }

    /** Finds or creates the items of one group after those already allocated. */
    method AllocateGroup(ghost start: Reg, ghost done: seq<Want>, got: seq<int>, ws: seq<Want>) returns (ok: bool, ids: seq<int>)
      requires AllocateAll(start, provider, done) == All(reg, got)
      modifies this`reg
      ensures ok <==> AllocateAll(start, provider, done + ws).All?
      ensures ok ==> AllocateAll(start, provider, done + ws) == All(reg, ids)
    {
      ids := got;
      assert done + ws[..0] == done;
      for i := 0 to |ws|
        invariant AllocateAll(start, provider, done + ws[..i]) == All(reg, ids)
      {
        assert done + ws[..i + 1] == done + ws[..i] + [ws[i]];
        AllocateStep(start, provider, done + ws[..i], reg, ids, ws[i]);
        var a := Allocate(reg, provider, ws[i]);
        if a.Refused? || a.id in ids {
          GroupRefused(start, provider, done, ws, i);
          return false, [];
        }
        reg := a.reg;
        ids := ids + [a.id];
      }
      assert ws[..|ws|] == ws;
      ok := true;
    }

    /** Patches the rows of one group of entities. */
    method PutRows(was: map<int, Fields>, es: seq<Input>, types: set<int>, initial: Fields, names: seq<string>,
                   mask: Mask) returns (ok: bool, table: map<int, Fields>, ids: seq<int>)
      requires DistinctRefs(reg, provider, Items(es), types)
      requires Schema(names, initial) && ShapedLike(was, initial)
      ensures ok <==> AllResolve(reg, provider, Items(es), types)
      ensures ok ==> ids == Ids(reg, provider, Items(es), types) && table == Written(was, ids, es, initial, mask)
    {
      table := was;
      ids := [];
      var refs := Items(es);
      NothingPatched(was, initial, mask);
      for i := 0 to |es|
        invariant AllResolve(reg, provider, refs[..i], types) && ids == Ids(reg, provider, refs[..i], types)
        invariant table == Written(was, ids, es[..i], initial, mask)
      {
        IdsPrefix(reg, provider, refs, types, i);
        var found := Resolve(reg, provider, es[i].item, types);
        if found.Null? {
          return false, table, ids;
        }
        RowStep(reg, provider, was, es, types, initial, mask, i);
        table := PutRow(was, table, found.id, es[i], initial, names, mask);
        ids := ids + [found.id];
      }
      assert es[..|es|] == es && refs[..|es|] == refs;
      ok := true;
    }

    method PutRow(was: map<int, Fields>, table: map<int, Fields>, id: int, e: Input, initial: Fields,
                  names: seq<string>, mask: Mask) returns (next: map<int, Fields>)
      requires Schema(names, initial) && ShapedLike(was, initial)
      ensures next == table[id := Patched(e, RowOf(was, id, initial), id !in was, mask)]
    {
      assert id in was ==> was[id].Keys == initial.Keys;
      var patched := ApplyInput(e, RowOf(was, id, initial), names, id !in was, mask);
      next := table[id := patched];
    }

    /** Patches dynamic rows; the mark of a favourite that changed after the run began is put back. */
    method PutDynamics(was: map<int, Fields>, es: seq<Input>, mask: Mask, w: Writer)
      returns (ok: bool, table: map<int, Fields>, ids: seq<int>)
      requires w.provider == provider && DynamicsWellFormed(was)
      requires forall id :: id in was ==> was[id].Keys == DYNAMIC_ROW.Keys
      ensures ok <==> DynamicsAccepted(reg, was, es, mask, w)
      ensures ok ==> ids == Ids(reg, provider, Items(es), {}) && table == WrittenDynamics(was, ids, es, mask, w)
    {
      table := was;
      ids := [];
      var refs := Items(es);
      NothingWritten(was, mask, w);
      for i := 0 to |es|
        invariant AllResolve(reg, provider, refs[..i], {}) && ids == Ids(reg, provider, refs[..i], {})
        invariant EntriesAccepted(was, ids, es[..i], mask, w)
        invariant table == WrittenDynamics(was, ids, es[..i], mask, w)
      {
        IdsPrefix(reg, provider, refs, {}, i);
        var found := Resolve(reg, provider, es[i].item, {});
        if found.Null? {
          return false, table, ids;
        }
        var id := found.id;
        DynamicsRefused(reg, was, es, mask, w, i);
        if id in ids {
          return false, table, ids;
        }
        assert id in was ==> was[id].Keys == DYNAMIC_ROW.Keys;
        var fine, model := PatchDynamic(es[i], RowOf(was, id, DYNAMIC_ROW), id !in was, mask, w.now, id in w.changed);
        if !fine {
          return false, table, ids;
        }
        EntriesStep(was, ids, es, mask, w, id, i);
        table := table[id := model];
        ids := ids + [id];
      }
      assert es[..|es|] == es && refs[..|es|] == refs;
      ok := true;
    }

    method PatchDynamic(e: Input, row: Fields, inserted: bool, mask: Mask, now: int, changed: bool)
      returns (ok: bool, model: Fields)
      requires row.Keys == DYNAMIC_ROW.Keys
      ensures ok <==> DynamicOk(e) && Quantity(DynamicRow(e, row, inserted, mask, now, changed), "remote_play_count")
      ensures ok ==> model == DynamicRow(e, row, inserted, mask, now, changed)
    {
      model := row;
      if e.favorite.SetFavorite? {
        if "favorite_at" in e.fields {
          return false, model;
        }
        if inserted || mask.Allows("favorite") {
          model := model["favorite_at" :=
            if !e.favorite.value then Nil
            else if model["favorite_at"].Nil? then Time(now) else model["favorite_at"]];
        }
      }
      assert model == Marked(e, row, inserted, mask, now);
      model := ApplyInput(e, model, DYNAMIC_FIELDS, inserted, mask);
      if changed {
        model := model["favorite_at" := row["favorite_at"]];
      }
      ok := Quantity(model, "remote_play_count");
    }

    method PutImages(was: map<ImageKey, Image>, es: seq<ImageInput>)
      returns (ok: bool, table: map<ImageKey, Image>, keys: seq<ImageKey>)
      ensures ok <==> ImagesAccepted(reg, provider, es)
      ensures ok ==>
                && keys == ImageKeys(Ids(reg, provider, ImageRefs(es), {}), es)
                && table == WrittenImages(was, keys, es)
    {
      table := was;
      keys := [];
      NoImagesWritten(was);
      for i := 0 to |es|
        invariant |keys| == i && ImagesDone(reg, provider, es, i, keys)
        invariant table == WrittenImages(was, keys, es[..i])
      {
        var found := Resolve(reg, provider, es[i].item, {});
        ImagesRefused(reg, provider, es, i, keys);
        if found.Null? {
          return false, table, keys;
        }
        var k := ImageKey(found.id, es[i].imageType);
        if k in keys {
          return false, table, keys;
        }
        ImagesDoneStep(reg, provider, es, i, keys);
        WrittenImagesStep(was, keys, es[..i], k, es[i]);
        PrefixStep(es, i);
        table := PutImage(table, k, es[i]);
        keys := keys + [k];
      }
      ImagesAllDone(reg, provider, es, keys);
      assert es[..|es|] == es;
      ok := true;
    }

    method PutImage(table: map<ImageKey, Image>, k: ImageKey, e: ImageInput) returns (next: map<ImageKey, Image>)
      ensures next == if e.remove then table - {k}
                      else table[k := ImageRow(e, if k in table then table[k] else Image(Nil, Text("")))]
    {
      if e.remove {
        next := table - {k};
      } else {
        var row := if k in table then table[k] else Image(Nil, Text(""));
        next := table[k := ImageRow(e, row)];
      }
    }

    /** Sets the album column from the song inputs, for new songs or where the mask allows it. */
    method PutInputAlbums(before: Tables, ids: seq<int>, es: seq<Input>, mask: Mask)
      returns (ok: bool, column: map<int, Ref>, placed: set<int>)
      requires |ids| == |es| && Distinct(ids)
      ensures ok <==> InputAlbumsOk(reg, provider, before.songs, ids, es, mask)
      ensures ok ==> column == AlbumColumn(reg, provider, before, ids, es, mask, [], [])
      ensures ok ==> placed == Placed(before.songs, ids, es, mask, |es|)
    {
      column := StoredColumn(before, ids);
      placed := {};
      InputColumnNone(reg, provider, before, ids, es, mask);
      for i := 0 to |es|
        invariant InputsPlaced(reg, provider, before, ids, es, mask, i, column, placed)
      {
        InputsStep(reg, provider, before, ids, es, mask, i, column, placed);
        if es[i].album.KeepAlbum? || (ids[i] in before.songs && !mask.Allows("album_id")) {
          continue;
        }
        placed := placed + {ids[i]};
        if !TargetOk(reg, provider, ids[i], es[i].album) {
          return false, column, placed;
        }
        column := column[ids[i] := Target(reg, provider, es[i].album)];
      }
      ok := true;
      InputColumnWhole(reg, provider, before, ids, es, mask, column, placed);
    }

    /** Sets the album column from song inputs and then from the explicit relations. */
    method PutAlbums(before: Tables, ids: seq<int>, es: seq<Input>, mask: Mask, relations: seq<SongAlbumInput>)
      returns (ok: bool, column: map<int, Ref>)
      requires |ids| == |es| && Distinct(ids) && forall s :: s in before.songs ==> s in before.albumOf
      ensures ok <==> AlbumsAccepted(reg, provider, before.songs, ids, es, mask, relations)
      ensures ok ==>
                column == AlbumColumn(reg, provider, before, ids, es, mask,
                                      Ids(reg, provider, SongRefs(relations), {SONG}), relations)
    {
      var placed;
      ok, column, placed := PutInputAlbums(before, ids, es, mask);
      if !ok {
        return;
      }
      var refs := SongRefs(relations);
      var related: seq<int> := [];
      assert relations[..0] == [];
      for j := 0 to |relations|
        invariant AllResolve(reg, provider, refs[..j], {SONG}) && related == Ids(reg, provider, refs[..j], {SONG})
        invariant AlbumsOk(reg, provider, before.songs, ids, es, mask, related, relations[..j])
        invariant column == AlbumColumn(reg, provider, before, ids, es, mask, related, relations[..j])
      {
        IdsPrefix(reg, provider, refs, {SONG}, j);
        var found := Resolve(reg, provider, relations[j].song, {SONG});
        if found.Null? {
          return false, column;
        }
        var id := found.id;
        AlbumsRefused(reg, provider, before.songs, ids, es, mask, relations, j);
        if id in placed || id in related {
          return false, column;
        }
        if !TargetOk(reg, provider, id, relations[j].album) || (id !in before.songs && id !in ids) {
          return false, column;
        }
        AlbumsStep(reg, provider, before, ids, es, mask, related, relations, id, j);
        column := column[id := Target(reg, provider, relations[j].album)];
        related := related + [id];
      }
      assert refs[..|relations|] == refs && relations[..|relations|] == relations;
      ok := true;
    }

    /** Resolves the artists of one owner. */
    method ResolveTargets(owner: int, refs: seq<ItemRef>) returns (ok: bool, targets: seq<int>)
      ensures ok <==> TargetsAccepted(reg, provider, owner, refs)
      ensures ok ==> targets == Ids(reg, provider, refs, {ARTIST})
    {
      targets := [];
      for j := 0 to |refs|
        invariant AllResolve(reg, provider, refs[..j], {ARTIST}) && targets == Ids(reg, provider, refs[..j], {ARTIST})
        invariant Distinct(targets)
        invariant forall k :: 0 <= k < j ==> SameLibrary(reg, targets[k], owner)
      {
        IdsPrefix(reg, provider, refs, {ARTIST}, j);
        var found := Resolve(reg, provider, refs[j], {ARTIST});
        if found.Null? {
          return false, targets;
        }
        TargetsRefused(reg, provider, owner, refs, j);
        if !SameLibrary(reg, found.id, owner) || found.id in targets {
          return false, targets;
        }
        targets := targets + [found.id];
      }
      assert refs[..|refs|] == refs;
      ok := true;
    }

    /** Merges or replaces the artists of each owner. */
    method PutRelations(was: set<Credit>, es: seq<RelationInput>, types: set<int>)
      returns (ok: bool, table: set<Credit>, owners: seq<int>)
      ensures ok <==> RelationsAccepted(reg, provider, es, types)
      ensures ok ==> owners == Ids(reg, provider, Owners(es), types)
                     && table == Related(was, owners, es, Targets(reg, provider, es))
    {
      var refs := Owners(es);
      table := was;
      owners := [];
      ghost var done: seq<seq<int>> := [];
      assert Related(was, [], [], []) == was;
      for i := 0 to |es|
        invariant AllResolve(reg, provider, refs[..i], types) && owners == Ids(reg, provider, refs[..i], types)
        invariant |done| == i && OwnersDone(reg, provider, es[..i], owners, done)
        invariant table == Related(was, owners, es[..i], done)
      {
        IdsPrefix(reg, provider, refs, types, i);
        var found := Resolve(reg, provider, es[i].owner, types);
        if found.Null? {
          return false, table, owners;
        }
        var owner := found.id;
        RelationsRefused(reg, provider, es, types, i);
        if owner in owners {
          return false, table, owners;
        }
        var fine, targets := ResolveTargets(owner, es[i].targets);
        if !fine {
          return false, table, owners;
        }
        RelatedStep(was, owners, es[..i], done, owner, es[i], targets);
        PrefixStep(es, i);
        OwnersStep(reg, provider, es, owners, done, owner, targets, i);
        table := PutOwner(table, owner, es[i], targets);
        owners := owners + [owner];
        done := done + [targets];
      }
      assert es[..|es|] == es && refs[..|es|] == refs;
      ok := true;
      OwnersAllDone(reg, provider, es, types, done);
    }

    method PutOwner(table: set<Credit>, owner: int, e: RelationInput, targets: seq<int>) returns (after: set<Credit>)
      ensures after == Merged(table, owner, e, targets)
    {
      after := if e.mode.Replace? then set c | c in table && c.work != owner else table;
      ghost var kept := after;
      for j := 0 to |targets|
        invariant after == kept + set a | a in targets[..j] :: Credit(owner, a)
      {
        after := after + {Credit(owner, targets[j])};
        assert targets[..j + 1] == targets[..j] + [targets[j]];
      }
      assert targets[..|targets|] == targets;
    }

    /** Replaces the ordered contents of cached mixes and sets their track counts. */
    method PutContents(before: Tables, es: seq<MixContents>)
      returns (ok: bool, after: Tables, mixes: seq<int>)
      ensures ok <==> ContentsAccepted(reg, provider, es, before)
      ensures ok ==>
                && mixes == Ids(reg, provider, MixRefs(es), {MIX, RADIO})
                && after == before.(
                     remotes := CountedRemotes(before.remotes, mixes, Members(reg, provider, es)),
                     mixes := CountedMixes(before.mixes, mixes, Members(reg, provider, es)),
                     contents := Contents(before.contents, mixes, Members(reg, provider, es)))
    {
      var refs := MixRefs(es);
      after := before;
      mixes := [];
      ghost var members: seq<seq<int>> := [];
      NothingReplaced(before);
      for i := 0 to |es|
        invariant AllResolve(reg, provider, refs[..i], {MIX, RADIO}) && mixes == Ids(reg, provider, refs[..i], {MIX, RADIO})
        invariant |members| == i && ContentsDone(reg, provider, es[..i], mixes, members, before)
        invariant after == Replaced(before, mixes, members)
      {
        if es[i].mode.Merge? {
          return false, after, mixes;
        }
        IdsPrefix(reg, provider, refs, {MIX, RADIO}, i);
        var found := Resolve(reg, provider, es[i].mix, {MIX, RADIO});
        if found.Null? {
          return false, after, mixes;
        }
        var mix := found.id;
        ContentsRefused(reg, provider, es, before, i);
        if mix in mixes || mix !in after.mixes {
          return false, after, mixes;
        }
        var fine, songs := ResolveMembers(es[i].songs);
        if !fine || mix !in after.remotes {
          return false, after, mixes;
        }
        ReplacedStep(before, mixes, members, mix, songs);
        ContentsDoneStep(reg, provider, es, mixes, members, mix, songs, before, i);
        after := after.(
          contents := after.contents[mix := songs],
          remotes := after.remotes[mix := after.remotes[mix]["track_count" := Number(|songs|)]],
          mixes := after.mixes[mix := after.mixes[mix].(trackCount := Number(|songs|))]);
        mixes := mixes + [mix];
        members := members + [songs];
      }
      assert es[..|es|] == es && refs[..|es|] == refs;
      ok := true;
      ContentsAllDone(reg, provider, es, members, before);
    }

    method ResolveMembers(refs: seq<ItemRef>) returns (ok: bool, songs: seq<int>)
      ensures ok <==> AllResolve(reg, provider, refs, {SONG}) && Distinct(Ids(reg, provider, refs, {SONG}))
      ensures ok ==> songs == Ids(reg, provider, refs, {SONG})
    {
      songs := [];
      for j := 0 to |refs|
        invariant AllResolve(reg, provider, refs[..j], {SONG}) && songs == Ids(reg, provider, refs[..j], {SONG})
        invariant Distinct(songs)
      {
        IdsPrefix(reg, provider, refs, {SONG}, j);
        var found := Resolve(reg, provider, refs[j], {SONG});
        if found.Null? {
          return false, songs;
        }
        RepeatedId(reg, provider, refs, {SONG}, j);
        if found.id in songs {
          return false, songs;
        }
        songs := songs + [found.id];
      }
      assert refs[..|refs|] == refs;
      ok := true;
    }

    /** Updates or inserts the local mix of each remote mix. */
    method PutCaches(mixes: map<int, CacheMix>, remotes: map<int, Fields>, ids: seq<int>) returns (table: map<int, CacheMix>)
      ensures table == Cached(mixes, remotes, ids)
    {
      table := mixes;
      assert forall m :: m in Cached(mixes, remotes, []) <==> m in mixes;
      assert Cached(mixes, remotes, []) == mixes;
      for i := 0 to |ids|
        invariant table == Cached(mixes, remotes, ids[..i])
      {
        CachedStep(mixes, remotes, ids, i);
        table := table[ids[i] := CacheOf(RowOf(remotes, ids[i], REMOTE_ROW))];
      }
      assert ids[..|ids|] == ids;
    }

    /** Gives every allocated item a dynamic row. */
    method PutDefaults(was: map<int, Fields>, items: seq<int>) returns (table: map<int, Fields>)
      ensures table == Defaulted(was, items)
    {
      table := was;
      assert forall x :: x in Defaulted(was, []) <==> x in was;
      assert Defaulted(was, []) == was;
      for i := 0 to |items|
        invariant table == Defaulted(was, items[..i])
      {
        DefaultedStep(was, items, i);
        if items[i] !in table {
          table := table[items[i] := DYNAMIC_ROW];
        }
      }
      assert items[..|items|] == items;
    }

    /** Registers the batch's libraries and items. */
    method PutIdentities(b: Batch) returns (ok: bool, items: seq<int>)
      modifies this`reg
      ensures ok <==> Identify(old(reg), b, provider).All?
      ensures ok ==> Identify(old(reg), b, provider) == All(reg, items)
    {
      items := [];
      ok := PutLibraries(b.libraries);
      if !ok {
        return;
      }
      ghost var start := reg;
      var w1, w2, w3, w4 := Wants(b.albums, {ALBUM}), Wants(b.artists, {ARTIST}), Wants(b.songs, {SONG}),
                            Wants(b.remotes, {MIX, RADIO});
      assert AllWants(b) == ([] + w1) + w2 + w3 + w4;
      ok, items := AllocateGroup(start, [], [], w1);
      if !ok {
        FailurePersists(start, provider, [] + w1, w2 + w3 + w4);
        assert ([] + w1) + (w2 + w3 + w4) == AllWants(b);
        return;
      }
      ok, items := AllocateGroup(start, [] + w1, items, w2);
      if !ok {
        FailurePersists(start, provider, [] + w1 + w2, w3 + w4);
        assert ([] + w1 + w2) + (w3 + w4) == AllWants(b);
        return;
      }
      ok, items := AllocateGroup(start, [] + w1 + w2, items, w3);
      if !ok {
        FailurePersists(start, provider, [] + w1 + w2 + w3, w4);
        return;
      }
      ok, items := AllocateGroup(start, [] + w1 + w2 + w3, items, w4);
    }

    /** One group of entities: rows patched, names and quantities checked. */
    method PutEntities(was: map<int, Fields>, es: seq<Input>, types: set<int>, initial: Fields, names: seq<string>,
                       mask: Mask, quantities: seq<string>) returns (ok: bool, table: map<int, Fields>, ids: seq<int>)
      requires DistinctRefs(reg, provider, Items(es), types)
      requires Schema(names, initial) && ShapedLike(was, initial)
      ensures ok <==> EntitiesAccepted(reg, provider, was, es, types, initial, mask, quantities)
      ensures ok ==> ids == Ids(reg, provider, Items(es), types) && table == Written(was, ids, es, initial, mask)
    {
      ok, table, ids := PutRows(was, es, types, initial, names, mask);
      ok := ok && RowsOk(table, ids, quantities);
    }

    method PutAlbumsTable(es: seq<Input>, mask: Mask) returns (ok: bool, table: map<int, Fields>)
      requires ShapedLike(t.albums, ALBUM_ROW) && DistinctRefs(reg, provider, Items(es), {ALBUM})
      ensures ok <==> EntitiesAccepted(reg, provider, t.albums, es, {ALBUM}, ALBUM_ROW, mask, ALBUM_QUANTITIES)
      ensures ok ==> table == Written(t.albums, Ids(reg, provider, Items(es), {ALBUM}), es, ALBUM_ROW, mask)
    {
      AlbumSchema();
      var ids;
      ok, table, ids := PutEntities(t.albums, es, {ALBUM}, ALBUM_ROW, ALBUM_FIELDS, mask, ALBUM_QUANTITIES);
    }

    method PutArtistsTable(es: seq<Input>, mask: Mask) returns (ok: bool, table: map<int, Fields>)
      requires ShapedLike(t.artists, ARTIST_ROW) && DistinctRefs(reg, provider, Items(es), {ARTIST})
      ensures ok <==> EntitiesAccepted(reg, provider, t.artists, es, {ARTIST}, ARTIST_ROW, mask, ARTIST_QUANTITIES)
      ensures ok ==> table == Written(t.artists, Ids(reg, provider, Items(es), {ARTIST}), es, ARTIST_ROW, mask)
    {
      ArtistSchema();
      var ids;
      ok, table, ids := PutEntities(t.artists, es, {ARTIST}, ARTIST_ROW, ARTIST_FIELDS, mask, ARTIST_QUANTITIES);
    }

    method PutSongsTable(es: seq<Input>, mask: Mask) returns (ok: bool, table: map<int, Fields>, ids: seq<int>)
      requires ShapedLike(t.songs, SONG_ROW) && DistinctRefs(reg, provider, Items(es), {SONG})
      ensures ok <==> EntitiesAccepted(reg, provider, t.songs, es, {SONG}, SONG_ROW, mask, SONG_QUANTITIES)
      ensures ok ==> ids == Ids(reg, provider, Items(es), {SONG}) && table == Written(t.songs, ids, es, SONG_ROW, mask)
    {
      SongSchema();
      ok, table, ids := PutEntities(t.songs, es, {SONG}, SONG_ROW, SONG_FIELDS, mask, SONG_QUANTITIES);
    }

    method PutRemotesTable(es: seq<Input>, mask: Mask) returns (ok: bool, table: map<int, Fields>, ids: seq<int>)
      requires ShapedLike(t.remotes, REMOTE_ROW) && DistinctRefs(reg, provider, Items(es), {MIX, RADIO})
      ensures ok <==> EntitiesAccepted(reg, provider, t.remotes, es, {MIX, RADIO}, REMOTE_ROW, mask, REMOTE_QUANTITIES)
      ensures ok ==> ids == Ids(reg, provider, Items(es), {MIX, RADIO}) && table == Written(t.remotes, ids, es, REMOTE_ROW, mask)
    {
      RemoteSchema();
      ok, table, ids := PutEntities(t.remotes, es, {MIX, RADIO}, REMOTE_ROW, REMOTE_FIELDS, mask, REMOTE_QUANTITIES);
    }

    /** The entity tables of a batch, and the local mixes of its remote mixes. */
    method PutAllEntities(b: Batch) returns (ok: bool, after: Tables, songs: seq<int>, remotes: seq<int>)
      requires Shaped(t) && EntitiesDistinct(reg, provider, b)
      ensures ok <==> AllEntitiesAccepted(reg, provider, t, b)
      ensures ok ==>
                && songs == Ids(reg, provider, Items(b.songs), {SONG})
                && remotes == Ids(reg, provider, Items(b.remotes), {MIX, RADIO})
                && after == WithEntities(reg, provider, t, b)
    {
      after, songs, remotes := t, [], [];
      var table1, table2, table3, table4;
      ok, table1 := PutAlbumsTable(b.albums, b.albumMask);
      if !ok { return; }
      ok, table2 := PutArtistsTable(b.artists, b.artistMask);
      if !ok { return; }
      ok, table3, songs := PutSongsTable(b.songs, b.songMask);
      if !ok { return; }
      ok, table4, remotes := PutRemotesTable(b.remotes, b.remoteMask);
      if !ok { return; }
      var mixes := PutCaches(t.mixes, table4, remotes);
      after := t.(albums := table1, artists := table2, songs := table3, remotes := table4, mixes := mixes);
    }

    /** Dynamics, images and the album column. */
    method PutDetails(b: Batch, items: seq<int>, songs: seq<int>, w: Writer)
      returns (ok: bool, dynamics: map<int, Fields>, images: map<ImageKey, Image>, column: map<int, Ref>)
      requires w.provider == provider && DynamicsWellFormed(t.dynamics)
      requires ShapedLike(t.dynamics, DYNAMIC_ROW)
      requires forall s :: s in t.songs ==> s in t.albumOf
      requires |songs| == |b.songs| && Distinct(songs)
      ensures ok <==>
                && DynamicsAccepted(reg, t.dynamics, b.dynamics, b.dynamicMask, w)
                && ImagesAccepted(reg, provider, b.images)
                && AlbumsAccepted(reg, provider, t.songs, songs, b.songs, b.songMask, b.songAlbums)
      ensures ok ==>
                && dynamics == Defaulted(WrittenDynamics(t.dynamics, Ids(reg, provider, Items(b.dynamics), {}), b.dynamics,
                                                         b.dynamicMask, w), items)
                && images == WrittenImages(t.images, ImageKeys(Ids(reg, provider, ImageRefs(b.images), {}), b.images), b.images)
                && column == AlbumColumn(reg, provider, t, songs, b.songs, b.songMask,
                                         Ids(reg, provider, SongRefs(b.songAlbums), {SONG}), b.songAlbums)
    {
      images, column := t.images, t.albumOf;
      var ids, keys;
      ok, dynamics, ids := PutDynamics(t.dynamics, b.dynamics, b.dynamicMask, w);
      if !ok { return; }
      dynamics := PutDefaults(dynamics, items);
      ok, images, keys := PutImages(t.images, b.images);
      if !ok { return; }
      ok, column := PutAlbums(t, songs, b.songs, b.songMask, b.songAlbums);
    }

    method PutCredits(b: Batch) returns (ok: bool, albumArtists: set<Credit>, songArtists: set<Credit>)
      ensures ok <==>
                && RelationsAccepted(reg, provider, b.albumArtists, {ALBUM})
                && RelationsAccepted(reg, provider, b.songArtists, {SONG})
      ensures ok ==>
                && albumArtists == Related(t.albumArtists, Ids(reg, provider, Owners(b.albumArtists), {ALBUM}),
                                           b.albumArtists, Targets(reg, provider, b.albumArtists))
                && songArtists == Related(t.songArtists, Ids(reg, provider, Owners(b.songArtists), {SONG}),
                                          b.songArtists, Targets(reg, provider, b.songArtists))
    {
      var owners;
      songArtists := t.songArtists;
      ok, albumArtists, owners := PutRelations(t.albumArtists, b.albumArtists, {ALBUM});
      if !ok { return; }
      ok, songArtists, owners := PutRelations(t.songArtists, b.songArtists, {SONG});
    }

    /** Every stage before the contents. */
    method PutLinked(b: Batch, items: seq<int>, w: Writer) returns (ok: bool, after: Tables)
      requires w.provider == provider && Shaped(t) && DynamicsWellFormed(t.dynamics)
      requires forall s :: s in t.songs ==> s in t.albumOf
      requires EntitiesDistinct(reg, provider, b)
      ensures ok <==> LinkedAccepted(reg, t, b, w)
      ensures ok ==> after == Linked(reg, t, b, w, items)
    {
      var songs, remotes;
      ok, after, songs, remotes := PutAllEntities(b);
      if !ok { return; }
      DistinctIds(reg, provider, Items(b.songs), {SONG});
      var dynamics, images, column;
      ok, dynamics, images, column := PutDetails(b, items, songs, w);
      if !ok { return; }
      var albumArtists, songArtists;
      ok, albumArtists, songArtists := PutCredits(b);
      after := after.(albumOf := column, dynamics := dynamics, images := images,
                      albumArtists := albumArtists, songArtists := songArtists);
    }

    /** Writes every table of a batch whose items are registered; `t` changes only if all stages pass. */
    method PutTables(b: Batch, items: seq<int>, w: Writer) returns (ok: bool)
      requires w.provider == provider && Shaped(t) && DynamicsWellFormed(t.dynamics)
      requires forall s :: s in t.songs ==> s in t.albumOf
      requires EntitiesDistinct(reg, provider, b)
      modifies this`t
      ensures ok <==> Stages(reg, old(t), b, w)
      ensures !ok ==> t == old(t)
      ensures ok ==> Resolved(reg, provider, b) && t == Final(reg, old(t), b, PlanOf(reg, provider, b), items, w)
    {
      var after, mixes;
      StagesIffContents(reg, t, b, w, items);
      ok, after := PutLinked(b, items, w);
      if !ok { return; }
      ok, after, mixes := PutContents(after, b.contents);
      if !ok { return; }
      StagesAreFinal(reg, t, b, w, items);
      t := after;
    }

    /** One transaction: the whole batch or nothing. */
    method WriteBatch(b: Batch, w: Writer) returns (ok: bool)
      requires w.provider == provider && WellFormed(View()) && Shaped(t)
      modifies this
      ensures ok <==> Apply(old(View()), b, w).Some?
      ensures View() == if ok then Apply(old(View()), b, w).value else old(View())
    {
      if !Admissible(b) {
        return false;
      }
      var saved := reg;
      var items;
      ok, items := PutIdentities(b);
      if !ok {
        reg := saved;
        return;
      }
      IdentifiedDistinct(saved, b, provider);
      ApplyIsStages(Store(saved, t), b, w, reg, items);
      ok := PutTables(b, items, w);
      if !ok {
        reg := saved;
      }
    }
  }
}
