/** A batch that uses every stage, and is accepted: an album, an artist, a song on the album and a mix that
    holds it, with a favourite, an image and credits. */
module BatchExample {
  import opened Options
  import opened Catalogue
  import opened BatchInput
  import opened Registry
  import opened BatchTables
  import opened SyncBatch
  import opened BatchEffects

  const SHELF := Library(LibraryKey(7, "l"), "")

  const ALBUM_REF := Key("a", In(To(1)), ALBUM, None)
  const ARTIST_REF := Key("r", In(To(1)), ARTIST, None)
  const SONG_REF := Key("s", In(To(1)), SONG, None)
  const MIX_REF := Key("m", In(Null), MIX, None)

  /** A store with one library of provider 7. */
  const EMPTY := Store(
    Reg(map[1 := SHELF], map[SHELF.key := 1], 2, map[], map[], 1),
    Tables(map[], map[], map[], map[], map[], map[], map[], map[], map[], {}, {}))

  function Named(item: ItemRef, album: AlbumPatch): Input {
    Input(item, map[], map["name" := Text("x")], album, KeepFavorite)
  }

  const FULL := EMPTY_BATCH.(
    libraries := [LibraryInput("l", "")],
    albumMask := Mask(Some(["name"]), None),
    songMask := Mask(None, Some(["album_id"])),
    dynamicMask := Mask(Some(["favorite"]), None),
    albums := [Named(ALBUM_REF, KeepAlbum)],
    artists := [Named(ARTIST_REF, KeepAlbum)],
    songs := [Named(SONG_REF, SetAlbum(ALBUM_REF))],
    remotes := [Named(MIX_REF, KeepAlbum)],
    dynamics := [Input(SONG_REF, map[], map[], KeepAlbum, SetFavorite(true))],
    images := [ImageInput(ALBUM_REF, 0, Set(Text("i")), Missing, false)],
    albumArtists := [RelationInput(ALBUM_REF, Merge, [ARTIST_REF])],
    songArtists := [RelationInput(SONG_REF, Replace, [ARTIST_REF])],
    contents := [MixContents(MIX_REF, Replace, [SONG_REF])])

  /** The registry afterwards: items 1 to 4. */
  const FILLED := AddItem(AddItem(AddItem(AddItem(EMPTY.reg, KeyFor(7, ALBUM_REF)), KeyFor(7, ARTIST_REF)),
                                  KeyFor(7, SONG_REF)), KeyFor(7, MIX_REF))

  lemma StoredLibrary()
    ensures LibrariesOk(FULL.libraries) && WriteLibraries(EMPTY.reg, 7, FULL.libraries) == EMPTY.reg
  {
    WriteLibrariesAgain(EMPTY.reg, 7, FULL.libraries);
  }

  lemma FullIdentifies()
    ensures Identify(EMPTY.reg, FULL, 7) == All(FILLED, [1, 2, 3, 4])
  {
    StoredLibrary();
    var ws := [Want(ALBUM_REF, {ALBUM}), Want(ARTIST_REF, {ARTIST}), Want(SONG_REF, {SONG}), Want(MIX_REF, {MIX, RADIO})];
    assert AllWants(FULL) == ws;
    var r1 := AddItem(EMPTY.reg, KeyFor(7, ALBUM_REF));
    var r2 := AddItem(r1, KeyFor(7, ARTIST_REF));
    var r3 := AddItem(r2, KeyFor(7, SONG_REF));
    assert AllocateAll(EMPTY.reg, 7, []) == All(EMPTY.reg, []);
    assert ws[..1][..0] == [] && ws[..2][..1] == ws[..1] && ws[..3][..2] == ws[..2] && ws[..4][..3] == ws[..3] && ws[..4] == ws;
    assert AllocateAll(EMPTY.reg, 7, ws[..1]) == All(r1, [1]);
    assert AllocateAll(EMPTY.reg, 7, ws[..2]) == All(r2, [1, 2]);
    assert AllocateAll(EMPTY.reg, 7, ws[..3]) == All(r3, [1, 2, 3]);
    assert AllocateAll(EMPTY.reg, 7, ws[..4]) == All(FILLED, [1, 2, 3, 4]);
  }

  lemma FullRefs()
    ensures Resolve(FILLED, 7, ALBUM_REF, {ALBUM}) == Resolve(FILLED, 7, ALBUM_REF, {}) == To(1)
    ensures Resolve(FILLED, 7, ARTIST_REF, {ARTIST}) == To(2)
    ensures Resolve(FILLED, 7, SONG_REF, {SONG}) == Resolve(FILLED, 7, SONG_REF, {}) == To(3)
    ensures Resolve(FILLED, 7, MIX_REF, {MIX, RADIO}) == To(4)
    ensures SameLibrary(FILLED, 3, 1) && SameLibrary(FILLED, 2, 1) && SameLibrary(FILLED, 2, 3)
  {
  }

  const PLAN := Plan([1], [2], [3], [4], [3], [ImageKey(1, 0)], [], [1], [[2]], [3], [[2]], [4], [[3]])

  lemma FullResolves()
    ensures Resolved(FILLED, 7, FULL) && PlanOf(FILLED, 7, FULL) == PLAN
  {
    FullRefs();
    assert Resolved(FILLED, 7, FULL);
    FullPlan();
  }

  lemma FullPlan()
    requires Resolved(FILLED, 7, FULL)
    ensures PlanOf(FILLED, 7, FULL) == PLAN
  {
    FullRefs();
    var p := PlanOf(FILLED, 7, FULL);
    assert p.albums == [1] && p.artists == [2] && p.songs == [3] && p.remotes == [4] && p.dynamics == [3];
    assert p.images == [ImageKey(1, 0)] && p.related == [] && p.albumOwners == [1] && p.songOwners == [3];
    assert p.albumTargets[0] == [2] && p.songTargets[0] == [2] && p.members[0] == [3] && p.mixes == [4];
    assert p.albumTargets == [[2]] && p.songTargets == [[2]] && p.members == [[3]];
  }

  lemma NewRowAccepted(ids: seq<int>, es: seq<Input>, initial: Fields, mask: Mask, quantities: seq<string>,
                       item: ItemRef, album: AlbumPatch)
    requires |ids| == 1 && es == [Named(item, album)] && "name" in initial
    requires forall q :: q in quantities ==> q != "name" && q in initial && initial[q] == Number(0)
    ensures RowsOk(Written(map[], ids, es, initial, mask), ids, quantities)
  {
    assert IndexOf(ids, ids[0]) == 0;
    assert ids == [ids[0]];
  }

  lemma FullEntities()
    ensures EntitiesFine(EMPTY.t, FULL, PLAN)
  {
    NewRowAccepted([1], FULL.albums, ALBUM_ROW, FULL.albumMask, ALBUM_QUANTITIES, ALBUM_REF, KeepAlbum);
    NewRowAccepted([2], FULL.artists, ARTIST_ROW, FULL.artistMask, ARTIST_QUANTITIES, ARTIST_REF, KeepAlbum);
    NewRowAccepted([3], FULL.songs, SONG_ROW, FULL.songMask, SONG_QUANTITIES, SONG_REF, SetAlbum(ALBUM_REF));
    NewRowAccepted([4], FULL.remotes, REMOTE_ROW, FULL.remoteMask, REMOTE_QUANTITIES, MIX_REF, KeepAlbum);
  }

  lemma FullLinks(w: Writer)
    requires w.provider == 7
    ensures LinksFine(FILLED, EMPTY.t, FULL, PLAN, w)
  {
    FullRefs();
    assert TargetsAccepted(FILLED, 7, 1, FULL.albumArtists[0].targets) by {
      assert Ids(FILLED, 7, [ARTIST_REF], {ARTIST}) == [2];
    }
    assert TargetsAccepted(FILLED, 7, 3, FULL.songArtists[0].targets) by {
      assert Ids(FILLED, 7, [ARTIST_REF], {ARTIST}) == [2];
    }
    assert MixOk(4, FULL.contents[0], [3], EMPTY.t.mixes.Keys + (set x | x in PLAN.remotes),
                 EMPTY.t.remotes.Keys + (set x | x in PLAN.remotes));
  }

  lemma FullDynamics(w: Writer)
    ensures DynamicsFine(EMPTY.t, FULL, PLAN, w)
  {
  }

  lemma SumOfOne<T>(x: T)
    ensures forall size: T -> nat {:trigger SumOver([x], size)} :: SumOver([x], size) == size(x)
  {
    assert [x][1..] == [];
  }

  lemma SumOfTwo<T>(x: T, y: T)
    ensures forall size: T -> nat {:trigger SumOver([x, y], size)} :: SumOver([x, y], size) == size(x) + size(y)
  {
    assert [x, y][1..] == [y];
    SumOfOne(y);
  }

  lemma FullAdmissible()
    ensures Admissible(FULL)
  {
    assert FULL.albumArtists + FULL.songArtists == [FULL.albumArtists[0], FULL.songArtists[0]];
    SumOfTwo(FULL.albumArtists[0], FULL.songArtists[0]);
    SumOfOne(FULL.contents[0]);
    assert FULL.contents == [FULL.contents[0]];
  }

  lemma FullFine(w: Writer)
    requires w.provider == 7
    ensures Resolved(FILLED, 7, FULL) && Fine(FILLED, EMPTY.t, FULL, PlanOf(FILLED, 7, FULL), w)
  {
    FullResolves();
    FullEntities();
    FullDynamics(w);
    FullLinks(w);
  }

  lemma EmptyIsWellFormed()
    ensures WellFormed(EMPTY)
  {
  }

  lemma AcceptedWhenFine(db: Store, b: Batch, w: Writer, r: Reg, items: seq<int>)
    requires DynamicsWellFormed(db.t.dynamics) && Admissible(b) && Identify(db.reg, b, w.provider) == All(r, items)
    requires Resolved(r, w.provider, b) && Fine(r, db.t, b, PlanOf(r, w.provider, b), w)
    ensures Apply(db, b, w).Some? && Apply(db, b, w).value.reg == r
  {
    ApplyWhenFine(db, b, w, r, items);
  }

  /** The batch is accepted. */
  lemma FullApplies(w: Writer, db: Store, b: Batch, r: Reg)
    requires w.provider == 7 && db == EMPTY && b == FULL && r == FILLED
    ensures WellFormed(db) && Apply(db, b, w).Some? && Apply(db, b, w).value.reg == r
  {
    EmptyIsWellFormed();
    FullAdmissible();
    FullIdentifies();
    FullFine(w);
    AcceptedWhenFine(db, b, w, r, [1, 2, 3, 4]);
  }

  /** What the entries of the batch name. */
  lemma FullEntries(db: Store, b: Batch, r: Reg)
    requires db == EMPTY && b == FULL && r == FILLED
    ensures |b.songs| == |b.contents| == |b.dynamics| == 1 && Decides(db, b, 0, 3)
    ensures Resolve(r, 7, b.songs[0].item, {SONG}) == Resolve(r, 7, b.dynamics[0].item, {}) == To(3)
    ensures b.songs[0].album.SetAlbum? && Resolve(r, 7, b.songs[0].album.album, {ALBUM}) == To(1)
    ensures Resolve(r, 7, b.contents[0].mix, {MIX, RADIO}) == To(4)
    ensures |b.contents[0].songs| == 1 && Resolve(r, 7, b.contents[0].songs[0], {SONG}) == To(3)
    ensures b.dynamics[0].favorite == SetFavorite(true) && b.dynamics[0].fields == b.dynamics[0].onInsert == map[]
    ensures 3 !in db.t.dynamics
  {
    FullRefs();
  }

  /** The song is on the album, the mix holds the song, and the favourite is marked. */
  lemma FullLeaves(w: Writer, db: Store, b: Batch, r: Reg, after: Store)
    requires w.provider == 7 && 3 !in w.changed && db == EMPTY && b == FULL && r == FILLED
    requires Apply(db, b, w) == Some(after)
    ensures 3 in after.t.albumOf && after.t.albumOf[3] == To(1)
    ensures 4 in after.t.contents && after.t.contents[4] == [3]
    ensures 3 in after.t.dynamics && "favorite_at" in after.t.dynamics[3] && after.t.dynamics[3]["favorite_at"] == Time(w.now)
  {
    FullApplies(w, db, b, r);
    FullEntries(db, b, r);
    SongTakesAlbum(db, b, w, after, 0, 3);
    LeavesContents(w, db, b, r, after);
    LeavesMark(w, db, b, r, after);
  }

  lemma OnlyOne(r: Reg, refs: seq<ItemRef>, ids: seq<int>, id: int)
    requires Are(r, 7, refs, {SONG}, ids) && |refs| == 1 && Resolve(r, 7, refs[0], {SONG}) == To(id)
    ensures ids == [id]
  {
    assert Resolve(r, 7, refs[0], {SONG}) == To(ids[0]);
  }

  lemma LeavesContents(w: Writer, db: Store, b: Batch, r: Reg, after: Store)
    requires w.provider == 7 && Accepts(db, b, w, after) && after.reg == r && |b.contents| == 1
    requires Resolve(r, 7, b.contents[0].mix, {MIX, RADIO}) == To(4)
    requires |b.contents[0].songs| == 1 && Resolve(r, 7, b.contents[0].songs[0], {SONG}) == To(3)
    ensures 4 in after.t.contents && after.t.contents[4] == [3]
  {
    assert Refilled(b, w, after, 0, 4);
    ContentsReplaced(db, b, w, after, 0, 4);
    OnlyOne(r, b.contents[0].songs, after.t.contents[4], 3);
  }

  lemma LeavesMark(w: Writer, db: Store, b: Batch, r: Reg, after: Store)
    requires w.provider == 7 && 3 !in w.changed && Accepts(db, b, w, after) && after.reg == r && 3 !in db.t.dynamics
    requires |b.dynamics| == 1 && Resolve(r, 7, b.dynamics[0].item, {}) == To(3)
    requires b.dynamics[0].favorite == SetFavorite(true) && b.dynamics[0].fields == b.dynamics[0].onInsert == map[]
    ensures 3 in after.t.dynamics && "favorite_at" in after.t.dynamics[3] && after.t.dynamics[3]["favorite_at"] == Time(w.now)
  {
    DynamicEffect(db, b, w, after, 0, 3, "favorite_at");
  }
}
