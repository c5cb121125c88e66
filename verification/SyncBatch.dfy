/** A whole batch: identities, then every table in order, all or nothing; and its replay. */
module SyncBatch {
  import opened Options
  import opened Catalogue
  import opened BatchInput
  import opened Registry
  import opened BatchTables

  datatype Store = Store(reg: Reg, t: Tables)

  ghost predicate WellFormed(db: Store) {
    && Consistent(db.reg)
    && (forall id :: id in db.t.remotes ==> CountedRow(db.t.remotes[id]))
    && DynamicsWellFormed(db.t.dynamics)
    && (forall s :: s in db.t.songs <==> s in db.t.albumOf)
  }

  const ALBUM_QUANTITIES := ["duration", "track_count", "disc_count"]
  const ARTIST_QUANTITIES := ["album_count", "music_count"]
  const SONG_QUANTITIES := ["duration", "track_number", "disc_number"]
  const REMOTE_QUANTITIES := ["track_count"]

  // --- Checks before the database is touched ---

  function SumOver<T>(xs: seq<T>, size: T -> nat): nat {
    if xs == [] then 0 else size(xs[0]) + SumOver(xs[1..], size)
  }

  predicate Admissible(b: Batch) {
    && b.albumMask.Validates(ALBUM_FIELDS)
    && b.artistMask.Validates(ARTIST_FIELDS)
    && b.songMask.Validates(SONG_FIELDS + ["album_id"])
    && b.remoteMask.Validates(REMOTE_FIELDS)
    && b.dynamicMask.Validates(DYNAMIC_FIELDS + ["favorite"])
    && |b.libraries| + |b.albums| + |b.artists| + |b.songs| + |b.remotes| + |b.dynamics| + |b.images|
       + |b.contents| <= 500
    && |b.songAlbums| * 2 + SumOver(b.albumArtists + b.songArtists, (r: RelationInput) => |r.targets| + 1) <= 5000
    && SumOver(b.contents, (m: MixContents) => |m.songs|) <= 10000
  }

  // --- Identities ---

  function Wants(es: seq<Input>, types: set<int>): seq<Want> {
    seq(|es|, i requires 0 <= i < |es| => Want(es[i].item, types))
  }

  function AllWants(b: Batch): seq<Want> {
    Wants(b.albums, {ALBUM}) + Wants(b.artists, {ARTIST}) + Wants(b.songs, {SONG}) + Wants(b.remotes, {MIX, RADIO})
  }

  /** The registry with the batch's libraries and items, and the items' ids. */
  function Identify(r: Reg, b: Batch, provider: int): Allocations {
    if LibrariesOk(b.libraries) then AllocateAll(WriteLibraries(r, provider, b.libraries), provider, AllWants(b))
    else Failed
  }

  // --- Song albums ---

  function Target(r: Reg, provider: int, a: AlbumPatch): Ref {
    if a.SetAlbum? then Resolve(r, provider, a.album, {ALBUM}) else Null
  }

  /** Song and album must share a library. */
  predicate TargetOk(r: Reg, provider: int, song: int, a: AlbumPatch) {
    a.SetAlbum? ==>
      var album := Target(r, provider, a);
      album.To? && album.id in r.items && song in r.items && r.items[song].library == r.items[album.id].library
  }

  /** Whether a song input sets the album: the song is new, or the mask allows it. */
  predicate SetsAlbum(songs: map<int, Fields>, id: int, e: Input, mask: Mask) {
    !e.album.KeepAlbum? && (id !in songs || mask.Allows("album_id"))
  }

  function SongRefs(es: seq<SongAlbumInput>): seq<ItemRef> {
    seq(|es|, i requires 0 <= i < |es| => es[i].song)
  }

  /** The album column: song album relations first, then song inputs that set it, then what was stored. */
  function AlbumColumn(r: Reg, provider: int, t: Tables, ids: seq<int>, es: seq<Input>, mask: Mask,
                       related: seq<int>, relations: seq<SongAlbumInput>): map<int, Ref>
    requires |ids| == |es| && |related| == |relations|
  {
    map s | s in t.albumOf.Keys + (set x | x in ids) ::
      if s in related then Target(r, provider, relations[IndexOf(related, s)].album)
      else if s in ids && SetsAlbum(t.songs, s, es[IndexOf(ids, s)], mask) then
        Target(r, provider, es[IndexOf(ids, s)].album)
      else if s in t.albumOf then t.albumOf[s]
      else Null
  }

  predicate AlbumsOk(r: Reg, provider: int, songs: map<int, Fields>, ids: seq<int>, es: seq<Input>, mask: Mask,
                     related: seq<int>, relations: seq<SongAlbumInput>)
    requires |ids| == |es| && |related| == |relations|
  {
    && (forall i :: 0 <= i < |ids| && SetsAlbum(songs, ids[i], es[i], mask) ==>
          TargetOk(r, provider, ids[i], es[i].album) && ids[i] !in related)
    && Distinct(related)
    && (forall i :: 0 <= i < |related| ==>
          && (related[i] in songs || related[i] in ids)
          && TargetOk(r, provider, related[i], relations[i].album))
  }

  // --- Relations and mix contents ---

  predicate SameLibrary(r: Reg, a: int, b: int) {
    a in r.items && b in r.items && r.items[a].library == r.items[b].library
  }

  /** The targets of one relation are artists, each named once, of the owner's library. */
  predicate TargetsAccepted(r: Reg, provider: int, owner: int, refs: seq<ItemRef>) {
    && AllResolve(r, provider, refs, {ARTIST})
    && Distinct(Ids(r, provider, refs, {ARTIST}))
    && forall k :: 0 <= k < |refs| ==> SameLibrary(r, Ids(r, provider, refs, {ARTIST})[k], owner)
  }

  predicate RelationsOk(r: Reg, provider: int, owners: seq<int>, es: seq<RelationInput>)
    requires |owners| == |es|
  {
    && Distinct(owners)
    && forall i :: 0 <= i < |es| ==> TargetsAccepted(r, provider, owners[i], es[i].targets)
  }

  function Targets(r: Reg, provider: int, es: seq<RelationInput>): seq<seq<int>>
    requires forall i :: 0 <= i < |es| ==> AllResolve(r, provider, es[i].targets, {ARTIST})
  {
    seq(|es|, i requires 0 <= i < |es| => Ids(r, provider, es[i].targets, {ARTIST}))
  }

  function Owners(es: seq<RelationInput>): seq<ItemRef> {
    seq(|es|, i requires 0 <= i < |es| => es[i].owner)
  }

  function ImageRefs(es: seq<ImageInput>): seq<ItemRef> {
    seq(|es|, i requires 0 <= i < |es| => es[i].item)
  }

  function MixRefs(es: seq<MixContents>): seq<ItemRef> {
    seq(|es|, i requires 0 <= i < |es| => es[i].mix)
  }

  function Members(r: Reg, provider: int, es: seq<MixContents>): seq<seq<int>>
    requires forall i :: 0 <= i < |es| ==> AllResolve(r, provider, es[i].songs, {SONG})
  {
    seq(|es|, i requires 0 <= i < |es| => Ids(r, provider, es[i].songs, {SONG}))
  }

  predicate ContentsOk(mixes: seq<int>, es: seq<MixContents>, members: seq<seq<int>>, cached: set<int>, remotes: set<int>)
    requires |mixes| == |es| == |members|
  {
    && Distinct(mixes)
    && forall i :: 0 <= i < |es| ==> MixOk(mixes[i], es[i], members[i], cached, remotes)
  }

  /** The contents of one cached mix are replaced as a whole, by songs that are named once each. */
  predicate MixOk(mix: int, e: MixContents, members: seq<int>, cached: set<int>, remotes: set<int>) {
    e.mode.Replace? && mix in cached && mix in remotes && Distinct(members)
  }

  lemma ContentsOkLater(mixes: seq<int>, es: seq<MixContents>, members: seq<seq<int>>,
                        cached: set<int>, remotes: set<int>, cached': set<int>, remotes': set<int>)
    requires |mixes| == |es| == |members| && ContentsOk(mixes, es, members, cached, remotes)
    requires forall m :: m in cached ==> m in cached'
    requires forall m :: m in remotes ==> m in remotes'
    ensures ContentsOk(mixes, es, members, cached', remotes')
  {
    forall i | 0 <= i < |es| ensures MixOk(mixes[i], es[i], members[i], cached', remotes') {
      assert MixOk(mixes[i], es[i], members[i], cached, remotes);
    }
  }

  // --- One batch ---

  /** Every reference of the batch that is resolved unconditionally does resolve. */
  predicate Resolved(r: Reg, provider: int, b: Batch) {
    && AllResolve(r, provider, Items(b.albums), {ALBUM})
    && AllResolve(r, provider, Items(b.artists), {ARTIST})
    && AllResolve(r, provider, Items(b.songs), {SONG})
    && AllResolve(r, provider, Items(b.remotes), {MIX, RADIO})
    && AllResolve(r, provider, Items(b.dynamics), {})
    && AllResolve(r, provider, ImageRefs(b.images), {})
    && AllResolve(r, provider, SongRefs(b.songAlbums), {SONG})
    && AllResolve(r, provider, Owners(b.albumArtists), {ALBUM})
    && AllResolve(r, provider, Owners(b.songArtists), {SONG})
    && AllResolve(r, provider, MixRefs(b.contents), {MIX, RADIO})
    && (forall i :: 0 <= i < |b.contents| ==> AllResolve(r, provider, b.contents[i].songs, {SONG}))
    && (forall i :: 0 <= i < |b.albumArtists| ==> AllResolve(r, provider, b.albumArtists[i].targets, {ARTIST}))
    && (forall i :: 0 <= i < |b.songArtists| ==> AllResolve(r, provider, b.songArtists[i].targets, {ARTIST}))
  }

  /** The resolved ids of a batch, group by group. */
  datatype Plan = Plan(
    albums: seq<int>, artists: seq<int>, songs: seq<int>, remotes: seq<int>, dynamics: seq<int>,
    images: seq<ImageKey>, related: seq<int>, albumOwners: seq<int>, albumTargets: seq<seq<int>>,
    songOwners: seq<int>, songTargets: seq<seq<int>>, mixes: seq<int>, members: seq<seq<int>>)

  ghost predicate Fits(p: Plan, b: Batch) {
    && |p.albums| == |b.albums| && |p.artists| == |b.artists| && |p.songs| == |b.songs|
    && |p.remotes| == |b.remotes| && |p.dynamics| == |b.dynamics| && |p.images| == |b.images|
    && |p.related| == |b.songAlbums|
    && |p.albumOwners| == |p.albumTargets| == |b.albumArtists|
    && |p.songOwners| == |p.songTargets| == |b.songArtists|
    && |p.mixes| == |p.members| == |b.contents|
  }

  function PlanOf(r: Reg, provider: int, b: Batch): (p: Plan)
    requires Resolved(r, provider, b)
    ensures Fits(p, b)
  {
    Plan(
      Ids(r, provider, Items(b.albums), {ALBUM}),
      Ids(r, provider, Items(b.artists), {ARTIST}),
      Ids(r, provider, Items(b.songs), {SONG}),
      Ids(r, provider, Items(b.remotes), {MIX, RADIO}),
      Ids(r, provider, Items(b.dynamics), {}),
      ImageKeys(Ids(r, provider, ImageRefs(b.images), {}), b.images),
      Ids(r, provider, SongRefs(b.songAlbums), {SONG}),
      Ids(r, provider, Owners(b.albumArtists), {ALBUM}),
      Targets(r, provider, b.albumArtists),
      Ids(r, provider, Owners(b.songArtists), {SONG}),
      Targets(r, provider, b.songArtists),
      Ids(r, provider, MixRefs(b.contents), {MIX, RADIO}),
      Members(r, provider, b.contents))
  }

  /** The tables after the batch, given that every check passes. */
  ghost function Final(r: Reg, t: Tables, b: Batch, p: Plan, items: seq<int>, w: Writer): Tables
    requires Fits(p, b) && DynamicsWellFormed(t.dynamics)
  {
    var remotes := Written(t.remotes, p.remotes, b.remotes, REMOTE_ROW, b.remoteMask);
    Tables(
      Written(t.albums, p.albums, b.albums, ALBUM_ROW, b.albumMask),
      Written(t.artists, p.artists, b.artists, ARTIST_ROW, b.artistMask),
      Written(t.songs, p.songs, b.songs, SONG_ROW, b.songMask),
      CountedRemotes(remotes, p.mixes, p.members),
      AlbumColumn(r, w.provider, t, p.songs, b.songs, b.songMask, p.related, b.songAlbums),
      CountedMixes(Cached(t.mixes, remotes, p.remotes), p.mixes, p.members),
      Contents(t.contents, p.mixes, p.members),
      Defaulted(WrittenDynamics(t.dynamics, p.dynamics, b.dynamics, b.dynamicMask, w), items),
      WrittenImages(t.images, p.images, b.images),
      Related(t.albumArtists, p.albumOwners, b.albumArtists, p.albumTargets),
      Related(t.songArtists, p.songOwners, b.songArtists, p.songTargets))
  }

  ghost predicate EntitiesFine(t: Tables, b: Batch, p: Plan)
    requires Fits(p, b)
  {
    && RowsOk(Written(t.albums, p.albums, b.albums, ALBUM_ROW, b.albumMask), p.albums, ALBUM_QUANTITIES)
    && RowsOk(Written(t.artists, p.artists, b.artists, ARTIST_ROW, b.artistMask), p.artists, ARTIST_QUANTITIES)
    && RowsOk(Written(t.songs, p.songs, b.songs, SONG_ROW, b.songMask), p.songs, SONG_QUANTITIES)
    && RowsOk(Written(t.remotes, p.remotes, b.remotes, REMOTE_ROW, b.remoteMask), p.remotes, REMOTE_QUANTITIES)
  }

  ghost predicate DynamicsFine(t: Tables, b: Batch, p: Plan, w: Writer)
    requires Fits(p, b) && DynamicsWellFormed(t.dynamics)
  {
    && Distinct(p.dynamics)
    && forall i :: 0 <= i < |b.dynamics| ==>
         DynamicEntryOk(t.dynamics, p.dynamics[i], b.dynamics[i], b.dynamicMask, w)
  }

  ghost predicate LinksFine(r: Reg, t: Tables, b: Batch, p: Plan, w: Writer)
    requires Fits(p, b)
  {
    && Distinct(p.images)
    && AlbumsOk(r, w.provider, t.songs, p.songs, b.songs, b.songMask, p.related, b.songAlbums)
    && RelationsOk(r, w.provider, p.albumOwners, b.albumArtists)
    && RelationsOk(r, w.provider, p.songOwners, b.songArtists)
    && ContentsOk(p.mixes, b.contents, p.members,
                  t.mixes.Keys + (set x | x in p.remotes), t.remotes.Keys + (set x | x in p.remotes))
  }

  ghost predicate Fine(r: Reg, t: Tables, b: Batch, p: Plan, w: Writer)
    requires Fits(p, b) && DynamicsWellFormed(t.dynamics)
  {
    EntitiesFine(t, b, p) && DynamicsFine(t, b, p, w) && LinksFine(r, t, b, p, w)
  }

  /** The database after a batch, or none if the batch is refused and rolled back. */
  ghost function Apply(db: Store, b: Batch, w: Writer): Option<Store>
    requires DynamicsWellFormed(db.t.dynamics)
  {
    if !Admissible(b) then None
    else
      match Identify(db.reg, b, w.provider)
      case Failed => None
      case All(r, items) =>
        if !Resolved(r, w.provider, b) then None
        else
          var p := PlanOf(r, w.provider, b);
          if Fine(r, db.t, b, p, w) then Some(Store(r, Final(r, db.t, b, p, items, w))) else None
  }

  lemma ApplyWhenFine(db: Store, b: Batch, w: Writer, r: Reg, items: seq<int>)
    requires DynamicsWellFormed(db.t.dynamics) && Admissible(b) && Identify(db.reg, b, w.provider) == All(r, items)
    requires Resolved(r, w.provider, b) && Fine(r, db.t, b, PlanOf(r, w.provider, b), w)
    ensures Apply(db, b, w) == Some(Store(r, Final(r, db.t, b, PlanOf(r, w.provider, b), items, w)))
  {
  }

  const ALL_FIELDS := Mask(None, None)

  const EMPTY_BATCH := Batch([], [], [], [], [], [], [], [], [], [], [],
                             ALL_FIELDS, ALL_FIELDS, ALL_FIELDS, ALL_FIELDS, ALL_FIELDS)

  lemma EmptyBatchIsFine(r: Reg, t: Tables, w: Writer)
    requires DynamicsWellFormed(t.dynamics)
    ensures Resolved(r, w.provider, EMPTY_BATCH)
    ensures Fine(r, t, EMPTY_BATCH, PlanOf(r, w.provider, EMPTY_BATCH), w)
  {
    var p := PlanOf(r, w.provider, EMPTY_BATCH);
    assert EntitiesFine(t, EMPTY_BATCH, p);
    assert DynamicsFine(t, EMPTY_BATCH, p, w);
    assert LinksFine(r, t, EMPTY_BATCH, p, w);
  }

  lemma EmptyBatchIdentifies(r: Reg, provider: int)
    ensures Identify(r, EMPTY_BATCH, provider) == All(r, [])
  {
    assert AllWants(EMPTY_BATCH) == [];
  }

  lemma EmptyBatchIsAdmissible()
    ensures Admissible(EMPTY_BATCH)
  {
  }

  /** The empty batch is accepted by every well-formed store. */
  lemma EmptyBatchApplies(db: Store, w: Writer)
    requires WellFormed(db)
    ensures Apply(db, EMPTY_BATCH, w).Some?
  {
    EmptyBatchIsAdmissible();
    EmptyBatchIdentifies(db.reg, w.provider);
    EmptyBatchIsFine(db.reg, db.t, w);
    ApplyWhenFine(db, EMPTY_BATCH, w, db.reg, []);
  }

  // --- Replay ---

  /** Every dynamics entry for an item that had no dynamic row, and no newer local favourite, settles: it
      does not combine `favorite` with a contradicting insert default for the favourite mark. */
  ghost predicate Settles(t: Tables, b: Batch, p: Plan, w: Writer)
    requires Fits(p, b)
  {
    forall i :: 0 <= i < |p.dynamics| ==>
      p.dynamics[i] in t.dynamics || p.dynamics[i] in w.changed || SettlesFavorite(b.dynamics[i], b.dynamicMask)
  }

  /** Every want says which types it accepts. */
  ghost predicate Typed(ws: seq<Want>) {
    forall i :: 0 <= i < |ws| ==> ws[i].types != {}
  }

  lemma WantsTyped(b: Batch)
    ensures Typed(AllWants(b))
  {
    assert ALBUM in {ALBUM} && ARTIST in {ARTIST} && SONG in {SONG} && MIX in {MIX, RADIO};
  }

  /** Libraries that were written stay stored while items are allocated. */
  lemma StoredAfterAllocation(r: Reg, provider: int, es: seq<LibraryInput>, ws: seq<Want>)
    requires Consistent(r) && LibrariesStored(r, provider, es) && AllocateAll(r, provider, ws).All?
    ensures var after := AllocateAll(r, provider, ws).reg;
            Consistent(after) && WriteLibraries(after, provider, es) == after
  {
    AllocateAllExtends(r, provider, ws);
    var after := AllocateAll(r, provider, ws).reg;
    assert LibrariesStored(after, provider, es);
    WriteLibrariesAgain(after, provider, es);
  }

  lemma IdentifyAgain(r: Reg, b: Batch, provider: int)
    requires Consistent(r) && Identify(r, b, provider).All?
    ensures var a := Identify(r, b, provider);
            Consistent(a.reg) && Identify(a.reg, b, provider) == a
  {
    var libs := WriteLibraries(r, provider, b.libraries);
    WriteLibrariesStores(r, provider, b.libraries);
    StoredAfterAllocation(libs, provider, b.libraries, AllWants(b));
    WantsTyped(b);
    AllocateAllAgain(libs, provider, AllWants(b), AllocateAll(libs, provider, AllWants(b)).reg);
  }

  lemma EntitiesAgain(t: Tables, b: Batch, p: Plan, t1: Tables)
    requires Fits(p, b) && EntitiesFine(t, b, p)
    requires forall id :: id in t.remotes ==> CountedRow(t.remotes[id])
    requires t1.albums == Written(t.albums, p.albums, b.albums, ALBUM_ROW, b.albumMask)
    requires t1.artists == Written(t.artists, p.artists, b.artists, ARTIST_ROW, b.artistMask)
    requires t1.songs == Written(t.songs, p.songs, b.songs, SONG_ROW, b.songMask)
    requires t1.remotes ==
             CountedRemotes(Written(t.remotes, p.remotes, b.remotes, REMOTE_ROW, b.remoteMask), p.mixes, p.members)
    ensures EntitiesFine(t1, b, p)
    ensures t1.albums == Written(t1.albums, p.albums, b.albums, ALBUM_ROW, b.albumMask)
    ensures t1.artists == Written(t1.artists, p.artists, b.artists, ARTIST_ROW, b.artistMask)
    ensures t1.songs == Written(t1.songs, p.songs, b.songs, SONG_ROW, b.songMask)
    ensures t1.remotes ==
            CountedRemotes(Written(t1.remotes, p.remotes, b.remotes, REMOTE_ROW, b.remoteMask), p.mixes, p.members)
  {
    WrittenTwice(t.albums, p.albums, b.albums, ALBUM_ROW, b.albumMask);
    WrittenTwice(t.artists, p.artists, b.artists, ARTIST_ROW, b.artistMask);
    WrittenTwice(t.songs, p.songs, b.songs, SONG_ROW, b.songMask);
    RemotesTwice(t.remotes, p.remotes, b.remotes, b.remoteMask, p.mixes, p.members);
    RemotesAcceptedAgain(t.remotes, p.remotes, b.remotes, b.remoteMask, p.mixes, p.members);
  }

  lemma AlbumColumnAgain(r: Reg, provider: int, t: Tables, t1: Tables, ids: seq<int>, es: seq<Input>, mask: Mask,
                         related: seq<int>, relations: seq<SongAlbumInput>)
    requires |ids| == |es| && |related| == |relations|
    requires t1.albumOf == AlbumColumn(r, provider, t, ids, es, mask, related, relations)
    requires forall id :: id in t.songs || id in ids ==> id in t1.songs
    requires AlbumsOk(r, provider, t.songs, ids, es, mask, related, relations)
    ensures AlbumsOk(r, provider, t1.songs, ids, es, mask, related, relations)
    ensures AlbumColumn(r, provider, t1, ids, es, mask, related, relations) == t1.albumOf
  {
    var again := AlbumColumn(r, provider, t1, ids, es, mask, related, relations);
    assert forall s :: s in again <==> s in t1.albumOf;
    forall s | s in again ensures again[s] == t1.albumOf[s] {
      if s in ids {
        assert SetsAlbum(t1.songs, s, es[IndexOf(ids, s)], mask) ==> SetsAlbum(t.songs, s, es[IndexOf(ids, s)], mask);
      }
    }
    assert again == t1.albumOf;
  }

  lemma DynamicsAgain(t: Tables, t1: Tables, b: Batch, p: Plan, items: seq<int>, w: Writer, later: Writer)
    requires Fits(p, b) && DynamicsWellFormed(t.dynamics) && DynamicsFine(t, b, p, w)
    requires later.provider == w.provider && later.changed == w.changed
    requires t1.dynamics == Defaulted(WrittenDynamics(t.dynamics, p.dynamics, b.dynamics, b.dynamicMask, w), items)
    ensures DynamicsWellFormed(t1.dynamics) && DynamicsFine(t1, b, p, later)
    ensures Defaulted(WrittenDynamics(t1.dynamics, p.dynamics, b.dynamics, b.dynamicMask, later), items) == t1.dynamics
            <==> Settles(t, b, p, w)
  {
    DynamicsTwice(t.dynamics, p.dynamics, b.dynamics, b.dynamicMask, items, w, later);
  }

  lemma LinksAgain(r: Reg, t: Tables, t1: Tables, b: Batch, p: Plan, w: Writer, later: Writer)
    requires Fits(p, b) && LinksFine(r, t, b, p, w) && later.provider == w.provider
    requires t1.albumOf == AlbumColumn(r, w.provider, t, p.songs, b.songs, b.songMask, p.related, b.songAlbums)
    requires forall id :: id in t.songs || id in p.songs ==> id in t1.songs
    requires forall id :: id in t.mixes || id in p.remotes ==> id in t1.mixes
    requires forall id :: id in t.remotes || id in p.remotes ==> id in t1.remotes
    ensures LinksFine(r, t1, b, p, later)
    ensures AlbumColumn(r, w.provider, t1, p.songs, b.songs, b.songMask, p.related, b.songAlbums) == t1.albumOf
  {
    AlbumColumnAgain(r, w.provider, t, t1, p.songs, b.songs, b.songMask, p.related, b.songAlbums);
    var cached := t.mixes.Keys + (set x | x in p.remotes);
    var remotes := t.remotes.Keys + (set x | x in p.remotes);
    ContentsOkLater(p.mixes, b.contents, p.members, cached, remotes,
                    t1.mixes.Keys + (set x | x in p.remotes), t1.remotes.Keys + (set x | x in p.remotes));
  }

  lemma MixesAgain(t: Tables, t1: Tables, b: Batch, p: Plan)
    requires Fits(p, b) && EntitiesFine(t, b, p)
    requires forall id :: id in t.remotes ==> CountedRow(t.remotes[id])
    requires var first := Written(t.remotes, p.remotes, b.remotes, REMOTE_ROW, b.remoteMask);
             && t1.remotes == CountedRemotes(first, p.mixes, p.members)
             && t1.mixes == CountedMixes(Cached(t.mixes, first, p.remotes), p.mixes, p.members)
    ensures var second := Written(t1.remotes, p.remotes, b.remotes, REMOTE_ROW, b.remoteMask);
            CountedMixes(Cached(t1.mixes, second, p.remotes), p.mixes, p.members) == t1.mixes
  {
    var first := Written(t.remotes, p.remotes, b.remotes, REMOTE_ROW, b.remoteMask);
    var second := Written(t1.remotes, p.remotes, b.remotes, REMOTE_ROW, b.remoteMask);
    RemotesAcceptedAgain(t.remotes, p.remotes, b.remotes, b.remoteMask, p.mixes, p.members);
    MixesTwice(t.mixes, first, second, p.remotes, p.mixes, p.members);
  }

  /** The tables of a batch that passed its checks pass them again, and come out the same. */
  lemma FinalAgain(r: Reg, t: Tables, b: Batch, p: Plan, items: seq<int>, w: Writer, later: Writer)
    requires Fits(p, b) && DynamicsWellFormed(t.dynamics) && Fine(r, t, b, p, w)
    requires forall id :: id in t.remotes ==> CountedRow(t.remotes[id])
    requires later.provider == w.provider && later.changed == w.changed
    ensures var t1 := Final(r, t, b, p, items, w);
            && DynamicsWellFormed(t1.dynamics) && Fine(r, t1, b, p, later)
            && (Final(r, t1, b, p, items, later) == t1 <==> Settles(t, b, p, w))
            && Final(r, t1, b, p, items, later).(dynamics := t1.dynamics) == t1
  {
    var t1 := Final(r, t, b, p, items, w);
    EntitiesAgain(t, b, p, t1);
    DynamicsAgain(t, t1, b, p, items, w, later);
    LinksAgain(r, t, t1, b, p, w, later);
    MixesAgain(t, t1, b, p);
    ContentsTwice(t.contents, p.mixes, p.members);
    ImagesTwice(t.images, p.images, b.images);
    RelatedTwice(t.albumArtists, p.albumOwners, b.albumArtists, p.albumTargets);
    RelatedTwice(t.songArtists, p.songOwners, b.songArtists, p.songTargets);
  }

  /** Replaying a batch that succeeded always succeeds, and leaves the whole database as it is exactly if
      the batch settles. */
  lemma Replay(db: Store, b: Batch, w: Writer, later: Writer)
    requires WellFormed(db) && Apply(db, b, w).Some?
    requires later.provider == w.provider && later.changed == w.changed
    ensures var db1 := Apply(db, b, w).value;
            && Resolved(db1.reg, w.provider, b) && DynamicsWellFormed(db1.t.dynamics)
            && Apply(db1, b, later).Some?
            && (Apply(db1, b, later).value == db1 <==> Settles(db.t, b, PlanOf(db1.reg, w.provider, b), w))
            && Apply(db1, b, later).value.(t := Apply(db1, b, later).value.t.(dynamics := db1.t.dynamics)) == db1
  {
    var db1 := Apply(db, b, w).value;
    IdentifyAgain(db.reg, b, w.provider);
    FinalAgain(db1.reg, db.t, b, PlanOf(db1.reg, w.provider, b), Identify(db.reg, b, w.provider).ids, w, later);
  }

  // --- A batch that does not settle ---

  /** Removes a favourite and names a date for it in case the row is new. */
  function Contradiction(id: int): Batch {
    EMPTY_BATCH.(dynamics := [Input(Id(id), map["favorite_at" := Time(0)], map[], KeepAlbum, SetFavorite(false))])
  }

  lemma ContradictionResolves(r: Reg, id: int, provider: int)
    requires id in r.items && r.items[id].provider == provider
    ensures Resolved(r, provider, Contradiction(id))
    ensures PlanOf(r, provider, Contradiction(id)).dynamics == [id]
  {
    assert Items(Contradiction(id).dynamics) == [Id(id)];
  }

  /** The item has no dynamic row, or one whose play count is not negative. */
  predicate Counting(t: Tables, id: int) {
    id in t.dynamics ==> Quantity(t.dynamics[id], "remote_play_count")
  }

  lemma ContradictionIsWritten(t: Tables, id: int, w: Writer)
    requires DynamicsWellFormed(t.dynamics) && Counting(t, id)
    ensures var b := Contradiction(id); DynamicEntryOk(t.dynamics, id, b.dynamics[0], b.dynamicMask, w)
  {
  }

  lemma ContradictionIsFine(r: Reg, t: Tables, id: int, w: Writer)
    requires DynamicsWellFormed(t.dynamics) && Counting(t, id)
    requires Resolved(r, w.provider, Contradiction(id))
    requires PlanOf(r, w.provider, Contradiction(id)).dynamics == [id]
    ensures Fine(r, t, Contradiction(id), PlanOf(r, w.provider, Contradiction(id)), w)
  {
    var b := Contradiction(id);
    var p := PlanOf(r, w.provider, b);
    ContradictionIsWritten(t, id, w);
    assert EntitiesFine(t, b, p);
    assert DynamicsFine(t, b, p, w);
    assert LinksFine(r, t, b, p, w);
  }

  lemma ContradictionIdentifies(r: Reg, id: int, provider: int)
    ensures Admissible(Contradiction(id)) && Identify(r, Contradiction(id), provider) == All(r, [])
  {
    assert AllWants(Contradiction(id)) == [];
  }

  lemma ContradictionApplies(db: Store, id: int, w: Writer)
    requires DynamicsWellFormed(db.t.dynamics) && Counting(db.t, id)
    requires id in db.reg.items && db.reg.items[id].provider == w.provider
    ensures Resolved(db.reg, w.provider, Contradiction(id))
    ensures PlanOf(db.reg, w.provider, Contradiction(id)).dynamics == [id]
    ensures Apply(db, Contradiction(id), w).Some? && Apply(db, Contradiction(id), w).value.reg == db.reg
  {
    ContradictionResolves(db.reg, id, w.provider);
    ContradictionIdentifies(db.reg, id, w.provider);
    ContradictionIsFine(db.reg, db.t, id, w);
    ApplyWhenFine(db, Contradiction(id), w, db.reg, []);
  }

  /** It leaves no mark on a row that is stored, unless the mark is protected. */
  lemma ContradictionRow(t: Tables, id: int, w: Writer)
    requires DynamicsWellFormed(t.dynamics) && id in t.dynamics && id !in w.changed
    ensures var b := Contradiction(id);
            var d := WrittenDynamics(t.dynamics, [id], b.dynamics, b.dynamicMask, w);
            id in d && "favorite_at" in d[id] && d[id]["favorite_at"] == Nil
  {
    assert IndexOf([id], id) == 0;
  }

  lemma ContradictionDoesNotSettle(t: Tables, id: int, p: Plan, w: Writer)
    requires id !in t.dynamics && id !in w.changed && Fits(p, Contradiction(id)) && p.dynamics == [id]
    ensures !Settles(t, Contradiction(id), p, w)
  {
    var b := Contradiction(id);
    assert p.dynamics[0] == id && !SettlesFavorite(b.dynamics[0], b.dynamicMask);
  }

  /** For every item without a dynamic row there is a batch that is accepted and that its replay changes. */
  lemma ReplayCanChange(db: Store, id: int, w: Writer, later: Writer)
    requires WellFormed(db) && id !in db.t.dynamics && id !in w.changed
    requires id in db.reg.items && db.reg.items[id].provider == w.provider
    requires later.provider == w.provider && later.changed == w.changed
    ensures Apply(db, Contradiction(id), w).Some?
    ensures var db1 := Apply(db, Contradiction(id), w).value;
            DynamicsWellFormed(db1.t.dynamics) && Apply(db1, Contradiction(id), later) != Some(db1)
  {
    var b := Contradiction(id);
    ContradictionApplies(db, id, w);
    Replay(db, b, w, later);
    ContradictionDoesNotSettle(db.t, id, PlanOf(db.reg, w.provider, b), w);
  }

  // --- Local favourites ---

  lemma DynamicsStayWellFormed(db: Store, b: Batch, w: Writer)
    requires DynamicsWellFormed(db.t.dynamics) && Apply(db, b, w).Some?
    ensures DynamicsWellFormed(Apply(db, b, w).value.t.dynamics)
  {
    var p := PlanOf(Apply(db, b, w).value.reg, w.provider, b);
    var items := Identify(db.reg, b, w.provider).ids;
    WrittenWellFormed(db.t.dynamics, p.dynamics, b.dynamics, b.dynamicMask, w, items);
  }

  /** A batch written by a run keeps every favourite mark that changed after the run began. */
  lemma BatchKeepsLocalFavorites(db: Store, b: Batch, w: Writer, id: int)
    requires DynamicsWellFormed(db.t.dynamics) && Apply(db, b, w).Some? && id in db.t.dynamics && id in w.changed
    ensures var d := Apply(db, b, w).value.t.dynamics;
            id in d && "favorite_at" in d[id] && d[id]["favorite_at"] == db.t.dynamics[id]["favorite_at"]
  {
    var r := Apply(db, b, w).value.reg;
    var p := PlanOf(r, w.provider, b);
    LocalFavoriteKept(db.t.dynamics, p.dynamics, b.dynamics, b.dynamicMask, w, id);
  }
}
