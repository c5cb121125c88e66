/** What an accepted batch does to the database, entry by entry, in terms of its inputs and the items that its
    references resolve to afterwards. */
module BatchEffects {
  import opened Options
  import opened Catalogue
  import opened BatchInput
  import opened Registry
  import opened BatchTables
  import opened SyncBatch
  import opened BatchSteps

  /** The batch is accepted and leaves `after`. */
  ghost predicate Accepts(db: Store, b: Batch, w: Writer, after: Store) {
    WellFormed(db) && Apply(db, b, w) == Some(after)
  }

  // --- References ---

  /** Every reference of an accepted batch resolves, and the checks of its plan hold. */
  lemma AcceptedResolves(db: Store, b: Batch, w: Writer, after: Store)
    requires Accepts(db, b, w, after)
    ensures Resolved(after.reg, w.provider, b)
    ensures var p := PlanOf(after.reg, w.provider, b);
            && Fine(after.reg, db.t, b, p, w)
            && Identify(db.reg, b, w.provider).All? && Identify(db.reg, b, w.provider).reg == after.reg
            && after.t == Final(after.reg, db.t, b, p, Identify(db.reg, b, w.provider).ids, w)
  {
  }

  /** The entities of each group are different items. */
  lemma AcceptedDistinct(db: Store, b: Batch, w: Writer, after: Store)
    requires Accepts(db, b, w, after)
    ensures Resolved(after.reg, w.provider, b)
    ensures var p := PlanOf(after.reg, w.provider, b);
            Distinct(p.albums) && Distinct(p.artists) && Distinct(p.songs) && Distinct(p.remotes)
  {
    AcceptedResolves(db, b, w, after);
    IdentifiedDistinct(db.reg, b, w.provider);
    DistinctIds(after.reg, w.provider, Items(b.albums), {ALBUM});
    DistinctIds(after.reg, w.provider, Items(b.artists), {ARTIST});
    DistinctIds(after.reg, w.provider, Items(b.songs), {SONG});
    DistinctIds(after.reg, w.provider, Items(b.remotes), {MIX, RADIO});
  }

  lemma AcceptedAlbums(db: Store, b: Batch, w: Writer, after: Store)
    requires Accepts(db, b, w, after)
    ensures AllResolve(after.reg, w.provider, Items(b.songs), {SONG})
    ensures AllResolve(after.reg, w.provider, SongRefs(b.songAlbums), {SONG})
    ensures var ids, related := Ids(after.reg, w.provider, Items(b.songs), {SONG}),
                                Ids(after.reg, w.provider, SongRefs(b.songAlbums), {SONG});
            && Distinct(ids)
            && AlbumsOk(after.reg, w.provider, db.t.songs, ids, b.songs, b.songMask, related, b.songAlbums)
            && after.t.albumOf == AlbumColumn(after.reg, w.provider, db.t, ids, b.songs, b.songMask, related, b.songAlbums)
  {
    AcceptedResolves(db, b, w, after);
    AcceptedDistinct(db, b, w, after);
    assert LinksFine(after.reg, db.t, b, PlanOf(after.reg, w.provider, b), w);
  }

  /** No reference resolves to `id`. */
  ghost predicate Unnamed(r: Reg, provider: int, refs: seq<ItemRef>, types: set<int>, id: int) {
    forall i :: 0 <= i < |refs| ==> Resolve(r, provider, refs[i], types) != To(id)
  }

  lemma NotNamed(r: Reg, provider: int, refs: seq<ItemRef>, types: set<int>, id: int)
    requires AllResolve(r, provider, refs, types) && Unnamed(r, provider, refs, types, id)
    ensures id !in Ids(r, provider, refs, types)
  {
    var ids := Ids(r, provider, refs, types);
    forall i | 0 <= i < |ids| ensures ids[i] != id {
      assert Resolve(r, provider, refs[i], types) == To(ids[i]);
    }
  }

  // --- Albums of songs ---

  /** Where the batch says which album a song has, the song has the item that the album resolves to, which
      is of its library, or none. */
  ghost predicate HasAlbum(after: Store, provider: int, s: int, a: AlbumPatch) {
    && s in after.t.albumOf
    && (a.SetAlbum? ==>
          var album := Resolve(after.reg, provider, a.album, {ALBUM});
          && album.To? && after.t.albumOf[s] == album
          && SameLibrary(after.reg, s, album.id))
    && (!a.SetAlbum? ==> after.t.albumOf[s] == Null)
  }

  /** Whether a song entry decides about the album. */
  predicate Decides(db: Store, b: Batch, i: nat, s: int)
    requires i < |b.songs|
  {
    !b.songs[i].album.KeepAlbum? && (s !in db.t.songs || b.songMask.Allows("album_id"))
  }

  /** A song entry that sets or clears the album, of a new song or where the mask allows it, is obeyed. */
  lemma SongTakesAlbum(db: Store, b: Batch, w: Writer, after: Store, i: nat, s: int)
    requires Accepts(db, b, w, after) && i < |b.songs| && Decides(db, b, i, s)
    requires Resolve(after.reg, w.provider, b.songs[i].item, {SONG}) == To(s)
    ensures HasAlbum(after, w.provider, s, b.songs[i].album)
  {
    AcceptedAlbums(db, b, w, after);
    var ids := Ids(after.reg, w.provider, Items(b.songs), {SONG});
    assert ids[i] == s && s in ids;
    IndexOfDistinct(ids, i);
    assert SetsAlbum(db.t.songs, ids[i], b.songs[i], b.songMask);
  }

  /** So is every explicit relation between a song and an album. */
  lemma RelationSetsAlbum(db: Store, b: Batch, w: Writer, after: Store, j: nat, s: int)
    requires Accepts(db, b, w, after) && j < |b.songAlbums|
    requires Resolve(after.reg, w.provider, b.songAlbums[j].song, {SONG}) == To(s)
    ensures HasAlbum(after, w.provider, s, b.songAlbums[j].album)
  {
    AcceptedAlbums(db, b, w, after);
    assert WellFormed(db);
    var related := Ids(after.reg, w.provider, SongRefs(b.songAlbums), {SONG});
    assert related[j] == s && s in related;
    IndexOfDistinct(related, j);
  }

  /** No entry decides about the album of `s`. */
  ghost predicate Silent(db: Store, b: Batch, w: Writer, after: Store, s: int) {
    && (forall i :: 0 <= i < |b.songs| && Decides(db, b, i, s) ==>
          Resolve(after.reg, w.provider, b.songs[i].item, {SONG}) != To(s))
    && (forall j :: 0 <= j < |b.songAlbums| ==>
          Resolve(after.reg, w.provider, b.songAlbums[j].song, {SONG}) != To(s))
  }

  lemma SilentColumn(db: Store, b: Batch, w: Writer, after: Store, s: int)
    requires Silent(db, b, w, after, s)
    requires AllResolve(after.reg, w.provider, Items(b.songs), {SONG})
    requires AllResolve(after.reg, w.provider, SongRefs(b.songAlbums), {SONG})
    ensures s !in Ids(after.reg, w.provider, SongRefs(b.songAlbums), {SONG})
    ensures var ids := Ids(after.reg, w.provider, Items(b.songs), {SONG});
            s in ids ==> !SetsAlbum(db.t.songs, s, b.songs[IndexOf(ids, s)], b.songMask)
  {
    var ids, related := Ids(after.reg, w.provider, Items(b.songs), {SONG}),
                        Ids(after.reg, w.provider, SongRefs(b.songAlbums), {SONG});
    forall j | 0 <= j < |related| ensures related[j] != s {
      assert Resolve(after.reg, w.provider, b.songAlbums[j].song, {SONG}) == To(related[j]);
    }
    if s in ids {
      var i := IndexOf(ids, s);
      assert Resolve(after.reg, w.provider, b.songs[i].item, {SONG}) == To(s);
      assert !Decides(db, b, i, s);
    }
  }

  /** A song about whose album the batch says nothing keeps it; a new one has none. */
  lemma AlbumStays(db: Store, b: Batch, w: Writer, after: Store, s: int)
    requires Accepts(db, b, w, after) && Silent(db, b, w, after, s)
    ensures s in after.t.albumOf ==> after.t.albumOf[s] == if s in db.t.albumOf then db.t.albumOf[s] else Null
    ensures s in db.t.albumOf ==> s in after.t.albumOf
  {
    AcceptedAlbums(db, b, w, after);
    SilentColumn(db, b, w, after, s);
  }

  // --- Rows of entities ---

  datatype Group = Albums | Artists | Songs | Remotes

  function Inputs(b: Batch, g: Group): seq<Input> {
    match g case Albums => b.albums case Artists => b.artists case Songs => b.songs case Remotes => b.remotes
  }

  function MaskOf(b: Batch, g: Group): Mask {
    match g case Albums => b.albumMask case Artists => b.artistMask case Songs => b.songMask case Remotes => b.remoteMask
  }

  function Types(g: Group): set<int> {
    match g case Albums => {ALBUM} case Artists => {ARTIST} case Songs => {SONG} case Remotes => {MIX, RADIO}
  }

  function Rows(t: Tables, g: Group): map<int, Fields> {
    match g case Albums => t.albums case Artists => t.artists case Songs => t.songs case Remotes => t.remotes
  }

  function Initial(g: Group): Fields {
    match g case Albums => ALBUM_ROW case Artists => ARTIST_ROW case Songs => SONG_ROW case Remotes => REMOTE_ROW
  }

  function Quantities(g: Group): seq<string> {
    match g
    case Albums => ["duration", "track_count", "disc_count"]
    case Artists => ["album_count", "music_count"]
    case Songs => ["duration", "track_number", "disc_number"]
    case Remotes => ["track_count"]
  }

  /** The track counts of remote mixes are set by their contents as well. */
  predicate Counted(g: Group, f: string) {
    g.Remotes? && f == "track_count"
  }

  /** The resolved ids of a group. */
  ghost function GroupIds(b: Batch, w: Writer, after: Store, g: Group): seq<int>
    requires AllResolve(after.reg, w.provider, Items(Inputs(b, g)), Types(g))
  {
    Ids(after.reg, w.provider, Items(Inputs(b, g)), Types(g))
  }

  /** A group's table before the counts of the contents. */
  ghost function GroupRows(db: Store, b: Batch, w: Writer, after: Store, g: Group): map<int, Fields>
    requires AllResolve(after.reg, w.provider, Items(Inputs(b, g)), Types(g))
  {
    Written(Rows(db.t, g), GroupIds(b, w, after, g), Inputs(b, g), Initial(g), MaskOf(b, g))
  }

  /** Two tables are the same except for the counts of remote mixes. */
  ghost predicate SameButCounts(g: Group, a: map<int, Fields>, c: map<int, Fields>) {
    (forall id :: id in a <==> id in c) && (forall id :: id in a ==> SameFields(g, a[id], c[id]))
  }

  ghost predicate SameFields(g: Group, a: Fields, c: Fields) {
    forall f :: !Counted(g, f) ==> (f in a <==> f in c) && (f in a ==> a[f] == c[f])
  }

  lemma GroupAccepted(db: Store, b: Batch, w: Writer, after: Store, g: Group)
    requires Accepts(db, b, w, after)
    ensures AllResolve(after.reg, w.provider, Items(Inputs(b, g)), Types(g)) && Distinct(GroupIds(b, w, after, g))
    ensures RowsOk(GroupRows(db, b, w, after, g), GroupIds(b, w, after, g), Quantities(g))
  {
    AcceptedResolves(db, b, w, after);
    AcceptedDistinct(db, b, w, after);
    assert EntitiesFine(db.t, b, PlanOf(after.reg, w.provider, b));
  }

  lemma GroupStored(db: Store, b: Batch, w: Writer, after: Store, g: Group)
    requires Accepts(db, b, w, after) && !g.Remotes?
    requires AllResolve(after.reg, w.provider, Items(Inputs(b, g)), Types(g))
    ensures Rows(after.t, g) == GroupRows(db, b, w, after, g)
  {
    AcceptedResolves(db, b, w, after);
  }

  lemma RemotesStored(db: Store, b: Batch, w: Writer, after: Store, g: Group) returns (mixes: seq<int>, members: seq<seq<int>>)
    requires Accepts(db, b, w, after) && g.Remotes?
    requires AllResolve(after.reg, w.provider, Items(Inputs(b, g)), Types(g))
    ensures |mixes| == |members| && Rows(after.t, g) == CountedRemotes(GroupRows(db, b, w, after, g), mixes, members)
  {
    AcceptedResolves(db, b, w, after);
    var p := PlanOf(after.reg, w.provider, b);
    mixes, members := p.mixes, p.members;
  }

  lemma CountsAside(rows: map<int, Fields>, mixes: seq<int>, songs: seq<seq<int>>)
    requires |mixes| == |songs|
    ensures SameButCounts(Remotes, CountedRemotes(rows, mixes, songs), rows)
  {
  }

  lemma SameIsSame(g: Group, a: map<int, Fields>)
    ensures SameButCounts(g, a, a)
  {
  }

  lemma GroupWritten(db: Store, b: Batch, w: Writer, after: Store, g: Group)
    requires Accepts(db, b, w, after)
    ensures AllResolve(after.reg, w.provider, Items(Inputs(b, g)), Types(g)) && Distinct(GroupIds(b, w, after, g))
    ensures SameButCounts(g, Rows(after.t, g), GroupRows(db, b, w, after, g))
    ensures RowsOk(GroupRows(db, b, w, after, g), GroupIds(b, w, after, g), Quantities(g))
  {
    GroupAccepted(db, b, w, after, g);
    if g.Remotes? {
      var mixes, members := RemotesStored(db, b, w, after, g);
      CountsAside(GroupRows(db, b, w, after, g), mixes, members);
    } else {
      GroupStored(db, b, w, after, g);
      SameIsSame(g, Rows(after.t, g));
    }
  }

  /** Entry `i` of a group leaves its row with each field that it patches, where the row is new or the mask allows
      the field; else a new row has the entry's default, or else the initial value; and a stored row what it had. */
  lemma RowEffect(db: Store, b: Batch, w: Writer, after: Store, g: Group, i: nat, id: int, f: string)
    requires Accepts(db, b, w, after) && i < |Inputs(b, g)| && !Counted(g, f)
    requires Resolve(after.reg, w.provider, Inputs(b, g)[i].item, Types(g)) == To(id)
    requires if id in Rows(db.t, g) then f in Rows(db.t, g)[id] else f in Initial(g)
    ensures id in Rows(after.t, g) && f in Rows(after.t, g)[id]
    ensures var e, stored := Inputs(b, g)[i], id in Rows(db.t, g);
            Rows(after.t, g)[id][f] ==
            if f in e.fields && (!stored || MaskOf(b, g).Allows(f)) then e.fields[f]
            else if stored then Rows(db.t, g)[id][f]
            else if f in e.onInsert then e.onInsert[f]
            else Initial(g)[f]
  {
    GroupWritten(db, b, w, after, g);
    var ids := GroupIds(b, w, after, g);
    assert ids[i] == id && id in ids;
    IndexOfDistinct(ids, i);
    assert id in GroupRows(db, b, w, after, g);
  }

  /** A batch is refused if it would leave a row that it names without a name or with a negative quantity. */
  lemma RowAccepted(db: Store, b: Batch, w: Writer, after: Store, g: Group, i: nat, id: int)
    requires Accepts(db, b, w, after) && i < |Inputs(b, g)|
    requires Resolve(after.reg, w.provider, Inputs(b, g)[i].item, Types(g)) == To(id)
    ensures id in Rows(after.t, g)
    ensures var row := Rows(after.t, g)[id];
            && "name" in row && row["name"].Text? && row["name"].s != ""
            && forall q :: q in Quantities(g) && !Counted(g, q) ==> q in row && row[q].Number? && row[q].n >= 0
  {
    GroupWritten(db, b, w, after, g);
    var ids, rows := GroupIds(b, w, after, g), GroupRows(db, b, w, after, g);
    assert ids[i] == id && id in ids;
    assert Accepted(rows[id], Quantities(g));
    assert !Counted(g, "name");
    forall q | q in Quantities(g) && !Counted(g, q)
      ensures q in Rows(after.t, g)[id] && Rows(after.t, g)[id][q].Number? && Rows(after.t, g)[id][q].n >= 0
    {
      assert Quantity(rows[id], q);
    }
  }

  /** Rows that no entry names stay, and no others appear. */
  lemma OtherRowsStay(db: Store, b: Batch, w: Writer, after: Store, g: Group, id: int)
    requires Accepts(db, b, w, after) && Unnamed(after.reg, w.provider, Items(Inputs(b, g)), Types(g), id)
    ensures id in Rows(after.t, g) <==> id in Rows(db.t, g)
    ensures id in Rows(db.t, g) ==> SameFields(g, Rows(after.t, g)[id], Rows(db.t, g)[id])
  {
    GroupWritten(db, b, w, after, g);
    NotNamed(after.reg, w.provider, Items(Inputs(b, g)), Types(g), id);
  }

  // --- Local mixes and contents ---

  /** The entry of the contents that names mix `m`, if any. */
  ghost predicate Refilled(b: Batch, w: Writer, after: Store, k: nat, m: int)
    requires k < |b.contents|
  {
    Resolve(after.reg, w.provider, b.contents[k].mix, {MIX, RADIO}) == To(m)
  }

  /** Mix `m` holds `songs`, and both its counts say how many. */
  ghost predicate Holds(t: Tables, m: int, songs: seq<int>) {
    && m in t.contents && t.contents[m] == songs && Distinct(songs)
    && m in t.remotes && "track_count" in t.remotes[m] && t.remotes[m]["track_count"] == Number(|songs|)
    && m in t.mixes && t.mixes[m].trackCount == Number(|songs|)
  }

  lemma ReplacedHolds(t: Tables, mixes: seq<int>, members: seq<seq<int>>, k: nat)
    requires |mixes| == |members| && k < |mixes| && Distinct(mixes) && Distinct(members[k])
    requires mixes[k] in t.mixes && mixes[k] in t.remotes
    ensures Holds(Replaced(t, mixes, members), mixes[k], members[k])
  {
    IndexOfDistinct(mixes, k);
  }

  lemma AcceptedContents(db: Store, b: Batch, w: Writer, after: Store, k: nat)
    requires Accepts(db, b, w, after) && k < |b.contents|
    ensures AllResolve(after.reg, w.provider, MixRefs(b.contents), {MIX, RADIO})
    ensures AllResolve(after.reg, w.provider, b.contents[k].songs, {SONG})
    ensures Holds(after.t, Ids(after.reg, w.provider, MixRefs(b.contents), {MIX, RADIO})[k],
                  Ids(after.reg, w.provider, b.contents[k].songs, {SONG}))
  {
    AcceptedResolves(db, b, w, after);
    var p := PlanOf(after.reg, w.provider, b);
    ContentsFine(after.reg, db.t, b, p, w);
    var rows := Written(db.t.remotes, p.remotes, b.remotes, REMOTE_ROW, b.remoteMask);
    ReplacedHolds(db.t.(remotes := rows, mixes := Cached(db.t.mixes, rows, p.remotes)), p.mixes, p.members, k);
  }

  lemma ContentsFine(r: Reg, t: Tables, b: Batch, p: Plan, w: Writer)
    requires Fits(p, b) && LinksFine(r, t, b, p, w)
    ensures Distinct(p.mixes)
    ensures forall k :: 0 <= k < |p.mixes| ==>
              && Distinct(p.members[k])
              && (p.mixes[k] in t.mixes || p.mixes[k] in p.remotes) && (p.mixes[k] in t.remotes || p.mixes[k] in p.remotes)
  {
    forall k | 0 <= k < |p.mixes|
      ensures Distinct(p.members[k])
      ensures (p.mixes[k] in t.mixes || p.mixes[k] in p.remotes) && (p.mixes[k] in t.remotes || p.mixes[k] in p.remotes)
    {
      assert MixOk(p.mixes[k], b.contents[k], p.members[k], t.mixes.Keys + (set x | x in p.remotes),
                   t.remotes.Keys + (set x | x in p.remotes));
    }
  }

  /** `ids` are the items that the references resolve to, in their order. */
  ghost predicate Are(r: Reg, provider: int, refs: seq<ItemRef>, types: set<int>, ids: seq<int>) {
    |ids| == |refs| && forall n :: 0 <= n < |refs| ==> Resolve(r, provider, refs[n], types) == To(ids[n])
  }

  lemma IdsAre(r: Reg, provider: int, refs: seq<ItemRef>, types: set<int>)
    requires AllResolve(r, provider, refs, types)
    ensures Are(r, provider, refs, types, Ids(r, provider, refs, types))
  {
  }

  /** Every entry replaces the contents of its mix by the songs that it names, in their order and each once,
      and sets the counts of the remote and of the local mix to their number. */
  lemma ContentsReplaced(db: Store, b: Batch, w: Writer, after: Store, k: nat, m: int)
    requires Accepts(db, b, w, after) && k < |b.contents| && Refilled(b, w, after, k, m)
    ensures m in after.t.contents && Are(after.reg, w.provider, b.contents[k].songs, {SONG}, after.t.contents[m])
    ensures Holds(after.t, m, after.t.contents[m])
  {
    AcceptedContents(db, b, w, after, k);
    IdsAre(after.reg, w.provider, MixRefs(b.contents), {MIX, RADIO});
    assert MixRefs(b.contents)[k] == b.contents[k].mix;
    IdsAre(after.reg, w.provider, b.contents[k].songs, {SONG});
  }

  /** The contents and counts of other mixes stay. */
  lemma OtherContentsStay(db: Store, b: Batch, w: Writer, after: Store, m: int)
    requires Accepts(db, b, w, after)
    requires forall k :: 0 <= k < |b.contents| ==> !Refilled(b, w, after, k, m)
    ensures m in after.t.contents <==> m in db.t.contents
    ensures m in db.t.contents ==> after.t.contents[m] == db.t.contents[m]
  {
    AcceptedResolves(db, b, w, after);
    var p := PlanOf(after.reg, w.provider, b);
    forall k | 0 <= k < |p.mixes| ensures p.mixes[k] != m {
      assert !Refilled(b, w, after, k, m);
    }
    assert m !in p.mixes;
  }

  /** The local mix reflects the row that is stored, counts included. */
  ghost predicate Reflects(mix: CacheMix, row: Fields) {
    && mix.name == (if "name" in row then row["name"] else Nil)
    && mix.description == (if "description" in row && row["description"] != Nil then row["description"] else Text(""))
    && mix.trackCount == (if "track_count" in row then row["track_count"] else Nil)
  }

  lemma CachedReflects(mixes: map<int, CacheMix>, rows: map<int, Fields>, ids: seq<int>, named: seq<int>,
                       songs: seq<seq<int>>, m: int)
    requires |named| == |songs| && m in ids && m in rows
    ensures m in CountedMixes(Cached(mixes, rows, ids), named, songs) && m in CountedRemotes(rows, named, songs)
    ensures Reflects(CountedMixes(Cached(mixes, rows, ids), named, songs)[m], CountedRemotes(rows, named, songs)[m])
  {
  }

  /** The local mix of a remote mix that the batch writes has its name, and its description or none. */
  lemma MixCaches(db: Store, b: Batch, w: Writer, after: Store, i: nat, m: int)
    requires Accepts(db, b, w, after) && i < |b.remotes|
    requires Resolve(after.reg, w.provider, b.remotes[i].item, {MIX, RADIO}) == To(m)
    ensures m in after.t.mixes && m in after.t.remotes && Reflects(after.t.mixes[m], after.t.remotes[m])
  {
    AcceptedResolves(db, b, w, after);
    var p := PlanOf(after.reg, w.provider, b);
    assert p.remotes[i] == m;
    assert p.remotes[i] in p.remotes;
    var rows := Written(db.t.remotes, p.remotes, b.remotes, REMOTE_ROW, b.remoteMask);
    CachedReflects(db.t.mixes, rows, p.remotes, p.mixes, p.members, m);
  }

  /** Other local mixes keep their name and description, and no others appear. */
  lemma OtherMixesStay(db: Store, b: Batch, w: Writer, after: Store, m: int)
    requires Accepts(db, b, w, after) && Unnamed(after.reg, w.provider, Items(b.remotes), {MIX, RADIO}, m)
    ensures m in after.t.mixes <==> m in db.t.mixes
    ensures m in db.t.mixes ==>
              after.t.mixes[m].name == db.t.mixes[m].name && after.t.mixes[m].description == db.t.mixes[m].description
    ensures m in db.t.mixes && (forall k :: 0 <= k < |b.contents| ==> !Refilled(b, w, after, k, m)) ==>
              after.t.mixes[m] == db.t.mixes[m]
  {
    AcceptedResolves(db, b, w, after);
    var p := PlanOf(after.reg, w.provider, b);
    NotNamed(after.reg, w.provider, Items(b.remotes), {MIX, RADIO}, m);
    if m in p.mixes {
      assert Refilled(b, w, after, IndexOf(p.mixes, m), m);
    }
  }

  // --- Images ---

  /** Entry `i` removes its image, or leaves it with the patched native id and freshness. */
  lemma ImageEffect(db: Store, b: Batch, w: Writer, after: Store, i: nat, id: int)
    requires Accepts(db, b, w, after) && i < |b.images|
    requires Resolve(after.reg, w.provider, b.images[i].item, {}) == To(id)
    ensures var e, k := b.images[i], ImageKey(id, b.images[i].imageType);
            && (e.remove ==> k !in after.t.images)
            && (!e.remove ==>
                  var was := if k in db.t.images then db.t.images[k] else Image(Nil, Text(""));
                  && k in after.t.images
                  && after.t.images[k].native == (if e.native.Set? then e.native.value else was.native)
                  && after.t.images[k].freshness == (if e.freshness.Set? then e.freshness.value else was.freshness))
  {
    AcceptedResolves(db, b, w, after);
    var p := PlanOf(after.reg, w.provider, b);
    assert LinksFine(after.reg, db.t, b, p, w);
    assert p.images[i] == ImageKey(id, b.images[i].imageType) && p.images[i] in p.images;
    IndexOfDistinct(p.images, i);
  }

  lemma OtherImagesStay(db: Store, b: Batch, w: Writer, after: Store, k: ImageKey)
    requires Accepts(db, b, w, after)
    requires forall i :: 0 <= i < |b.images| && b.images[i].imageType == k.imageType ==>
               Resolve(after.reg, w.provider, b.images[i].item, {}) != To(k.item)
    ensures k in after.t.images <==> k in db.t.images
    ensures k in db.t.images ==> after.t.images[k] == db.t.images[k]
  {
    AcceptedResolves(db, b, w, after);
    var p := PlanOf(after.reg, w.provider, b);
    forall i | 0 <= i < |p.images| ensures p.images[i] != k {
      assert Resolve(after.reg, w.provider, b.images[i].item, {}) == To(p.images[i].item);
    }
    assert k !in p.images;
  }

  // --- Credits ---

  /** The table `table` credits exactly what the relations say: of an owner that an entry names, the artists that
      the entry names and, if it merges, those credited before; of any other work, those credited before. */
  ghost predicate Credits(r: Reg, provider: int, was: set<Credit>, table: set<Credit>, es: seq<RelationInput>, types: set<int>) {
    && (forall i, c: Credit :: 0 <= i < |es| && Resolve(r, provider, es[i].owner, types) == To(c.work) ==>
          (c in table <==> Names(r, provider, es[i], c.artist) || (es[i].mode.Merge? && c in was)))
    && (forall c: Credit :: (forall i :: 0 <= i < |es| ==> Resolve(r, provider, es[i].owner, types) != To(c.work)) ==>
          (c in table <==> c in was))
  }

  /** The entry names the artist as a target. */
  ghost predicate Names(r: Reg, provider: int, e: RelationInput, artist: int) {
    exists k :: 0 <= k < |e.targets| && Resolve(r, provider, e.targets[k], {ARTIST}) == To(artist)
  }

  lemma NamesIff(r: Reg, provider: int, e: RelationInput, artist: int)
    requires AllResolve(r, provider, e.targets, {ARTIST})
    ensures Names(r, provider, e, artist) <==> artist in Ids(r, provider, e.targets, {ARTIST})
  {
    var ids := Ids(r, provider, e.targets, {ARTIST});
    if artist in ids {
      var k := IndexOf(ids, artist);
      assert Resolve(r, provider, e.targets[k], {ARTIST}) == To(artist);
    }
    if Names(r, provider, e, artist) {
      var k :| 0 <= k < |e.targets| && Resolve(r, provider, e.targets[k], {ARTIST}) == To(artist);
      assert ids[k] == artist;
    }
  }

  lemma RelatedCredits(r: Reg, provider: int, was: set<Credit>, es: seq<RelationInput>, types: set<int>)
    requires AllResolve(r, provider, Owners(es), types)
    requires RelationsOk(r, provider, Ids(r, provider, Owners(es), types), es)
    ensures Credits(r, provider, was, Related(was, Ids(r, provider, Owners(es), types), es, Targets(r, provider, es)), es, types)
  {
    var owners, targets := Ids(r, provider, Owners(es), types), Targets(r, provider, es);
    var table := Related(was, owners, es, targets);
    forall i, c: Credit | 0 <= i < |es| && Resolve(r, provider, es[i].owner, types) == To(c.work)
      ensures c in table <==> Names(r, provider, es[i], c.artist) || (es[i].mode.Merge? && c in was)
    {
      assert owners[i] == c.work;
      IndexOfDistinct(owners, i);
      RelatedExact(was, owners, es, targets, c);
      NamesIff(r, provider, es[i], c.artist);
    }
    forall c: Credit | forall i :: 0 <= i < |es| ==> Resolve(r, provider, es[i].owner, types) != To(c.work)
      ensures c in table <==> c in was
    {
      assert Unnamed(r, provider, Owners(es), types, c.work);
      NotNamed(r, provider, Owners(es), types, c.work);
      RelatedExact(was, owners, es, targets, c);
    }
  }

  lemma CreditEffect(db: Store, b: Batch, w: Writer, after: Store)
    requires Accepts(db, b, w, after)
    ensures Credits(after.reg, w.provider, db.t.albumArtists, after.t.albumArtists, b.albumArtists, {ALBUM})
    ensures Credits(after.reg, w.provider, db.t.songArtists, after.t.songArtists, b.songArtists, {SONG})
  {
    AcceptedResolves(db, b, w, after);
    assert LinksFine(after.reg, db.t, b, PlanOf(after.reg, w.provider, b), w);
    RelatedCredits(after.reg, w.provider, db.t.albumArtists, b.albumArtists, {ALBUM});
    RelatedCredits(after.reg, w.provider, db.t.songArtists, b.songArtists, {SONG});
  }

  // --- Dynamic rows ---

  /** The favourite mark an entry leaves: one that changed since the run began is as it was; else a patched date
      where it applies, a new row's default, or the set or removed mark where it applies, which keeps an older date. */
  function MarkAfter(e: Input, stored: bool, was: Value, mask: Mask, now: int, changed: bool): Value {
    if changed then was
    else if "favorite_at" in e.fields && (!stored || mask.Allows("favorite_at")) then e.fields["favorite_at"]
    else if !stored && "favorite_at" in e.onInsert then e.onInsert["favorite_at"]
    else if e.favorite == SetFavorite(true) && (!stored || mask.Allows("favorite")) then (if was == Nil then Time(now) else was)
    else if e.favorite == SetFavorite(false) && (!stored || mask.Allows("favorite")) then Nil
    else was
  }

  lemma DynamicField(e: Input, row: Fields, stored: bool, mask: Mask, now: int, changed: bool, f: string)
    requires "favorite_at" in row && f in row
    ensures f in DynamicRow(e, row, !stored, mask, now, changed)
    ensures DynamicRow(e, row, !stored, mask, now, changed)[f] ==
            if f == "favorite_at" then MarkAfter(e, stored, row[f], mask, now, changed)
            else if f in e.fields && (!stored || mask.Allows(f)) then e.fields[f]
            else if !stored && f in e.onInsert then e.onInsert[f]
            else row[f]
  {
  }

  lemma AcceptedDynamics(db: Store, b: Batch, w: Writer, after: Store)
    requires Accepts(db, b, w, after)
    ensures AllResolve(after.reg, w.provider, Items(b.dynamics), {})
    ensures var ids := Ids(after.reg, w.provider, Items(b.dynamics), {});
            && Distinct(ids)
            && after.t.dynamics == Defaulted(WrittenDynamics(db.t.dynamics, ids, b.dynamics, b.dynamicMask, w),
                                             Identify(db.reg, b, w.provider).ids)
            && forall i :: 0 <= i < |ids| ==> DynamicEntryOk(db.t.dynamics, ids[i], b.dynamics[i], b.dynamicMask, w)
  {
    AcceptedResolves(db, b, w, after);
    assert DynamicsFine(db.t, b, PlanOf(after.reg, w.provider, b), w);
  }

  /** Entry `i` of the dynamics leaves its row with the mark above and otherwise patched like any row; its play count
      is not negative, and it does not set the mark in two ways. */
  lemma DynamicEffect(db: Store, b: Batch, w: Writer, after: Store, i: nat, id: int, f: string)
    requires Accepts(db, b, w, after) && i < |b.dynamics|
    requires Resolve(after.reg, w.provider, b.dynamics[i].item, {}) == To(id)
    requires if id in db.t.dynamics then f in db.t.dynamics[id] else f in DYNAMIC_ROW
    ensures id in after.t.dynamics && f in after.t.dynamics[id]
    ensures var e, stored := b.dynamics[i], id in db.t.dynamics;
            var was := if stored then db.t.dynamics[id][f] else DYNAMIC_ROW[f];
            after.t.dynamics[id][f] ==
            if f == "favorite_at" then MarkAfter(e, stored, was, b.dynamicMask, w.now, id in w.changed)
            else if f in e.fields && (!stored || b.dynamicMask.Allows(f)) then e.fields[f]
            else if !stored && f in e.onInsert then e.onInsert[f]
            else was
    ensures b.dynamics[i].favorite.SetFavorite? ==> "favorite_at" !in b.dynamics[i].fields
    ensures Quantity(after.t.dynamics[id], "remote_play_count")
  {
    AcceptedDynamics(db, b, w, after);
    var ids := Ids(after.reg, w.provider, Items(b.dynamics), {});
    assert ids[i] == id;
    assert ids[i] in ids;
    IndexOfDistinct(ids, i);
    assert DynamicEntryOk(db.t.dynamics, ids[i], b.dynamics[i], b.dynamicMask, w);
    DynamicField(b.dynamics[i], RowOf(db.t.dynamics, id, DYNAMIC_ROW), id in db.t.dynamics, b.dynamicMask, w.now,
                 id in w.changed, f);
  }

  lemma UnwrittenDynamics(was: map<int, Fields>, ids: seq<int>, es: seq<Input>, mask: Mask, w: Writer, items: seq<int>, id: int)
    requires |ids| == |es| && DynamicsWellFormed(was) && id !in ids
    ensures var after := Defaulted(WrittenDynamics(was, ids, es, mask, w), items);
            && (id in after <==> id in was || id in items)
            && (id in after ==> after[id] == if id in was then was[id] else DYNAMIC_ROW)
  {
  }

  /** Every other dynamic row stays, and every item that the batch registers or finds as an entity has one. */
  lemma OtherDynamicsStay(db: Store, b: Batch, w: Writer, after: Store, id: int)
    requires Accepts(db, b, w, after) && Unnamed(after.reg, w.provider, Items(b.dynamics), {}, id)
    ensures Identify(db.reg, b, w.provider).All?
    ensures id in after.t.dynamics <==> id in db.t.dynamics || id in Identify(db.reg, b, w.provider).ids
    ensures id in after.t.dynamics ==>
              after.t.dynamics[id] == if id in db.t.dynamics then db.t.dynamics[id] else DYNAMIC_ROW
  {
    AcceptedDynamics(db, b, w, after);
    NotNamed(after.reg, w.provider, Items(b.dynamics), {}, id);
    UnwrittenDynamics(db.t.dynamics, Ids(after.reg, w.provider, Items(b.dynamics), {}), b.dynamics, b.dynamicMask, w,
                      Identify(db.reg, b, w.provider).ids, id);
  }

  // --- Identities ---

  /** The batch's libraries are stored under their names, what was registered keeps its key, and each entity, in
      order, resolves to one of the identified items. */
  lemma IdentityEffect(db: Store, b: Batch, w: Writer, after: Store)
    requires Accepts(db, b, w, after)
    ensures Consistent(after.reg) && Extends(db.reg, after.reg)
    ensures LibrariesStored(after.reg, w.provider, b.libraries)
    ensures Identify(db.reg, b, w.provider).All?
    ensures var ids, ws := Identify(db.reg, b, w.provider).ids, AllWants(b);
            && |ids| == |ws| && Distinct(ids)
            && forall i :: 0 <= i < |ws| ==> Resolve(after.reg, w.provider, ws[i].ref, ws[i].types) == To(ids[i])
  {
    AcceptedResolves(db, b, w, after);
    var libs, ws := WriteLibraries(db.reg, w.provider, b.libraries), AllWants(b);
    WriteLibrariesStores(db.reg, w.provider, b.libraries);
    AllocateAllExtends(libs, w.provider, ws);
    ExtendsTransitive(db.reg, libs, after.reg);
    WantsTyped(b);
    AllocateAllAgain(libs, w.provider, ws, after.reg);
  }

  /** No item is registered that is not an entity of the batch. */
  lemma OnlyEntitiesRegistered(db: Store, b: Batch, w: Writer, after: Store, id: int)
    requires Accepts(db, b, w, after) && id in after.reg.items && id !in db.reg.items
    ensures Identify(db.reg, b, w.provider).All? && id in Identify(db.reg, b, w.provider).ids
  {
    AcceptedResolves(db, b, w, after);
    SameItems(db.reg, w.provider, b.libraries);
    OnlyWantedRegistered(WriteLibraries(db.reg, w.provider, b.libraries), w.provider, AllWants(b), id);
  }

  lemma {:induction false} SameItems(r: Reg, provider: int, es: seq<LibraryInput>)
    ensures WriteLibraries(r, provider, es).items == r.items
  {
    if es != [] { SameItems(r, provider, es[..|es| - 1]); }
  }

  lemma {:induction false} OnlyWantedRegistered(r: Reg, provider: int, ws: seq<Want>, id: int)
    requires AllocateAll(r, provider, ws).All?
    ensures id in AllocateAll(r, provider, ws).reg.items ==> id in r.items || id in AllocateAll(r, provider, ws).ids
  {
    if ws != [] { OnlyWantedRegistered(r, provider, ws[..|ws| - 1], id); }
  }
}
