/** What one more entry does to each table of a batch, and when a stage accepts: the steps of the writer's
    loops. */
module BatchSteps {
  import opened Options
  import opened Catalogue
  import opened BatchInput
  import opened Registry
  import opened BatchTables
  import opened SyncBatch

  // --- Appending one entry to a prefix ---

  lemma {:induction false} IndexOfAppend<T>(xs: seq<T>, last: T, x: T)
    requires x in xs
    ensures IndexOf(xs + [last], x) == IndexOf(xs, x)
  {
    if xs[0] != x {
      assert (xs + [last])[1..] == xs[1..] + [last];
      IndexOfAppend(xs[1..], last, x);
    }
  }

  lemma {:induction false} IndexOfLast<T>(xs: seq<T>, last: T)
    requires last !in xs
    ensures IndexOf(xs + [last], last) == |xs|
  {
    if xs != [] {
      assert (xs + [last])[1..] == xs[1..] + [last];
      IndexOfLast(xs[1..], last);
    }
  }

  /** The ids resolved for a prefix of the references. */
  lemma IdsPrefix(r: Reg, provider: int, refs: seq<ItemRef>, types: set<int>, i: nat)
    requires i < |refs| && AllResolve(r, provider, refs[..i], types)
    ensures AllResolve(r, provider, refs[..i + 1], types) <==> Resolve(r, provider, refs[i], types).To?
    ensures AllResolve(r, provider, refs, types) ==> Resolve(r, provider, refs[i], types).To?
    ensures Resolve(r, provider, refs[i], types).To? ==>
              Ids(r, provider, refs[..i + 1], types) ==
              Ids(r, provider, refs[..i], types) + [Resolve(r, provider, refs[i], types).id]
  {
    assert refs[..i + 1] == refs[..i] + [refs[i]];
    if AllResolve(r, provider, refs[..i + 1], types) { assert refs[..i + 1][i] == refs[i]; }
  }

  /** An id that repeats an earlier one rules out that all resolved ids are distinct. */
  lemma RepeatedId(r: Reg, provider: int, refs: seq<ItemRef>, types: set<int>, i: nat)
    requires i < |refs| && AllResolve(r, provider, refs[..i], types) && Resolve(r, provider, refs[i], types).To?
    ensures Resolve(r, provider, refs[i], types).id in Ids(r, provider, refs[..i], types)
              && AllResolve(r, provider, refs, types) ==>
            !Distinct(Ids(r, provider, refs, types))
    ensures AllResolve(r, provider, refs, types) ==>
              && Ids(r, provider, refs, types)[i] == Resolve(r, provider, refs[i], types).id
              && forall k :: 0 <= k < i ==> Ids(r, provider, refs, types)[k] == Ids(r, provider, refs[..i], types)[k]
  {
    if AllResolve(r, provider, refs, types) {
      var all := Ids(r, provider, refs, types);
      var some := Ids(r, provider, refs[..i], types);
      assert forall k :: 0 <= k < i ==> all[k] == some[k];
      assert all[i] == Resolve(r, provider, refs[i], types).id;
    }
  }

  // --- Identities ---

  /** Appending further requests does not mend a refused allocation. */
  lemma {:induction false} FailurePersists(r: Reg, provider: int, ws: seq<Want>, more: seq<Want>)
    requires AllocateAll(r, provider, ws).Failed?
    ensures AllocateAll(r, provider, ws + more).Failed?
  {
    if more != [] {
      var n := |more| - 1;
      FailurePersists(r, provider, ws, more[..n]);
      assert (ws + more)[..|ws + more| - 1] == ws + more[..n];
    } else {
      assert ws + more == ws;
    }
  }

  /** One more want after those that were allocated. */
  lemma AllocateStep(start: Reg, provider: int, before: seq<Want>, r: Reg, ids: seq<int>, w: Want)
    requires AllocateAll(start, provider, before) == All(r, ids)
    ensures AllocateAll(start, provider, before + [w]) ==
            match Allocate(r, provider, w)
            case Refused => Failed
            case Allocated(r', id) => if id in ids then Failed else All(r', ids + [id])
  {
    assert (before + [w])[..|before|] == before;
  }

  lemma GroupRefused(start: Reg, provider: int, done: seq<Want>, ws: seq<Want>, i: nat)
    requires i < |ws| && AllocateAll(start, provider, done + ws[..i] + [ws[i]]).Failed?
    ensures AllocateAll(start, provider, done + ws).Failed?
  {
    FailurePersists(start, provider, done + ws[..i] + [ws[i]], ws[i + 1..]);
    assert done + ws[..i] + [ws[i]] + ws[i + 1..] == done + ws;
  }

  /** References that resolve at all resolve to different items. */
  ghost predicate DistinctRefs(r: Reg, provider: int, refs: seq<ItemRef>, types: set<int>) {
    forall i, j :: 0 <= i < j < |refs| ==>
      Resolve(r, provider, refs[i], types).To? && Resolve(r, provider, refs[j], types).To? ==>
        Resolve(r, provider, refs[i], types) != Resolve(r, provider, refs[j], types)
  }

  lemma DistinctIds(r: Reg, provider: int, refs: seq<ItemRef>, types: set<int>)
    requires AllResolve(r, provider, refs, types) && DistinctRefs(r, provider, refs, types)
    ensures Distinct(Ids(r, provider, refs, types))
  {
  }

  /** The entities of each group are different items. */
  ghost predicate EntitiesDistinct(r: Reg, provider: int, b: Batch) {
    && DistinctRefs(r, provider, Items(b.albums), {ALBUM})
    && DistinctRefs(r, provider, Items(b.artists), {ARTIST})
    && DistinctRefs(r, provider, Items(b.songs), {SONG})
    && DistinctRefs(r, provider, Items(b.remotes), {MIX, RADIO})
  }

  lemma WantsSlices(b: Batch)
    ensures var ws := AllWants(b);
            var n1, n2, n3 := |b.albums|, |b.albums| + |b.artists|, |b.albums| + |b.artists| + |b.songs|;
            && |ws| == n3 + |b.remotes|
            && ws[..n1] == Wants(b.albums, {ALBUM}) && ws[n1..n2] == Wants(b.artists, {ARTIST})
            && ws[n2..n3] == Wants(b.songs, {SONG}) && ws[n3..] == Wants(b.remotes, {MIX, RADIO})
  {
  }

  lemma GroupDistinct(r: Reg, provider: int, ws: seq<Want>, es: seq<Input>, types: set<int>, at: nat)
    requires Consistent(r) && AllocateAll(r, provider, ws).All? && at + |es| <= |ws|
    requires Typed(ws)
    requires ws[at..at + |es|] == Wants(es, types)
    ensures DistinctRefs(AllocateAll(r, provider, ws).reg, provider, Items(es), types)
  {
    AllocateAllExtends(r, provider, ws);
    var a := AllocateAll(r, provider, ws);
    AllocateAllAgain(r, provider, ws, a.reg);
    forall k | 0 <= k < |es| ensures Resolve(a.reg, provider, Items(es)[k], types) == To(a.ids[at + k]) {
      assert ws[at..at + |es|][k] == ws[at + k] && Wants(es, types)[k] == Want(es[k].item, types);
    }
  }

  /** Registered entities are different items within each group. */
  lemma IdentifiedDistinct(r: Reg, b: Batch, provider: int)
    requires Consistent(r) && Identify(r, b, provider).All?
    ensures EntitiesDistinct(Identify(r, b, provider).reg, provider, b)
  {
    WriteLibrariesStores(r, provider, b.libraries);
    GroupsDistinct(WriteLibraries(r, provider, b.libraries), provider, b);
  }

  lemma GroupsDistinct(libs: Reg, provider: int, b: Batch)
    requires Consistent(libs) && AllocateAll(libs, provider, AllWants(b)).All?
    ensures EntitiesDistinct(AllocateAll(libs, provider, AllWants(b)).reg, provider, b)
  {
    var ws := AllWants(b);
    var n1, n2, n3 := |b.albums|, |b.albums| + |b.artists|, |b.albums| + |b.artists| + |b.songs|;
    WantsSlices(b);
    WantsTyped(b);
    GroupDistinct(libs, provider, ws, b.albums, {ALBUM}, 0);
    GroupDistinct(libs, provider, ws, b.artists, {ARTIST}, n1);
    GroupDistinct(libs, provider, ws, b.songs, {SONG}, n2);
    GroupDistinct(libs, provider, ws, b.remotes, {MIX, RADIO}, n3);
  }

  // --- Entities ---

  ghost predicate ShapedLike(table: map<int, Fields>, initial: Fields) {
    forall id :: id in table ==> table[id].Keys == initial.Keys
  }

  /** Stored rows have the columns of their table. */
  ghost predicate Shaped(t: Tables) {
    && ShapedLike(t.albums, ALBUM_ROW)
    && ShapedLike(t.artists, ARTIST_ROW)
    && ShapedLike(t.songs, SONG_ROW)
    && ShapedLike(t.remotes, REMOTE_ROW)
    && ShapedLike(t.dynamics, DYNAMIC_ROW)
  }

  /** `names` lists the columns of a row, each once. */
  ghost predicate Schema(names: seq<string>, initial: Fields) {
    (forall f :: f in names <==> f in initial) && Distinct(names)
  }

  lemma AlbumSchema()
    ensures Schema(ALBUM_FIELDS, ALBUM_ROW)
  {
  }

  lemma ArtistSchema()
    ensures Schema(ARTIST_FIELDS, ARTIST_ROW)
  {
  }

  lemma SongSchema()
    ensures Schema(SONG_FIELDS, SONG_ROW)
  {
  }

  lemma RemoteSchema()
    ensures Schema(REMOTE_FIELDS, REMOTE_ROW)
  {
  }

  lemma WrittenStepAt(was: map<int, Fields>, ids: seq<int>, es: seq<Input>, initial: Fields, mask: Mask, id: int, e: Input, x: int)
    requires |ids| == |es| && id !in ids && x != id && x in Written(was, ids + [id], es + [e], initial, mask)
    ensures x in Written(was, ids, es, initial, mask)
    ensures Written(was, ids + [id], es + [e], initial, mask)[x] == Written(was, ids, es, initial, mask)[x]
  {
    if x in ids {
      IndexOfAppend(ids, id, x);
    }
  }

  lemma WrittenStep(was: map<int, Fields>, ids: seq<int>, es: seq<Input>, initial: Fields, mask: Mask, id: int, e: Input)
    requires |ids| == |es| && id !in ids
    ensures Written(was, ids + [id], es + [e], initial, mask) ==
            Written(was, ids, es, initial, mask)[id := Patched(e, RowOf(was, id, initial), id !in was, mask)]
  {
    IndexOfLast(ids, id);
    var a := Written(was, ids + [id], es + [e], initial, mask);
    var b := Written(was, ids, es, initial, mask)[id := Patched(e, RowOf(was, id, initial), id !in was, mask)];
    assert forall x :: x in a <==> x in b;
    forall x | x in a ensures a[x] == b[x] {
      if x != id { WrittenStepAt(was, ids, es, initial, mask, id, e, x); }
    }
    assert a == b;
  }

  lemma NothingPatched(was: map<int, Fields>, initial: Fields, mask: Mask)
    ensures Written(was, [], [], initial, mask) == was
  {
    var w0 := Written(was, [], [], initial, mask);
    assert forall x :: x in w0 <==> x in was;
    assert forall x :: x in w0 ==> w0[x] == was[x];
    assert w0 == was;
  }

  /** The rows of a prefix, and one more. */
  lemma RowStep(r: Reg, provider: int, was: map<int, Fields>, es: seq<Input>, types: set<int>, initial: Fields, mask: Mask, i: nat)
    requires DistinctRefs(r, provider, Items(es), types) && i < |es|
    requires AllResolve(r, provider, Items(es)[..i], types) && Resolve(r, provider, es[i].item, types).To?
    ensures var ids, id := Ids(r, provider, Items(es)[..i], types), Resolve(r, provider, es[i].item, types).id;
            Written(was, ids + [id], es[..i + 1], initial, mask) ==
            Written(was, ids, es[..i], initial, mask)[id := Patched(es[i], RowOf(was, id, initial), id !in was, mask)]
  {
    var ids, id := Ids(r, provider, Items(es)[..i], types), Resolve(r, provider, es[i].item, types).id;
    assert forall k :: 0 <= k < i ==> ids[k] == Resolve(r, provider, Items(es)[k], types).id;
    assert Items(es)[i] == es[i].item;
    WrittenStep(was, ids, es[..i], initial, mask, id, es[i]);
    PrefixStep(es, i);
  }

  ghost predicate EntitiesAccepted(r: Reg, provider: int, was: map<int, Fields>, es: seq<Input>, types: set<int>,
                                   initial: Fields, mask: Mask, quantities: seq<string>)
  {
    && AllResolve(r, provider, Items(es), types)
    && RowsOk(Written(was, Ids(r, provider, Items(es), types), es, initial, mask), Ids(r, provider, Items(es), types),
              quantities)
  }

  ghost predicate AllEntitiesAccepted(r: Reg, provider: int, t: Tables, b: Batch) {
    && EntitiesAccepted(r, provider, t.albums, b.albums, {ALBUM}, ALBUM_ROW, b.albumMask, ALBUM_QUANTITIES)
    && EntitiesAccepted(r, provider, t.artists, b.artists, {ARTIST}, ARTIST_ROW, b.artistMask, ARTIST_QUANTITIES)
    && EntitiesAccepted(r, provider, t.songs, b.songs, {SONG}, SONG_ROW, b.songMask, SONG_QUANTITIES)
    && EntitiesAccepted(r, provider, t.remotes, b.remotes, {MIX, RADIO}, REMOTE_ROW, b.remoteMask, REMOTE_QUANTITIES)
  }

  /** The tables after the entity stages. */
  ghost function WithEntities(r: Reg, provider: int, t: Tables, b: Batch): Tables
    requires AllEntitiesAccepted(r, provider, t, b)
  {
    var ids := Ids(r, provider, Items(b.remotes), {MIX, RADIO});
    var remotes := Written(t.remotes, ids, b.remotes, REMOTE_ROW, b.remoteMask);
    t.(albums := Written(t.albums, Ids(r, provider, Items(b.albums), {ALBUM}), b.albums, ALBUM_ROW, b.albumMask),
       artists := Written(t.artists, Ids(r, provider, Items(b.artists), {ARTIST}), b.artists, ARTIST_ROW, b.artistMask),
       songs := Written(t.songs, Ids(r, provider, Items(b.songs), {SONG}), b.songs, SONG_ROW, b.songMask),
       remotes := remotes,
       mixes := Cached(t.mixes, remotes, ids))
  }

  lemma CachedStep(mixes: map<int, CacheMix>, remotes: map<int, Fields>, ids: seq<int>, i: nat)
    requires i < |ids|
    ensures Cached(mixes, remotes, ids[..i + 1]) ==
            Cached(mixes, remotes, ids[..i])[ids[i] := CacheOf(RowOf(remotes, ids[i], REMOTE_ROW))]
  {
    var a := Cached(mixes, remotes, ids[..i + 1]);
    var b := Cached(mixes, remotes, ids[..i])[ids[i] := CacheOf(RowOf(remotes, ids[i], REMOTE_ROW))];
    assert ids[..i + 1] == ids[..i] + [ids[i]];
    assert forall x :: x in a <==> x in b;
    assert forall x :: x in a ==> a[x] == b[x];
    assert a == b;
  }

  // --- Dynamics ---

  ghost predicate EntriesAccepted(was: map<int, Fields>, ids: seq<int>, es: seq<Input>, mask: Mask, w: Writer)
    requires |ids| == |es| && DynamicsWellFormed(was)
  {
    Distinct(ids) && forall i :: 0 <= i < |es| ==> DynamicEntryOk(was, ids[i], es[i], mask, w)
  }

  ghost predicate DynamicsAccepted(r: Reg, was: map<int, Fields>, es: seq<Input>, mask: Mask, w: Writer)
    requires DynamicsWellFormed(was)
  {
    && AllResolve(r, w.provider, Items(es), {})
    && EntriesAccepted(was, Ids(r, w.provider, Items(es), {}), es, mask, w)
  }

  lemma NothingWritten(was: map<int, Fields>, mask: Mask, w: Writer)
    requires DynamicsWellFormed(was)
    ensures WrittenDynamics(was, [], [], mask, w) == was
  {
    var w0 := WrittenDynamics(was, [], [], mask, w);
    assert forall x :: x in w0 <==> x in was;
    assert w0 == was;
  }

  lemma WrittenDynamicsStepAt(was: map<int, Fields>, ids: seq<int>, es: seq<Input>, mask: Mask, w: Writer, id: int, e: Input, x: int)
    requires |ids| == |es| && id !in ids && DynamicsWellFormed(was)
    requires x != id && x in WrittenDynamics(was, ids + [id], es + [e], mask, w)
    ensures x in WrittenDynamics(was, ids, es, mask, w)
    ensures WrittenDynamics(was, ids + [id], es + [e], mask, w)[x] == WrittenDynamics(was, ids, es, mask, w)[x]
  {
    if x in ids {
      IndexOfAppend(ids, id, x);
    }
  }

  lemma WrittenDynamicsStep(was: map<int, Fields>, ids: seq<int>, es: seq<Input>, mask: Mask, w: Writer, id: int, e: Input)
    requires |ids| == |es| && id !in ids && DynamicsWellFormed(was)
    ensures WrittenDynamics(was, ids + [id], es + [e], mask, w) ==
            WrittenDynamics(was, ids, es, mask, w)[
              id := DynamicRow(e, RowOf(was, id, DYNAMIC_ROW), id !in was, mask, w.now, id in w.changed)]
  {
    IndexOfLast(ids, id);
    var a := WrittenDynamics(was, ids + [id], es + [e], mask, w);
    var b := WrittenDynamics(was, ids, es, mask, w)[
      id := DynamicRow(e, RowOf(was, id, DYNAMIC_ROW), id !in was, mask, w.now, id in w.changed)];
    assert forall x :: x in a <==> x in b;
    forall x | x in a ensures a[x] == b[x] {
      if x != id { WrittenDynamicsStepAt(was, ids, es, mask, w, id, e, x); }
    }
    assert a == b;
  }

  lemma EntriesStep(was: map<int, Fields>, ids: seq<int>, es: seq<Input>, mask: Mask, w: Writer, id: int, i: nat)
    requires |ids| == i < |es| && DynamicsWellFormed(was) && EntriesAccepted(was, ids, es[..i], mask, w)
    requires id !in ids && DynamicEntryOk(was, id, es[i], mask, w)
    ensures EntriesAccepted(was, ids + [id], es[..i + 1], mask, w)
    ensures WrittenDynamics(was, ids + [id], es[..i + 1], mask, w) ==
            WrittenDynamics(was, ids, es[..i], mask, w)[
              id := DynamicRow(es[i], RowOf(was, id, DYNAMIC_ROW), id !in was, mask, w.now, id in w.changed)]
  {
    PrefixStep(es, i);
    WrittenDynamicsStep(was, ids, es[..i], mask, w, id, es[i]);
  }

  lemma DynamicsRefused(r: Reg, was: map<int, Fields>, es: seq<Input>, mask: Mask, w: Writer, i: nat)
    requires i < |es| && DynamicsWellFormed(was) && AllResolve(r, w.provider, Items(es)[..i], {})
    requires Resolve(r, w.provider, es[i].item, {}).To?
    ensures var id := Resolve(r, w.provider, es[i].item, {}).id;
            id in Ids(r, w.provider, Items(es)[..i], {}) || !DynamicEntryOk(was, id, es[i], mask, w) ==>
              !DynamicsAccepted(r, was, es, mask, w)
  {
    if DynamicsAccepted(r, was, es, mask, w) {
      var all := Ids(r, w.provider, Items(es), {});
      var some := Ids(r, w.provider, Items(es)[..i], {});
      assert all[i] == Resolve(r, w.provider, es[i].item, {}).id;
      assert forall j :: 0 <= j < i ==> all[j] == some[j];
    }
  }

  lemma DefaultedStep(was: map<int, Fields>, items: seq<int>, i: nat)
    requires i < |items|
    ensures var before := Defaulted(was, items[..i]);
            Defaulted(was, items[..i + 1]) == if items[i] in before then before else before[items[i] := DYNAMIC_ROW]
  {
    var before := Defaulted(was, items[..i]);
    var a := Defaulted(was, items[..i + 1]);
    var b := if items[i] in before then before else before[items[i] := DYNAMIC_ROW];
    assert items[..i + 1] == items[..i] + [items[i]];
    assert forall x :: x in a <==> x in b;
    assert forall x :: x in a ==> a[x] == b[x];
    assert a == b;
  }

  // --- Images ---

  ghost predicate ImagesAccepted(r: Reg, provider: int, es: seq<ImageInput>) {
    && AllResolve(r, provider, ImageRefs(es), {})
    && Distinct(ImageKeys(Ids(r, provider, ImageRefs(es), {}), es))
  }

  lemma NoImagesWritten(was: map<ImageKey, Image>)
    ensures WrittenImages(was, [], []) == was
  {
    var w0 := WrittenImages(was, [], []);
    assert forall x :: x in w0 <==> x in was;
    assert w0 == was;
  }

  /** The images of a prefix, and one more. */
  lemma WrittenImagesStep(was: map<ImageKey, Image>, ks: seq<ImageKey>, es: seq<ImageInput>, k: ImageKey, e: ImageInput)
    requires |ks| == |es| && k !in ks
    ensures WrittenImages(was, ks + [k], es + [e]) ==
            if e.remove then WrittenImages(was, ks, es) - {k}
            else WrittenImages(was, ks, es)[k := ImageRow(e, if k in was then was[k] else Image(Nil, Text("")))]
    ensures k in WrittenImages(was, ks, es) <==> k in was
    ensures k in was ==> WrittenImages(was, ks, es)[k] == was[k]
  {
    var a := WrittenImages(was, ks + [k], es + [e]);
    var b := if e.remove then WrittenImages(was, ks, es) - {k}
             else WrittenImages(was, ks, es)[k := ImageRow(e, if k in was then was[k] else Image(Nil, Text("")))];
    IndexOfLast(ks, k);
    forall x ensures x in a <==> x in b
      ensures x in a ==> a[x] == b[x]
    {
      if x in ks { IndexOfAppend(ks, k, x); }
    }
    assert a == b;
  }

  /** What the loop over the images knows: the first `n` resolved to `keys`, all different. */
  ghost predicate ImagesDone(r: Reg, provider: int, es: seq<ImageInput>, n: nat, keys: seq<ImageKey>)
    requires n <= |es|
  {
    && AllResolve(r, provider, ImageRefs(es)[..n], {})
    && keys == ImageKeys(Ids(r, provider, ImageRefs(es)[..n], {}), es[..n])
    && Distinct(keys)
  }

  lemma ImagesDoneStep(r: Reg, provider: int, es: seq<ImageInput>, i: nat, keys: seq<ImageKey>)
    requires i < |es| && ImagesDone(r, provider, es, i, keys) && Resolve(r, provider, es[i].item, {}).To?
    ensures var k := ImageKey(Resolve(r, provider, es[i].item, {}).id, es[i].imageType);
            |keys| == i && (k !in keys ==> ImagesDone(r, provider, es, i + 1, keys + [k]))
  {
    IdsPrefix(r, provider, ImageRefs(es), {}, i);
    PrefixStep(es, i);
  }

  lemma ImagesAllDone(r: Reg, provider: int, es: seq<ImageInput>, keys: seq<ImageKey>)
    requires ImagesDone(r, provider, es, |es|, keys)
    ensures ImagesAccepted(r, provider, es) && keys == ImageKeys(Ids(r, provider, ImageRefs(es), {}), es)
  {
    assert ImageRefs(es)[..|es|] == ImageRefs(es) && es[..|es|] == es;
  }

  lemma ImagesRefused(r: Reg, provider: int, es: seq<ImageInput>, i: nat, keys: seq<ImageKey>)
    requires i < |es| && ImagesDone(r, provider, es, i, keys)
    ensures var found := Resolve(r, provider, es[i].item, {});
            found.Null? || ImageKey(found.id, es[i].imageType) in keys ==> !ImagesAccepted(r, provider, es)
  {
    IdsPrefix(r, provider, ImageRefs(es), {}, i);
    if ImagesAccepted(r, provider, es) {
      var all := ImageKeys(Ids(r, provider, ImageRefs(es), {}), es);
      assert ImageRefs(es)[i] == es[i].item;
      assert all[i] == ImageKey(Resolve(r, provider, es[i].item, {}).id, es[i].imageType);
      assert forall j :: 0 <= j < i ==> all[j] == keys[j];
    }
  }

  // --- Albums ---

  ghost predicate AlbumsAccepted(r: Reg, provider: int, songs: map<int, Fields>, ids: seq<int>, es: seq<Input>,
                                 mask: Mask, relations: seq<SongAlbumInput>)
    requires |ids| == |es|
  {
    && AllResolve(r, provider, SongRefs(relations), {SONG})
    && AlbumsOk(r, provider, songs, ids, es, mask, Ids(r, provider, SongRefs(relations), {SONG}), relations)
  }

  /** The first `n` inputs name acceptable albums wherever they set one. */
  ghost predicate AlbumsFine(r: Reg, provider: int, songs: map<int, Fields>, ids: seq<int>, es: seq<Input>, mask: Mask, n: nat)
    requires n <= |ids| == |es|
  {
    forall k :: 0 <= k < n && SetsAlbum(songs, ids[k], es[k], mask) ==> TargetOk(r, provider, ids[k], es[k].album)
  }

  lemma AlbumsFineStep(r: Reg, provider: int, songs: map<int, Fields>, ids: seq<int>, es: seq<Input>, mask: Mask, i: nat)
    requires i < |ids| == |es| && AlbumsFine(r, provider, songs, ids, es, mask, i)
    ensures AlbumsFine(r, provider, songs, ids, es, mask, i + 1) <==>
              !SetsAlbum(songs, ids[i], es[i], mask) || TargetOk(r, provider, ids[i], es[i].album)
    ensures !AlbumsFine(r, provider, songs, ids, es, mask, i + 1) ==> !InputAlbumsOk(r, provider, songs, ids, es, mask)
  {
  }

  ghost predicate InputAlbumsOk(r: Reg, provider: int, songs: map<int, Fields>, ids: seq<int>, es: seq<Input>, mask: Mask)
    requires |ids| == |es|
  {
    AlbumsFine(r, provider, songs, ids, es, mask, |es|)
  }

  /** The songs whose album the first `n` inputs set. */
  ghost function Placed(songs: map<int, Fields>, ids: seq<int>, es: seq<Input>, mask: Mask, n: nat): set<int>
    requires n <= |ids| == |es|
  {
    set k | 0 <= k < n && SetsAlbum(songs, ids[k], es[k], mask) :: ids[k]
  }

  lemma PlacedStep(songs: map<int, Fields>, ids: seq<int>, es: seq<Input>, mask: Mask, i: nat)
    requires i < |ids| == |es|
    ensures SetsAlbum(songs, ids[i], es[i], mask) ==>
              Placed(songs, ids, es, mask, i + 1) == Placed(songs, ids, es, mask, i) + {ids[i]}
    ensures !SetsAlbum(songs, ids[i], es[i], mask) ==>
              Placed(songs, ids, es, mask, i + 1) == Placed(songs, ids, es, mask, i)
  {
    var a, b := Placed(songs, ids, es, mask, i + 1), Placed(songs, ids, es, mask, i);
    if SetsAlbum(songs, ids[i], es[i], mask) {
      assert forall x :: x in a <==> x in b + {ids[i]};
    } else {
      assert forall x :: x in a <==> x in b;
    }
  }

  /** The album column after the first `n` inputs. */
  ghost function InputColumn(r: Reg, provider: int, t: Tables, ids: seq<int>, es: seq<Input>, mask: Mask, n: nat): map<int, Ref>
    requires n <= |ids| == |es|
  {
    map s | s in t.albumOf.Keys + (set x | x in ids) ::
      if s in ids && IndexOf(ids, s) < n && SetsAlbum(t.songs, s, es[IndexOf(ids, s)], mask) then
        Target(r, provider, es[IndexOf(ids, s)].album)
      else if s in t.albumOf then t.albumOf[s]
      else Null
  }

  /** The stored albums, with a null for every new song. */
  function StoredColumn(t: Tables, ids: seq<int>): map<int, Ref> {
    map s | s in t.albumOf.Keys + (set x | x in ids) :: if s in t.albumOf then t.albumOf[s] else Null
  }

  lemma InputColumnNone(r: Reg, provider: int, t: Tables, ids: seq<int>, es: seq<Input>, mask: Mask)
    requires |ids| == |es|
    ensures InputsPlaced(r, provider, t, ids, es, mask, 0, StoredColumn(t, ids), {})
  {
    var column := StoredColumn(t, ids);
    var b := InputColumn(r, provider, t, ids, es, mask, 0);
    assert forall x :: x in column <==> x in b;
    assert forall x :: x in column ==> column[x] == b[x];
    assert column == b;
  }

  lemma InputColumnAt(r: Reg, provider: int, t: Tables, ids: seq<int>, es: seq<Input>, mask: Mask, i: nat, x: int)
    requires i < |ids| == |es| && Distinct(ids) && x in InputColumn(r, provider, t, ids, es, mask, i)
    ensures x in InputColumn(r, provider, t, ids, es, mask, i + 1)
    ensures InputColumn(r, provider, t, ids, es, mask, i + 1)[x] ==
            if x == ids[i] && SetsAlbum(t.songs, x, es[i], mask) then Target(r, provider, es[i].album)
            else InputColumn(r, provider, t, ids, es, mask, i)[x]
  {
    IndexOfDistinct(ids, i);
    if x in ids { assert IndexOf(ids, x) == i <==> x == ids[i]; }
  }

  lemma InputColumnStep(r: Reg, provider: int, t: Tables, ids: seq<int>, es: seq<Input>, mask: Mask, i: nat)
    requires i < |ids| == |es| && Distinct(ids)
    ensures InputColumn(r, provider, t, ids, es, mask, i + 1) ==
            if SetsAlbum(t.songs, ids[i], es[i], mask)
            then InputColumn(r, provider, t, ids, es, mask, i)[ids[i] := Target(r, provider, es[i].album)]
            else InputColumn(r, provider, t, ids, es, mask, i)
  {
    var a, c := InputColumn(r, provider, t, ids, es, mask, i + 1), InputColumn(r, provider, t, ids, es, mask, i);
    var b := if SetsAlbum(t.songs, ids[i], es[i], mask) then c[ids[i] := Target(r, provider, es[i].album)] else c;
    assert ids[i] in c;
    assert forall x :: x in a <==> x in b;
    forall x | x in a ensures a[x] == b[x] {
      assert x in c;
      InputColumnAt(r, provider, t, ids, es, mask, i, x);
    }
    assert a == b;
  }

  /** What the loop over the song inputs knows after the first `n`. */
  ghost predicate InputsPlaced(r: Reg, provider: int, t: Tables, ids: seq<int>, es: seq<Input>, mask: Mask, n: nat,
                               column: map<int, Ref>, placed: set<int>)
    requires n <= |ids| == |es|
  {
    && column == InputColumn(r, provider, t, ids, es, mask, n)
    && placed == Placed(t.songs, ids, es, mask, n)
    && AlbumsFine(r, provider, t.songs, ids, es, mask, n)
  }

  lemma InputsStep(r: Reg, provider: int, t: Tables, ids: seq<int>, es: seq<Input>, mask: Mask, i: nat,
                   column: map<int, Ref>, placed: set<int>)
    requires i < |ids| == |es| && Distinct(ids) && InputsPlaced(r, provider, t, ids, es, mask, i, column, placed)
    ensures es[i].album.KeepAlbum? || (ids[i] in t.songs && !mask.Allows("album_id")) ==>
              InputsPlaced(r, provider, t, ids, es, mask, i + 1, column, placed)
    ensures !(es[i].album.KeepAlbum? || (ids[i] in t.songs && !mask.Allows("album_id"))) ==>
              if TargetOk(r, provider, ids[i], es[i].album)
              then InputsPlaced(r, provider, t, ids, es, mask, i + 1,
                                column[ids[i] := Target(r, provider, es[i].album)], placed + {ids[i]})
              else !InputAlbumsOk(r, provider, t.songs, ids, es, mask)
  {
    InputColumnStep(r, provider, t, ids, es, mask, i);
    PlacedStep(t.songs, ids, es, mask, i);
    AlbumsFineStep(r, provider, t.songs, ids, es, mask, i);
  }

  lemma InputColumnWhole(r: Reg, provider: int, t: Tables, ids: seq<int>, es: seq<Input>, mask: Mask,
                         column: map<int, Ref>, placed: set<int>)
    requires |ids| == |es| && InputsPlaced(r, provider, t, ids, es, mask, |es|, column, placed)
    ensures InputAlbumsOk(r, provider, t.songs, ids, es, mask)
    ensures column == AlbumColumn(r, provider, t, ids, es, mask, [], [])
    ensures placed == Placed(t.songs, ids, es, mask, |es|)
  {
    var a := InputColumn(r, provider, t, ids, es, mask, |es|);
    var b := AlbumColumn(r, provider, t, ids, es, mask, [], []);
    assert forall x :: x in a <==> x in b;
    assert forall x :: x in a ==> a[x] == b[x];
    assert a == b;
  }

  /** One more relation: still acceptable, and the column takes its album. */
  lemma AlbumsStep(r: Reg, provider: int, t: Tables, ids: seq<int>, es: seq<Input>, mask: Mask,
                   related: seq<int>, relations: seq<SongAlbumInput>, id: int, j: nat)
    requires |ids| == |es| && |related| == j < |relations| && id !in related
    requires forall s :: s in t.songs ==> s in t.albumOf
    requires AlbumsOk(r, provider, t.songs, ids, es, mask, related, relations[..j])
    requires id !in Placed(t.songs, ids, es, mask, |es|) && (id in t.songs || id in ids)
    requires TargetOk(r, provider, id, relations[j].album)
    ensures AlbumsOk(r, provider, t.songs, ids, es, mask, related + [id], relations[..j + 1])
    ensures AlbumColumn(r, provider, t, ids, es, mask, related + [id], relations[..j + 1]) ==
            AlbumColumn(r, provider, t, ids, es, mask, related, relations[..j])[
              id := Target(r, provider, relations[j].album)]
  {
    AlbumColumnStep(r, provider, t, ids, es, mask, related, relations, id, j);
    AlbumsOkStep(r, provider, t.songs, ids, es, mask, related, relations, id, j);
  }

  lemma AlbumsOkStep(r: Reg, provider: int, songs: map<int, Fields>, ids: seq<int>, es: seq<Input>, mask: Mask,
                     related: seq<int>, relations: seq<SongAlbumInput>, id: int, j: nat)
    requires |ids| == |es| && |related| == j < |relations| && id !in related
    requires AlbumsOk(r, provider, songs, ids, es, mask, related, relations[..j])
    requires id !in Placed(songs, ids, es, mask, |es|) && (id in songs || id in ids)
    requires TargetOk(r, provider, id, relations[j].album)
    ensures AlbumsOk(r, provider, songs, ids, es, mask, related + [id], relations[..j + 1])
  {
    forall i | 0 <= i < |ids| && SetsAlbum(songs, ids[i], es[i], mask) ensures ids[i] !in related + [id] {
      assert ids[i] in Placed(songs, ids, es, mask, |es|);
    }
  }

  lemma AlbumColumnStep(r: Reg, provider: int, t: Tables, ids: seq<int>, es: seq<Input>, mask: Mask,
                        related: seq<int>, relations: seq<SongAlbumInput>, id: int, j: nat)
    requires |ids| == |es| && |related| == j < |relations| && id !in related && (id in t.albumOf || id in ids)
    ensures AlbumColumn(r, provider, t, ids, es, mask, related + [id], relations[..j + 1]) ==
            AlbumColumn(r, provider, t, ids, es, mask, related, relations[..j])[
              id := Target(r, provider, relations[j].album)]
  {
    var a := AlbumColumn(r, provider, t, ids, es, mask, related + [id], relations[..j + 1]);
    var b := AlbumColumn(r, provider, t, ids, es, mask, related, relations[..j])[
      id := Target(r, provider, relations[j].album)];
    IndexOfLast(related, id);
    assert forall x :: x in a <==> x in b;
    forall x | x in a ensures a[x] == b[x] {
      if x in related { IndexOfAppend(related, id, x); }
    }
    assert a == b;
  }

  lemma AlbumsRefused(r: Reg, provider: int, songs: map<int, Fields>, ids: seq<int>, es: seq<Input>,
                      mask: Mask, relations: seq<SongAlbumInput>, j: nat)
    requires |ids| == |es| && j < |relations| && AllResolve(r, provider, SongRefs(relations)[..j], {SONG})
    requires Resolve(r, provider, relations[j].song, {SONG}).To?
    ensures var id := Resolve(r, provider, relations[j].song, {SONG}).id;
            AlbumsAccepted(r, provider, songs, ids, es, mask, relations) ==>
              && id !in Ids(r, provider, SongRefs(relations)[..j], {SONG})
              && (id in songs || id in ids) && TargetOk(r, provider, id, relations[j].album)
              && id !in Placed(songs, ids, es, mask, |es|)
  {
    RepeatedId(r, provider, SongRefs(relations), {SONG}, j);
    if AlbumsAccepted(r, provider, songs, ids, es, mask, relations) {
      var all := Ids(r, provider, SongRefs(relations), {SONG});
      assert all[j] in all;
    }
  }

  // --- Relations ---

  ghost predicate RelationsAccepted(r: Reg, provider: int, es: seq<RelationInput>, types: set<int>) {
    && AllResolve(r, provider, Owners(es), types)
    && Distinct(Ids(r, provider, Owners(es), types))
    && forall i :: 0 <= i < |es| ==>
         TargetsAccepted(r, provider, Ids(r, provider, Owners(es), types)[i], es[i].targets)
  }

  ghost predicate OwnersDone(r: Reg, provider: int, es: seq<RelationInput>, owners: seq<int>, done: seq<seq<int>>) {
    && |owners| == |es| == |done| && Distinct(owners)
    && forall k :: 0 <= k < |es| ==>
         && TargetsAccepted(r, provider, owners[k], es[k].targets)
         && done[k] == Ids(r, provider, es[k].targets, {ARTIST})
  }

  lemma OwnersAllDone(r: Reg, provider: int, es: seq<RelationInput>, types: set<int>, done: seq<seq<int>>)
    requires AllResolve(r, provider, Owners(es), types)
    requires OwnersDone(r, provider, es, Ids(r, provider, Owners(es), types), done)
    ensures RelationsAccepted(r, provider, es, types) && done == Targets(r, provider, es)
  {
  }

  lemma OwnersStep(r: Reg, provider: int, es: seq<RelationInput>, owners: seq<int>, done: seq<seq<int>>,
                   owner: int, targets: seq<int>, i: nat)
    requires i < |es| && OwnersDone(r, provider, es[..i], owners, done) && owner !in owners
    requires TargetsAccepted(r, provider, owner, es[i].targets) && targets == Ids(r, provider, es[i].targets, {ARTIST})
    ensures OwnersDone(r, provider, es[..i + 1], owners + [owner], done + [targets])
  {
    forall k | 0 <= k < i + 1
      ensures TargetsAccepted(r, provider, (owners + [owner])[k], es[..i + 1][k].targets)
      ensures (done + [targets])[k] == Ids(r, provider, es[..i + 1][k].targets, {ARTIST})
    {
      if k < i { assert es[..i][k] == es[..i + 1][k]; }
    }
  }

  lemma TargetsRefused(r: Reg, provider: int, owner: int, refs: seq<ItemRef>, j: nat)
    requires j < |refs| && AllResolve(r, provider, refs[..j], {ARTIST}) && Resolve(r, provider, refs[j], {ARTIST}).To?
    ensures var id := Resolve(r, provider, refs[j], {ARTIST}).id;
            TargetsAccepted(r, provider, owner, refs) ==>
              SameLibrary(r, id, owner) && id !in Ids(r, provider, refs[..j], {ARTIST})
  {
    RepeatedId(r, provider, refs, {ARTIST}, j);
  }

  lemma RelationsRefused(r: Reg, provider: int, es: seq<RelationInput>, types: set<int>, i: nat)
    requires i < |es| && AllResolve(r, provider, Owners(es)[..i], types)
    requires Resolve(r, provider, es[i].owner, types).To?
    ensures var id := Resolve(r, provider, es[i].owner, types).id;
            RelationsAccepted(r, provider, es, types) ==>
              id !in Ids(r, provider, Owners(es)[..i], types) && TargetsAccepted(r, provider, id, es[i].targets)
  {
    RepeatedId(r, provider, Owners(es), types, i);
  }

  function Merged(table: set<Credit>, owner: int, e: RelationInput, targets: seq<int>): set<Credit> {
    (set c | c in table && !(e.mode.Replace? && c.work == owner)) + (set a | a in targets :: Credit(owner, a))
  }

  lemma RelatedStep(was: set<Credit>, owners: seq<int>, es: seq<RelationInput>, done: seq<seq<int>>,
                    owner: int, e: RelationInput, targets: seq<int>)
    requires |owners| == |es| == |done| && owner !in owners
    ensures Related(was, owners + [owner], es + [e], done + [targets]) ==
            Merged(Related(was, owners, es, done), owner, e, targets)
  {
    var ds := done + [targets];
    var os := owners + [owner];
    var left := Related(was, os, es + [e], ds);
    var right := Merged(Related(was, owners, es, done), owner, e, targets);
    IndexOfLast(owners, owner);
    forall c ensures c in left <==> c in right {
      if c.work in owners { IndexOfAppend(owners, owner, c.work); }
      if i, j :| 0 <= i < |ds| && 0 <= j < |ds[i]| && c == Credit(os[i], ds[i][j]) {
        if i < |done| { assert c == Credit(owners[i], done[i][j]); } else { assert c == Credit(owner, targets[j]); }
      }
      if i, j :| 0 <= i < |done| && 0 <= j < |done[i]| && c == Credit(owners[i], done[i][j]) {
        assert c == Credit(os[i], ds[i][j]);
      }
      if j :| 0 <= j < |targets| && c == Credit(owner, targets[j]) {
        assert c == Credit(os[|done|], ds[|done|][j]);
      }
    }
    assert left == right;
  }

  // --- Contents ---

  ghost predicate MembersAccepted(r: Reg, provider: int, e: MixContents, mix: int, t: Tables) {
    && e.mode.Replace? && mix in t.mixes && mix in t.remotes
    && AllResolve(r, provider, e.songs, {SONG}) && Distinct(Ids(r, provider, e.songs, {SONG}))
  }

  ghost predicate ContentsAccepted(r: Reg, provider: int, es: seq<MixContents>, t: Tables) {
    && AllResolve(r, provider, MixRefs(es), {MIX, RADIO})
    && Distinct(Ids(r, provider, MixRefs(es), {MIX, RADIO}))
    && forall i :: 0 <= i < |es| ==>
         MembersAccepted(r, provider, es[i], Ids(r, provider, MixRefs(es), {MIX, RADIO})[i], t)
  }

  ghost predicate ContentsPossible(r: Reg, provider: int, es: seq<MixContents>, cached: set<int>, remotes: set<int>) {
    && AllResolve(r, provider, MixRefs(es), {MIX, RADIO})
    && Distinct(Ids(r, provider, MixRefs(es), {MIX, RADIO}))
    && forall i :: 0 <= i < |es| ==>
         && es[i].mode.Replace?
         && Ids(r, provider, MixRefs(es), {MIX, RADIO})[i] in cached
         && Ids(r, provider, MixRefs(es), {MIX, RADIO})[i] in remotes
         && AllResolve(r, provider, es[i].songs, {SONG}) && Distinct(Ids(r, provider, es[i].songs, {SONG}))
  }

  lemma ContentsSameKeys(r: Reg, provider: int, b: Batch, t: Tables, u: Tables)
    requires AllEntitiesAccepted(r, provider, t, b)
    requires u.remotes == WithEntities(r, provider, t, b).remotes && u.mixes == WithEntities(r, provider, t, b).mixes
    ensures var ids := Ids(r, provider, Items(b.remotes), {MIX, RADIO});
            ContentsAccepted(r, provider, b.contents, u) <==>
            ContentsPossible(r, provider, b.contents, t.mixes.Keys + (set x | x in ids), t.remotes.Keys + (set x | x in ids))
  {
  }

  /** What the loop over the contents knows: every mix so far was accepted, with the songs `members`. */
  ghost predicate ContentsDone(r: Reg, provider: int, es: seq<MixContents>, mixes: seq<int>, members: seq<seq<int>>, t: Tables) {
    && |mixes| == |es| == |members| && Distinct(mixes)
    && forall k :: 0 <= k < |es| ==>
         && MembersAccepted(r, provider, es[k], mixes[k], t)
         && members[k] == Ids(r, provider, es[k].songs, {SONG})
  }

  lemma ContentsDoneStep(r: Reg, provider: int, es: seq<MixContents>, mixes: seq<int>, members: seq<seq<int>>,
                         mix: int, songs: seq<int>, t: Tables, i: nat)
    requires i < |es| && ContentsDone(r, provider, es[..i], mixes, members, t) && mix !in mixes
    requires MembersAccepted(r, provider, es[i], mix, t) && songs == Ids(r, provider, es[i].songs, {SONG})
    ensures ContentsDone(r, provider, es[..i + 1], mixes + [mix], members + [songs], t)
  {
    forall k | 0 <= k < i + 1
      ensures MembersAccepted(r, provider, es[..i + 1][k], (mixes + [mix])[k], t)
      ensures (members + [songs])[k] == Ids(r, provider, es[..i + 1][k].songs, {SONG})
    {
      if k < i { assert es[..i][k] == es[..i + 1][k]; }
    }
  }

  lemma ContentsAllDone(r: Reg, provider: int, es: seq<MixContents>, members: seq<seq<int>>, t: Tables)
    requires AllResolve(r, provider, MixRefs(es), {MIX, RADIO})
    requires ContentsDone(r, provider, es, Ids(r, provider, MixRefs(es), {MIX, RADIO}), members, t)
    ensures ContentsAccepted(r, provider, es, t) && members == Members(r, provider, es)
  {
  }

  lemma ContentsRefused(r: Reg, provider: int, es: seq<MixContents>, t: Tables, i: nat)
    requires i < |es| && AllResolve(r, provider, MixRefs(es)[..i], {MIX, RADIO})
    requires Resolve(r, provider, es[i].mix, {MIX, RADIO}).To?
    ensures var id := Resolve(r, provider, es[i].mix, {MIX, RADIO}).id;
            ContentsAccepted(r, provider, es, t) ==>
              id !in Ids(r, provider, MixRefs(es)[..i], {MIX, RADIO}) && MembersAccepted(r, provider, es[i], id, t)
  {
    RepeatedId(r, provider, MixRefs(es), {MIX, RADIO}, i);
  }

  function Replaced(t: Tables, mixes: seq<int>, members: seq<seq<int>>): Tables
    requires |mixes| == |members|
  {
    t.(remotes := CountedRemotes(t.remotes, mixes, members),
       mixes := CountedMixes(t.mixes, mixes, members),
       contents := Contents(t.contents, mixes, members))
  }

  lemma NothingReplaced(t: Tables)
    ensures Replaced(t, [], []) == t
  {
    var r := Replaced(t, [], []);
    assert forall m :: m in r.remotes <==> m in t.remotes;
    assert r.remotes == t.remotes;
    assert forall m :: m in r.mixes <==> m in t.mixes;
    assert r.mixes == t.mixes;
    assert forall m :: m in r.contents <==> m in t.contents;
    assert r.contents == t.contents;
  }

  lemma CountedRemotesStep(t: map<int, Fields>, mixes: seq<int>, members: seq<seq<int>>, mix: int, songs: seq<int>)
    requires |mixes| == |members| && mix !in mixes && mix in t
    ensures var before := CountedRemotes(t, mixes, members);
            CountedRemotes(t, mixes + [mix], members + [songs]) ==
            before[mix := before[mix]["track_count" := Number(|songs|)]]
  {
    var before := CountedRemotes(t, mixes, members);
    var a := CountedRemotes(t, mixes + [mix], members + [songs]);
    var b := before[mix := before[mix]["track_count" := Number(|songs|)]];
    IndexOfLast(mixes, mix);
    assert forall x :: x in a <==> x in b;
    forall x | x in a ensures a[x] == b[x] {
      if x in mixes { IndexOfAppend(mixes, mix, x); }
    }
    assert a == b;
  }

  lemma CountedMixesStep(t: map<int, CacheMix>, mixes: seq<int>, members: seq<seq<int>>, mix: int, songs: seq<int>)
    requires |mixes| == |members| && mix !in mixes && mix in t
    ensures var before := CountedMixes(t, mixes, members);
            CountedMixes(t, mixes + [mix], members + [songs]) ==
            before[mix := before[mix].(trackCount := Number(|songs|))]
  {
    var before := CountedMixes(t, mixes, members);
    var a := CountedMixes(t, mixes + [mix], members + [songs]);
    var b := before[mix := before[mix].(trackCount := Number(|songs|))];
    IndexOfLast(mixes, mix);
    assert forall x :: x in a <==> x in b;
    forall x | x in a ensures a[x] == b[x] {
      if x in mixes { IndexOfAppend(mixes, mix, x); }
    }
    assert a == b;
  }

  lemma ContentsStep(t: map<int, seq<int>>, mixes: seq<int>, members: seq<seq<int>>, mix: int, songs: seq<int>)
    requires |mixes| == |members| && mix !in mixes
    ensures Contents(t, mixes + [mix], members + [songs]) == Contents(t, mixes, members)[mix := songs]
  {
    var a := Contents(t, mixes + [mix], members + [songs]);
    var b := Contents(t, mixes, members)[mix := songs];
    IndexOfLast(mixes, mix);
    assert forall x :: x in a <==> x in b;
    forall x | x in a ensures a[x] == b[x] {
      if x in mixes { IndexOfAppend(mixes, mix, x); }
    }
    assert a == b;
  }

  lemma ReplacedStep(t: Tables, mixes: seq<int>, members: seq<seq<int>>, mix: int, songs: seq<int>)
    requires |mixes| == |members| && mix !in mixes && mix in t.remotes && mix in t.mixes
    ensures var before := Replaced(t, mixes, members);
            Replaced(t, mixes + [mix], members + [songs]) == before.(
              contents := before.contents[mix := songs],
              remotes := before.remotes[mix := before.remotes[mix]["track_count" := Number(|songs|)]],
              mixes := before.mixes[mix := before.mixes[mix].(trackCount := Number(|songs|))])
  {
    CountedRemotesStep(t.remotes, mixes, members, mix, songs);
    CountedMixesStep(t.mixes, mixes, members, mix, songs);
    ContentsStep(t.contents, mixes, members, mix, songs);
  }

  // --- All stages together ---

  /** The stages that link items with each other. */
  ghost predicate LinkStages(r: Reg, t: Tables, b: Batch, w: Writer) {
    && ImagesAccepted(r, w.provider, b.images)
    && AllResolve(r, w.provider, Items(b.songs), {SONG})
    && AllResolve(r, w.provider, Items(b.remotes), {MIX, RADIO})
    && AlbumsAccepted(r, w.provider, t.songs, Ids(r, w.provider, Items(b.songs), {SONG}), b.songs, b.songMask, b.songAlbums)
    && RelationsAccepted(r, w.provider, b.albumArtists, {ALBUM})
    && RelationsAccepted(r, w.provider, b.songArtists, {SONG})
    && ContentsPossible(r, w.provider, b.contents,
                        t.mixes.Keys + (set x | x in Ids(r, w.provider, Items(b.remotes), {MIX, RADIO})),
                        t.remotes.Keys + (set x | x in Ids(r, w.provider, Items(b.remotes), {MIX, RADIO})))
  }

  /** Every stage accepts. */
  ghost predicate Stages(r: Reg, t: Tables, b: Batch, w: Writer)
    requires DynamicsWellFormed(t.dynamics)
  {
    && AllEntitiesAccepted(r, w.provider, t, b)
    && DynamicsAccepted(r, t.dynamics, b.dynamics, b.dynamicMask, w)
    && LinkStages(r, t, b, w)
  }

  lemma StagesResolve(r: Reg, t: Tables, b: Batch, w: Writer)
    requires DynamicsWellFormed(t.dynamics) && Stages(r, t, b, w)
    ensures Resolved(r, w.provider, b)
  {
    forall i | 0 <= i < |b.albumArtists| ensures AllResolve(r, w.provider, b.albumArtists[i].targets, {ARTIST}) {
    }
  }

  lemma EntitiesSame(r: Reg, t: Tables, b: Batch, w: Writer)
    requires Resolved(r, w.provider, b)
    ensures AllEntitiesAccepted(r, w.provider, t, b) <==> EntitiesFine(t, b, PlanOf(r, w.provider, b))
  {
  }

  lemma DynamicsSame(r: Reg, t: Tables, b: Batch, w: Writer)
    requires DynamicsWellFormed(t.dynamics) && Resolved(r, w.provider, b)
    ensures DynamicsAccepted(r, t.dynamics, b.dynamics, b.dynamicMask, w) <==>
              DynamicsFine(t, b, PlanOf(r, w.provider, b), w)
  {
  }

  lemma RelationsSame(r: Reg, provider: int, es: seq<RelationInput>, types: set<int>)
    requires AllResolve(r, provider, Owners(es), types)
    requires forall i :: 0 <= i < |es| ==> AllResolve(r, provider, es[i].targets, {ARTIST})
    ensures RelationsAccepted(r, provider, es, types) <==>
              RelationsOk(r, provider, Ids(r, provider, Owners(es), types), es)
  {
  }

  lemma ContentsSame(r: Reg, provider: int, es: seq<MixContents>, cached: set<int>, remotes: set<int>)
    requires AllResolve(r, provider, MixRefs(es), {MIX, RADIO})
    requires forall i :: 0 <= i < |es| ==> AllResolve(r, provider, es[i].songs, {SONG})
    ensures ContentsPossible(r, provider, es, cached, remotes) <==>
              ContentsOk(Ids(r, provider, MixRefs(es), {MIX, RADIO}), es, Members(r, provider, es), cached, remotes)
  {
    var mixes := Ids(r, provider, MixRefs(es), {MIX, RADIO});
    var members := Members(r, provider, es);
    assert forall i :: 0 <= i < |es| ==> members[i] == Ids(r, provider, es[i].songs, {SONG});
    if ContentsOk(mixes, es, members, cached, remotes) {
      forall i | 0 <= i < |es| ensures Distinct(Ids(r, provider, es[i].songs, {SONG})) {
        assert forall j, k :: 0 <= j < k < |members[i]| ==> members[i][j] != members[i][k];
      }
    }
    if ContentsPossible(r, provider, es, cached, remotes) {
      forall i | 0 <= i < |es| ensures Distinct(members[i]) {}
    }
  }

  lemma LinksSame(r: Reg, t: Tables, b: Batch, w: Writer)
    requires Resolved(r, w.provider, b)
    ensures LinkStages(r, t, b, w) <==> LinksFine(r, t, b, PlanOf(r, w.provider, b), w)
  {
    var p := PlanOf(r, w.provider, b);
    RelationsSame(r, w.provider, b.albumArtists, {ALBUM});
    RelationsSame(r, w.provider, b.songArtists, {SONG});
    ContentsSame(r, w.provider, b.contents, t.mixes.Keys + (set x | x in p.remotes), t.remotes.Keys + (set x | x in p.remotes));
  }

  lemma FineStages(r: Reg, t: Tables, b: Batch, w: Writer)
    requires DynamicsWellFormed(t.dynamics) && Resolved(r, w.provider, b)
    ensures Stages(r, t, b, w) <==> Fine(r, t, b, PlanOf(r, w.provider, b), w)
  {
    EntitiesSame(r, t, b, w);
    DynamicsSame(r, t, b, w);
    LinksSame(r, t, b, w);
  }

  /** The stages accept a batch exactly if it resolves and passes every check. */
  lemma StagesIffFine(r: Reg, t: Tables, b: Batch, w: Writer)
    requires DynamicsWellFormed(t.dynamics)
    ensures Stages(r, t, b, w) <==> Resolved(r, w.provider, b) && Fine(r, t, b, PlanOf(r, w.provider, b), w)
  {
    if Stages(r, t, b, w) {
      StagesResolve(r, t, b, w);
      FineStages(r, t, b, w);
    } else if Resolved(r, w.provider, b) {
      FineStages(r, t, b, w);
    }
  }

  /** Every stage before the contents accepts. */
  ghost predicate LinkedAccepted(r: Reg, t: Tables, b: Batch, w: Writer)
    requires DynamicsWellFormed(t.dynamics)
  {
    && AllEntitiesAccepted(r, w.provider, t, b)
    && DynamicsAccepted(r, t.dynamics, b.dynamics, b.dynamicMask, w)
    && ImagesAccepted(r, w.provider, b.images)
    && AlbumsAccepted(r, w.provider, t.songs, Ids(r, w.provider, Items(b.songs), {SONG}), b.songs, b.songMask, b.songAlbums)
    && RelationsAccepted(r, w.provider, b.albumArtists, {ALBUM})
    && RelationsAccepted(r, w.provider, b.songArtists, {SONG})
  }

  /** The tables they leave. */
  ghost function Linked(r: Reg, t: Tables, b: Batch, w: Writer, items: seq<int>): Tables
    requires DynamicsWellFormed(t.dynamics) && LinkedAccepted(r, t, b, w)
  {
    var dynamics := WrittenDynamics(t.dynamics, Ids(r, w.provider, Items(b.dynamics), {}), b.dynamics, b.dynamicMask, w);
    WithEntities(r, w.provider, t, b).(
      albumOf := AlbumColumn(r, w.provider, t, Ids(r, w.provider, Items(b.songs), {SONG}), b.songs, b.songMask,
                             Ids(r, w.provider, SongRefs(b.songAlbums), {SONG}), b.songAlbums),
      dynamics := Defaulted(dynamics, items),
      images := WrittenImages(t.images, ImageKeys(Ids(r, w.provider, ImageRefs(b.images), {}), b.images), b.images),
      albumArtists := Related(t.albumArtists, Ids(r, w.provider, Owners(b.albumArtists), {ALBUM}), b.albumArtists,
                              Targets(r, w.provider, b.albumArtists)),
      songArtists := Related(t.songArtists, Ids(r, w.provider, Owners(b.songArtists), {SONG}), b.songArtists,
                             Targets(r, w.provider, b.songArtists)))
  }

  lemma StagesIffContents(r: Reg, t: Tables, b: Batch, w: Writer, items: seq<int>)
    requires DynamicsWellFormed(t.dynamics)
    ensures Stages(r, t, b, w) ==> LinkedAccepted(r, t, b, w)
    ensures LinkedAccepted(r, t, b, w) ==>
              (Stages(r, t, b, w) <==> ContentsAccepted(r, w.provider, b.contents, Linked(r, t, b, w, items)))
  {
    if LinkedAccepted(r, t, b, w) {
      ContentsSameKeys(r, w.provider, b, t, Linked(r, t, b, w, items));
    }
  }

  /** The tables the stages leave are the batch's tables. */
  lemma StagesAreFinal(r: Reg, t: Tables, b: Batch, w: Writer, items: seq<int>)
    requires DynamicsWellFormed(t.dynamics) && Stages(r, t, b, w)
    ensures LinkedAccepted(r, t, b, w) && Resolved(r, w.provider, b)
    ensures Final(r, t, b, PlanOf(r, w.provider, b), items, w) ==
            Replaced(Linked(r, t, b, w, items), Ids(r, w.provider, MixRefs(b.contents), {MIX, RADIO}),
                     Members(r, w.provider, b.contents))
  {
    StagesResolve(r, t, b, w);
  }

  /** Once the items are registered, a batch does what its stages do. */
  lemma ApplyIsStages(db: Store, b: Batch, w: Writer, r: Reg, items: seq<int>)
    requires DynamicsWellFormed(db.t.dynamics) && Admissible(b)
    requires Identify(db.reg, b, w.provider) == All(r, items)
    ensures Stages(r, db.t, b, w) <==> Apply(db, b, w).Some?
    ensures Stages(r, db.t, b, w) ==>
              && Resolved(r, w.provider, b)
              && Apply(db, b, w).value == Store(r, Final(r, db.t, b, PlanOf(r, w.provider, b), items, w))
  {
    StagesIffFine(r, db.t, b, w);
  }
}
