/** The tables a batch writes, stage by stage, as functions of the old rows and the resolved ids. */
module BatchTables {
  import opened Options
  import opened Catalogue
  import opened BatchInput
  import opened Registry

  datatype CacheMix = CacheMix(name: Value, description: Value, trackCount: Value)

  datatype ImageKey = ImageKey(item: int, imageType: int)

  datatype Image = Image(native: Value, freshness: Value)

  /** `albumOf` is the album column of the song rows; mixes and their ordered contents are keyed by the
      remote mix they cache. Timestamps of modification and surrogate row ids are not part of the rows. */
  datatype Tables = Tables(
    albums: map<int, Fields>,
    artists: map<int, Fields>,
    songs: map<int, Fields>,
    remotes: map<int, Fields>,
    albumOf: map<int, Ref>,
    mixes: map<int, CacheMix>,
    contents: map<int, seq<int>>,
    dynamics: map<int, Fields>,
    images: map<ImageKey, Image>,
    albumArtists: set<Credit>,
    songArtists: set<Credit>)

  /** On whose behalf a batch is written, when, and which favourites changed after the run began. */
  datatype Writer = Writer(provider: int, now: int, changed: iset<int>)

  // --- Resolved ids ---

  predicate AllResolve(r: Reg, provider: int, refs: seq<ItemRef>, types: set<int>) {
    forall i :: 0 <= i < |refs| ==> Resolve(r, provider, refs[i], types).To?
  }

  function Ids(r: Reg, provider: int, refs: seq<ItemRef>, types: set<int>): seq<int>
    requires AllResolve(r, provider, refs, types)
  {
    seq(|refs|, i requires 0 <= i < |refs| => Resolve(r, provider, refs[i], types).id)
  }

  function Items(es: seq<Input>): seq<ItemRef> {
    seq(|es|, i requires 0 <= i < |es| => es[i].item)
  }

  // --- Entity rows ---

  function RowOf(was: map<int, Fields>, id: int, initial: Fields): Fields {
    if id in was then was[id] else initial
  }

  function Written(was: map<int, Fields>, ids: seq<int>, es: seq<Input>, initial: Fields, mask: Mask): map<int, Fields>
    requires |ids| == |es|
  {
    map id | id in was.Keys + (set x | x in ids) ::
      if id in ids then Patched(es[IndexOf(ids, id)], RowOf(was, id, initial), id !in was, mask) else was[id]
  }

  predicate RowsOk(table: map<int, Fields>, ids: seq<int>, quantities: seq<string>) {
    forall id :: id in ids ==> id in table && Accepted(table[id], quantities)
  }

  lemma WrittenTwice(was: map<int, Fields>, ids: seq<int>, es: seq<Input>, initial: Fields, mask: Mask)
    requires |ids| == |es|
    ensures var once := Written(was, ids, es, initial, mask); Written(once, ids, es, initial, mask) == once
  {
    var once := Written(was, ids, es, initial, mask);
    var twice := Written(once, ids, es, initial, mask);
    assert forall id :: id in once <==> id in twice;
    forall id | id in once ensures twice[id] == once[id] {
      if id in ids {
        PatchedTwice(es[IndexOf(ids, id)], RowOf(was, id, initial), id !in was, mask);
      }
    }
    assert once == twice;
  }

  // --- Remote mixes and the local mixes that cache them ---

  function Cached(mixes: map<int, CacheMix>, remotes: map<int, Fields>, ids: seq<int>): map<int, CacheMix> {
    map m | m in mixes.Keys + (set x | x in ids) ::
      if m in ids then CacheOf(RowOf(remotes, m, REMOTE_ROW)) else mixes[m]
  }

  function CacheOf(row: Fields): CacheMix {
    CacheMix(FieldOf(row, "name"), OrEmpty(FieldOf(row, "description")), FieldOf(row, "track_count"))
  }

  function FieldOf(row: Fields, name: string): Value {
    if name in row then row[name] else Nil
  }

  function OrEmpty(v: Value): Value {
    if v.Nil? then Text("") else v
  }

  predicate CountedRow(row: Fields) {
    "name" in row && "description" in row && "track_count" in row
  }

  /** The track counts follow the replaced contents. */
  function CountedRemotes(remotes: map<int, Fields>, mixes: seq<int>, songs: seq<seq<int>>): map<int, Fields>
    requires |mixes| == |songs|
  {
    map r | r in remotes ::
      if r in mixes then remotes[r]["track_count" := Number(|songs[IndexOf(mixes, r)]|)] else remotes[r]
  }

  function CountedMixes(cached: map<int, CacheMix>, mixes: seq<int>, songs: seq<seq<int>>): map<int, CacheMix>
    requires |mixes| == |songs|
  {
    map m | m in cached ::
      if m in mixes then cached[m].(trackCount := Number(|songs[IndexOf(mixes, m)]|)) else cached[m]
  }

  function Contents(was: map<int, seq<int>>, mixes: seq<int>, songs: seq<seq<int>>): map<int, seq<int>>
    requires |mixes| == |songs|
  {
    map m | m in was.Keys + (set x | x in mixes) :: if m in mixes then songs[IndexOf(mixes, m)] else was[m]
  }

  lemma RemoteKeysTwice(was: map<int, Fields>, ids: seq<int>, es: seq<Input>, mask: Mask,
                        mixes: seq<int>, songs: seq<seq<int>>)
    requires |ids| == |es| && |mixes| == |songs|
    ensures var once := CountedRemotes(Written(was, ids, es, REMOTE_ROW, mask), mixes, songs);
            forall id :: id in once <==> id in CountedRemotes(Written(once, ids, es, REMOTE_ROW, mask), mixes, songs)
  {
  }

  lemma RemoteTwiceAt(was: map<int, Fields>, ids: seq<int>, es: seq<Input>, mask: Mask,
                      mixes: seq<int>, songs: seq<seq<int>>, id: int)
    requires |ids| == |es| && |mixes| == |songs|
    requires forall x :: x in was ==> CountedRow(was[x])
    requires id in Written(was, ids, es, REMOTE_ROW, mask)
    ensures var once := CountedRemotes(Written(was, ids, es, REMOTE_ROW, mask), mixes, songs);
            && id in once && id in Written(once, ids, es, REMOTE_ROW, mask)
            && CountedRemotes(Written(once, ids, es, REMOTE_ROW, mask), mixes, songs)[id] == once[id]
  {
    if id in ids {
      var e := es[IndexOf(ids, id)];
      var row := RowOf(was, id, REMOTE_ROW);
      if id in mixes {
        PatchedAfterChange(e, row, id !in was, mask, "track_count", Number(|songs[IndexOf(mixes, id)]|));
      } else {
        PatchedTwice(e, row, id !in was, mask);
      }
    } else if id in mixes {
      var v := Number(|songs[IndexOf(mixes, id)]|);
      assert was[id]["track_count" := v]["track_count" := v] == was[id]["track_count" := v];
    }
  }

  /** Rewriting remote mixes and then their contents settles after the first time: the patches may reset
      the track counts, the contents set them again. */
  lemma RemotesTwice(was: map<int, Fields>, ids: seq<int>, es: seq<Input>, mask: Mask,
                     mixes: seq<int>, songs: seq<seq<int>>)
    requires |ids| == |es| && |mixes| == |songs|
    requires forall id :: id in was ==> CountedRow(was[id])
    ensures var once := CountedRemotes(Written(was, ids, es, REMOTE_ROW, mask), mixes, songs);
            CountedRemotes(Written(once, ids, es, REMOTE_ROW, mask), mixes, songs) == once
  {
    var once := CountedRemotes(Written(was, ids, es, REMOTE_ROW, mask), mixes, songs);
    var twice := CountedRemotes(Written(once, ids, es, REMOTE_ROW, mask), mixes, songs);
    RemoteKeysTwice(was, ids, es, mask, mixes, songs);
    forall id | id in once ensures twice[id] == once[id] {
      RemoteTwiceAt(was, ids, es, mask, mixes, songs, id);
    }
    assert forall id :: id in once <==> id in twice;
    assert once == twice;
  }

  /** A remote mix row that was accepted once, counted, and patched again, is accepted again, and caches
      the same name and description. */
  lemma RemoteRowAgain(e: Input, row: Fields, inserted: bool, mask: Mask, v: Value)
    requires CountedRow(row)
    ensures var first := Patched(e, row, inserted, mask);
            var second := Patched(e, first["track_count" := v], false, mask);
            && (Accepted(first, ["track_count"]) && v.Number? && v.n >= 0 ==> Accepted(second, ["track_count"]))
            && CacheOf(second).(trackCount := v) == CacheOf(first).(trackCount := v)
  {
    var first := Patched(e, row, inserted, mask);
    var second := Patched(e, first["track_count" := v], false, mask);
    PatchedAfterChange(e, row, inserted, mask, "track_count", v);
    assert second["track_count" := v]["name"] == first["track_count" := v]["name"];
    assert second["track_count" := v]["description"] == first["track_count" := v]["description"];
    if Accepted(first, ["track_count"]) {
      assert "track_count" in ["track_count"];
      assert Quantity(first, "track_count");
    }
  }

  /** The rows `ids` cache the same local mixes, up to track counts that contents set anyway. */
  ghost predicate SameCache(first: map<int, Fields>, second: map<int, Fields>, ids: seq<int>, mixes: seq<int>) {
    forall m :: m in ids ==>
      var a, b := CacheOf(RowOf(first, m, REMOTE_ROW)), CacheOf(RowOf(second, m, REMOTE_ROW));
      a.(trackCount := Nil) == b.(trackCount := Nil) && (m !in mixes ==> a == b)
  }

  lemma RemotesAcceptedAgain(was: map<int, Fields>, ids: seq<int>, es: seq<Input>, mask: Mask,
                             mixes: seq<int>, songs: seq<seq<int>>)
    requires |ids| == |es| && |mixes| == |songs|
    requires forall id :: id in was ==> CountedRow(was[id])
    requires RowsOk(Written(was, ids, es, REMOTE_ROW, mask), ids, ["track_count"])
    ensures var first := Written(was, ids, es, REMOTE_ROW, mask);
            var second := Written(CountedRemotes(first, mixes, songs), ids, es, REMOTE_ROW, mask);
            RowsOk(second, ids, ["track_count"]) && SameCache(first, second, ids, mixes)
  {
    var first := Written(was, ids, es, REMOTE_ROW, mask);
    var once := CountedRemotes(first, mixes, songs);
    var second := Written(once, ids, es, REMOTE_ROW, mask);
    forall id | id in ids
      ensures id in second && Accepted(second[id], ["track_count"])
      ensures CacheOf(first[id]).(trackCount := Nil) == CacheOf(second[id]).(trackCount := Nil)
      ensures id !in mixes ==> first[id] == second[id]
    {
      var e := es[IndexOf(ids, id)];
      var row := RowOf(was, id, REMOTE_ROW);
      assert Accepted(first[id], ["track_count"]);
      if id in mixes {
        RemoteRowAgain(e, row, id !in was, mask, Number(|songs[IndexOf(mixes, id)]|));
      } else {
        PatchedTwice(e, row, id !in was, mask);
      }
    }
  }

  lemma MixesTwice(mixes: map<int, CacheMix>, first: map<int, Fields>, second: map<int, Fields>, ids: seq<int>,
                   contentMixes: seq<int>, songs: seq<seq<int>>)
    requires |contentMixes| == |songs| && SameCache(first, second, ids, contentMixes)
    ensures var once := CountedMixes(Cached(mixes, first, ids), contentMixes, songs);
            CountedMixes(Cached(once, second, ids), contentMixes, songs) == once
  {
    var once := CountedMixes(Cached(mixes, first, ids), contentMixes, songs);
    var twice := CountedMixes(Cached(once, second, ids), contentMixes, songs);
    assert forall m :: m in once <==> m in twice;
    assert forall m :: m in once ==> twice[m] == once[m];
    assert once == twice;
  }

  lemma ContentsTwice(was: map<int, seq<int>>, mixes: seq<int>, songs: seq<seq<int>>)
    requires |mixes| == |songs|
    ensures Contents(Contents(was, mixes, songs), mixes, songs) == Contents(was, mixes, songs)
  {
    var once := Contents(was, mixes, songs);
    var twice := Contents(once, mixes, songs);
    assert forall m :: m in once <==> m in twice;
    assert once == twice;
  }

  // --- Dynamics ---

  /** The favourite mark of a dynamic row, before the patches: set keeps the older mark. */
  function Marked(e: Input, row: Fields, inserted: bool, mask: Mask, now: int): Fields
    requires "favorite_at" in row
  {
    if e.favorite.SetFavorite? && (inserted || mask.Allows("favorite")) then
      row["favorite_at" :=
          if !e.favorite.value then Nil else if row["favorite_at"].Nil? then Time(now) else row["favorite_at"]]
    else row
  }

  /** The new dynamic row; a favourite that changed after the run began keeps its stored mark. */
  function DynamicRow(e: Input, row: Fields, inserted: bool, mask: Mask, now: int, changed: bool): Fields
    requires "favorite_at" in row
  {
    var patched := Patched(e, Marked(e, row, inserted, mask, now), inserted, mask);
    if changed then patched["favorite_at" := row["favorite_at"]] else patched
  }

  predicate DynamicOk(e: Input) {
    e.favorite.SetFavorite? ==> "favorite_at" !in e.fields
  }

  /** One entry is accepted: no conflicting marks, and a play count that is not negative afterwards. */
  predicate DynamicEntryOk(was: map<int, Fields>, id: int, e: Input, mask: Mask, w: Writer)
    requires id in was ==> "favorite_at" in was[id]
  {
    && DynamicOk(e)
    && Quantity(DynamicRow(e, RowOf(was, id, DYNAMIC_ROW), id !in was, mask, w.now, id in w.changed), "remote_play_count")
  }

  ghost predicate DynamicsWellFormed(table: map<int, Fields>) {
    forall id :: id in table ==> "favorite_at" in table[id]
  }

  function WrittenDynamics(was: map<int, Fields>, ids: seq<int>, es: seq<Input>, mask: Mask, w: Writer): map<int, Fields>
    requires |ids| == |es| && DynamicsWellFormed(was)
  {
    map id | id in was.Keys + (set x | x in ids) ::
      if id in ids
      then DynamicRow(es[IndexOf(ids, id)], RowOf(was, id, DYNAMIC_ROW), id !in was, mask, w.now, id in w.changed)
      else was[id]
  }

  /** Every allocated item gets a dynamic row. */
  function Defaulted(table: map<int, Fields>, items: seq<int>): map<int, Fields> {
    map id | id in table.Keys + (set x | x in items) :: if id in table then table[id] else DYNAMIC_ROW
  }

  /** Whether writing `e` a second time leaves the favourite of a row that `e` inserted as it is. */
  predicate SettlesFavorite(e: Input, mask: Mask) {
    e.favorite.SetFavorite? && "favorite_at" in e.onInsert && mask.Allows("favorite") ==>
      (e.favorite.value <==> !e.onInsert["favorite_at"].Nil?)
  }

  /** A mark set locally after the run began is never overwritten, whatever the batch says. */
  lemma LocalFavoriteKept(was: map<int, Fields>, ids: seq<int>, es: seq<Input>, mask: Mask, w: Writer, id: int)
    requires |ids| == |es| && DynamicsWellFormed(was) && id in was && id in w.changed
    ensures id in WrittenDynamics(was, ids, es, mask, w)
    ensures "favorite_at" in WrittenDynamics(was, ids, es, mask, w)[id]
    ensures WrittenDynamics(was, ids, es, mask, w)[id]["favorite_at"] == was[id]["favorite_at"]
  {
  }

  /** Writing the same dynamic input again, later, keeps the row exactly if the input settles. */
  lemma DynamicRowTwice(e: Input, row: Fields, inserted: bool, mask: Mask, now: int, later: int, changed: bool)
    requires "favorite_at" in row && DynamicOk(e)
    requires inserted ==> row == DYNAMIC_ROW
    ensures var once := DynamicRow(e, row, inserted, mask, now, changed);
            var twice := DynamicRow(e, once, false, mask, later, changed);
            && twice.Keys == once.Keys == row.Keys
            && (forall f :: f in once && f != "favorite_at" ==> twice[f] == once[f])
            && (twice == once <==> !inserted || changed || SettlesFavorite(e, mask))
  {
    var once := DynamicRow(e, row, inserted, mask, now, changed);
    var twice := DynamicRow(e, once, false, mask, later, changed);
    assert forall f :: f in once <==> f in row;
    assert forall f :: f in once <==> f in twice;
    assert forall f :: f in once && f != "favorite_at" ==> twice[f] == once[f];
    if !inserted || changed || SettlesFavorite(e, mask) {
      assert twice["favorite_at"] == once["favorite_at"];
      assert forall f :: f in once ==> twice[f] == once[f];
      assert twice == once;
    } else {
      assert twice["favorite_at"] != once["favorite_at"];
    }
  }

  lemma WrittenWellFormed(was: map<int, Fields>, ids: seq<int>, es: seq<Input>, mask: Mask, w: Writer, items: seq<int>)
    requires |ids| == |es| && DynamicsWellFormed(was)
    ensures DynamicsWellFormed(Defaulted(WrittenDynamics(was, ids, es, mask, w), items))
  {
    var t1 := Defaulted(WrittenDynamics(was, ids, es, mask, w), items);
    forall id | id in t1 ensures "favorite_at" in t1[id] {
      if id in ids {
        assert "favorite_at" in RowOf(was, id, DYNAMIC_ROW);
      }
    }
  }

  /** One entry of a replayed batch: accepted again, and unchanged exactly if it settles. */
  lemma DynamicAgainAt(was: map<int, Fields>, ids: seq<int>, es: seq<Input>, mask: Mask, items: seq<int>,
                       w: Writer, later: Writer, i: nat)
    requires |ids| == |es| && i < |ids| && Distinct(ids) && DynamicOk(es[i]) && DynamicsWellFormed(was)
    requires later.changed == w.changed
    ensures var t1 := Defaulted(WrittenDynamics(was, ids, es, mask, w), items);
            && DynamicsWellFormed(t1)
            && var again := WrittenDynamics(t1, ids, es, mask, later);
               var id := ids[i];
               && id in again && id in t1
               && (DynamicEntryOk(was, id, es[i], mask, w) ==> DynamicEntryOk(t1, id, es[i], mask, later))
               && (again[id] == t1[id] <==> id in was || id in w.changed || SettlesFavorite(es[i], mask))
  {
    var id := ids[i];
    IndexOfDistinct(ids, i);
    DynamicRowTwice(es[i], RowOf(was, id, DYNAMIC_ROW), id !in was, mask, w.now, later.now, id in w.changed);
  }

  ghost predicate SameRow(a: map<int, Fields>, b: map<int, Fields>, id: int) {
    id in a && id in b && a[id] == b[id]
  }

  /** Two tables agree if they agree on the ids that were written. */
  lemma AgainIffEach(t: map<int, Fields>, again: map<int, Fields>, ids: seq<int>, items: seq<int>)
    requires forall id :: id in again <==> id in t
    requires forall id :: id in items || id in ids ==> id in t
    requires forall id :: id in t && id !in ids ==> SameRow(again, t, id)
    ensures Defaulted(again, items) == t <==> forall i :: 0 <= i < |ids| ==> SameRow(again, t, ids[i])
  {
    var d := Defaulted(again, items);
    assert forall id :: id in d <==> id in t;
    if forall i :: 0 <= i < |ids| ==> SameRow(again, t, ids[i]) {
      forall id | id in d ensures d[id] == t[id] {
        if id in ids {
          assert SameRow(again, t, ids[IndexOf(ids, id)]);
        } else {
          assert SameRow(again, t, id);
        }
      }
      assert d == t;
    } else {
      var i :| 0 <= i < |ids| && !SameRow(again, t, ids[i]);
      assert d[ids[i]] != t[ids[i]];
    }
  }

  /** A replayed dynamics stage leaves the table as it is exactly if every entry settles. */
  lemma DynamicsTwice(was: map<int, Fields>, ids: seq<int>, es: seq<Input>, mask: Mask, items: seq<int>,
                      w: Writer, later: Writer)
    requires |ids| == |es| && Distinct(ids) && DynamicsWellFormed(was) && later.changed == w.changed
    requires forall i :: 0 <= i < |es| ==> DynamicOk(es[i])
    ensures var t1 := Defaulted(WrittenDynamics(was, ids, es, mask, w), items);
            && DynamicsWellFormed(t1)
            && var again := WrittenDynamics(t1, ids, es, mask, later);
               && (forall i :: 0 <= i < |ids| && DynamicEntryOk(was, ids[i], es[i], mask, w) ==>
                     DynamicEntryOk(t1, ids[i], es[i], mask, later))
               && (Defaulted(again, items) == t1 <==>
                   forall i :: 0 <= i < |ids| ==> ids[i] in was || ids[i] in w.changed || SettlesFavorite(es[i], mask))
  {
    WrittenWellFormed(was, ids, es, mask, w, items);
    var t1 := Defaulted(WrittenDynamics(was, ids, es, mask, w), items);
    var again := WrittenDynamics(t1, ids, es, mask, later);
    forall i | 0 <= i < |ids|
      ensures ids[i] in again && ids[i] in t1
      ensures DynamicEntryOk(was, ids[i], es[i], mask, w) ==> DynamicEntryOk(t1, ids[i], es[i], mask, later)
      ensures SameRow(again, t1, ids[i]) <==> ids[i] in was || ids[i] in w.changed || SettlesFavorite(es[i], mask)
    {
      DynamicAgainAt(was, ids, es, mask, items, w, later, i);
    }
    assert forall id :: id in again <==> id in t1;
    AgainIffEach(t1, again, ids, items);
  }

  // --- Images ---

  function ImageKeys(ids: seq<int>, es: seq<ImageInput>): seq<ImageKey>
    requires |ids| == |es|
  {
    seq(|es|, i requires 0 <= i < |es| => ImageKey(ids[i], es[i].imageType))
  }

  function ImageRow(e: ImageInput, row: Image): Image {
    Image(if e.native.Set? then e.native.value else row.native,
          if e.freshness.Set? then e.freshness.value else row.freshness)
  }

  function WrittenImages(was: map<ImageKey, Image>, ks: seq<ImageKey>, es: seq<ImageInput>): map<ImageKey, Image>
    requires |ks| == |es|
  {
    map k | k in was.Keys + (set x | x in ks) && (k in ks ==> !es[IndexOf(ks, k)].remove) ::
      if k in ks then ImageRow(es[IndexOf(ks, k)], if k in was then was[k] else Image(Nil, Text(""))) else was[k]
  }

  lemma ImagesTwice(was: map<ImageKey, Image>, ks: seq<ImageKey>, es: seq<ImageInput>)
    requires |ks| == |es|
    ensures WrittenImages(WrittenImages(was, ks, es), ks, es) == WrittenImages(was, ks, es)
  {
    var once := WrittenImages(was, ks, es);
    var twice := WrittenImages(once, ks, es);
    assert forall k :: k in once <==> k in twice;
    assert forall k :: k in once ==> once[k] == twice[k];
    assert once == twice;
  }

  // --- Relations ---

  function Related(was: set<Credit>, owners: seq<int>, es: seq<RelationInput>, targets: seq<seq<int>>): set<Credit>
    requires |owners| == |es| == |targets|
  {
    (set c | c in was && !(c.work in owners && es[IndexOf(owners, c.work)].mode.Replace?))
    + (set i, j | 0 <= i < |targets| && 0 <= j < |targets[i]| :: Credit(owners[i], targets[i][j]))
  }

  lemma RelatedTwice(was: set<Credit>, owners: seq<int>, es: seq<RelationInput>, targets: seq<seq<int>>)
    requires |owners| == |es| == |targets|
    ensures var once := Related(was, owners, es, targets); Related(once, owners, es, targets) == once
  {
    var once := Related(was, owners, es, targets);
    var twice := Related(once, owners, es, targets);
    forall c ensures c in once <==> c in twice {
    }
    assert once == twice;
  }

  /** Replace leaves an owner with exactly the given targets, merge only adds them, and the relations of
      other owners stay. */
  lemma RelatedExact(was: set<Credit>, owners: seq<int>, es: seq<RelationInput>, targets: seq<seq<int>>, c: Credit)
    requires |owners| == |es| == |targets| && Distinct(owners)
    ensures c in Related(was, owners, es, targets) <==>
              if c.work in owners then
                var i := IndexOf(owners, c.work);
                c.artist in targets[i] || (es[i].mode.Merge? && c in was)
              else c in was
  {
    if c.work in owners {
      var i := IndexOf(owners, c.work);
      if j :| 0 <= j < |targets[i]| && targets[i][j] == c.artist {
        assert Credit(owners[i], targets[i][j]) == c;
      }
      forall k, j | 0 <= k < |targets| && 0 <= j < |targets[k]| && Credit(owners[k], targets[k][j]) == c ensures k == i {
      }
    }
  }
}
