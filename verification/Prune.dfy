/** What a committed prune keeps. */
module Prune {
  import opened Catalogue
  import Retention

  /** One (library, item type) pair of a full-sync enumeration; the library is null for a global scope. */
  datatype Scope = Scope(library: Ref, itemType: int)

  /** What a sealed run knows when it prunes. */
  datatype Enumeration = Enumeration(
    provider: int,
    scopes: set<Scope>,
    seen: set<int>,
    libraries: set<int>,
    retained: set<int>)
  {
    predicate Prunes(id: int, item: Item) {
      item.provider == provider && Scope(item.library, item.kind) in scopes && id !in seen && id !in retained
    }

    /** The provider's libraries the enumeration did not come across. */
    function Lost(db: Db): set<int> {
      set l | l in db.libraries && db.libraries[l] == provider && l !in libraries
    }

    /** The item is not in a library that was lost. */
    predicate LibraryKept(item: Item) {
      item.provider == provider && item.library.To? ==> item.library.id in libraries
    }

    /** What keeps an item: its scope was not declared, or it was observed, or it is retained; and its
        library is not lost. */
    predicate Kept(id: int, item: Item) {
      && LibraryKept(item)
      && (item.provider == provider && Scope(item.library, item.kind) in scopes ==> id in seen || id in retained)
    }

    predicate Survives(db: Db, id: int) {
      && id in db.items
      && !Prunes(id, db.items[id])
      && (db.items[id].library.To? ==> db.items[id].library.id !in Lost(db))
    }

    function Result(db: Db): Db {
      db.Keep(set id | id in db.items && Survives(db, id)).(
        libraries := map l | l in db.libraries && l !in Lost(db) :: db.libraries[l])
    }

    /** Every declared library scope lies in an observed library. */
    ghost predicate Declared() {
      forall s :: s in scopes && s.library.To? ==> s.library.id in libraries
    }
  }

  /** An item of the provider survives iff its scope was not declared, or it was observed, or it is
      retained, and its library is null or observed; items of other providers are untouched. */
  lemma PruneIsExact(e: Enumeration, db: Db, id: int)
    requires db.Consistent() && id in db.items
    ensures db.items[id].provider == e.provider ==>
              (id in e.Result(db).items <==>
                && (Scope(db.items[id].library, db.items[id].kind) !in e.scopes || id in e.seen || id in e.retained)
                && (db.items[id].library.Null? || db.items[id].library.id in e.libraries))
    ensures db.items[id].provider != e.provider ==> id in e.Result(db).items
    ensures id in e.Result(db).items <==> e.Kept(id, db.items[id])
    ensures id in e.Result(db).items ==> e.Result(db).items[id] == db.items[id]
  {
  }

  /** Whatever was observed in a declared scope survives, because its library was observed too. */
  lemma ObservedSurvives(e: Enumeration, db: Db, id: int)
    requires db.Consistent() && e.Declared() && id in db.items && id in e.seen
    requires Scope(db.items[id].library, db.items[id].kind) in e.scopes
    ensures id in e.Result(db).items
  {
    PruneIsExact(e, db, id);
  }

  /** A song's own row survives iff the song is kept and its album is: pruning an unobserved album takes the
      rows of observed songs with it, although their items stay. */
  lemma SongRowSurvives(e: Enumeration, db: Db, s: int)
    requires db.Consistent() && s in db.songs
    ensures s in e.Result(db).songs <==>
              e.Kept(s, db.items[s]) && (db.songs[s].To? ==> e.Kept(db.songs[s].id, db.items[db.songs[s].id]))
    ensures s in e.Result(db).songs ==> e.Result(db).songs[s] == db.songs[s]
  {
    PruneIsExact(e, db, s);
    if db.songs[s].To? {
      assert db.songs[s].id in db.albums;
      PruneIsExact(e, db, db.songs[s].id);
    }
  }

  /** The rows of albums and artists stay with their items. */
  lemma EntityRowSurvives(e: Enumeration, db: Db, id: int)
    requires db.Consistent()
    ensures id in db.albums ==> (id in e.Result(db).albums <==> e.Kept(id, db.items[id]))
    ensures id in db.artists ==> (id in e.Result(db).artists <==> e.Kept(id, db.items[id]))
  {
    if id in db.items { PruneIsExact(e, db, id); }
  }

  /** A credit survives iff the row of its work and that of its artist do. */
  lemma CreditSurvives(e: Enumeration, db: Db, p: Credit)
    requires db.Consistent()
    ensures p in db.songArtists ==>
              (p in e.Result(db).songArtists <==> p.work in e.Result(db).songs && e.Kept(p.artist, db.items[p.artist]))
    ensures p in db.albumArtists ==>
              (p in e.Result(db).albumArtists <==>
               e.Kept(p.work, db.items[p.work]) && e.Kept(p.artist, db.items[p.artist]))
  {
    if p in db.songArtists {
      assert p.artist in db.artists && p.artist in db.items;
      PruneIsExact(e, db, p.artist);
    }
    if p in db.albumArtists {
      assert p.artist in db.artists && p.artist in db.items && p.work in db.albums && p.work in db.items;
      PruneIsExact(e, db, p.artist);
      PruneIsExact(e, db, p.work);
    }
  }

  /** Dynamic rows, images and remote mixes stay or go with their item, whatever becomes of its other rows. */
  lemma AnnotationSurvives(e: Enumeration, db: Db, id: int)
    requires db.Consistent()
    ensures id in db.dynamics ==> (id in e.Result(db).dynamics <==> e.Kept(id, db.items[id]))
    ensures id in db.remotes ==> (id in e.Result(db).remotes <==> e.Kept(id, db.items[id]))
    ensures forall p :: p in db.pictures && p.item == id ==> (p in e.Result(db).pictures <==> e.Kept(id, db.items[id]))
  {
    if id in db.items { PruneIsExact(e, db, id); }
  }

  /** A local mix survives iff it caches no remote mix, or one that is kept; its entries survive iff, besides,
      their song's row does. */
  lemma MixSurvives(e: Enumeration, db: Db, m: int)
    requires db.Consistent() && m in db.mixes
    ensures m in e.Result(db).mixes <==>
              (db.mixes[m].To? ==> e.Kept(db.mixes[m].id, db.items[db.mixes[m].id]))
    ensures m in e.Result(db).mixes ==> e.Result(db).mixes[m] == db.mixes[m]
    ensures forall x :: x in db.entries && x.mix == m ==>
              (x in e.Result(db).entries <==> m in e.Result(db).mixes && x.song in e.Result(db).songs)
  {
    if db.mixes[m].To? {
      assert db.mixes[m].id in db.remotes;
      PruneIsExact(e, db, db.mixes[m].id);
    }
  }

  /** A library survives iff it belongs to another provider or was observed, and nothing new appears. */
  lemma LibrarySurvives(e: Enumeration, db: Db, l: int)
    requires l in db.libraries
    ensures l in e.Result(db).libraries <==> db.libraries[l] != e.provider || l in e.libraries
    ensures l in e.Result(db).libraries ==> e.Result(db).libraries[l] == db.libraries[l]
  {
  }

  /** A prune adds no row to any table. */
  lemma PruneOnlyRemoves(e: Enumeration, db: Db)
    ensures var d := e.Result(db);
            && d.items.Keys <= db.items.Keys && d.libraries.Keys <= db.libraries.Keys
            && d.songs.Keys <= db.songs.Keys && d.mixes.Keys <= db.mixes.Keys
            && d.albums <= db.albums && d.artists <= db.artists && d.remotes <= db.remotes
            && d.songArtists <= db.songArtists && d.albumArtists <= db.albumArtists
            && d.entries <= db.entries && d.dynamics <= db.dynamics && d.pictures <= db.pictures
  {
  }

  /** An observed song can lose its row this way, while its dynamic row stays. */
  lemma ObservedSongCanLoseItsRow() returns (e: Enumeration, db: Db)
    ensures db.Consistent() && e.Declared() && 1 in db.songs && 1 in e.seen
    ensures 1 in e.Result(db).items && 1 !in e.Result(db).songs
    ensures 1 in db.dynamics && 1 in e.Result(db).dynamics
  {
    db := Db(map[1 := Item(7, To(3), SONG), 2 := Item(7, To(3), ALBUM)], map[3 := 7],
             {2}, {}, map[1 := To(2)], {}, map[], {}, {}, {}, {1}, {});
    e := Enumeration(7, {Scope(To(3), SONG), Scope(To(3), ALBUM)}, {1}, {3}, {});
    assert 2 !in e.Result(db).items;
  }

  // --- Leases ---

  /** An item of a lease survives iff its library is not lost, whatever became of the rows around it. */
  lemma LeasedItemSurvivesIff(e: Enumeration, db: Db, lease: set<int>, id: int)
    requires db.Consistent() && lease <= e.retained && id in lease && id in db.items
    ensures id in e.Result(db).items <==> e.LibraryKept(db.items[id])
    ensures id in e.Result(db).items ==> e.Result(db).items[id] == db.items[id]
  {
    PruneIsExact(e, db, id);
  }

  /** A leased song keeps its row iff its library is not lost and its present album is kept. */
  lemma LeasedSongSurvivesIff(e: Enumeration, db: Db, lease: set<int>, s: int)
    requires db.Consistent() && lease <= e.retained && s in lease && s in db.songs
    ensures s in e.Result(db).songs <==>
              && e.LibraryKept(db.items[s])
              && (db.songs[s].To? ==> e.Kept(db.songs[s].id, db.items[db.songs[s].id]))
    ensures s in e.Result(db).songs ==> e.Result(db).songs[s] == db.songs[s]
  {
    SongRowSurvives(e, db, s);
  }

  /** While a lease is still closed over the present rows, lost libraries are all that can take anything. */
  lemma ClosedLeaseSurvivesIff(e: Enumeration, db: Db, lease: set<int>, id: int)
    requires db.Consistent() && Retention.Closed(db, lease) && lease <= e.retained && id in lease
    ensures id in db.albums ==> (id in e.Result(db).albums <==> e.LibraryKept(db.items[id]))
    ensures id in db.artists ==> (id in e.Result(db).artists <==> e.LibraryKept(db.items[id]))
    ensures id in db.songs ==>
              (id in e.Result(db).songs <==>
               && e.LibraryKept(db.items[id])
               && (db.songs[id].To? ==> e.LibraryKept(db.items[db.songs[id].id])))
    ensures forall p :: p in db.songArtists && p.work == id ==>
              (p in e.Result(db).songArtists <==> id in e.Result(db).songs && e.LibraryKept(db.items[p.artist]))
    ensures forall p :: p in db.albumArtists && p.work == id ==>
              (p in e.Result(db).albumArtists <==> id in e.Result(db).albums && e.LibraryKept(db.items[p.artist]))
  {
    EntityRowSurvives(e, db, id);
    if id in db.songs { SongRowSurvives(e, db, id); }
    forall p | p in db.songArtists && p.work == id
      ensures p in e.Result(db).songArtists <==> id in e.Result(db).songs && e.LibraryKept(db.items[p.artist])
    {
      CreditSurvives(e, db, p);
    }
    forall p | p in db.albumArtists && p.work == id
      ensures p in e.Result(db).albumArtists <==> id in e.Result(db).albums && e.LibraryKept(db.items[p.artist])
    {
      CreditSurvives(e, db, p);
    }
  }

  /** A leased song that was moved to another album after the grant can lose its row with that album. */
  lemma MovedSongCanLoseItsRow() returns (e: Enumeration, granted: Db, db: Db)
    ensures granted.Consistent() && db.Consistent() && db == granted.(songs := db.songs)
    ensures e.Declared() && Retention.Cover(granted, {1}) <= e.retained && 1 in db.songs
    ensures e.LibraryKept(db.items[1]) && 1 !in e.Result(db).songs
  {
    granted := Db(map[1 := Item(7, To(3), SONG), 2 := Item(7, To(3), ALBUM)], map[3 := 7],
                  {2}, {}, map[1 := Null], {}, map[], {}, {}, {}, {}, {});
    db := granted.(songs := map[1 := To(2)]);
    e := Enumeration(7, {Scope(To(3), SONG), Scope(To(3), ALBUM)}, {}, {3}, {1});
    assert 2 !in e.Result(db).items;
  }

  /** A retained item does go when its library was not observed. */
  lemma UnobservedLibraryTakesRetained(e: Enumeration, db: Db, id: int)
    requires db.Consistent() && id in db.items && db.items[id].provider == e.provider
    requires db.items[id].library.To? && db.items[id].library.id !in e.libraries
    ensures id !in e.Result(db).items
  {
    PruneIsExact(e, db, id);
  }

  /** Pruning is idempotent: a second prune with the same knowledge finds nothing. */
  lemma PruneTwice(e: Enumeration, db: Db)
    requires db.Consistent()
    ensures e.Result(db).Consistent() && e.Result(e.Result(db)) == e.Result(db)
  {
    var d := e.Result(db);
    KeepConsistent(db, set id | id in db.items && e.Survives(db, id));
    forall id | id in d.items ensures e.Survives(d, id) {
      PruneIsExact(e, db, id);
    }
    assert d.Consistent();
    assert (set id | id in d.items && e.Survives(d, id)) == d.items.Keys;
    KeepAll(d);
    assert forall l :: l in d.libraries ==> l !in e.Lost(d);
    assert (map l | l in d.libraries && l !in e.Lost(d) :: d.libraries[l]) == d.libraries;
  }

  // --- The two deletion passes ---

  /** What the pass over the provider's items leaves. */
  function Spared(e: Enumeration, db: Db): set<int> {
    set id | id in db.items && !e.Prunes(id, db.items[id])
  }

  /** `db` after the rows of the libraries `gone` were deleted. */
  function WithoutLibraries(db: Db, gone: set<int>): Db {
    db.Keep(set id | id in db.items && (db.items[id].library.To? ==> db.items[id].library.id !in gone)).(
      libraries := db.libraries - gone)
  }

  /** The explicit deletion of a remote mix's local rows is what its item's cascade does anyway. */
  lemma MixesGoAnyway(db: Db, id: int)
    requires id in db.items
    ensures db.DeleteMixesOf(id).DeleteItem(id) == db.DeleteItem(id)
  {
    SameRows(db.DeleteMixesOf(id).DeleteItem(id), db.DeleteItem(id));
  }

  /** One more item deleted. */
  lemma ItemPassStep(db: Db, gone: set<int>, id: int)
    requires db.Consistent() && id in db.items
    ensures db.Keep(db.items.Keys - gone).DeleteItem(id) == db.Keep(db.items.Keys - (gone + {id}))
  {
    var d := db.Keep(db.items.Keys - gone);
    KeepConsistent(db, db.items.Keys - gone);
    DeleteItemKeeps(d, id);
    KeepTwice(db, db.items.Keys - gone, d.items.Keys - {id});
    KeepOnly(db, (db.items.Keys - gone) * (d.items.Keys - {id}), db.items.Keys - (gone + {id}));
  }

  /** One more library deleted. */
  lemma LibraryPassStep(db: Db, gone: set<int>, l: int)
    requires db.Consistent()
    ensures WithoutLibraries(db, gone).DeleteLibrary(l) == WithoutLibraries(db, gone + {l})
  {
    var kept := set id | id in db.items && (db.items[id].library.To? ==> db.items[id].library.id !in gone);
    var kept' := set id | id in db.items && (db.items[id].library.To? ==> db.items[id].library.id !in gone + {l});
    var d := WithoutLibraries(db, gone);
    var rest := d.items.Keys - d.ItemsOfLibrary(l);
    KeepTwice(db, kept, rest);
    assert d.Keep(rest) == db.Keep(kept).Keep(rest).(libraries := d.libraries);
    KeepOnly(db, kept * rest, kept');
    assert (db.libraries - gone) - {l} == db.libraries - (gone + {l});
  }

  /** Both passes together are the result. */
  lemma PassesCompose(e: Enumeration, db: Db)
    requires db.Consistent()
    ensures WithoutLibraries(db.Keep(Spared(e, db)), e.Lost(db)) == e.Result(db)
  {
    var d := db.Keep(Spared(e, db));
    var kept := set id | id in d.items && (d.items[id].library.To? ==> d.items[id].library.id !in e.Lost(db));
    KeepTwice(db, Spared(e, db), kept);
    KeepOnly(db, Spared(e, db) * kept, set id | id in db.items && e.Survives(db, id));
    var left := map l | l in db.libraries && l !in e.Lost(db) :: db.libraries[l];
    assert forall l :: l in left <==> l in db.libraries - e.Lost(db);
    assert left == db.libraries - e.Lost(db);
  }
}
