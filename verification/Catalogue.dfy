/** The rows that a prune can reach: items, the rows that extend or annotate them, local mixes with their
    entries, and the foreign keys between them, all of which cascade on deletion. */
module Catalogue {
  // Item type codes.
  const PROVIDER := 1
  const LIBRARY := 2
  const ALBUM := 51
  const ALBUM_ARTIST := 52
  const ARTIST := 53
  const MIX := 54
  const RADIO := 55
  const SONG := 101
  const PROGRAM := 102

  predicate KnownType(code: int) {
    code in {0, PROVIDER, LIBRARY, ALBUM, ALBUM_ARTIST, ARTIST, MIX, RADIO, SONG, PROGRAM}
  }

  /** A nullable foreign key. */
  datatype Ref = Null | To(id: int)

  /** An artist's part in a song or an album. */
  datatype Credit = Credit(work: int, artist: int)

  /** A song's place in a local mix. */
  datatype Entry = Entry(mix: int, song: int)

  datatype Picture = Picture(item: int, imageType: int)

  datatype Item = Item(provider: int, library: Ref, kind: int)

  /** `songs` maps a song row to its album, `mixes` a local mix row to the remote mix it caches. */
  datatype Db = Db(
    items: map<int, Item>,
    libraries: map<int, int>,
    albums: set<int>,
    artists: set<int>,
    songs: map<int, Ref>,
    remotes: set<int>,
    mixes: map<int, Ref>,
    songArtists: set<Credit>,
    albumArtists: set<Credit>,
    entries: set<Entry>,
    dynamics: set<int>,
    pictures: set<Picture>)
  {
    /** The foreign keys hold, extension rows have their item's type, and items stay with the provider of
        their library. */
    ghost predicate Consistent() {
      && (forall id :: id in albums ==> id in items && items[id].kind == ALBUM)
      && (forall id :: id in artists ==> id in items && items[id].kind == ARTIST)
      && (forall id :: id in songs ==> id in items && items[id].kind == SONG)
      && (forall id :: id in remotes ==> id in items && items[id].kind in {MIX, RADIO})
      && (forall id :: id in songs && songs[id].To? ==> songs[id].id in albums)
      && (forall id :: id in mixes && mixes[id].To? ==> mixes[id].id in remotes)
      && (forall p :: p in songArtists ==> p.work in songs && p.artist in artists)
      && (forall p :: p in albumArtists ==> p.work in albums && p.artist in artists)
      && (forall x :: x in entries ==> x.mix in mixes && x.song in songs)
      && (forall id :: id in dynamics ==> id in items)
      && (forall x :: x in pictures ==> x.item in items)
      && (forall id :: id in items && items[id].library.To? ==>
            items[id].library.id in libraries && libraries[items[id].library.id] == items[id].provider)
    }

    /** Deletes one album row; its songs go with it. */
    function DeleteAlbumRow(id: int): Db {
      var left := map s | s in songs && songs[s] != To(id) :: songs[s];
      this.(albums := albums - {id},
            songs := left,
            albumArtists := (set p | p in albumArtists && p.work != id),
            songArtists := (set p | p in songArtists && (p.work in left || p.work !in songs)),
            entries := (set x | x in entries && (x.song in left || x.song !in songs)))
    }

    function DeleteSongRow(id: int): Db {
      this.(songs := songs - {id},
            songArtists := (set p | p in songArtists && p.work != id),
            entries := (set x | x in entries && x.song != id))
    }

    function DeleteArtistRow(id: int): Db {
      this.(artists := artists - {id},
            songArtists := (set p | p in songArtists && p.artist != id),
            albumArtists := (set p | p in albumArtists && p.artist != id))
    }

    function DeleteMixesOf(remote: int): Db {
      var left := map m | m in mixes && mixes[m] != To(remote) :: mixes[m];
      this.(mixes := left, entries := (set x | x in entries && (x.mix in left || x.mix !in mixes)))
    }

    function DeleteRemoteRow(id: int): Db {
      this.DeleteMixesOf(id).(remotes := remotes - {id})
    }

    /** Deletes an item row with everything that refers to it. */
    function DeleteItem(id: int): Db {
      if id !in items then this
      else
        this.(items := items - {id},
              dynamics := dynamics - {id},
              pictures := (set x | x in pictures && x.item != id))
        .DeleteAlbumRow(id).DeleteSongRow(id).DeleteArtistRow(id).DeleteRemoteRow(id)
    }

    function ItemsOfLibrary(library: int): set<int> {
      set id | id in items && items[id].library == To(library)
    }

    /** What is left when exactly the items in `keep` survive. */
    function Keep(keep: set<int>): Db {
      var songs' := map s | s in songs && s in keep && (songs[s].To? ==> songs[s].id in keep) :: songs[s];
      var mixes' := map m | m in mixes && (mixes[m].To? ==> mixes[m].id in keep) :: mixes[m];
      this.(items := (map id | id in items && id in keep :: items[id]),
            albums := albums * keep,
            artists := artists * keep,
            songs := songs',
            remotes := remotes * keep,
            mixes := mixes',
            songArtists := (set p | p in songArtists && p.work in songs' && p.artist in keep),
            albumArtists := (set p | p in albumArtists && p.work in keep && p.artist in keep),
            entries := (set x | x in entries && x.mix in mixes' && x.song in songs'),
            dynamics := dynamics * keep,
            pictures := (set x | x in pictures && x.item in keep))
    }

    /** Deletes a library row; its items go with it. */
    function DeleteLibrary(library: int): Db {
      Keep(items.Keys - ItemsOfLibrary(library)).(libraries := libraries - {library})
    }
  }

  /** Two databases with the same rows are the same. */
  lemma SameRows(a: Db, b: Db)
    requires forall id :: id in a.items <==> id in b.items
    requires forall id :: id in a.items ==> a.items[id] == b.items[id]
    requires forall id :: id in a.songs <==> id in b.songs
    requires forall id :: id in a.songs ==> a.songs[id] == b.songs[id]
    requires forall id :: id in a.mixes <==> id in b.mixes
    requires forall id :: id in a.mixes ==> a.mixes[id] == b.mixes[id]
    requires forall id :: id in a.albums <==> id in b.albums
    requires forall id :: id in a.artists <==> id in b.artists
    requires forall id :: id in a.remotes <==> id in b.remotes
    requires forall p :: p in a.songArtists <==> p in b.songArtists
    requires forall p :: p in a.albumArtists <==> p in b.albumArtists
    requires forall x :: x in a.entries <==> x in b.entries
    requires forall id :: id in a.dynamics <==> id in b.dynamics
    requires forall x :: x in a.pictures <==> x in b.pictures
    requires a.libraries == b.libraries
    ensures a == b
  {
    assert forall id :: id in a.items <==> id in b.items;
    assert forall id :: id in a.items ==> a.items[id] == b.items[id];
    assert a.items == b.items;
    assert forall id :: id in a.songs <==> id in b.songs;
    assert forall id :: id in a.songs ==> a.songs[id] == b.songs[id];
    assert a.songs == b.songs;
    assert forall id :: id in a.mixes <==> id in b.mixes;
    assert forall id :: id in a.mixes ==> a.mixes[id] == b.mixes[id];
    assert a.mixes == b.mixes;
    assert forall id :: id in a.albums <==> id in b.albums;
    assert forall id :: id in a.artists <==> id in b.artists;
    assert forall id :: id in a.remotes <==> id in b.remotes;
    assert a.albums == b.albums && a.artists == b.artists && a.remotes == b.remotes;
    assert forall p :: p in a.songArtists <==> p in b.songArtists;
    assert forall p :: p in a.albumArtists <==> p in b.albumArtists;
    assert a.songArtists == b.songArtists && a.albumArtists == b.albumArtists;
    assert forall x :: x in a.entries <==> x in b.entries;
    assert forall id :: id in a.dynamics <==> id in b.dynamics;
    assert forall x :: x in a.pictures <==> x in b.pictures;
    assert a.entries == b.entries && a.dynamics == b.dynamics && a.pictures == b.pictures;
  }

  lemma KeepAll(db: Db)
    requires db.Consistent()
    ensures db.Keep(db.items.Keys) == db
  {
    SameRows(db.Keep(db.items.Keys), db);
  }

  /** Only the items named by `keep` matter. */
  lemma KeepOnly(db: Db, a: set<int>, b: set<int>)
    requires db.Consistent() && forall id :: id in db.items ==> (id in a <==> id in b)
    ensures db.Keep(a) == db.Keep(b)
  {
    var x, y := db.Keep(a), db.Keep(b);
    assert forall s :: s in x.songs <==> s in y.songs;
    forall p ensures p in x.songArtists <==> p in y.songArtists {
      if p in db.songArtists { assert p.artist in db.artists; }
    }
    forall p ensures p in x.albumArtists <==> p in y.albumArtists {
      if p in db.albumArtists { assert p.work in db.albums && p.artist in db.artists; }
    }
    forall e ensures e in x.entries <==> e in y.entries {
    }
    forall e ensures e in x.pictures <==> e in y.pictures {
      if e in db.pictures { assert e.item in db.items; }
    }
    SameRows(x, y);
  }

  /** Deleting one item and letting the foreign keys cascade leaves what is kept without it. */
  lemma DeleteItemKeeps(db: Db, id: int)
    requires db.Consistent()
    ensures db.DeleteItem(id) == db.Keep(db.items.Keys - {id})
  {
    var keep := db.items.Keys - {id};
    if id in db.items {
      SameRows(db.DeleteItem(id), db.Keep(keep));
    } else {
      KeepAll(db);
      KeepOnly(db, keep, db.items.Keys);
    }
  }

  lemma KeepTwice(db: Db, a: set<int>, b: set<int>)
    ensures db.Keep(a).Keep(b) == db.Keep(a * b)
  {
    SameRows(db.Keep(a).Keep(b), db.Keep(a * b));
  }

  lemma KeepConsistent(db: Db, keep: set<int>)
    requires db.Consistent()
    ensures db.Keep(keep).Consistent()
    ensures db.Keep(keep).items.Keys == db.items.Keys * keep
  {
  }
}
