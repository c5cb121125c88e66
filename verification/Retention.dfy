/** Reference-counted leases that protect items, with the rows they depend on, from pruning. */
module Retention {
  import opened Options
  import opened Catalogue

  const MAX_ROOT_ITEMS: nat := 4096

  // --- What a lease covers ---

  /** The roots, the albums of the root songs, and the artists of all these songs and albums. */
  function Cover(db: Db, roots: set<int>): set<int> {
    var ids := roots + AlbumsOf(db, roots);
    ids + (set p | p in db.songArtists && p.work in ids :: p.artist) + (set p | p in db.albumArtists && p.work in ids :: p.artist)
  }

  function AlbumsOf(db: Db, ids: set<int>): set<int> {
    set s | s in ids && s in db.songs && db.songs[s].To? :: db.songs[s].id
  }

  /** Closed under song to album, song to artist and album to artist. */
  ghost predicate Closed(db: Db, ids: set<int>) {
    && (forall s :: s in ids && s in db.songs && db.songs[s].To? ==> db.songs[s].id in ids)
    && (forall p :: p in db.songArtists && p.work in ids ==> p.artist in ids)
    && (forall p :: p in db.albumArtists && p.work in ids ==> p.artist in ids)
  }

  /** A lease covers the least closed set that contains its roots. */
  lemma CoverIsLeastClosed(db: Db, roots: set<int>, other: set<int>)
    requires db.Consistent()
    ensures roots <= Cover(db, roots) && Closed(db, Cover(db, roots))
    ensures roots <= other && Closed(db, other) ==> Cover(db, roots) <= other
  {
    var ids := roots + AlbumsOf(db, roots);
    assert forall x :: x in ids ==> x in roots || x in db.albums;
    assert forall x :: x in Cover(db, roots) ==> x in ids || x in db.artists;
    forall s | s in Cover(db, roots) && s in db.songs && db.songs[s].To?
      ensures db.songs[s].id in Cover(db, roots)
    {
      assert s in roots;
    }
    forall p | p in db.songArtists && p.work in Cover(db, roots) ensures p.artist in Cover(db, roots) {
      assert p.work in db.songs && p.work in ids;
    }
    forall p | p in db.albumArtists && p.work in Cover(db, roots) ensures p.artist in Cover(db, roots) {
      assert p.work in db.albums && p.work in ids;
    }
  }

  /** What a request for a lease is checked for. */
  ghost predicate Acceptable(db: Db, provider: int, roots: set<int>) {
    && |roots| <= MAX_ROOT_ITEMS
    && (forall id :: id in roots ==> id > 0)
    && Owned(db, provider, Cover(db, roots))
  }

  /** The album of one of the songs. */
  ghost predicate AlbumOfOne(db: Db, songs: set<int>, album: int) {
    exists s :: s in songs && s in db.songs && db.songs[s] == To(album)
  }

  /** An artist of one of the songs or albums `roots`, or of an album of one of the songs. */
  ghost predicate ArtistOfOne(db: Db, roots: set<int>, artist: int) {
    || (exists p :: p in db.songArtists && p.work in roots && p.artist == artist)
    || (exists p :: p in db.albumArtists && (p.work in roots || AlbumOfOne(db, roots, p.work)) && p.artist == artist)
  }

  lemma SongIsNoAlbum(db: Db, roots: set<int>, s: int)
    requires db.Consistent() && s in db.songs
    ensures s !in AlbumsOf(db, roots)
  {
    assert forall a :: a in AlbumsOf(db, roots) ==> a in db.albums;
    assert db.items[s].kind == SONG;
  }

  /** A lease covers its roots, the albums of the songs among them, and the artists of these. */
  lemma CoverIs(db: Db, roots: set<int>, id: int)
    requires db.Consistent()
    ensures id in Cover(db, roots) <==> id in roots || AlbumOfOne(db, roots, id) || ArtistOfOne(db, roots, id)
  {
    var ids := roots + AlbumsOf(db, roots);
    assert forall a :: a in AlbumsOf(db, roots) <==> AlbumOfOne(db, roots, a);
    forall p | p in db.songArtists && p.work in ids ensures p.work in roots {
      assert p.work in db.songs;
      SongIsNoAlbum(db, roots, p.work);
    }
  }

  /** Exactly these requests are granted: up to 4096 positive ids, where all that the lease covers are items of the
      provider. */
  lemma AcceptableIff(db: Db, provider: int, roots: set<int>)
    requires db.Consistent()
    ensures Acceptable(db, provider, roots) <==>
              && |roots| <= 4096 && (forall id :: id in roots ==> id > 0)
              && (forall id :: id in roots || AlbumOfOne(db, roots, id) || ArtistOfOne(db, roots, id) ==>
                    id in db.items && db.items[id].provider == provider)
  {
    forall id ensures id in Cover(db, roots) <==> id in roots || AlbumOfOne(db, roots, id) || ArtistOfOne(db, roots, id) {
      CoverIs(db, roots, id);
    }
  }

  predicate Owned(db: Db, provider: int, ids: set<int>) {
    forall id :: id in ids ==> id in db.items && db.items[id].provider == provider
  }

  lemma OwnedRoots(db: Db, provider: int, roots: set<int>)
    ensures Owned(db, provider, Cover(db, roots)) ==> Owned(db, provider, roots)
  {
    assert roots <= Cover(db, roots);
  }

  // --- Counting leases ---

  function CountOf(counts: map<int, nat>, id: int): nat {
    if id in counts then counts[id] else 0
  }

  function AddAll(counts: map<int, nat>, ids: set<int>): map<int, nat> {
    map id | id in counts.Keys + ids :: CountOf(counts, id) + if id in ids then 1 else 0
  }

  /** One decrement per id that has an entry; entries that reach zero are removed. */
  function RemoveAll(counts: map<int, nat>, ids: set<int>): map<int, nat> {
    map id | id in counts && (id in ids ==> counts[id] != 1) ::
      if id in ids && counts[id] > 0 then counts[id] - 1 else counts[id]
  }

  ghost function Holders(leases: map<nat, set<int>>, id: int): set<nat> {
    set l | l in leases && id in leases[l]
  }

  /** Every count is the number of live leases that contain the id, and no entry is zero. */
  ghost predicate Agree(counts: map<int, nat>, leases: map<nat, set<int>>) {
    && (forall id :: CountOf(counts, id) == |Holders(leases, id)|)
    && (forall id :: id in counts ==> counts[id] > 0)
  }

  lemma GrantKeepsCounts(counts: map<int, nat>, leases: map<nat, set<int>>, l: nat, ids: set<int>)
    requires Agree(counts, leases) && l !in leases
    ensures Agree(AddAll(counts, ids), leases[l := ids])
  {
    forall id ensures CountOf(AddAll(counts, ids), id) == |Holders(leases[l := ids], id)| {
      if id in ids {
        assert Holders(leases[l := ids], id) == Holders(leases, id) + {l};
      } else {
        assert Holders(leases[l := ids], id) == Holders(leases, id);
      }
    }
  }

  /** Dropping a live lease never meets a missing or zero entry. */
  lemma DropKeepsCounts(counts: map<int, nat>, leases: map<nat, set<int>>, l: nat)
    requires Agree(counts, leases) && l in leases
    ensures forall id :: id in leases[l] ==> id in counts && counts[id] > 0
    ensures Agree(RemoveAll(counts, leases[l]), leases - {l})
  {
    var ids := leases[l];
    forall id ensures CountOf(RemoveAll(counts, ids), id) == |Holders(leases - {l}, id)|
      ensures id in ids ==> id in counts && counts[id] > 0
    {
      assert CountOf(counts, id) == |Holders(leases, id)|;
      if id in ids {
        assert l in Holders(leases, id);
        assert Holders(leases - {l}, id) == Holders(leases, id) - {l};
      } else {
        assert Holders(leases - {l}, id) == Holders(leases, id);
      }
    }
  }

  /** The ids with an entry are exactly those of live leases. */
  lemma RetainedIsUnion(counts: map<int, nat>, leases: map<nat, set<int>>, id: int)
    requires Agree(counts, leases)
    ensures id in counts <==> exists l :: l in leases && id in leases[l]
  {
    assert CountOf(counts, id) == |Holders(leases, id)|;
    if l :| l in leases && id in leases[l] {
      assert l in Holders(leases, id);
    }
    if id in counts {
      var l :| l in Holders(leases, id);
    }
  }

  datatype Event = Grant(ids: set<int>) | Release(lease: nat)

  datatype Leases = Leases(counts: map<int, nat>, live: map<nat, set<int>>, next: nat)

  function Step(s: Leases, e: Event): Leases {
    match e
    case Grant(ids) => Leases(AddAll(s.counts, ids), s.live[s.next := ids], s.next + 1)
    case Release(l) =>
      if l in s.live then s.(counts := RemoveAll(s.counts, s.live[l]), live := s.live - {l}) else s
  }

  function Run(es: seq<Event>): Leases {
    if es == [] then Leases(map[], map[], 0) else Step(Run(es[..|es| - 1]), es[|es| - 1])
  }

  /** Conservation over every sequence of grants and releases. */
  lemma {:induction false} CountsConserved(es: seq<Event>)
    ensures Agree(Run(es).counts, Run(es).live)
    ensures forall l :: l in Run(es).live ==> l < Run(es).next
  {
    if es == [] {
      forall id ensures |Holders(map[], id)| == 0 { assert Holders(map[], id) == {}; }
    } else {
      var s := Run(es[..|es| - 1]);
      CountsConserved(es[..|es| - 1]);
      match es[|es| - 1]
      case Grant(ids) => GrantKeepsCounts(s.counts, s.live, s.next, ids);
      case Release(l) => if l in s.live { DropKeepsCounts(s.counts, s.live, l); }
    }
  }

  // --- The shared table ---

  datatype LeaseError = InvalidSet | MissingItem | MissingDependency

  /** `live` and `next` record which leases exist; the program keeps only the counts. */
  class RetainedItems {
    var counts: map<int, nat>
    ghost var live: map<nat, set<int>>
    ghost var next: nat

    ghost predicate Valid()
      reads this
    {
      Agree(counts, live) && forall l :: l in live ==> l < next
    }

    constructor ()
      ensures Valid() && live == map[]
    {
      counts, live, next := map[], map[], 0;
      new;
      CountsConserved([]);
    }

    /** Grants a lease on the closure of `ids`, or changes nothing. */
    method Retain(db: Db, provider: int, ids: set<int>) returns (r: Result<set<int>, LeaseError>, ghost lease: nat)
      requires Valid() && db.Consistent()
      modifies this
      ensures Valid() && lease == old(next)
      ensures r.Err? ==> unchanged(this)
      ensures r.Ok? ==>
                r.value == Cover(db, ids) && live == old(live)[lease := r.value] && counts == AddAll(old(counts), r.value)
      ensures r.Ok? <==> Acceptable(db, provider, ids)
    {
      lease := next;
      if |ids| > MAX_ROOT_ITEMS || exists id :: id in ids && id <= 0 {
        return Err(InvalidSet), lease;
      }
      if !Owned(db, provider, ids) {
        OwnedRoots(db, provider, ids);
        return Err(MissingItem), lease;
      }
      var all := Cover(db, ids);
      if !Owned(db, provider, all) {
        return Err(MissingDependency), lease;
      }
      GrantKeepsCounts(counts, live, lease, all);
      Increment(all);
      live, next := live[lease := all], next + 1;
      r := Ok(all);
    }

    method Increment(ids: set<int>)
      modifies this`counts
      ensures counts == AddAll(old(counts), ids)
    {
      var todo := ids;
      assert ids - todo == {};
      assert counts == AddAll(counts, {});
      while todo != {}
        invariant todo <= ids
        invariant counts == AddAll(old(counts), ids - todo)
        decreases todo
      {
        var id := Pick(todo);
        counts := counts[id := CountOf(counts, id) + 1];
        assert ids - (todo - {id}) == (ids - todo) + {id};
        todo := todo - {id};
      }
      assert ids - todo == ids;
    }

    /** The lease's destructor. */
    method Drop(ids: set<int>, ghost lease: nat)
      requires Valid() && lease in live && live[lease] == ids
      modifies this
      ensures Valid() && live == old(live) - {lease} && next == old(next)
      ensures counts == RemoveAll(old(counts), ids)
    {
      DropKeepsCounts(counts, live, lease);
      Decrement(ids);
      live := live - {lease};
    }

    method Decrement(ids: set<int>)
      requires forall id :: id in counts ==> counts[id] > 0
      requires forall id :: id in ids ==> id in counts
      modifies this`counts
      ensures counts == RemoveAll(old(counts), ids)
    {
      var todo := ids;
      assert ids - todo == {};
      assert counts == RemoveAll(counts, {});
      while todo != {}
        invariant todo <= ids
        invariant counts == RemoveAll(old(counts), ids - todo)
        decreases todo
      {
        var id := Pick(todo);
        if id in counts {
          counts := counts[id := counts[id] - 1];
          if counts[id] == 0 {
            counts := counts - {id};
          }
        }
        assert ids - (todo - {id}) == (ids - todo) + {id};
        todo := todo - {id};
      }
      assert ids - todo == ids;
    }
  }
}
