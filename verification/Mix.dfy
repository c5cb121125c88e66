/** The contents of one mix: ordered append and remove with a maintained track count. */
module Mix {
  import opened Options

  /** A row of the contents table; `id` is its surrogate key. */
  datatype Entry = Entry(id: nat, order: int)

  /** `nextId` is larger than every key handed out so far. */
  datatype Contents = Contents(rows: map<int, Entry>, nextId: nat, trackCount: int)

  const EMPTY := Contents(map[], 0, 0)

  // --- Append ---

  /** Inserting a song that is there already replaces its key but not its order. */
  function Inserted(m: Contents, song: int): Contents {
    m.(rows := m.rows[song := Entry(m.nextId, if song in m.rows then m.rows[song].order else 0)],
       nextId := m.nextId + 1)
  }

  function InsertedAll(m: Contents, songs: seq<int>): Contents {
    if songs == [] then m
    else Inserted(InsertedAll(m, songs[..|songs| - 1]), songs[|songs| - 1])
  }

  /** The songs that wait for their order. */
  function Waiting(rows: map<int, Entry>): (r: set<int>)
    ensures forall s :: s in r <==> s in rows && rows[s].order == 0
  {
    set s | s in rows && rows[s].order == 0
  }

  /** `max` is the largest order, or -1 if there are no songs. */
  ghost predicate IsMax(rows: map<int, Entry>, songs: set<int>, max: int) {
    if songs == {} then max == -1
    else
      && (forall s :: s in songs && s in rows ==> rows[s].order <= max)
      && (exists s :: s in songs && s in rows && rows[s].order == max)
  }

  ghost function MaxOver(rows: map<int, Entry>, songs: set<int>): (max: int)
    requires forall s :: s in songs ==> s in rows
    ensures IsMax(rows, songs, max)
    decreases |songs|
  {
    if songs == {} then -1
    else
      var s := Any(songs);
      var rest := MaxOver(rows, songs - {s});
      if songs - {s} == {} then assert songs == {s}; rows[s].order
      else if rest < rows[s].order then rows[s].order else rest
  }

  ghost function MaxOrder(rows: map<int, Entry>): int {
    MaxOver(rows, rows.Keys)
  }

  function Before(rows: map<int, Entry>, id: nat): (r: set<int>)
    ensures forall t :: t in r <==> t in Waiting(rows) && rows[t].id < id
  {
    set t | t in Waiting(rows) && rows[t].id < id
  }

  /** A waiting song is numbered after all others, in the order of the keys. */
  function Numbered(rows: map<int, Entry>, max: int, e: Entry): Entry {
    if e.order == 0 then e.(order := max + |Before(rows, e.id)| + 1) else e
  }

  ghost function Reordered(rows: map<int, Entry>): map<int, Entry> {
    map s | s in rows :: Numbered(rows, MaxOrder(rows), rows[s])
  }

  ghost function Appended(m: Contents, songs: seq<int>): Contents {
    var all := InsertedAll(m, songs);
    all.(rows := Reordered(all.rows), trackCount := m.trackCount + |Waiting(all.rows)|)
  }

  function Removed(m: Contents, songs: seq<int>): Contents {
    var rest := map s | s in m.rows && s !in songs :: m.rows[s];
    m.(rows := rest, trackCount := m.trackCount - |m.rows.Keys - rest.Keys|)
  }

  /** A synchronized mix is rewritten as a whole, numbered from zero. */
  function Synchronized(m: Contents, songs: seq<int>): Contents
    requires Distinct(songs)
  {
    Contents(map s | s in songs :: Entry(m.nextId + LastIndex(songs, s), LastIndex(songs, s)),
             m.nextId + |songs|, |songs|)
  }

  // --- Invariant ---

  ghost predicate Keyed(m: Contents) {
    && (forall s :: s in m.rows ==> m.rows[s].id < m.nextId)
    && (forall s, t :: s in m.rows && t in m.rows && s != t ==> m.rows[s].id != m.rows[t].id)
  }

  ghost predicate OrdersDiffer(rows: map<int, Entry>) {
    forall s, t :: s in rows && t in rows && s != t ==> rows[s].order != rows[t].order
  }

  /** Distinct orders from 1 on, and a true track count. */
  ghost predicate Inv(m: Contents) {
    && Keyed(m) && OrdersDiffer(m.rows) && m.trackCount == |m.rows.Keys|
    && forall s :: s in m.rows ==> m.rows[s].order >= 1
  }

  /** What inserting does: the songs are there, with their old order or none yet. */
  ghost predicate Extends(m: Contents, songs: seq<int>, all: Contents) {
    && all.trackCount == m.trackCount && all.nextId == m.nextId + |songs|
    && (forall s :: s in all.rows <==> s in m.rows || s in songs)
    && (forall s :: s in all.rows ==> all.rows[s].order == if s in m.rows then m.rows[s].order else 0)
  }

  lemma {:induction false} InsertedAllExtends(m: Contents, songs: seq<int>)
    ensures Extends(m, songs, InsertedAll(m, songs))
  {
    if songs != [] {
      var n := |songs| - 1;
      InsertedAllExtends(m, songs[..n]);
      assert songs == songs[..n] + [songs[n]];
    }
  }

  lemma {:induction false} InsertedAllIsKeyed(m: Contents, songs: seq<int>)
    requires Keyed(m)
    ensures Keyed(InsertedAll(m, songs))
  {
    if songs != [] {
      InsertedAllIsKeyed(m, songs[..|songs| - 1]);
    }
  }

  /** A song's key says where it last occurs in the argument. */
  lemma {:induction false} KeyIsLastOccurrence(m: Contents, songs: seq<int>, s: int)
    requires s in songs
    ensures s in InsertedAll(m, songs).rows && InsertedAll(m, songs).rows[s].id == m.nextId + LastIndex(songs, s)
  {
    var n := |songs| - 1;
    InsertedAllExtends(m, songs[..n]);
    if songs[n] != s {
      assert songs == songs[..n] + [songs[n]];
      KeyIsLastOccurrence(m, songs[..n], s);
    }
  }

  lemma SmallerBefore(rows: map<int, Entry>, s: int, i: nat, j: nat)
    requires s in Waiting(rows) && rows[s].id == i < j
    ensures |Before(rows, i)| < |Before(rows, j)|
  {
    var a, b := Before(rows, i), Before(rows, j);
    assert a <= b && s in b && s !in a;
    assert b == a + (b - a);
    assert |b| == |a| + |b - a|;
    assert b - a != {};
  }

  /** Waiting songs come after all others, and among themselves in the order of their keys. */
  lemma ReorderedOrders(rows: map<int, Entry>, s: int, t: int)
    requires s in rows && t in rows && rows[t].order == 0
    ensures rows[s].order != 0 ==> Reordered(rows)[s] == rows[s] && rows[s].order < Reordered(rows)[t].order
    ensures rows[s].order == 0 && rows[s].id < rows[t].id ==> Reordered(rows)[s].order < Reordered(rows)[t].order
    ensures Reordered(rows)[t].order >= 1
  {
    if rows[s].order == 0 && rows[s].id < rows[t].id {
      SmallerBefore(rows, s, rows[s].id, rows[t].id);
    }
    assert IsMax(rows, rows.Keys, MaxOrder(rows)) && t in rows.Keys && s in rows.Keys;
  }

  /** The new orders are the numbers that follow the largest one, as many as songs wait. */
  lemma ReorderedFollowOn(rows: map<int, Entry>, t: int)
    requires t in rows && rows[t].order == 0
    ensures MaxOrder(rows) < Reordered(rows)[t].order <= MaxOrder(rows) + |Waiting(rows)|
    ensures Reordered(rows)[t].id == rows[t].id
  {
    var before := Before(rows, rows[t].id);
    assert before <= Waiting(rows) - {t};
    assert Waiting(rows) == (Waiting(rows) - {t}) + {t};
    assert Waiting(rows) - {t} == before + (Waiting(rows) - {t} - before);
  }

  lemma ReorderedDiffer(rows: map<int, Entry>)
    requires forall s, t :: s in rows && t in rows && s != t ==> rows[s].id != rows[t].id
    requires forall s, t :: s in rows && t in rows && s != t && rows[s].order != 0 ==> rows[s].order != rows[t].order
    ensures OrdersDiffer(Reordered(rows))
  {
    var r := Reordered(rows);
    forall s, t | s in r && t in r && s != t ensures r[s].order != r[t].order {
      if rows[t].order == 0 { ReorderedOrders(rows, s, t); }
      if rows[s].order == 0 { ReorderedOrders(rows, t, s); }
    }
  }

  lemma SameKeys(rows: map<int, Entry>)
    ensures Reordered(rows).Keys == rows.Keys
  {
    assert forall s :: s in Reordered(rows).Keys <==> s in rows.Keys;
  }

  /** The songs that wait are the new ones and those that already had the order zero. */
  lemma WaitingCount(m: Contents, songs: seq<int>)
    ensures var all := InsertedAll(m, songs).rows;
            |all.Keys| + |Waiting(m.rows)| == |m.rows.Keys| + |Waiting(all)|
  {
    var all, was := InsertedAll(m, songs).rows, m.rows;
    InsertedAllExtends(m, songs);
    var added := all.Keys - was.Keys;
    assert forall s :: s in all.Keys <==> s in was.Keys + added;
    assert all.Keys == was.Keys + added;
    assert forall s :: s in Waiting(all) <==> s in Waiting(was) + added;
    assert Waiting(all) == Waiting(was) + added;
    assert |all.Keys| == |was.Keys| + |added|;
    assert forall s :: s in Waiting(was) ==> s !in added;
    assert |Waiting(all)| == |Waiting(was)| + |added|;
  }

  /** The count after an append is too large by the number of songs that had the order zero before. */
  lemma CountAfterAppend(m: Contents, songs: seq<int>)
    requires m.trackCount == |m.rows.Keys|
    ensures Appended(m, songs).trackCount == |Appended(m, songs).rows.Keys| + |Waiting(m.rows)|
  {
    InsertedAllExtends(m, songs);
    WaitingCount(m, songs);
    SameKeys(InsertedAll(m, songs).rows);
  }

  lemma NobodyWaits(rows: map<int, Entry>)
    ensures Waiting(rows) == {} <==> forall s :: s in rows ==> rows[s].order != 0
  {
    if Waiting(rows) != {} {
      var s := Any(Waiting(rows));
      assert s in rows && rows[s].order == 0;
    }
    if forall s :: s in rows ==> rows[s].order != 0 {
      assert forall s :: s !in Waiting(rows);
    }
  }

  lemma AppendKeepsInv(m: Contents, songs: seq<int>)
    requires Inv(m)
    ensures Inv(Appended(m, songs))
  {
    var all := InsertedAll(m, songs).rows;
    InsertedAllIsKeyed(m, songs);
    InsertedAllExtends(m, songs);
    NobodyWaits(m.rows);
    CountAfterAppend(m, songs);
    ReorderedDiffer(all);
    var r := Reordered(all);
    forall s | s in r ensures r[s].order >= 1 && r[s].id == all[s].id {
      if all[s].order == 0 { ReorderedOrders(all, s, s); }
    }
  }

  /** Appending leaves the songs of the mix where they are, puts each new one after all of them, and the
      new ones in the order in which they last occur in the argument. */
  lemma AppendGoesToTheEnd(m: Contents, songs: seq<int>, s: int, t: int)
    requires Inv(m) && s in Appended(m, songs).rows && t in Appended(m, songs).rows && t !in m.rows
    ensures t in songs
    ensures s in m.rows ==>
              && Appended(m, songs).rows[s].order == m.rows[s].order
              && Appended(m, songs).rows[s].order < Appended(m, songs).rows[t].order
    ensures s !in m.rows && s != t ==>
              && s in songs
              && (Appended(m, songs).rows[s].order < Appended(m, songs).rows[t].order
                  <==> LastIndex(songs, s) < LastIndex(songs, t))
  {
    var all := InsertedAll(m, songs).rows;
    InsertedAllExtends(m, songs);
    assert Appended(m, songs).rows == Reordered(all);
    ReorderedOrders(all, s, t);
    if s !in m.rows && s != t {
      KeyIsLastOccurrence(m, songs, s);
      KeyIsLastOccurrence(m, songs, t);
      ReorderedOrders(all, t, s);
      assert LastIndex(songs, s) != LastIndex(songs, t);
    }
  }

  lemma RemoveKeepsInv(m: Contents, songs: seq<int>)
    requires Inv(m)
    ensures Inv(Removed(m, songs))
    ensures forall s :: s in Removed(m, songs).rows <==> s in m.rows && s !in songs
    ensures forall s :: s in Removed(m, songs).rows ==> Removed(m, songs).rows[s] == m.rows[s]
  {
    var rest := Removed(m, songs).rows;
    assert forall s :: s in m.rows.Keys <==> s in rest.Keys + (m.rows.Keys - rest.Keys);
    assert m.rows.Keys == rest.Keys + (m.rows.Keys - rest.Keys);
    assert |m.rows.Keys| == |rest.Keys| + |m.rows.Keys - rest.Keys|;
  }

  datatype Event = Append(songs: seq<int>) | Remove(songs: seq<int>)

  ghost function Apply(m: Contents, e: Event): Contents {
    match e
    case Append(songs) => Appended(m, songs)
    case Remove(songs) => Removed(m, songs)
  }

  ghost function Run(m: Contents, es: seq<Event>): Contents
    decreases |es|
  {
    if es == [] then m else Run(Apply(m, es[0]), es[1..])
  }

  lemma {:induction false} RunKeepsInv(m: Contents, es: seq<Event>)
    requires Inv(m)
    ensures Inv(Run(m, es))
    decreases |es|
  {
    if es != [] {
      match es[0] {
        case Append(songs) => AppendKeepsInv(m, songs);
        case Remove(songs) => RemoveKeepsInv(m, songs);
      }
      RunKeepsInv(Apply(m, es[0]), es[1..]);
    }
  }

  /** Starting from an empty mix, every sequence of appends and removals keeps the orders distinct and
      positive and the track count true. */
  lemma EveryRunIsOrdered(es: seq<Event>)
    ensures var m := Run(EMPTY, es);
            OrdersDiffer(m.rows) && m.trackCount == |m.rows.Keys| && forall s :: s in m.rows ==> m.rows[s].order >= 1
  {
    RunKeepsInv(EMPTY, es);
  }

  // --- A mix with a song at zero ---

  /** Whatever is appended, the songs of the mix stay in place exactly if none of them has the order zero;
      and exactly then a true track count stays true. */
  lemma AppendIsCorrectIff(m: Contents, songs: seq<int>)
    requires m.trackCount == |m.rows.Keys|
    ensures forall s :: s in m.rows ==> s in Appended(m, songs).rows
    ensures (forall s :: s in m.rows ==> Appended(m, songs).rows[s].order == m.rows[s].order)
            <==> Waiting(m.rows) == {}
    ensures Appended(m, songs).trackCount == |Appended(m, songs).rows.Keys| <==> Waiting(m.rows) == {}
  {
    var all := InsertedAll(m, songs).rows;
    InsertedAllExtends(m, songs);
    var r := Reordered(all);
    assert Appended(m, songs).rows == r;
    if Waiting(m.rows) != {} {
      var s := Any(Waiting(m.rows));
      ReorderedOrders(all, s, s);
      assert s in m.rows && r[s].order != m.rows[s].order;
    }
    NobodyWaits(m.rows);
    forall s | s in m.rows && m.rows[s].order != 0 ensures r[s].order == m.rows[s].order {}
    CountAfterAppend(m, songs);
  }

  /** After a synchronization, which numbers from zero, the first append to a mix with songs moves its first
      song behind all others and counts it twice. */
  lemma AppendAfterSync(m: Contents, members: seq<int>, songs: seq<int>, s: int)
    requires Distinct(members)
    requires |members| > 0 && s in members
    ensures var t := Synchronized(m, members); var r := Appended(t, songs);
            && s in r.rows && members[0] in r.rows
            && r.trackCount == |r.rows.Keys| + 1
            && (s != members[0] ==> r.rows[s].order < r.rows[members[0]].order)
  {
    var t := Synchronized(m, members);
    var all := InsertedAll(t, songs).rows;
    InsertedAllExtends(t, songs);
    SynchronizedWaits(m, members);
    SynchronizedCounts(m, members);
    assert members[0] in Waiting(t.rows) && s in t.rows;
    if s != members[0] {
      assert s !in Waiting(t.rows);
      ReorderedOrders(all, s, members[0]);
    }
    CountAfterAppend(t, songs);
  }

  lemma SynchronizedWaits(m: Contents, members: seq<int>)
    requires Distinct(members)
    requires |members| > 0
    ensures Waiting(Synchronized(m, members).rows) == {members[0]}
  {
    var w := Waiting(Synchronized(m, members).rows);
    assert members[0] in members && LastIndex(members, members[0]) == 0;
    assert forall s :: s in w <==> s in {members[0]};
    assert w == {members[0]};
  }

  lemma SynchronizedCounts(m: Contents, members: seq<int>)
    requires Distinct(members)
    ensures |Synchronized(m, members).rows.Keys| == |members|
  {
    DistinctSize(members);
    var keys := Synchronized(m, members).rows.Keys;
    assert forall s :: s in keys <==> s in Elements(members);
    assert keys == Elements(members);
  }

  // --- The stored mix ---

  class StoredMix {
    var rows: map<int, Entry>
    var nextId: nat
    var trackCount: int

    ghost function View(): Contents
      reads this
    {
      Contents(rows, nextId, trackCount)
    }

    constructor ()
      ensures View() == EMPTY && Inv(View())
    {
      rows, nextId, trackCount := map[], 0, 0;
    }

    method UpdateTrackCount(delta: int)
      modifies this`trackCount
      ensures trackCount == old(trackCount) + delta
    {
      if delta != 0 {
        trackCount := trackCount + delta;
      }
    }

    method Max() returns (max: int)
      ensures max == MaxOrder(rows)
    {
      max := -1;
      var todo := rows.Keys;
      ghost var seen: set<int> := {};
      while todo != {}
        invariant todo <= rows.Keys && forall s :: s in seen <==> s in rows && s !in todo
        invariant IsMax(rows, seen, max)
        decreases todo
      {
        var s := Pick(todo);
        if todo == rows.Keys || rows[s].order > max {
          max := rows[s].order;
        }
        seen, todo := seen + {s}, todo - {s};
      }
      assert forall s :: s in seen <==> s in rows.Keys;
      assert seen == rows.Keys;
    }

    /** One number after the other for the waiting songs. */
    method ReorderAppend()
      modifies this`rows
      ensures rows == Reordered(old(rows))
    {
      var max := Max();
      var before := rows;
      var todo := before.Keys;
      while todo != {}
        invariant todo <= before.Keys
        invariant forall s :: s in rows <==> s in before
        invariant forall s :: s in before ==> rows[s] == if s in todo then before[s] else Numbered(before, max, before[s])
        decreases todo
      {
        var s := Pick(todo);
        rows := rows[s := Numbered(before, max, before[s])];
        todo := todo - {s};
      }
      ghost var r := Reordered(before);
      assert forall s :: s in rows <==> s in r;
      assert forall s :: s in rows ==> rows[s] == r[s];
      assert rows == r;
    }

    method InsertSongs(songs: seq<int>)
      modifies this`rows, this`nextId
      ensures View() == InsertedAll(old(View()), songs)
    {
      ghost var was := View();
      var i := 0;
      while i < |songs|
        invariant i <= |songs| && View() == InsertedAll(was, songs[..i])
      {
        assert songs[..i + 1][..i] == songs[..i];
        rows := rows[songs[i] := Entry(nextId, if songs[i] in rows then rows[songs[i]].order else 0)];
        nextId := nextId + 1;
        i := i + 1;
      }
      assert songs[..i] == songs;
    }

    method AppendSongs(songs: seq<int>) returns (count: nat)
      modifies this
      ensures View() == Appended(old(View()), songs)
      ensures count == |Waiting(InsertedAll(old(View()), songs).rows)|
    {
      ghost var was := View();
      InsertSongs(songs);
      count := |Waiting(rows)|;
      ReorderAppend();
      UpdateTrackCount(count);
      InsertedAllExtends(was, songs);
    }

    method RemoveSongs(songs: seq<int>) returns (affected: nat)
      modifies this
      ensures View() == Removed(old(View()), songs)
      ensures affected == |old(rows).Keys - rows.Keys|
    {
      var rest := map s | s in rows && s !in songs :: rows[s];
      affected := |rows.Keys - rest.Keys|;
      rows := rest;
      var delta: int := affected;
      UpdateTrackCount(-delta);
    }
  }
}
