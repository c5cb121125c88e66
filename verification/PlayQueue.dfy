/** Navigation through the play queue: shuffled or plain rows, the loop modes, and the proxy object.

    The proxy's row is a cached value. It is computed when the source's current row or the shuffle switch
    changes, and not when the shuffle list does. */
module PlayQueue {
  import opened Options
  import opened ShuffleList

  /** `shuffling` is set when shuffling is on and the source supports it. */
  datatype Proxy = Proxy(list: seq<int>, inverse: map<int, int>, shuffling: bool)

  ghost predicate Valid(p: Proxy) {
    Permutation(p.list) && InverseOf(p.inverse, p.list)
  }

  function MapToSource(p: Proxy, row: int): int {
    if row < 0 || row >= |p.list| then -1
    else if p.shuffling then p.list[row] else row
  }

  function MapFromSource(p: Proxy, row: int): int {
    if p.shuffling then (if row in p.inverse then p.inverse[row] else -1) else row
  }

  /** The two maps undo each other, in both directions, and stay within the rows. */
  lemma MapsUndoEachOther(p: Proxy, row: int)
    requires Valid(p) && 0 <= row < |p.list|
    ensures 0 <= MapToSource(p, row) < |p.list| && MapFromSource(p, MapToSource(p, row)) == row
    ensures 0 <= MapFromSource(p, row) < |p.list| && MapToSource(p, MapFromSource(p, row)) == row
  {
    if p.shuffling {
      HitsEveryRow(p.list, row);
      var i :| 0 <= i < |p.list| && p.list[i] == row;
    }
  }

  /** No row outside is mapped inside by a shuffling proxy. */
  lemma OutsideStaysOutside(p: Proxy, row: int)
    requires Valid(p) && !(0 <= row < |p.list|)
    ensures MapToSource(p, row) == -1 && (p.shuffling ==> MapFromSource(p, row) == -1)
  {
    HitsEveryRow(p.list, row);
  }

  // --- Next and previous ---

  datatype LoopMode = NoneLoop | SingleLoop | ListLoop | ShuffleLoop

  /** `current` is the source's current row, -1 for none; `cached` is the proxy's row. */
  datatype Player = Player(proxy: Proxy, current: int, cached: int)

  ghost predicate HasCurrent(s: Player) {
    Valid(s.proxy) && 0 <= s.current < |s.proxy.list|
  }

  predicate UpToDate(s: Player) {
    s.cached == MapFromSource(s.proxy, s.current)
  }

  /** The source's current row is set; only a change reaches the proxy. */
  function Sourced(s: Player, row: int): Player {
    if row == s.current then s else s.(current := row, cached := MapFromSource(s.proxy, row))
  }

  function Goto(s: Player, row: int): Player {
    Sourced(s, MapToSource(s.proxy, row))
  }

  /** A request of the user: repeating one song does not keep the user from going on. */
  function Asked(mode: LoopMode): LoopMode {
    if mode.SingleLoop? then ListLoop else mode
  }

  /** Only without looping do the buttons stop at the ends. */
  lemma AskedIsCircularIff(mode: LoopMode)
    ensures Circular(Asked(mode)) <==> !mode.NoneLoop?
    ensures mode.NoneLoop? || mode.ListLoop? || mode.ShuffleLoop? ==> Asked(mode) == mode
  {
  }

  predicate Circular(mode: LoopMode) {
    mode.ListLoop? || mode.ShuffleLoop?
  }

  /** The remainder of the implementation language, which follows the sign of the dividend. */
  function Remainder(a: int, n: nat): int
    requires n > 0
  {
    if a >= 0 then a % n else -((-a) % n)
  }

  function Back(row: int, count: int): int {
    if row <= 0 then count - 1 else row - 1
  }

  function Next(s: Player, mode: LoopMode): Player {
    var count, cur := |s.proxy.list|, s.cached;
    if count == 0 then s
    else
      match mode
      case NoneLoop => if cur + 1 < count then Goto(s, cur + 1) else s
      case SingleLoop => s
      case _ => Goto(s, Remainder(cur + 1, count))
  }

  function Prev(s: Player, mode: LoopMode): Player {
    var count, cur := |s.proxy.list|, s.cached;
    if count == 0 then s
    else
      match mode
      case NoneLoop => if cur >= 1 then Goto(s, cur - 1) else s
      case SingleLoop => s
      case _ => Goto(s, Back(cur, count))
  }

  /** The row the current song really has. */
  function RealRow(s: Player): int {
    MapFromSource(s.proxy, s.current)
  }

  /** Going to a row makes its song current. The cached row follows, unless that song was current already. */
  lemma GotoLands(s: Player, row: int)
    requires HasCurrent(s) && 0 <= row < |s.proxy.list|
    ensures 0 <= RealRow(s) < |s.proxy.list|
    ensures HasCurrent(Goto(s, row)) && RealRow(Goto(s, row)) == row && Goto(s, row).proxy == s.proxy
    ensures row == RealRow(s) ==> Goto(s, row) == s
    ensures row != RealRow(s) ==> Goto(s, row).current != s.current && UpToDate(Goto(s, row))
  {
    MapsUndoEachOther(s.proxy, row);
    MapsUndoEachOther(s.proxy, s.current);
  }

  function Successor(row: int, count: nat): int
    requires count > 0
  {
    Remainder(row + 1, count)
  }

  lemma SuccessorInRange(row: int, count: nat)
    requires count > 0 && row >= -1
    ensures 0 <= Successor(row, count) < count
    ensures 0 <= row < count ==> Successor(row, count) == if row + 1 == count then 0 else row + 1
  {
  }

  /** A next press does nothing exactly if the song after the cached row is the current one; and then no
      later press does anything either. */
  lemma StuckIff(s: Player, mode: LoopMode)
    requires HasCurrent(s) && Circular(mode) && s.cached >= -1
    ensures Next(s, mode) == s <==> Successor(s.cached, |s.proxy.list|) == RealRow(s)
    ensures Next(s, mode) != s ==> UpToDate(Next(s, mode)) && HasCurrent(Next(s, mode))
    ensures RealRow(Next(s, mode)) == Successor(s.cached, |s.proxy.list|) && Next(s, mode).proxy == s.proxy
  {
    SuccessorInRange(s.cached, |s.proxy.list|);
    GotoLands(s, Successor(s.cached, |s.proxy.list|));
  }

  lemma NextStep(s: Player, mode: LoopMode)
    requires HasCurrent(s) && UpToDate(s) && Circular(mode)
    ensures 0 <= s.cached < |s.proxy.list|
    ensures HasCurrent(Next(s, mode)) && UpToDate(Next(s, mode)) && Next(s, mode).proxy == s.proxy
    ensures Next(s, mode).cached == if s.cached + 1 == |s.proxy.list| then 0 else s.cached + 1
  {
    GotoLands(s, 0);
    SuccessorInRange(s.cached, |s.proxy.list|);
    GotoLands(s, Successor(s.cached, |s.proxy.list|));
  }

  lemma PrevStep(s: Player, mode: LoopMode)
    requires HasCurrent(s) && UpToDate(s) && Circular(mode)
    ensures 0 <= s.cached < |s.proxy.list|
    ensures HasCurrent(Prev(s, mode)) && UpToDate(Prev(s, mode)) && Prev(s, mode).proxy == s.proxy
    ensures Prev(s, mode).cached == if s.cached == 0 then |s.proxy.list| - 1 else s.cached - 1
  {
    GotoLands(s, 0);
    GotoLands(s, Back(s.cached, |s.proxy.list|));
  }

  /** An up-to-date cached row determines the current song. */
  lemma SameCached(s: Player, t: Player)
    requires HasCurrent(s) && UpToDate(s) && HasCurrent(t) && UpToDate(t) && s.proxy == t.proxy && s.cached == t.cached
    ensures s == t
  {
    MapsUndoEachOther(s.proxy, s.current);
    MapsUndoEachOther(s.proxy, t.current);
  }

  /** In the circular modes, while the cached row is up to date, previous undoes next and next undoes previous. */
  lemma PrevUndoesNext(s: Player, mode: LoopMode)
    requires HasCurrent(s) && UpToDate(s) && !Asked(mode).NoneLoop?
    ensures Prev(Next(s, Asked(mode)), Asked(mode)) == s
    ensures Next(Prev(s, Asked(mode)), Asked(mode)) == s
  {
    var m := Asked(mode);
    NextStep(s, m);
    PrevStep(s, m);
    PrevStep(Next(s, m), m);
    NextStep(Prev(s, m), m);
    SameCached(Prev(Next(s, m), m), s);
    SameCached(Next(Prev(s, m), m), s);
  }

  /** Whatever the cached row is, previous brings the song before next back exactly in this case. */
  lemma PrevBringsBackIff(s: Player, mode: LoopMode)
    requires HasCurrent(s) && Circular(mode) && s.cached >= -1
    ensures var n, q, p := |s.proxy.list|, Successor(s.cached, |s.proxy.list|), RealRow(s);
            Prev(Next(s, mode), mode).current == s.current <==>
              if q == p then Back(s.cached, n) == p else Back(q, n) == p
  {
    var n := |s.proxy.list|;
    SuccessorInRange(s.cached, n);
    var q := Successor(s.cached, n);
    GotoLands(s, q);
    var t := Goto(s, q);
    assert Next(s, mode) == t;
    BackLands(t, mode);
    BackLands(s, mode);
    if q != RealRow(s) {
      assert t.cached == q;
      MapsUndoEachOther(s.proxy, s.current);
      MapsUndoEachOther(s.proxy, Back(q, n));
    } else {
      if Back(s.cached, n) != RealRow(s) && 0 <= Back(s.cached, n) < n {
        GotoLands(s, Back(s.cached, n));
      }
    }
  }

  lemma BackLands(s: Player, mode: LoopMode)
    requires HasCurrent(s) && Circular(mode)
    ensures var n, r := |s.proxy.list|, Back(s.cached, |s.proxy.list|);
            && (0 <= r < n ==> HasCurrent(Prev(s, mode)) && RealRow(Prev(s, mode)) == r)
            && (r >= n ==> Prev(s, mode).current == -1)
  {
    var n, r := |s.proxy.list|, Back(s.cached, |s.proxy.list|);
    if 0 <= r < n { GotoLands(s, r); }
  }

  lemma BackAndForth(row: int, count: nat)
    requires count >= 3 && 0 <= row < count
    ensures 0 <= Back(row, count) < count && 0 <= Successor(row, count) < count
    ensures Back(Successor(row, count), count) == row && Successor(Back(row, count), count) == row
    ensures Back(row, count) != Successor(row, count)
  {
    SuccessorInRange(row, count);
    SuccessorInRange(Back(row, count), count);
  }

  lemma SameRow(t: Player, row: int)
    requires HasCurrent(t) && 0 <= row < |t.proxy.list|
    ensures RealRow(t) == MapFromSource(t.proxy, row) <==> t.current == row
  {
    MapsUndoEachOther(t.proxy, row);
    MapsUndoEachOther(t.proxy, t.current);
  }

  lemma NextBringsBackIff(s: Player, mode: LoopMode)
    requires HasCurrent(s) && Circular(mode) && |s.proxy.list| >= 3 && 0 <= s.cached < |s.proxy.list|
    ensures Next(Prev(s, mode), mode).current == s.current <==> UpToDate(s)
  {
    var n, r := |s.proxy.list|, Back(s.cached, |s.proxy.list|);
    BackAndForth(s.cached, n);
    GotoLands(s, r);
    var t := Goto(s, r);
    assert Prev(s, mode) == t;
    assert t.cached == if r == RealRow(s) then s.cached else r;
    StuckIff(t, mode);
    GotoLands(t, Successor(t.cached, n));
    SameRow(Next(t, mode), s.current);
  }

  /** With three or more rows, previous undoes next, and next undoes previous, exactly while the cached row
      is up to date. */
  lemma UndoIffUpToDate(s: Player, mode: LoopMode)
    requires HasCurrent(s) && Circular(mode) && |s.proxy.list| >= 3 && 0 <= s.cached < |s.proxy.list|
    ensures Prev(Next(s, mode), mode).current == s.current <==> UpToDate(s)
    ensures Next(Prev(s, mode), mode).current == s.current <==> UpToDate(s)
  {
    BackAndForth(s.cached, |s.proxy.list|);
    PrevBringsBackIff(s, mode);
    NextBringsBackIff(s, mode);
  }

  /** Without looping, while the cached row is up to date, previous undoes next exactly if there was a next
      row, or only one row at all. */
  lemma PrevUndoesNextAtEndIff(s: Player)
    requires HasCurrent(s) && UpToDate(s)
    ensures Prev(Next(s, NoneLoop), NoneLoop) == s <==> s.cached + 1 < |s.proxy.list| || |s.proxy.list| == 1
  {
    GotoLands(s, 0);
    var cur := s.cached;
    if cur + 1 < |s.proxy.list| {
      GotoLands(s, cur + 1);
      GotoLands(Goto(s, cur + 1), cur);
    } else if cur >= 1 {
      GotoLands(s, cur - 1);
    }
  }

  // --- Many steps ---

  function Travel(s: Player, mode: LoopMode, steps: nat): Player
    decreases steps
  {
    if steps == 0 then s else Next(Travel(s, mode, steps - 1), mode)
  }

  lemma {:induction false} TravelFirst(s: Player, mode: LoopMode, steps: nat)
    requires steps > 0
    ensures Travel(s, mode, steps) == Travel(Next(s, mode), mode, steps - 1)
    decreases steps
  {
    if steps > 1 {
      TravelFirst(s, mode, steps - 1);
    } else {
      assert Travel(s, mode, 0) == s;
    }
  }

  /** The proxy row after some steps of at most one round. */
  function Ahead(row: nat, steps: nat, count: nat): nat
    requires row < count && steps <= count
  {
    if row + steps < count then row + steps else row + steps - count
  }

  lemma {:induction false} TravelGoesAhead(s: Player, mode: LoopMode, steps: nat)
    requires HasCurrent(s) && UpToDate(s) && Circular(mode) && steps <= |s.proxy.list|
    ensures 0 <= s.cached < |s.proxy.list|
    ensures var t := Travel(s, mode, steps);
            && HasCurrent(t) && UpToDate(t) && t.proxy == s.proxy
            && t.cached == Ahead(s.cached, steps, |s.proxy.list|)
    decreases steps
  {
    GotoLands(s, 0);
    if steps > 0 {
      TravelGoesAhead(s, mode, steps - 1);
      NextStep(Travel(s, mode, steps - 1), mode);
    }
  }

  /** From an up-to-date row, every source row is reached within one round, itself last. */
  lemma RoundReaches(s: Player, mode: LoopMode, row: int) returns (k: nat)
    requires HasCurrent(s) && UpToDate(s) && Circular(mode) && 0 <= row < |s.proxy.list|
    ensures k < |s.proxy.list| && Travel(s, mode, k).current == row
  {
    TravelGoesAhead(s, mode, 0);
    MapsUndoEachOther(s.proxy, row);
    var cur, target := s.cached, MapFromSource(s.proxy, row);
    k := if target >= cur then target - cur else target - cur + |s.proxy.list|;
    TravelGoesAhead(s, mode, k);
    SameRow(Travel(s, mode, k), row);
  }

  lemma RoundRepeatsNothing(s: Player, mode: LoopMode, j: nat, k: nat)
    requires HasCurrent(s) && UpToDate(s) && Circular(mode) && j < k < |s.proxy.list|
    ensures Travel(s, mode, j).current != Travel(s, mode, k).current
  {
    TravelGoesAhead(s, mode, j);
    TravelGoesAhead(s, mode, k);
  }

  lemma {:induction false} StuckStays(s: Player, mode: LoopMode, steps: nat)
    requires Next(s, mode) == s
    ensures Travel(s, mode, steps) == s
    decreases steps
  {
    if steps > 0 { StuckStays(s, mode, steps - 1); }
  }

  /** As many next steps as there are rows reach a given source row. */
  ghost predicate Reached(s: Player, mode: LoopMode, row: int) {
    exists k :: 1 <= k <= |s.proxy.list| && Travel(s, mode, k).current == row
  }

  lemma StuckReachesItself(s: Player, mode: LoopMode, row: int)
    requires HasCurrent(s) && Next(s, mode) == s
    ensures Reached(s, mode, row) <==> row == s.current
  {
    if Reached(s, mode, row) {
      var k :| 1 <= k <= |s.proxy.list| && Travel(s, mode, k).current == row;
      StuckStays(s, mode, k);
    }
    StuckStays(s, mode, 1);
    assert Travel(s, mode, 1).current == s.current;
  }

  lemma MovingReaches(s: Player, mode: LoopMode, row: int)
    requires HasCurrent(s) && Circular(mode) && s.cached >= -1 && Next(s, mode) != s && 0 <= row < |s.proxy.list|
    ensures Reached(s, mode, row)
  {
    StuckIff(s, mode);
    var k := RoundReaches(Next(s, mode), mode, row);
    TravelFirst(s, mode, k + 1);
    assert Travel(s, mode, k + 1).current == row;
  }

  lemma MovingRepeatsNothing(s: Player, mode: LoopMode, j: nat, k: nat)
    requires HasCurrent(s) && Circular(mode) && s.cached >= -1 && Next(s, mode) != s && 1 <= j < k <= |s.proxy.list|
    ensures Travel(s, mode, j).current != Travel(s, mode, k).current
  {
    StuckIff(s, mode);
    TravelFirst(s, mode, j);
    TravelFirst(s, mode, k);
    RoundRepeatsNothing(Next(s, mode), mode, j - 1, k - 1);
  }

  /** A round of next steps visits every source row, and then each exactly once, if and only if the first
      step goes to another song, or there is only one. */
  lemma RoundVisitsEachRowIff(s: Player, mode: LoopMode)
    requires HasCurrent(s) && Circular(mode) && s.cached >= -1
    ensures (forall row :: 0 <= row < |s.proxy.list| ==> Reached(s, mode, row)) <==>
              |s.proxy.list| == 1 || Successor(s.cached, |s.proxy.list|) != RealRow(s)
    ensures |s.proxy.list| == 1 || Successor(s.cached, |s.proxy.list|) != RealRow(s) ==>
              forall j, k :: 1 <= j < k <= |s.proxy.list| ==> Travel(s, mode, j).current != Travel(s, mode, k).current
  {
    StuckIff(s, mode);
    if Next(s, mode) == s {
      var other := if s.current == 0 then 1 else 0;
      StuckReachesItself(s, mode, s.current);
      StuckReachesItself(s, mode, other);
    } else {
      forall row | 0 <= row < |s.proxy.list| ensures Reached(s, mode, row) {
        MovingReaches(s, mode, row);
      }
      forall j, k | 1 <= j < k <= |s.proxy.list|
        ensures Travel(s, mode, j).current != Travel(s, mode, k).current
      {
        MovingRepeatsNothing(s, mode, j, k);
      }
    }
  }

  /** From an up-to-date row the round visits every source row exactly once and ends where it began. */
  lemma RoundVisitsEachRowOnce(s: Player, mode: LoopMode, row: int)
    requires HasCurrent(s) && UpToDate(s) && !Asked(mode).NoneLoop? && 0 <= row < |s.proxy.list|
    ensures Reached(s, Asked(mode), row)
    ensures forall j, k :: 1 <= j < k <= |s.proxy.list| ==>
              Travel(s, Asked(mode), j).current != Travel(s, Asked(mode), k).current
    ensures Travel(s, Asked(mode), |s.proxy.list|) == s
  {
    var n := |s.proxy.list|;
    TravelGoesAhead(s, Asked(mode), n);
    SuccessorInRange(s.cached, n);
    RoundVisitsEachRowIff(s, Asked(mode));
    SameRow(Travel(s, Asked(mode), n), s.current);
  }

  /** Without looping, next goes on to the last row and stays there. */
  lemma {:induction false} TravelStopsAtEnd(s: Player, steps: nat)
    requires HasCurrent(s) && UpToDate(s)
    ensures var t := Travel(s, NoneLoop, steps);
            && HasCurrent(t) && UpToDate(t) && t.proxy == s.proxy
            && t.cached == if s.cached + steps < |s.proxy.list| then s.cached + steps else |s.proxy.list| - 1
    decreases steps
  {
    GotoLands(s, 0);
    if steps > 0 {
      TravelStopsAtEnd(s, steps - 1);
      var t := Travel(s, NoneLoop, steps - 1);
      if t.cached + 1 < |t.proxy.list| {
        GotoLands(t, t.cached + 1);
      }
    }
  }

  /** An advance that waited for new rows reaches the next row exactly if the proxy already counts it. */
  lemma WaitingAdvanceNeedsSync(s: Player, rows: nat)
    requires HasCurrent(s) && !s.proxy.shuffling && UpToDate(s) && s.current + 1 < rows
    ensures Goto(s, s.cached + 1).current == s.current + 1 <==> s.current + 1 < |s.proxy.list|
    ensures s.current + 1 == |s.proxy.list| ==> Goto(s, s.cached + 1).current == -1
  {
  }

  // --- What happens to the cached row ---

  /** The list after the switch was turned on: shuffled, with the first source row in front. */
  function ReShuffled(list: seq<int>, picks: seq<nat>): (r: seq<int>)
    requires PicksFit(picks, 0, |list|) && 0 in Shuffled(list, 0, |list|, picks)
    ensures |r| == |list| && r[0] == 0
  {
    var r := Shuffled(list, 0, |list|, picks);
    Swapped(r, IndexOf(r, 0), 0)
  }

  /** The list after the source's row count changed. */
  function Synced(list: seq<int>, rows: nat, cached: int, picks: seq<nat>): seq<int>
    requires SyncDefined(list, rows, cached, picks)
  {
    if |list| < rows then Shuffled(Grown(list, rows), cached + 1, rows, picks)
    else if |list| > rows then Shrunk(list, rows)
    else list
  }

  /** Growing shuffles from behind the cached row on, which must not lie behind the end; shrinking takes
      replacements from the end. */
  ghost predicate SyncDefined(list: seq<int>, rows: nat, cached: int, picks: seq<nat>) {
    && (|list| < rows ==> -1 <= cached < rows && PicksFit(picks, cached + 1, rows))
    && (|list| > rows ==> Shrinkable(list, rows))
  }

  datatype Event =
    | Source(row: int)
    | Rows(rows: nat, picks: seq<nat>)
    | Switch(on: bool, picks: seq<nat>)
    | OnNext(mode: LoopMode)
    | OnPrev(mode: LoopMode)

  ghost predicate Enabled(s: Player, e: Event) {
    match e
    case Rows(rows, picks) => SyncDefined(s.proxy.list, rows, s.cached, picks)
    case Switch(on, picks) =>
      on && s.proxy.list != [] ==>
        PicksFit(picks, 0, |s.proxy.list|) && 0 in Shuffled(s.proxy.list, 0, |s.proxy.list|, picks)
    case _ => true
  }

  /** The switch re-evaluates the cached row, and only then is the list shuffled. */
  ghost function Apply(s: Player, e: Event): Player
    requires Enabled(s, e)
  {
    match e
    case Source(row) => Sourced(s, row)
    case Rows(rows, picks) =>
      if rows == |s.proxy.list| then s
      else
        var list := Synced(s.proxy.list, rows, s.cached, picks);
        s.(proxy := Proxy(list, Inverse(list), s.proxy.shuffling))
    case Switch(on, picks) =>
      if on == s.proxy.shuffling then s
      else
        var t := s.(proxy := s.proxy.(shuffling := on));
        var seen := t.(cached := RealRow(t));
        if !on || s.proxy.list == [] then seen
        else
          var list := ReShuffled(s.proxy.list, picks);
          seen.(proxy := Proxy(list, Inverse(list), true))
    case OnNext(mode) => Next(s, Asked(mode))
    case OnPrev(mode) => Prev(s, Asked(mode))
  }

  /** A change of the source's current row always brings the cached row up to date. */
  lemma SourceRefreshes(s: Player, row: int)
    ensures row != s.current ==> UpToDate(Apply(s, Source(row)))
    ensures row == s.current ==> Apply(s, Source(row)) == s
  {
  }

  /** Growing keeps the list a permutation and the cached row up to date: nothing up to it moves. */
  lemma GrowthKeepsUpToDate(s: Player, rows: nat, picks: seq<nat>)
    requires Valid(s.proxy) && (0 <= s.current < |s.proxy.list| || s.current == -1) && UpToDate(s)
    requires |s.proxy.list| < rows && Enabled(s, Rows(rows, picks))
    ensures Valid(Apply(s, Rows(rows, picks)).proxy) && UpToDate(Apply(s, Rows(rows, picks)))
  {
    var grown, t := Grown(s.proxy.list, rows), Apply(s, Rows(rows, picks));
    GrownIsPermutation(s.proxy.list, rows);
    ShuffledRearranges(grown, s.cached + 1, rows, picks);
    InverseIsInverse(t.proxy.list);
    if s.current == -1 {
      if s.proxy.shuffling { HitsEveryRow(t.proxy.list, -1); }
    } else {
      MapsUndoEachOther(s.proxy, s.current);
      if s.proxy.shuffling {
        assert t.proxy.list[s.cached] == t.proxy.list[..s.cached + 1][s.cached] == grown[s.cached] == s.proxy.list[s.cached];
      }
    }
  }

  /** When rows go whose removal leaves the source's current row alone, a shuffled cached row stays up to
      date exactly if it lies in the part of the list that stays. */
  lemma ShrinkKeepsUpToDateIff(s: Player, rows: nat)
    requires HasCurrent(s) && UpToDate(s) && s.proxy.shuffling && s.current < rows < |s.proxy.list|
    requires TailSorted(s.proxy.list, rows)
    ensures Enabled(s, Rows(rows, [])) && HasCurrent(Apply(s, Rows(rows, [])))
    ensures UpToDate(Apply(s, Rows(rows, []))) <==> s.cached < rows
  {
    ShrinkIsPermutationIff(s.proxy.list, rows);
    var t := Apply(s, Rows(rows, []));
    InverseIsInverse(t.proxy.list);
    MapsUndoEachOther(s.proxy, s.current);
    MapsUndoEachOther(t.proxy, t.current);
    if s.cached < rows {
      assert t.proxy.list[s.cached] == Replacement(s.proxy.list, rows, s.cached) == s.current;
    }
  }

  /** After shuffling is switched on, the cached row is up to date exactly if the current song did not move. */
  lemma SwitchKeepsUpToDateIff(s: Player, picks: seq<nat>)
    requires HasCurrent(s) && !s.proxy.shuffling && PicksFit(picks, 0, |s.proxy.list|)
    ensures Enabled(s, Switch(true, picks)) && HasCurrent(Apply(s, Switch(true, picks)))
    ensures var t := Apply(s, Switch(true, picks));
            && s.current in s.proxy.inverse && t.cached == s.proxy.inverse[s.current] < |t.proxy.list|
            && (UpToDate(t) <==> t.proxy.list[t.cached] == s.current)
  {
    ReShuffledIsPermutation(s.proxy.list, picks);
    var t := Apply(s, Switch(true, picks));
    InverseIsInverse(t.proxy.list);
    MapsUndoEachOther(s.proxy.(shuffling := true), s.current);
    MapsUndoEachOther(t.proxy, t.current);
    if t.proxy.list[t.cached] == s.current {
      MapsUndoEachOther(t.proxy, t.cached);
    }
  }

  lemma ReShuffledIsPermutation(list: seq<int>, picks: seq<nat>)
    requires Permutation(list) && PicksFit(picks, 0, |list|) && list != []
    ensures 0 in Shuffled(list, 0, |list|, picks) && Permutation(ReShuffled(list, picks))
  {
    ShuffledRearranges(list, 0, |list|, picks);
    var r := Shuffled(list, 0, |list|, picks);
    HitsEveryRow(r, 0);
    SwapKeepsPermutation(r, IndexOf(r, 0), 0);
  }

  /** Switching off, and every step that is not one of the two above, keeps an up-to-date row up to date. */
  lemma OtherStepsKeepUpToDate(s: Player, e: Event)
    requires HasCurrent(s) && UpToDate(s) && Enabled(s, e) && !e.Rows? && (e.Switch? ==> !e.on || s.proxy.shuffling)
    ensures UpToDate(Apply(s, e))
  {
    MapsUndoEachOther(s.proxy, s.current);
  }

  lemma ShortExample()
    ensures Permutation([0, 3, 1, 2]) && Shrinkable([0, 3, 1, 2], 3) && TailSorted([0, 3, 1, 2], 3)
    ensures Shrunk([0, 3, 1, 2], 3) == [0, 2, 1]
  {
    var list := [0, 3, 1, 2];
    PermutationIsShrinkable(list, 3);
    assert Beyond(list, 3, 1) == 0;
    assert Shrunk(list, 3) == [0, 2, 1];
  }

  /** A removal can leave the next button without effect: after the list 0, 3, 1, 2 loses source row 3 while
      row 2 is current, it selects row 2 again, however often it is pressed. */
  lemma NextCanBeStuck(s: Player, steps: nat)
    requires s == Player(Proxy([0, 3, 1, 2], Inverse([0, 3, 1, 2]), true), 2, 3)
    ensures HasCurrent(s) && UpToDate(s) && Enabled(s, Rows(3, []))
    ensures var t := Apply(s, Rows(3, []));
            && t.proxy.list == [0, 2, 1] && t.cached == 3 && HasCurrent(t) && !UpToDate(t)
            && Travel(t, ShuffleLoop, steps) == t
  {
    ShortExample();
    InverseIsInverse(s.proxy.list);
    assert s.proxy.list[3] == 2;
    ShrinkKeepsUpToDateIff(s, 3);
    var t := Apply(s, Rows(3, []));
    StuckAtTwo(t);
    StuckStays(t, ShuffleLoop, steps);
  }

  lemma StuckAtTwo(t: Player)
    requires HasCurrent(t) && t.proxy.list == [0, 2, 1] && t.proxy.shuffling && t.current == 2 && t.cached == 3
    ensures Next(t, ShuffleLoop) == t
  {
    assert Remainder(4, 3) == 1;
    assert MapToSource(t.proxy, 1) == 2;
  }

  lemma LongExample()
    ensures Permutation([0, 3, 4, 1, 2]) && TailSorted([0, 3, 4, 1, 2], 3)
  {
    PermutationIsShrinkable([0, 3, 4, 1, 2], 3);
  }

  /** Growing is then not always defined: two rows go, one row comes, and the cached row lies behind the end. */
  lemma StaleRowCanBreakGrowth(s: Player, picks: seq<nat>)
    requires s == Player(Proxy([0, 3, 4, 1, 2], Inverse([0, 3, 4, 1, 2]), true), 2, 4)
    ensures HasCurrent(s) && UpToDate(s) && Enabled(s, Rows(3, []))
    ensures var t := Apply(s, Rows(3, [])); HasCurrent(t) && !Enabled(t, Rows(4, picks))
  {
    LongExample();
    InverseIsInverse(s.proxy.list);
    assert s.proxy.list[4] == 2;
    ShrinkKeepsUpToDateIff(s, 3);
  }

  lemma ShuffleExample()
    ensures PicksFit([0, 1, 1], 0, 3) && Shuffled([0, 1, 2], 0, 3, [0, 1, 1]) == [0, 2, 1]
  {
    var list, picks: seq<nat> := [0, 1, 2], [0, 1, 1];
    assert Shuffled(list, 0, 0, picks) == [0, 1, 2];
    assert Shuffled(list, 0, 1, picks) == [0, 1, 2];
    assert Shuffled(list, 0, 2, picks) == [0, 1, 2];
  }

  lemma ReShuffleExample()
    ensures PicksFit([0, 1, 1], 0, 3) && 0 in Shuffled([0, 1, 2], 0, 3, [0, 1, 1])
    ensures ReShuffled([0, 1, 2], [0, 1, 1]) == [0, 2, 1]
  {
    ShuffleExample();
    assert [0, 2, 1][0] == 0;
    assert IndexOf([0, 2, 1], 0) == 0;
    assert Swapped([0, 2, 1], 0, 0) == [0, 2, 1];
  }

  /** Switching shuffling on can move the current song away from the cached row. */
  lemma SwitchCanBeStale(s: Player)
    requires s == Player(Proxy([0, 1, 2], Inverse([0, 1, 2]), false), 1, 1)
    ensures HasCurrent(s) && UpToDate(s) && Enabled(s, Switch(true, [0, 1, 1]))
    ensures !UpToDate(Apply(s, Switch(true, [0, 1, 1])))
  {
    InverseIsInverse([0, 1, 2]);
    ReShuffleExample();
    SwitchKeepsUpToDateIff(s, [0, 1, 1]);
    assert [0, 1, 2][1] == 1;
    var t := Apply(s, Switch(true, [0, 1, 1]));
    assert t.proxy.list == [0, 2, 1];
    assert t.cached == 1;
  }

  // --- The objects ---

  class PlayIdProxyQueue {
    var list: seq<int>
    var inverse: map<int, int>
    var shuffling: bool
    var source: int
    var cached: int

    ghost function View(): Player
      reads this
    {
      Player(Proxy(list, inverse, shuffling), source, cached)
    }

    constructor (shuffling: bool)
      ensures View() == Player(Proxy([], map[], shuffling), -1, -1) && Valid(View().proxy) && UpToDate(View())
    {
      list, inverse, this.shuffling, source, cached := [], map[], shuffling, -1, -1;
    }

    /** The binding of the cached row is evaluated when the source's row changes. */
    method SourceChanged(row: int)
      modifies this`source, this`cached
      ensures View() == old(Apply(View(), Source(row)))
    {
      if row != source {
        source := row;
        cached := MapFromSource(Proxy(list, inverse, shuffling), row);
      }
    }

    method SetCurrentIndex(row: int)
      modifies this`source, this`cached
      ensures View() == old(Goto(View(), row))
    {
      SourceChanged(MapToSource(Proxy(list, inverse, shuffling), row));
    }

    /** Shuffles from position `from` on; element `i` changes places with `picks[i]`. */
    method Shuffle(from: nat, picks: seq<nat>)
      requires from <= |list| && PicksFit(picks, from, |list|)
      modifies this`list
      ensures list == Shuffled(old(list), from, |old(list)|, picks)
    {
      var i := from;
      while i < |list|
        invariant from <= i <= |list| == |old(list)| && list == Shuffled(old(list), from, i, picks)
      {
        list := Swapped(list, i, picks[i]);
        i := i + 1;
      }
    }

    method RefreshFromSource(rows: nat)
      requires rows == |list|
      modifies this`inverse
      ensures inverse == Inverse(list)
    {
      inverse := map[];
      var row := 0;
      while row < rows
        invariant row <= rows && inverse == Inverse(list[..row])
      {
        InverseStep(list, row);
        inverse := inverse[list[row] := row];
        row := row + 1;
      }
      assert list[..row] == list;
    }

    /** Turns shuffling on or off. */
    method SetShuffle(on: bool, picks: seq<nat>)
      requires Valid(View().proxy) && PicksFit(picks, 0, |list|)
      modifies this`shuffling, this`cached, this`list, this`inverse
      ensures old(Enabled(View(), Switch(on, picks))) && View() == old(Apply(View(), Switch(on, picks)))
      ensures Valid(View().proxy)
    {
      if list != [] { ReShuffledIsPermutation(list, picks); }
      if on != shuffling {
        shuffling := on;
        cached := MapFromSource(Proxy(list, inverse, shuffling), source);
        if on {
          ReShuffle(picks);
        }
      }
    }

    /** A new order; the first source row comes first. */
    method ReShuffle(picks: seq<nat>)
      requires Valid(View().proxy) && PicksFit(picks, 0, |list|)
      modifies this`list, this`inverse
      ensures Valid(View().proxy)
      ensures old(list) != [] ==>
                && 0 in Shuffled(old(list), 0, |old(list)|, picks)
                && list == ReShuffled(old(list), picks) && inverse == Inverse(list)
      ensures old(list) == [] ==> list == [] && inverse == old(inverse)
    {
      if list == [] {
        RefreshFromSource(0);
        EmptyInverse(old(inverse));
        InverseIsInverse(list);
        return;
      }
      ReShuffledIsPermutation(list, picks);
      Shuffle(0, picks);
      var zero := Find(0);
      list := Swapped(list, zero, 0);
      RefreshFromSource(|list|);
      InverseIsInverse(list);
    }

    method Find(x: int) returns (i: nat)
      requires x in list
      ensures i == IndexOf(list, x)
    {
      i := 0;
      while list[i] != x
        invariant i < |list| && x in list[i..] && IndexOf(list, x) == i + IndexOf(list[i..], x)
        decreases |list| - i
      {
        assert list[i..] == [list[i]] + list[i + 1..];
        assert list[i..][1..] == list[i + 1..];
        i := i + 1;
      }
    }

    /** Follows the source's row count. */
    method ShuffleSync(rows: nat, picks: seq<nat>)
      requires Valid(View().proxy)
      requires |list| < rows ==> -1 <= cached < rows && PicksFit(picks, cached + 1, rows)
      modifies this`list, this`inverse
      ensures SyncDefined(old(list), rows, cached, picks) && |list| == rows
      ensures list == Synced(old(list), rows, cached, picks)
      ensures inverse == if |old(list)| == rows then old(inverse) else Inverse(list)
    {
      var before := |list|;
      PermutationIsShrinkableTo(list, rows);
      if before < rows {
        Grow(rows, picks);
        RefreshFromSource(rows);
      } else if before > rows {
        Shrink(rows);
        RefreshFromSource(rows);
      }
    }

    /** The step of the model that this is. */
    method OnRowsChanged(rows: nat, picks: seq<nat>)
      requires Valid(View().proxy)
      requires |list| < rows ==> -1 <= cached < rows && PicksFit(picks, cached + 1, rows)
      modifies this`list, this`inverse
      ensures old(Enabled(View(), Rows(rows, picks))) && View() == old(Apply(View(), Rows(rows, picks)))
    {
      PermutationIsShrinkableTo(list, rows);
      ShuffleSync(rows, picks);
    }

    /** Appends the new rows and shuffles what comes after the cached row. */
    method Grow(rows: nat, picks: seq<nat>)
      requires |list| < rows && -1 <= cached < rows && PicksFit(picks, cached + 1, rows)
      modifies this`list
      ensures list == Shuffled(Grown(old(list), rows), cached + 1, rows, picks)
    {
      ghost var was := list;
      while |list| < rows
        invariant |was| <= |list| <= rows && list == Grown(was, |list|)
      {
        list := list + [|list|];
      }
      Shuffle(cached + 1, picks);
    }

    /** Replaces what lies beyond by elements from the end, and cuts. */
    method Shrink(rows: nat)
      requires Permutation(list) && rows < |list|
      modifies this`list
      ensures Shrinkable(old(list), rows) && list == Shrunk(old(list), rows)
    {
      ghost var seen := ShrinkingPlan(list, rows);
      Replace(rows, Shrunk(list, rows), seen);
    }

    method Replace(rows: nat, ghost target: seq<int>, ghost seen: seq<nat>)
      requires |target| == rows && Plan(list, target, seen)
      modifies this`list
      ensures list == target
    {
      ghost var was := list;
      var before, k, i := |list|, 1, 0;
      while i < rows
        invariant i <= rows < before == |list| && k == 1 + seen[i]
        invariant forall j :: 0 <= j < i ==> list[j] == target[j]
        invariant forall j :: i <= j < rows ==> list[j] == was[j]
        invariant forall j :: rows <= j <= before - k ==> list[j] == was[j]
      {
        assert Replaces(was, target, seen, i);
        if list[i] >= rows {
          list := Swapped(list, i, before - k);
          k := k + 1;
        }
        i := i + 1;
      }
      list := list[..rows];
    }
  }

  /** The play queue on top of the proxy: the user's next and previous buttons. A dynamic source that runs
      out of rows leaves the advance waiting. */
  class PlayQueue {
    const proxy: PlayIdProxyQueue
    var waiting: bool

    constructor (proxy: PlayIdProxyQueue)
      ensures this.proxy == proxy && !waiting
    {
      this.proxy, waiting := proxy, false;
    }

    method GoNext(mode: LoopMode, dynamic: bool)
      modifies this`waiting, proxy`source, proxy`cached
      ensures proxy.View() == old(Apply(proxy.View(), OnNext(mode)))
      ensures waiting == (old(waiting) ||
                          (dynamic && (proxy.list == [] || (mode.NoneLoop? && old(proxy.cached) + 1 >= |proxy.list|))))
    {
      var asked := if mode.SingleLoop? then ListLoop else mode;
      var count, cur := |proxy.list|, proxy.cached;
      if count == 0 {
        waiting := waiting || dynamic;
        return;
      }
      if asked.NoneLoop? {
        if cur + 1 < count {
          proxy.SetCurrentIndex(cur + 1);
        } else if dynamic {
          waiting := true;
        }
      } else {
        proxy.SetCurrentIndex(Remainder(cur + 1, count));
      }
    }

    method GoPrev(mode: LoopMode)
      modifies proxy`source, proxy`cached
      ensures proxy.View() == old(Apply(proxy.View(), OnPrev(mode)))
    {
      var asked := if mode.SingleLoop? then ListLoop else mode;
      var count, cur := |proxy.list|, proxy.cached;
      if count == 0 {
        return;
      }
      if asked.NoneLoop? {
        if cur >= 1 {
          proxy.SetCurrentIndex(cur - 1);
        }
      } else {
        proxy.SetCurrentIndex(if cur <= 0 then count - 1 else cur - 1);
      }
    }
  }
}
