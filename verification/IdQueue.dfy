/** The play list: a list of ids with a membership index and a current row. */
module IdQueue {
  import opened Options

  /** The list, the index over it, and the current row (-1 for none). */
  datatype State = State(queue: seq<int>, known: set<int>, current: int)

  /** Ids are unique and the index holds exactly them. */
  ghost predicate Inv(s: State) {
    Distinct(s.queue) && forall x :: x in s.known <==> x in s.queue
  }

  predicate HasCurrent(s: State) {
    0 <= s.current < |s.queue|
  }

  function CurrentId(s: State): int
    requires HasCurrent(s)
  {
    s.queue[s.current]
  }

  // --- Insert ---

  /** The ids of the argument that the index does not know; it is not updated meanwhile. */
  function Fresh(known: set<int>, ids: seq<int>): (r: seq<int>)
    ensures forall x :: x in r <==> x in ids && x !in known
    ensures |r| <= |ids|
  {
    if ids == [] then []
    else
      var rest := Fresh(known, ids[..|ids| - 1]);
      var last := ids[|ids| - 1];
      if last in known then rest else rest + [last]
  }

  function Inserted(s: State, pos: nat, ids: seq<int>): State {
    if pos > |s.queue| then s
    else
      var novel := Fresh(s.known, ids);
      s.(queue := s.queue[..pos] + novel + s.queue[pos..], known := s.known + Elements(novel))
  }

  lemma {:induction false} FreshIsDistinct(known: set<int>, ids: seq<int>)
    requires Distinct(ids)
    ensures Distinct(Fresh(known, ids))
  {
    if ids != [] {
      var n := |ids| - 1;
      FreshIsDistinct(known, ids[..n]);
      assert ids[n] !in ids[..n];
    }
  }

  lemma SpliceIsDistinct(q: seq<int>, pos: nat, ids: seq<int>)
    requires Distinct(q) && pos <= |q| && forall x :: x in ids ==> x !in q
    ensures Distinct(q[..pos] + ids + q[pos..]) <==> Distinct(ids)
  {
    var r := q[..pos] + ids + q[pos..];
    if Distinct(r) {
      forall i, j | 0 <= i < j < |ids| ensures ids[i] != ids[j] {
        assert r[pos + i] == ids[i] && r[pos + j] == ids[j];
      }
    }
    if Distinct(ids) {
      forall i, j | 0 <= i < j < |r| ensures r[i] != r[j] {
        if pos <= i < pos + |ids| {
          assert r[i] == ids[i - pos] && r[i] in ids;
        } else {
          assert r[i] == q[if i < pos then i else i - |ids|];
        }
        if pos <= j < pos + |ids| {
          assert r[j] == ids[j - pos] && r[j] in ids;
        } else {
          assert r[j] == q[if j < pos then j else j - |ids|];
        }
      }
    }
  }

  /** Inserting keeps ids unique exactly if the new ids of the argument are pairwise distinct: what repeats
      inside the argument is inserted each time. */
  lemma InsertKeepsInvIff(s: State, pos: nat, ids: seq<int>)
    requires Inv(s)
    ensures Inv(Inserted(s, pos, ids)) <==> pos > |s.queue| || Distinct(Fresh(s.known, ids))
  {
    if pos <= |s.queue| {
      SpliceIsDistinct(s.queue, pos, Fresh(s.known, ids));
      var t := Inserted(s, pos, ids);
      forall x ensures x in t.known <==> x in t.queue {
        assert x in s.queue <==> x in s.queue[..pos] || x in s.queue[pos..] by {
          assert s.queue == s.queue[..pos] + s.queue[pos..];
        }
      }
    }
  }

  /** The current row number stays, so the current id stays exactly if nothing was inserted at or before it. */
  lemma InsertKeepsCurrentIff(s: State, pos: nat, ids: seq<int>)
    requires Inv(s) && HasCurrent(s) && pos <= |s.queue|
    ensures HasCurrent(Inserted(s, pos, ids))
    ensures CurrentId(Inserted(s, pos, ids)) == CurrentId(s) <==> s.current < pos || Fresh(s.known, ids) == []
  {
    var novel := Fresh(s.known, ids);
    var t := Inserted(s, pos, ids);
    if s.current >= pos && novel != [] {
      var i := s.current;
      if i < pos + |novel| {
        assert t.queue[i] == novel[i - pos] && novel[i - pos] in novel;
        assert s.queue[i] in s.queue;
      } else {
        assert t.queue[i] == s.queue[i - |novel|];
      }
    }
  }

  /** `rows` are, in ascending order, the places of the ids that are not known. */
  ghost predicate NewRows(known: set<int>, ids: seq<int>, rows: seq<nat>) {
    && (forall k :: 0 <= k < |rows| ==> rows[k] < |ids| && ids[rows[k]] !in known)
    && (forall j, k :: 0 <= j < k < |rows| ==> rows[j] < rows[k])
    && (forall i: nat :: i < |ids| && ids[i] !in known ==> i in rows)
  }

  /** The ids at the places `rows`. */
  function IdsAt(ids: seq<int>, rows: seq<nat>): (r: seq<int>)
    requires forall k :: 0 <= k < |rows| ==> rows[k] < |ids|
    ensures |r| == |rows| && forall k :: 0 <= k < |rows| ==> r[k] == ids[rows[k]]
  {
    seq(|rows|, k requires 0 <= k < |rows| => ids[rows[k]])
  }

  lemma OneMoreRow(known: set<int>, ids: seq<int>, rows: seq<nat>)
    requires ids != [] && NewRows(known, ids[..|ids| - 1], rows)
    ensures var n := |ids| - 1;
            NewRows(known, ids, if ids[n] in known then rows else rows + [n])
  {
    var n := |ids| - 1;
    var more := if ids[n] in known then rows else rows + [n];
    forall i: nat | i < |ids| && ids[i] !in known ensures i in more {
      if i < n {
        assert ids[..n][i] == ids[i];
      } else {
        assert more[|rows|] == n;
      }
    }
  }

  lemma IdsAtMore(ids: seq<int>, rows: seq<nat>, n: nat)
    requires n < |ids| && forall k :: 0 <= k < |rows| ==> rows[k] < n
    ensures IdsAt(ids[..n], rows) == IdsAt(ids, rows)
    ensures IdsAt(ids, rows + [n]) == IdsAt(ids, rows) + [ids[n]]
  {
  }

  lemma {:induction false} FreshRows(known: set<int>, ids: seq<int>) returns (rows: seq<nat>)
    ensures NewRows(known, ids, rows) && Fresh(known, ids) == IdsAt(ids, rows)
    decreases |ids|
  {
    rows := [];
    if ids != [] {
      var n := |ids| - 1;
      var before := FreshRows(known, ids[..n]);
      OneMoreRow(known, ids, before);
      rows := if ids[n] in known then before else before + [n];
      IdsAtMore(ids, before, n);
    }
  }

  /** What is inserted are the ids of the argument that the list does not have, in the argument's order; the other
      rows keep their order around them. */
  lemma InsertPutsNewIds(s: State, pos: nat, ids: seq<int>) returns (rows: seq<nat>)
    requires Inv(s) && pos <= |s.queue|
    ensures NewRows(s.known, ids, rows) && forall x :: x in s.known <==> x in s.queue
    ensures Inserted(s, pos, ids).queue == s.queue[..pos] + IdsAt(ids, rows) + s.queue[pos..]
    ensures Inserted(s, pos, ids).current == s.current
  {
    rows := FreshRows(s.known, ids);
  }

  // --- Remove ---

  function RemovedFrom(q: seq<int>, first: nat, count: nat): seq<int>
    requires first + count <= |q|
  {
    q[..first] + q[first + count..]
  }

  function Removed(s: State, first: nat, count: nat): State
    requires first + count <= |s.queue|
  {
    if count == 0 then s
    else
      State(RemovedFrom(s.queue, first, count),
            s.known - Elements(s.queue[first..first + count]),
            if s.current >= first + count then s.current - count
            else if s.current >= first then -1
            else s.current)
  }

  lemma RemoveKeepsInv(s: State, first: nat, count: nat)
    requires Inv(s) && first + count <= |s.queue|
    ensures Inv(Removed(s, first, count))
  {
    if count > 0 {
      var q, t := s.queue, Removed(s, first, count);
      var cut := q[first..first + count];
      forall x ensures x in t.known <==> x in t.queue {
        assert q == q[..first] + cut + q[first + count..];
        if x in cut {
          var k :| 0 <= k < |cut| && cut[k] == x;
          assert q[first + k] == x;
        }
      }
    }
  }

  /** Removing rows keeps the current id unless its row is removed; then there is no current row. */
  lemma RemoveKeepsCurrent(s: State, first: nat, count: nat)
    requires Inv(s) && HasCurrent(s) && first + count <= |s.queue|
    ensures var t := Removed(s, first, count);
            if first <= s.current < first + count then t.current == -1 && CurrentId(s) !in t.queue
            else HasCurrent(t) && CurrentId(t) == CurrentId(s)
  {
    var t := Removed(s, first, count);
    if first <= s.current < first + count {
      RemoveKeepsInv(s, first, count);
      assert CurrentId(s) in s.queue[first..first + count] by {
        assert s.queue[first..first + count][s.current - first] == CurrentId(s);
      }
      assert CurrentId(s) !in t.known;
    }
  }

  // --- Move ---

  /** The request is inside the list, and the destination is not inside or at the end of the block. */
  predicate MoveAccepted(size: int, source: int, count: int, destination: int) {
    && 0 <= source && count > 0 && source + count <= size && 0 <= destination <= size
    && !(source <= destination <= source + count)
  }

  /** The row from which rotating [first, last), so that `middle` becomes its first row, takes row `i`. */
  function From(first: nat, middle: nat, last: nat, i: nat): (k: nat)
    requires first <= middle <= last
    ensures first <= i < last <==> first <= k < last
  {
    if first <= i < first + (last - middle) then i + (middle - first)
    else if first + (last - middle) <= i < last then i - (last - middle)
    else i
  }

  function Rotated(q: seq<int>, first: nat, middle: nat, last: nat): (r: seq<int>)
    requires first <= middle <= last <= |q|
    ensures |r| == |q|
  {
    q[..first] + q[middle..last] + q[first..middle] + q[last..]
  }

  lemma RotatedAt(q: seq<int>, first: nat, middle: nat, last: nat, i: nat)
    requires first <= middle <= last <= |q| && i < |q|
    ensures Rotated(q, first, middle, last)[i] == q[From(first, middle, last, i)]
  {
  }

  /** Taking the block out and putting it in before the row that was at the destination. */
  function CutAndPaste(q: seq<int>, source: nat, count: nat, destination: nat): seq<int>
    requires MoveAccepted(|q|, source, count, destination)
  {
    var block, rest := q[source..source + count], RemovedFrom(q, source, count);
    var at := if destination < source then destination else destination - count;
    rest[..at] + block + rest[at..]
  }

  /** The rotation a move makes. */
  function Turned(q: seq<int>, source: nat, count: nat, destination: nat): seq<int>
    requires MoveAccepted(|q|, source, count, destination)
  {
    var back := source > destination;
    Rotated(q, if back then destination else source, if back then source else source + count,
            if back then source + count else destination)
  }

  function Moved(s: State, source: int, count: int, destination: int): State {
    if MoveAccepted(|s.queue|, source, count, destination)
    then s.(queue := CutAndPaste(s.queue, source, count, destination)) else s
  }

  /** The two rotations are cut and paste. */
  lemma RotationIsCutAndPaste(q: seq<int>, source: nat, count: nat, destination: nat)
    requires MoveAccepted(|q|, source, count, destination)
    ensures CutAndPaste(q, source, count, destination) == Turned(q, source, count, destination)
  {
    var rest := RemovedFrom(q, source, count);
    if source > destination {
      assert rest[..destination] == q[..destination];
      assert rest[destination..] == q[destination..source] + q[source + count..];
    } else {
      assert rest[..destination - count] == q[..source] + q[source + count..destination];
      assert rest[destination - count..] == q[destination..];
    }
  }

  /** Where a move puts a row: the block starts where the row at the destination was, and the others close up. */
  function NewRow(source: nat, count: nat, destination: nat, row: nat): int {
    if source <= row < source + count then
      (if destination < source then destination else destination - count) + (row - source)
    else if destination <= row < source then row + count
    else if source + count <= row < destination then row - count
    else row
  }

  lemma MovedRow(q: seq<int>, source: nat, count: nat, destination: nat, row: nat)
    requires MoveAccepted(|q|, source, count, destination) && row < |q|
    ensures 0 <= NewRow(source, count, destination, row) < |CutAndPaste(q, source, count, destination)| == |q|
    ensures CutAndPaste(q, source, count, destination)[NewRow(source, count, destination, row)] == q[row]
  {
  }

  /** The same ids, each once, in some order. */
  ghost predicate SameIds(r: seq<int>, q: seq<int>) {
    Distinct(r) && forall x :: x in r <==> x in q
  }

  lemma MoveKeepsInv(s: State, source: int, count: int, destination: int)
    requires Inv(s)
    ensures Inv(Moved(s, source, count, destination))
  {
    if MoveAccepted(|s.queue|, source, count, destination) {
      RotationIsCutAndPaste(s.queue, source, count, destination);
      TurnedKeepsIds(s.queue, source, count, destination);
    }
  }

  lemma TurnedKeepsIds(q: seq<int>, source: nat, count: nat, destination: nat)
    requires MoveAccepted(|q|, source, count, destination) && Distinct(q)
    ensures SameIds(Turned(q, source, count, destination), q)
  {
    var back := source > destination;
    RotatedKeepsIds(q, if back then destination else source, if back then source else source + count,
                    if back then source + count else destination);
  }

  lemma RotatedKeepsIds(q: seq<int>, first: nat, middle: nat, last: nat)
    requires first <= middle <= last <= |q| && Distinct(q)
    ensures SameIds(Rotated(q, first, middle, last), q)
  {
    var r := Rotated(q, first, middle, last);
    forall i, j | 0 <= i < j < |r| ensures r[i] != r[j] {
      RotatedAt(q, first, middle, last, i);
      RotatedAt(q, first, middle, last, j);
      assert From(first, middle, last, i) != From(first, middle, last, j);
    }
    forall x ensures x in r <==> x in q {
      RotatedHas(q, first, middle, last, x);
    }
  }

  lemma RotatedHas(q: seq<int>, first: nat, middle: nat, last: nat, x: int)
    requires first <= middle <= last <= |q|
    ensures x in Rotated(q, first, middle, last) <==> x in q
  {
    var r := Rotated(q, first, middle, last);
    if x in r {
      var i :| 0 <= i < |r| && r[i] == x;
      RotatedAt(q, first, middle, last, i);
    }
    if x in q {
      var k :| 0 <= k < |q| && q[k] == x;
      var i := From(first, first + (last - middle), last, k);
      RotatedAt(q, first, middle, last, i);
      assert r[i] == x;
    }
  }

  /** Moving does not touch the current row number: the current id stays exactly if its row lies outside
      the rows that change place. */
  lemma MoveKeepsCurrentIff(s: State, source: int, count: int, destination: int)
    requires Inv(s) && HasCurrent(s) && MoveAccepted(|s.queue|, source, count, destination)
    ensures HasCurrent(Moved(s, source, count, destination))
    ensures CurrentId(Moved(s, source, count, destination)) == CurrentId(s) <==>
              if source > destination then !(destination <= s.current < source + count)
              else !(source <= s.current < destination)
  {
    RotationIsCutAndPaste(s.queue, source, count, destination);
    var back := source > destination;
    RotatedAt(s.queue, if back then destination else source, if back then source else source + count,
              if back then source + count else destination, s.current);
  }

  // --- Whole runs ---

  datatype Event =
    | Insert(pos: nat, ids: seq<int>)
    | Remove(first: nat, count: nat)
    | Move(source: int, size: int, destination: int)
    | Select(row: int)

  /** What callers must keep to: distinct ids to insert, rows to remove inside the list. */
  predicate Allowed(s: State, e: Event) {
    match e
    case Insert(_, ids) => Distinct(ids)
    case Remove(first, count) => first + count <= |s.queue|
    case _ => true
  }

  function Apply(s: State, e: Event): State
    requires Allowed(s, e)
  {
    match e
    case Insert(pos, ids) => Inserted(s, pos, ids)
    case Remove(first, count) => Removed(s, first, count)
    case Move(source, size, destination) => Moved(s, source, size, destination)
    case Select(row) => s.(current := row)
  }

  predicate Runnable(s: State, es: seq<Event>)
    decreases |es|
  {
    es == [] || (Allowed(s, es[0]) && Runnable(Apply(s, es[0]), es[1..]))
  }

  function Run(s: State, es: seq<Event>): State
    requires Runnable(s, es)
    decreases |es|
  {
    if es == [] then s else Run(Apply(s, es[0]), es[1..])
  }

  /** Every run keeps ids unique and the index equal to the ids. */
  lemma {:induction false} RunKeepsInv(s: State, es: seq<Event>)
    requires Inv(s) && Runnable(s, es)
    ensures Inv(Run(s, es))
    decreases |es|
  {
    if es != [] {
      match es[0] {
        case Insert(pos, ids) => FreshIsDistinct(s.known, ids); InsertKeepsInvIff(s, pos, ids);
        case Remove(first, count) => RemoveKeepsInv(s, first, count);
        case Move(source, size, destination) => MoveKeepsInv(s, source, size, destination);
        case Select(_) =>
      }
      RunKeepsInv(Apply(s, es[0]), es[1..]);
    }
  }

  /** A dynamic queue that advanced to `row` keeps one row before it. */
  function Trimmed(s: State, row: int): State {
    if 1 < row < |s.queue| then Removed(s, 0, row - 1) else s
  }

  lemma TrimKeepsCurrent(s: State)
    requires Inv(s) && 1 < s.current < |s.queue|
    ensures var t := Trimmed(s, s.current);
            && t.current == 1 && HasCurrent(t) && CurrentId(t) == CurrentId(s)
            && t.queue == s.queue[s.current - 1..]
  {
    RemoveKeepsCurrent(s, 0, s.current - 1);
    assert s.queue[..0] == [];
  }

  // --- The object ---

  class IdQueue {
    var queue: seq<int>
    var known: set<int>
    var current: int

    ghost function View(): State
      reads this
    {
      State(queue, known, current)
    }

    constructor ()
      ensures View() == State([], {}, -1) && Inv(View())
    {
      queue, known, current := [], {}, -1;
    }

    method Insert(pos: nat, ids: seq<int>) returns (added: nat)
      modifies this`queue, this`known
      ensures View() == old(Inserted(View(), pos, ids))
      ensures added == |queue| - |old(queue)|
    {
      if pos > |queue| {
        return 0;
      }
      var novel: seq<int> := [];
      var i := 0;
      while i < |ids|
        invariant i <= |ids| && novel == Fresh(known, ids[..i])
      {
        assert ids[..i + 1][..i] == ids[..i];
        if ids[i] !in known {
          novel := novel + [ids[i]];
        }
        i := i + 1;
      }
      assert ids[..i] == ids;
      added := |novel|;
      if novel == [] {
        assert queue[..pos] + novel + queue[pos..] == queue;
        assert known + Elements(novel) == known;
        return;
      }
      queue := queue[..pos] + novel + queue[pos..];
      known := known + Elements(novel);
    }

    /** The rows to remove lie in the list; beyond its end the program would leave its vector. */
    method RemoveRows(first: int, count: int) returns (removed: bool)
      requires count > 0 ==> 0 <= first && first + count <= |queue|
      modifies this
      ensures removed == (count > 0)
      ensures View() == if count > 0 then old(Removed(View(), first, count)) else old(View())
    {
      if count <= 0 {
        return false;
      }
      var last := first + count - 1;
      ghost var was, cut := known, queue[first..first + count];
      var row := first;
      while row < first + count
        invariant first <= row <= first + count && queue == old(queue) && current == old(current)
        invariant forall x :: x in known <==> x in was && x !in cut[..row - first]
      {
        assert cut[..row + 1 - first] == cut[..row - first] + [queue[row]];
        known := known - {queue[row]};
        row := row + 1;
      }
      assert cut[..count] == cut;
      assert forall x :: x in known <==> x in was - Elements(cut);
      assert known == was - Elements(cut);
      queue := queue[..first] + queue[first + count..];
      if current > last {
        current := current - count;
      } else if first <= current {
        current := -1;
      }
      return true;
    }

    method MoveRows(source: int, count: int, destination: int) returns (moved: bool)
      modifies this`queue
      ensures moved == MoveAccepted(|old(queue)|, source, count, destination)
      ensures View() == old(Moved(View(), source, count, destination))
    {
      if !MoveAccepted(|queue|, source, count, destination) {
        return false;
      }
      RotationIsCutAndPaste(queue, source, count, destination);
      if source > destination {
        queue := Rotated(queue, destination, source, source + count);
      } else {
        queue := Rotated(queue, source, source + count, destination);
      }
      return true;
    }

    /** Makes the row of an id current, if it has one. */
    method SelectId(id: int)
      modifies this`current
      ensures id !in queue ==> current == old(current)
      ensures id in queue ==> HasCurrent(View()) && queue[current] == id && id !in queue[..current]
    {
      var i := 0;
      while i < |queue|
        invariant i <= |queue| && id !in queue[..i] && current == old(current)
      {
        if queue[i] == id {
          current := i;
          return;
        }
        i := i + 1;
      }
    }

    /** A dynamic queue drops what lies further back than the previous row. */
    method OnCurrentIndexChanged(row: int)
      modifies this
      ensures View() == old(Trimmed(View(), row))
    {
      if 1 < row < |queue| {
        var _ := RemoveRows(0, row - 1);
      }
    }
  }
}
