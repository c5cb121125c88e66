/** The change runs between a shown snapshot of rows and a new reading of its source. */
module Projection {
  import opened Options

  datatype Row = Row(key: int, value: int)

  /** What is shown: rows, their content revisions, and the revision of the whole. */
  datatype Snapshot = Snapshot(rows: seq<Row>, versions: seq<nat>, revision: nat)

  /** An update of the rows index, …, index + count - 1. */
  datatype Run = Run(index: nat, count: nat)

  datatype Value = Value(index: nat, row: Row)

  datatype Outcome =
    | ValuesOnly(values: seq<Value>)
    | Full(rows: seq<Row>, versions: seq<nat>, changes: seq<Run>, reset: bool)

  predicate Proper(s: Snapshot) {
    |s.rows| == |s.versions|
  }

  predicate UniqueKeys(rows: seq<Row>) {
    forall i, j :: 0 <= i < j < |rows| ==> rows[i].key != rows[j].key
  }

  /** The last row with a key, -1 if there is none. */
  function IndexOfKey(rows: seq<Row>, key: int): (i: int)
    ensures -1 <= i < |rows|
    ensures i >= 0 ==> rows[i].key == key
    ensures forall k :: i < k < |rows| ==> rows[k].key != key
  {
    if rows == [] then -1
    else if rows[|rows| - 1].key == key then |rows| - 1
    else IndexOfKey(rows[..|rows| - 1], key)
  }

  // --- What the projection decides, row by row ---

  /** The request names rows inside a list of unchanged length. */
  predicate Partial(before: Snapshot, count: nat, first: int, last: int) {
    0 <= first <= last < count && count == |before.rows|
  }

  predicate Dirty(first: int, last: int, i: nat) {
    0 <= first <= i <= last
  }

  predicate Unchanged(before: Snapshot, source: seq<Row>, first: int, last: int, i: nat)
    requires i < |source|
  {
    var was := IndexOfKey(before.rows, source[i].key);
    was >= 0 && !Dirty(first, last, i) && before.rows[was] == source[i]
  }

  function Version(before: Snapshot, source: seq<Row>, first: int, last: int, i: nat): nat
    requires Proper(before) && i < |source|
  {
    if Unchanged(before, source, first, last, i)
    then before.versions[IndexOfKey(before.rows, source[i].key)] else before.revision + 1
  }

  function Versions(before: Snapshot, source: seq<Row>, first: int, last: int): seq<nat>
    requires Proper(before)
  {
    seq(|source|, (i: nat) requires i < |source| => Version(before, source, first, last, i))
  }

  function Marks(before: Snapshot, source: seq<Row>, first: int, last: int): (r: seq<bool>)
    ensures |r| == |source|
    ensures forall i :: 0 <= i < |source| ==> r[i] == !Unchanged(before, source, first, last, i)
  {
    seq(|source|, (i: nat) requires i < |source| => !Unchanged(before, source, first, last, i))
  }

  /** Another length, or another key at some index. */
  predicate Rekeyed(before: seq<Row>, source: seq<Row>) {
    |source| != |before| || exists i :: 0 <= i < |source| && source[i].key != before[i].key
  }

  predicate SameKeysWithin(before: seq<Row>, source: seq<Row>, begin: nat, end: nat)
    requires begin <= end <= |before| == |source|
  {
    forall i :: begin <= i < end ==> source[i].key == before[i].key
  }

  function ValuesOf(source: seq<Row>, begin: nat, end: nat): seq<Value>
    requires begin <= end <= |source|
  {
    seq(end - begin, (i: nat) requires i < end - begin => Value(begin + i, source[begin + i]))
  }

  /** Runs of marked indices, the last one extended or a new one begun. */
  function Runs(marks: seq<bool>): seq<Run> {
    if marks == [] then []
    else
      var n := |marks| - 1;
      Extended(Runs(marks[..n]), n, marks[n])
  }

  function Extended(runs: seq<Run>, index: nat, mark: bool): seq<Run> {
    if !mark then runs
    else if runs != [] && runs[|runs| - 1].index + runs[|runs| - 1].count == index
    then runs[|runs| - 1 := Run(runs[|runs| - 1].index, runs[|runs| - 1].count + 1)]
    else runs + [Run(index, 1)]
  }

  function Projected(before: Snapshot, source: seq<Row>, first: int, last: int): Outcome
    requires Proper(before)
  {
    if Partial(before, |source|, first, last) && SameKeysWithin(before.rows, source, first, last + 1)
    then ValuesOnly(ValuesOf(source, first, last + 1))
    else
      var reset := Rekeyed(before.rows, source);
      Full(source, Versions(before, source, first, last),
           if reset then [] else Runs(Marks(before, source, first, last)), reset)
  }

  /** How many rows are read before the outcome is known. */
  function Reads(before: Snapshot, source: seq<Row>, first: int, last: int): nat {
    if Partial(before, |source|, first, last) && SameKeysWithin(before.rows, source, first, last + 1)
    then last + 1 - first else |source|
  }

  // --- The runs are exact ---

  predicate Covers(runs: seq<Run>, i: int) {
    exists k :: 0 <= k < |runs| && runs[k].index <= i < runs[k].index + runs[k].count
  }

  /** Sorted, not empty, and with a gap between neighbours: disjoint and maximal. */
  predicate WellFormed(runs: seq<Run>, size: nat) {
    && (forall k :: 0 <= k < |runs| ==> runs[k].count > 0 && runs[k].index + runs[k].count <= size)
    && (forall j, k :: 0 <= j < k < |runs| ==> runs[j].index + runs[j].count < runs[k].index)
  }

  lemma ExtendedIsExact(runs: seq<Run>, index: nat, mark: bool, i: int)
    requires WellFormed(runs, index)
    ensures WellFormed(Extended(runs, index, mark), index + 1)
    ensures Covers(Extended(runs, index, mark), i) <==> Covers(runs, i) || (i == index && mark)
  {
    var r, n := Extended(runs, index, mark), |runs|;
    if mark {
      if n > 0 && runs[n - 1].index + runs[n - 1].count == index {
        assert forall k :: 0 <= k < n - 1 ==> r[k] == runs[k];
        if runs[n - 1].index <= i <= index {
          assert r[n - 1].index <= i < r[n - 1].index + r[n - 1].count;
        }
      } else {
        assert forall k :: 0 <= k < n ==> r[k] == runs[k];
        assert r[n] == Run(index, 1);
      }
      if Covers(runs, i) {
        var k :| 0 <= k < n && runs[k].index <= i < runs[k].index + runs[k].count;
        assert r[k].index <= i < r[k].index + r[k].count;
      }
    }
  }

  /** The runs cover exactly the marked indices. */
  lemma {:induction false} RunsAreExact(marks: seq<bool>, i: int)
    ensures WellFormed(Runs(marks), |marks|)
    ensures Covers(Runs(marks), i) <==> 0 <= i < |marks| && marks[i]
  {
    if marks != [] {
      var n := |marks| - 1;
      RunsAreExact(marks[..n], i);
      ExtendedIsExact(Runs(marks[..n]), n, marks[n], i);
    }
  }

  // --- Agreement with a full reading ---

  lemma OwnIndex(rows: seq<Row>, i: nat)
    requires UniqueKeys(rows) && i < |rows|
    ensures IndexOfKey(rows, rows[i].key) == i
  {
  }

  /** Without a reset every row is compared with the row that was shown in its place: it is unchanged
      exactly if it is neither dirty nor different. */
  lemma UnchangedInPlace(before: Snapshot, source: seq<Row>, first: int, last: int, i: nat)
    requires UniqueKeys(before.rows) && !Rekeyed(before.rows, source) && i < |source|
    ensures Unchanged(before, source, first, last, i) <==> !Dirty(first, last, i) && before.rows[i] == source[i]
  {
    OwnIndex(before.rows, i);
    assert source[i].key == before.rows[i].key;
  }

  /** A full outcome resets exactly if the length or the key at some index differs; otherwise its runs are
      sorted, disjoint and maximal and cover exactly the dirty or differing rows. These get the next
      revision, all others keep theirs. */
  lemma FullIsExact(before: Snapshot, source: seq<Row>, first: int, last: int, i: nat)
    requires Proper(before) && UniqueKeys(before.rows)
    requires Projected(before, source, first, last).Full? && i < |source|
    ensures var p := Projected(before, source, first, last);
            && p.rows == source && |p.versions| == |source|
            && (p.reset <==> Rekeyed(before.rows, source))
            && (p.reset ==> p.changes == [])
            && (!p.reset ==>
                  && WellFormed(p.changes, |source|)
                  && (Covers(p.changes, i) <==> Dirty(first, last, i) || before.rows[i] != source[i])
                  && p.versions[i] == if Covers(p.changes, i) then before.revision + 1 else before.versions[i])
  {
    if !Rekeyed(before.rows, source) {
      RunsAreExact(Marks(before, source, first, last), i);
      UnchangedInPlace(before, source, first, last, i);
      OwnIndex(before.rows, i);
    }
  }

  /** On a reset, a row that is found under its key with equal content keeps its revision wherever it went. */
  lemma ResetKeepsRevisions(before: Snapshot, source: seq<Row>, first: int, last: int, i: nat, k: nat)
    requires Proper(before) && UniqueKeys(before.rows)
    requires Projected(before, source, first, last).Full? && i < |source|
    requires k < |before.rows| && before.rows[k] == source[i] && !Dirty(first, last, i)
    ensures Projected(before, source, first, last).versions[i] == before.versions[k]
  {
    OwnIndex(before.rows, k);
  }

  /** A partial request with a new key inside its range ends in a reset. */
  lemma NewKeyInRangeResets(before: Snapshot, source: seq<Row>, first: int, last: int)
    requires Proper(before) && Partial(before, |source|, first, last)
    ensures var p := Projected(before, source, first, last);
            if SameKeysWithin(before.rows, source, first, last + 1) then p.ValuesOnly? else p.Full? && p.reset
  {
  }

  /** What is shown after the outcome was applied to the rows. */
  function Shown(rows: seq<Row>, outcome: Outcome): (r: seq<Row>)
    requires outcome.Full? && !outcome.reset ==> |outcome.rows| == |rows|
  {
    match outcome
    case ValuesOnly(values) =>
      seq(|rows|, (i: nat) requires i < |rows| => Latest(values, i, rows[i]))
    case Full(source, _, changes, reset) =>
      if reset then source
      else seq(|rows|, (i: nat) requires i < |rows| => if Covers(changes, i) then source[i] else rows[i])
  }

  function Latest(values: seq<Value>, i: nat, row: Row): Row {
    if values == [] then row
    else if values[|values| - 1].index == i then values[|values| - 1].row
    else Latest(values[..|values| - 1], i, row)
  }

  lemma {:induction false} LatestOf(source: seq<Row>, begin: nat, end: nat, i: nat, row: Row)
    requires begin <= end <= |source|
    ensures Latest(ValuesOf(source, begin, end), i, row) == if begin <= i < end then source[i] else row
    decreases end
  {
    if begin < end {
      assert ValuesOf(source, begin, end)[..end - 1 - begin] == ValuesOf(source, begin, end - 1);
      LatestOf(source, begin, end - 1, i, row);
    }
  }

  /** Rows with the same key are the same. */
  ghost predicate KeysDecide(rows: seq<Row>) {
    forall i, j :: 0 <= i < j < |rows| && rows[i].key == rows[j].key ==> rows[i] == rows[j]
  }

  ghost predicate ShowsSource(before: Snapshot, source: seq<Row>, first: int, last: int)
    requires Proper(before)
  {
    Projected(before, source, first, last).Full? ==>
      Shown(before.rows, Projected(before, source, first, last)) == source
  }

  /** After a full outcome the view shows the source, if rows shown under the same key are the same. */
  lemma FullShowsSource(before: Snapshot, source: seq<Row>, first: int, last: int)
    requires Proper(before) && KeysDecide(before.rows)
    ensures ShowsSource(before, source, first, last)
  {
    var p := Projected(before, source, first, last);
    if p.Full? && !p.reset {
      forall i | 0 <= i < |source|
        ensures Covers(p.changes, i) || before.rows[i] == source[i]
      {
        RunsAreExact(Marks(before, source, first, last), i);
        assert source[i].key == before.rows[i].key;
        if Unchanged(before, source, first, last, i) {
          var k := IndexOfKey(before.rows, source[i].key);
          assert before.rows[i] == before.rows[k];
        }
      }
    }
  }

  /** The row of an earlier occurrence of a key replaced by that of its last occurrence. */
  function Merged(rows: seq<Row>, i: nat): seq<Row>
    requires i < |rows|
  {
    rows[i := rows[IndexOfKey(rows, rows[i].key)]]
  }

  /** If a key's last row differs from an earlier one, a source that repeats the last row goes unnoticed. */
  lemma MergedGoesUnnoticed(before: Snapshot, i: nat)
    requires Proper(before) && i < |before.rows|
    requires before.rows[i] != before.rows[IndexOfKey(before.rows, before.rows[i].key)]
    ensures !ShowsSource(before, Merged(before.rows, i), -1, -1)
  {
    var source := Merged(before.rows, i);
    var p := Projected(before, source, -1, -1);
    assert forall k :: 0 <= k < |source| ==> source[k].key == before.rows[k].key;
    assert Unchanged(before, source, -1, -1, i);
    RunsAreExact(Marks(before, source, -1, -1), i);
    assert Shown(before.rows, p)[i] == before.rows[i] != source[i];
  }

  /** Every full outcome, for any source and range, shows its source if and only if rows that are shown
      under the same key are the same. */
  lemma FullShowsSourceIff(before: Snapshot)
    requires Proper(before)
    ensures (forall source, first, last :: ShowsSource(before, source, first, last)) <==> KeysDecide(before.rows)
  {
    if KeysDecide(before.rows) {
      forall source, first, last ensures ShowsSource(before, source, first, last) {
        FullShowsSource(before, source, first, last);
      }
    } else {
      var rows := before.rows;
      var i, j :| 0 <= i < j < |rows| && rows[i].key == rows[j].key && rows[i] != rows[j];
      var k := IndexOfKey(rows, rows[i].key);
      var other := if rows[i] != rows[k] then i else j;
      MergedGoesUnnoticed(before, other);
    }
  }

  /** After a values-only outcome the view shows the source exactly if nothing changed outside the range;
      the keys are those shown before. */
  lemma ValuesShowSourceIff(before: Snapshot, source: seq<Row>, first: int, last: int)
    requires Proper(before) && Projected(before, source, first, last).ValuesOnly?
    ensures var r := Shown(before.rows, Projected(before, source, first, last));
            && (r == source <==> forall i :: 0 <= i < |source| && !Dirty(first, last, i) ==> before.rows[i] == source[i])
            && |r| == |before.rows| && forall i :: 0 <= i < |r| ==> r[i].key == before.rows[i].key
  {
    var r := Shown(before.rows, Projected(before, source, first, last));
    forall i | 0 <= i < |source|
      ensures r[i] == if Dirty(first, last, i) then source[i] else before.rows[i]
    {
      LatestOf(source, first, last + 1, i, before.rows[i]);
    }
  }

  /** With a repeated key a change can go unnoticed: the last row of that key is compared instead. */
  lemma RepeatedKeyHidesChange()
    ensures var before := Snapshot([Row(1, 10), Row(1, 20)], [0, 0], 0);
            var source := [Row(1, 20), Row(1, 20)];
            && Proper(before) && Projected(before, source, -1, -1).Full?
            && Shown(before.rows, Projected(before, source, -1, -1)) == before.rows != source
  {
    var before := Snapshot([Row(1, 10), Row(1, 20)], [0, 0], 0);
    var source := [Row(1, 20), Row(1, 20)];
    assert IndexOfKey(before.rows, 1) == 1;
    assert Unchanged(before, source, -1, -1, 0) && Unchanged(before, source, -1, -1, 1);
    var marks := Marks(before, source, -1, -1);
    assert !Rekeyed(before.rows, source);
    RunsAreExact(marks, 0);
    RunsAreExact(marks, 1);
    assert before.rows[0] != source[0];
  }

  // --- The algorithm ---

  ghost predicate Indexes(indexes: map<int, int>, rows: seq<Row>) {
    && (forall key :: key in indexes <==> IndexOfKey(rows, key) >= 0)
    && (forall key :: key in indexes ==> indexes[key] == IndexOfKey(rows, key))
  }

  /** The key index of a snapshot; of rows with the same key the last one wins. */
  method BuildIndex(rows: seq<Row>) returns (indexes: map<int, int>)
    ensures Indexes(indexes, rows)
  {
    indexes := map[];
    var i := 0;
    while i < |rows|
      invariant i <= |rows| && Indexes(indexes, rows[..i])
    {
      assert rows[..i + 1][..i] == rows[..i];
      indexes := indexes[rows[i].key := i];
      i := i + 1;
    }
    assert rows[..i] == rows;
  }

  /** Reads rows [begin, end) while the request stays current; `patience` is how many more checks will
      find it so. */
  method Read(source: seq<Row>, begin: nat, end: nat, patience: nat) returns (rows: seq<Row>, left: int)
    requires begin <= end <= |source|
    ensures left == patience - (end - begin)
    ensures left >= 0 ==> rows == source[begin..end]
  {
    rows := [];
    left := patience - (end - begin);
    var index := begin;
    while index < end
      invariant begin <= index <= end && rows == source[begin..index] && index - begin <= patience
    {
      if index - begin == patience {
        return;
      }
      rows := rows + [source[index]];
      index := index + 1;
    }
  }

  method ProjectItemSource(before: Snapshot, source: seq<Row>, first: int, last: int, patience: nat)
    returns (outcome: Option<Outcome>)
    requires Proper(before)
    ensures outcome.None? <==> patience < Reads(before, source, first, last)
    ensures outcome.Some? ==> outcome.value == Projected(before, source, first, last)
  {
    var count := |source|;
    var partial := Partial(before, count, first, last);
    var begin, end := if partial then first else 0, if partial then last + 1 else count;
    var rows, left := Read(source, begin, end, patience);
    if left < 0 {
      return None;
    }
    var sameKeys := partial;
    var index := begin;
    while index < end
      invariant begin <= index <= end
      invariant partial ==> sameKeys == SameKeysWithin(before.rows, source, begin, index)
      invariant !partial ==> !sameKeys
    {
      if partial {
        sameKeys := sameKeys && source[index].key == before.rows[index].key;
      }
      index := index + 1;
    }
    if sameKeys {
      var values := Values(rows, begin);
      assert values == ValuesOf(source, begin, end);
      return Some(ValuesOnly(values));
    }
    if partial {
      var head, afterHead := Read(source, 0, begin, left);
      if afterHead < 0 {
        return None;
      }
      var tail, afterTail := Read(source, end, count, afterHead);
      if afterTail < 0 {
        return None;
      }
      rows := head + rows + tail;
    }
    assert rows == source;
    var full := Compare(before, source, first, last);
    return Some(full);
  }

  method Values(rows: seq<Row>, begin: nat) returns (values: seq<Value>)
    ensures |values| == |rows| && forall i :: 0 <= i < |rows| ==> values[i] == Value(begin + i, rows[i])
  {
    values := [];
    var i := 0;
    while i < |rows|
      invariant i <= |rows| && |values| == i
      invariant forall k :: 0 <= k < i ==> values[k] == Value(begin + k, rows[k])
    {
      values := values + [Value(begin + i, rows[i])];
      i := i + 1;
    }
  }

  /** Extends the last run if the index follows it, and begins a new one otherwise. */
  method AddChange(runs: seq<Run>, index: nat) returns (changes: seq<Run>)
    ensures changes == Extended(runs, index, true)
  {
    var n := |runs|;
    if n > 0 && runs[n - 1].index + runs[n - 1].count == index {
      changes := runs[n - 1 := Run(runs[n - 1].index, runs[n - 1].count + 1)];
    } else {
      changes := runs + [Run(index, 1)];
    }
  }

  lemma RunsStep(marks: seq<bool>, index: nat)
    requires index < |marks|
    ensures Runs(marks[..index + 1]) == Extended(Runs(marks[..index]), index, marks[index])
  {
    assert marks[..index + 1][..index] == marks[..index];
  }

  /** Whether a row is shown already under its key, and the revision it gets. */
  method CompareRow(before: Snapshot, indexes: map<int, int>, row: Row, dirty: bool) returns (same: bool, version: nat)
    requires Proper(before)
    requires Indexes(indexes, before.rows)
    ensures var k := IndexOfKey(before.rows, row.key);
            && same == (k >= 0 && !dirty && before.rows[k] == row)
            && version == if same then before.versions[k] else before.revision + 1
  {
    same := row.key in indexes && !dirty && before.rows[indexes[row.key]] == row;
    version := if same then before.versions[indexes[row.key]] else before.revision + 1;
  }

  lemma VersionsAre(before: Snapshot, source: seq<Row>, first: int, last: int, versions: seq<nat>)
    requires Proper(before) && |versions| == |source| && Revised(before, source, first, last, versions)
    ensures versions == Versions(before, source, first, last)
  {
  }

  /** The revisions of the first rows. */
  ghost predicate Revised(before: Snapshot, source: seq<Row>, first: int, last: int, versions: seq<nat>)
    requires Proper(before)
  {
    |versions| <= |source| && forall i :: 0 <= i < |versions| ==> versions[i] == Version(before, source, first, last, i)
  }

  lemma RevisedStep(before: Snapshot, source: seq<Row>, first: int, last: int, versions: seq<nat>, version: nat)
    requires Proper(before) && Revised(before, source, first, last, versions) && |versions| < |source|
    requires version == Version(before, source, first, last, |versions|)
    ensures Revised(before, source, first, last, versions + [version])
  {
  }

  /** Another length, or another key among the first rows. */
  ghost predicate Differs(before: seq<Row>, source: seq<Row>, n: nat)
    requires n <= |source|
  {
    |source| != |before| || exists i :: 0 <= i < n && source[i].key != before[i].key
  }

  lemma DiffersStep(before: seq<Row>, source: seq<Row>, n: nat)
    requires n < |source|
    ensures Differs(before, source, n + 1) ==
              (Differs(before, source, n) || n >= |before| || before[n].key != source[n].key)
    ensures Differs(before, source, |source|) == Rekeyed(before, source)
  {
  }

  /** What the comparing loop knows after the first `n` rows. */
  ghost predicate Compared(before: Snapshot, source: seq<Row>, first: int, last: int, n: nat,
                           versions: seq<nat>, changes: seq<Run>, reset: bool)
    requires Proper(before)
  {
    && n == |versions| <= |source| && Revised(before, source, first, last, versions)
    && changes == Runs(Marks(before, source, first, last)[..n])
    && reset == Differs(before.rows, source, n)
  }

  lemma ComparedAll(before: Snapshot, source: seq<Row>, first: int, last: int,
                    versions: seq<nat>, changes: seq<Run>, reset: bool)
    requires Proper(before) && Compared(before, source, first, last, |source|, versions, changes, reset)
    ensures versions == Versions(before, source, first, last)
    ensures changes == Runs(Marks(before, source, first, last)) && reset == Rekeyed(before.rows, source)
  {
    VersionsAre(before, source, first, last, versions);
    assert Marks(before, source, first, last)[..|source|] == Marks(before, source, first, last);
  }

  lemma ComparedStep(before: Snapshot, source: seq<Row>, first: int, last: int, n: nat,
                     versions: seq<nat>, changes: seq<Run>, reset: bool, version: nat)
    requires Proper(before) && Compared(before, source, first, last, n, versions, changes, reset) && n < |source|
    requires version == Version(before, source, first, last, n)
    ensures Compared(before, source, first, last, n + 1, versions + [version],
                     Extended(changes, n, !Unchanged(before, source, first, last, n)),
                     reset || n >= |before.rows| || before.rows[n].key != source[n].key)
  {
    RunsStep(Marks(before, source, first, last), n);
    DiffersStep(before.rows, source, n);
    RevisedStep(before, source, first, last, versions, version);
  }

  /** The comparing loop: versions, reset and change runs. */
  method Compare(before: Snapshot, source: seq<Row>, first: int, last: int) returns (full: Outcome)
    requires Proper(before)
    ensures full == Full(source, Versions(before, source, first, last),
                         if Rekeyed(before.rows, source) then [] else Runs(Marks(before, source, first, last)),
                         Rekeyed(before.rows, source))
  {
    var indexes := BuildIndex(before.rows);
    var versions: seq<nat>, changes: seq<Run> := [], [];
    var reset := |source| != |before.rows|;
    var index := 0;
    while index < |source|
      invariant index <= |source| && Compared(before, source, first, last, index, versions, changes, reset)
    {
      var row := source[index];
      var same, version := CompareRow(before, indexes, row, Dirty(first, last, index));
      ComparedStep(before, source, first, last, index, versions, changes, reset, version);
      versions := versions + [version];
      if index >= |before.rows| || before.rows[index].key != row.key {
        reset := true;
      }
      if !same {
        changes := AddChange(changes, index);
      }
      index := index + 1;
    }
    ComparedAll(before, source, first, last, versions, changes, reset);
    if reset {
      changes := [];
    }
    full := Full(source, versions, changes, reset);
  }
}
