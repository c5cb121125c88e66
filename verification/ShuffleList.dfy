/** The shuffle list of the play queue: a permutation of the source rows and its inverse. */
module ShuffleList {
  import opened Options

  /** Every row below the length exactly once. */
  ghost predicate Permutation(list: seq<int>) {
    && (forall i :: 0 <= i < |list| ==> 0 <= list[i] < |list|)
    && Distinct(list)
  }

  /** `inverse` takes every element to its position, and nothing else. */
  ghost predicate InverseOf(inverse: map<int, int>, list: seq<int>) {
    && (forall i :: 0 <= i < |list| ==> list[i] in inverse && inverse[list[i]] == i)
    && (forall x :: x in inverse ==> x in list)
  }

  // --- Permutations hit every row ---

  function Upto(n: nat): (r: set<int>)
    ensures forall x :: x in r <==> 0 <= x < n
    ensures |r| == n
  {
    if n == 0 then {} else Upto(n - 1) + {n - 1}
  }

  lemma SubsetOfSameSize(a: set<int>, b: set<int>)
    requires a <= b && |a| == |b|
    ensures a == b
  {
    assert b == a + (b - a);
    assert |b| == |a| + |b - a|;
    assert b - a == {};
  }

  /** A permutation contains every row. */
  lemma HitsEveryRow(list: seq<int>, x: int)
    requires Permutation(list)
    ensures x in list <==> 0 <= x < |list|
  {
    DistinctSize(list);
    SubsetOfSameSize(Elements(list), Upto(|list|));
    assert x in Elements(list) <==> x in Upto(|list|);
  }

  // --- Swapping, shuffling, moving the first row to the front ---

  function Swapped(list: seq<int>, i: nat, j: nat): (r: seq<int>)
    requires i < |list| && j < |list|
    ensures |r| == |list| && r[i] == list[j] && r[j] == list[i]
    ensures forall k :: 0 <= k < |list| && k != i && k != j ==> r[k] == list[k]
  {
    list[i := list[j]][j := list[i]]
  }

  /** `b` rearranges `a` from position `from` on. */
  ghost predicate Rearranged(a: seq<int>, b: seq<int>, from: nat) {
    && |a| == |b| && from <= |a| && b[..from] == a[..from]
    && (Permutation(a) ==> Permutation(b))
  }

  lemma SwapKeepsPermutation(list: seq<int>, i: nat, j: nat)
    requires i < |list| && j < |list| && Permutation(list)
    ensures Permutation(Swapped(list, i, j))
  {
    var r := Swapped(list, i, j);
    var at := k => if k == i then j else if k == j then i else k;
    forall a, b | 0 <= a < b < |r| ensures r[a] != r[b] {
      assert r[a] == list[at(a)] && r[b] == list[at(b)] && at(a) != at(b);
    }
  }

  lemma SwapRearranges(a: seq<int>, list: seq<int>, from: nat, i: nat, j: nat)
    requires Rearranged(a, list, from) && from <= i < |list| && from <= j < |list|
    ensures Rearranged(a, Swapped(list, i, j), from)
  {
    if Permutation(a) {
      SwapKeepsPermutation(list, i, j);
    }
    assert Swapped(list, i, j)[..from] == list[..from];
  }

  /** Each draw for position `i` in the range lies between the beginning of the range and `i`. */
  predicate PicksFit(picks: seq<nat>, from: nat, end: nat) {
    |picks| >= end && forall i :: from <= i < end ==> from <= picks[i] <= i
  }

  /** Positions from `from` to `end` - 1 were shuffled in turn, each with its draw. */
  function Shuffled(list: seq<int>, from: nat, end: nat, picks: seq<nat>): (r: seq<int>)
    requires end <= |list| && PicksFit(picks, from, end)
    ensures |r| == |list|
    decreases end
  {
    if end <= from then list
    else Swapped(Shuffled(list, from, end - 1, picks), end - 1, picks[end - 1])
  }

  lemma {:induction false} ShuffledRearranges(list: seq<int>, from: nat, end: nat, picks: seq<nat>)
    requires from <= |list| && end <= |list| && PicksFit(picks, from, end)
    ensures Rearranged(list, Shuffled(list, from, end, picks), from)
    decreases end
  {
    if end > from {
      ShuffledRearranges(list, from, end - 1, picks);
      SwapRearranges(list, Shuffled(list, from, end - 1, picks), from, end - 1, picks[end - 1]);
    }
  }

  // --- The inverse ---

  /** Where each element stands; of equal ones the last. */
  function Inverse(list: seq<int>): map<int, int> {
    map x | x in list :: LastIndex(list, x)
  }

  lemma InverseStep(list: seq<int>, row: nat)
    requires row < |list|
    ensures Inverse(list[..row + 1]) == Inverse(list[..row])[list[row] := row]
  {
    var a, b := Inverse(list[..row + 1]), Inverse(list[..row])[list[row] := row];
    PrefixStep(list, row);
    assert list[..row + 1][..row] == list[..row];
    assert forall x :: x in a <==> x in b;
    assert forall x :: x in a ==> a[x] == b[x];
    assert a == b;
  }

  lemma InverseIsInverse(list: seq<int>)
    ensures Distinct(list) ==> InverseOf(Inverse(list), list)
  {
    if Distinct(list) {
      forall i | 0 <= i < |list| ensures Inverse(list)[list[i]] == i {
        var k := LastIndex(list, list[i]);
        assert list[k] == list[i];
      }
    }
  }

  lemma EmptyInverse(inverse: map<int, int>)
    requires InverseOf(inverse, [])
    ensures inverse == Inverse([])
  {
    assert forall x :: x in inverse <==> x in Inverse([]);
  }

  // --- Growing ---

  function Grown(list: seq<int>, count: nat): (r: seq<int>)
    requires |list| <= count
    ensures |r| == count && list <= r
    ensures forall i :: |list| <= i < count ==> r[i] == i
  {
    list + seq(count - |list|, i => |list| + i)
  }

  lemma GrownIsPermutation(list: seq<int>, count: nat)
    requires Permutation(list) && |list| <= count
    ensures Permutation(Grown(list, count))
  {
  }

  // --- Shrinking ---

  /** How many of the first `i` elements lie beyond the last row of a queue of `count` rows. */
  function Beyond(list: seq<int>, count: nat, i: nat): (r: nat)
    requires i <= |list|
    ensures r <= i
  {
    if i == 0 then 0 else Beyond(list, count, i - 1) + if list[i - 1] >= count then 1 else 0
  }

  /** Between two positions the number grows by at most one per element. */
  lemma {:induction false} BeyondBetween(list: seq<int>, count: nat, p: nat, q: nat)
    requires p <= q <= |list|
    ensures 0 <= Beyond(list, count, q) - Beyond(list, count, p) <= q - p
    ensures (forall i :: p <= i < q ==> list[i] < count) ==> Beyond(list, count, q) == Beyond(list, count, p)
    ensures (forall i :: p <= i < q ==> list[i] >= count) ==> Beyond(list, count, q) == Beyond(list, count, p) + q - p
    ensures (exists i :: p <= i < q && list[i] < count) ==> Beyond(list, count, q) < Beyond(list, count, p) + q - p
    ensures (exists i :: p <= i < q && list[i] >= count) ==> Beyond(list, count, q) > Beyond(list, count, p)
    decreases q
  {
    if p < q {
      BeyondBetween(list, count, p, q - 1);
    }
  }

  function BeyondSet(list: seq<int>, count: nat, i: nat): (r: set<int>)
    requires i <= |list|
    ensures forall x :: x in r <==> x in list[..i] && x >= count
  {
    set x | x in list[..i] && x >= count
  }

  lemma BeyondSetStep(list: seq<int>, count: nat, i: nat)
    requires Distinct(list) && 0 < i <= |list|
    ensures list[i - 1] !in BeyondSet(list, count, i - 1)
    ensures BeyondSet(list, count, i) ==
            BeyondSet(list, count, i - 1) + if list[i - 1] >= count then {list[i - 1]} else {}
  {
    var before, after, last := BeyondSet(list, count, i - 1), BeyondSet(list, count, i), list[i - 1];
    assert list[..i] == list[..i - 1] + [last];
    assert forall x :: x in after <==> x in before || (x == last && x >= count);
  }

  lemma {:induction false} BeyondIsSize(list: seq<int>, count: nat, i: nat)
    requires Distinct(list) && i <= |list|
    ensures Beyond(list, count, i) == |BeyondSet(list, count, i)|
    decreases i
  {
    if i == 0 {
      assert BeyondSet(list, count, 0) == {};
    } else {
      BeyondIsSize(list, count, i - 1);
      BeyondSetStep(list, count, i);
    }
  }

  /** A permutation has exactly as many elements beyond as rows were removed. */
  lemma BeyondInAll(list: seq<int>, count: nat)
    requires Permutation(list) && count <= |list|
    ensures Beyond(list, count, |list|) == |list| - count
  {
    BeyondIsSize(list, count, |list|);
    var beyond := BeyondSet(list, count, |list|);
    assert list[..|list|] == list;
    forall x ensures x in beyond <==> x in Upto(|list|) - Upto(count) {
      HitsEveryRow(list, x);
    }
    assert beyond == Upto(|list|) - Upto(count);
    assert Upto(count) <= Upto(|list|);
    assert |Upto(|list|) - Upto(count)| == |Upto(|list|)| - |Upto(count)|;
  }

  /** The replacements for the first `count` positions are taken from the tail. */
  lemma TailIsLongEnough(list: seq<int>, count: nat, i: nat)
    requires Permutation(list) && i < count <= |list| && list[i] >= count
    ensures count <= |list| - 1 - Beyond(list, count, i)
  {
    BeyondInAll(list, count);
    BeyondBetween(list, count, i, i + 1);
    BeyondBetween(list, count, i + 1, |list|);
  }

  /** What shrinking leaves: each element beyond is replaced by the next one from the end. */
  function Shrunk(list: seq<int>, count: nat): (r: seq<int>)
    requires count <= |list|
    requires forall i :: 0 <= i < count && list[i] >= count ==> count <= |list| - 1 - Beyond(list, count, i)
    ensures |r| == count
    ensures forall i :: 0 <= i < count ==> r[i] == Replacement(list, count, i)
  {
    seq(count, (i: nat) requires i < count => Replacement(list, count, i))
  }

  /** The position from which position `i` gets its element. */
  function Origin(list: seq<int>, count: nat, i: nat): int
    requires i < count <= |list|
  {
    if list[i] < count then i else |list| - 1 - Beyond(list, count, i)
  }

  lemma OriginsDiffer(list: seq<int>, count: nat, i: nat, j: nat)
    requires Shrinkable(list, count) && i < j < count
    ensures Origin(list, count, i) != Origin(list, count, j)
    ensures 0 <= Origin(list, count, i) < |list|
  {
    BeyondBetween(list, count, i, i + 1);
    BeyondBetween(list, count, i + 1, j);
  }

  function Replacement(list: seq<int>, count: nat, i: nat): int
    requires i < count <= |list|
    requires list[i] >= count ==> count <= |list| - 1 - Beyond(list, count, i)
  {
    list[Origin(list, count, i)]
  }

  ghost predicate Shrinkable(list: seq<int>, count: nat) {
    && count <= |list|
    && forall i :: 0 <= i < count && list[i] >= count ==> count <= |list| - 1 - Beyond(list, count, i)
  }

  lemma PermutationIsShrinkable(list: seq<int>, count: nat)
    requires Permutation(list) && count <= |list|
    ensures Shrinkable(list, count)
  {
    forall i | 0 <= i < count && list[i] >= count ensures count <= |list| - 1 - Beyond(list, count, i) {
      TailIsLongEnough(list, count, i);
    }
  }

  /** What the shrinking loop does at position `i`, given how many elements it replaced before each. */
  ghost predicate Replaces(list: seq<int>, target: seq<int>, seen: seq<nat>, i: nat)
    requires i < |target| < |list| && |seen| == |target| + 1
  {
    if list[i] < |target| then target[i] == list[i] && seen[i + 1] == seen[i]
    else
      && |target| <= |list| - 1 - seen[i] && target[i] == list[|list| - 1 - seen[i]]
      && seen[i + 1] == seen[i] + 1
  }

  ghost predicate Plan(list: seq<int>, target: seq<int>, seen: seq<nat>) {
    && |target| < |list| && |seen| == |target| + 1 && seen[0] == 0
    && forall i :: 0 <= i < |target| ==> Replaces(list, target, seen, i)
  }

  lemma ShrinkingPlan(list: seq<int>, count: nat) returns (seen: seq<nat>)
    requires Permutation(list) && count < |list|
    ensures Shrinkable(list, count) && Plan(list, Shrunk(list, count), seen)
  {
    PermutationIsShrinkable(list, count);
    seen := seq(count + 1, (i: nat) requires i <= count => Beyond(list, count, i));
    forall i | 0 <= i < count ensures Replaces(list, Shrunk(list, count), seen, i) {
      assert Shrunk(list, count)[i] == Replacement(list, count, i);
    }
  }

  lemma PermutationIsShrinkableTo(list: seq<int>, rows: nat)
    requires Permutation(list)
    ensures |list| > rows ==> Shrinkable(list, rows)
  {
    if |list| > rows { PermutationIsShrinkable(list, rows); }
  }

  /** In the tail that is cut off no remaining row comes before a removed one. */
  predicate TailSorted(list: seq<int>, count: nat) {
    forall i, j :: 0 <= count <= i < j < |list| && list[i] < count ==> list[j] < count
  }

  /** With a sorted tail, everything that serves as a replacement is a remaining row. */
  lemma SortedTailReplaces(list: seq<int>, count: nat, i: nat)
    requires Permutation(list) && i < count <= |list| && list[i] >= count && TailSorted(list, count)
    ensures count <= |list| - 1 - Beyond(list, count, i) && list[|list| - 1 - Beyond(list, count, i)] < count
  {
    TailIsLongEnough(list, count, i);
    var p := |list| - 1 - Beyond(list, count, i);
    if list[p] >= count {
      BeyondInAll(list, count);
      assert forall j :: count <= j < p + 1 ==> list[j] >= count;
      BeyondBetween(list, count, i, i + 1);
      BeyondBetween(list, count, i + 1, count);
      BeyondBetween(list, count, count, p + 1);
      BeyondBetween(list, count, p + 1, |list|);
      assert false;
    }
  }

  /** Some element beyond is preceded by exactly `k` of them. */
  lemma {:induction false} NthBeyond(list: seq<int>, count: nat, n: nat, k: nat) returns (i: nat)
    requires n <= |list| && k < Beyond(list, count, n)
    ensures i < n && list[i] >= count && Beyond(list, count, i) == k
    decreases n
  {
    if k < Beyond(list, count, n - 1) {
      i := NthBeyond(list, count, n - 1, k);
    } else {
      i := n - 1;
    }
  }

  lemma UnsortedTailLeavesHole(list: seq<int>, count: nat)
    requires Permutation(list) && Shrinkable(list, count) && Permutation(Shrunk(list, count))
    ensures TailSorted(list, count)
  {
    var n, b := |list|, Beyond(list, count, count);
    BeyondInAll(list, count);
    forall i, j | 0 <= count <= i < j < n && list[i] < count ensures list[j] < count {
      if list[j] >= count {
        BeyondBetween(list, count, count, n);
        // The last `b` elements all serve as replacements.
        forall p | n - b <= p < n ensures list[p] < count {
          var k := NthBeyond(list, count, count, n - 1 - p);
          assert Shrunk(list, count)[k] == list[p];
        }
        assert j < n - b;
        BeyondBetween(list, count, count, n - b);
        BeyondBetween(list, count, n - b, n);
        assert false;
      }
    }
  }

  lemma SortedTailShrinks(list: seq<int>, count: nat)
    requires Permutation(list) && Shrinkable(list, count) && TailSorted(list, count)
    ensures Permutation(Shrunk(list, count))
  {
    var r, n := Shrunk(list, count), |list|;
    forall i | 0 <= i < count ensures 0 <= r[i] < count {
      if list[i] >= count { SortedTailReplaces(list, count, i); }
    }
    forall i, j | 0 <= i < j < count ensures r[i] != r[j] {
      OriginsDiffer(list, count, i, j);
      assert r[i] == Replacement(list, count, i) && r[j] == Replacement(list, count, j);
    }
  }

  /** Shrinking a permutation of the old rows gives a permutation of the remaining ones exactly if in the
      part that is cut off no remaining row stands before a removed one. */
  lemma ShrinkIsPermutationIff(list: seq<int>, count: nat)
    requires Permutation(list) && count <= |list|
    ensures Shrinkable(list, count)
    ensures Permutation(Shrunk(list, count)) <==> TailSorted(list, count)
  {
    PermutationIsShrinkable(list, count);
    if TailSorted(list, count) {
      SortedTailShrinks(list, count);
    }
    if Permutation(Shrunk(list, count)) {
      UnsortedTailLeavesHole(list, count);
    }
  }

  /** Removing one row, or all, always works. */
  lemma OneRowShrinks(list: seq<int>, count: nat)
    requires Permutation(list) && count <= |list| && (count + 1 >= |list| || count == 0)
    ensures Shrinkable(list, count) && Permutation(Shrunk(list, count))
  {
    PermutationIsShrinkable(list, count);
    if count > 0 { SortedTailShrinks(list, count); }
  }

  /** Removing two of four rows can leave a removed row in the list. */
  lemma TwoRowsCanFail()
    ensures Permutation([3, 0, 1, 2]) && Shrinkable([3, 0, 1, 2], 2)
    ensures Shrunk([3, 0, 1, 2], 2) == [2, 0] && !Permutation(Shrunk([3, 0, 1, 2], 2))
  {
    var list := [3, 0, 1, 2];
    PermutationIsShrinkable(list, 2);
    assert Beyond(list, 2, 0) == 0;
    assert Shrunk(list, 2) == [2, 0];
    assert [2, 0][0] == 2;
  }
}
