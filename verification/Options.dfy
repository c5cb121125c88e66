/** Optional values and outcomes shared by every component model. */
module Options {
  datatype Option<+T> = None | Some(value: T)

  datatype Result<+T, +E> = Ok(value: T) | Err(error: E)

  /** Some element of a set: the order in which a hash table yields its entries is unspecified. */
  method Pick<T>(s: set<T>) returns (x: T)
    requires s != {}
    ensures x in s
  {
    x :| x in s;
  }

  /** Some element of a set, in a proof. */
  ghost function Any<T>(s: set<T>): (x: T)
    requires s != {}
    ensures x in s
  {
    var x :| x in s;
    x
  }

  function Elements(s: seq<int>): (r: set<int>)
    ensures forall x :: x in r <==> x in s
  {
    set x | x in s
  }

  /** No element occurs twice. */
  predicate Distinct<T(==)>(s: seq<T>) {
    forall i, j :: 0 <= i < j < |s| ==> s[i] != s[j]
  }

  lemma PrefixStep<T>(s: seq<T>, i: nat)
    requires i < |s|
    ensures s[..i + 1] == s[..i] + [s[i]]
  {
  }

  lemma ElementsStep(s: seq<int>, i: nat)
    requires i < |s|
    ensures Elements(s[..i + 1]) == Elements(s[..i]) + {s[i]}
  {
    PrefixStep(s, i);
    assert forall x :: x in Elements(s[..i + 1]) <==> x in Elements(s[..i]) + {s[i]};
  }

  /** The position of the first occurrence of `x`. */
  function IndexOf<T(==)>(xs: seq<T>, x: T): (i: nat)
    requires x in xs
    ensures i < |xs| && xs[i] == x
  {
    if xs[0] == x then 0 else 1 + IndexOf(xs[1..], x)
  }

  lemma {:induction false} IndexOfDistinct<T>(xs: seq<T>, i: nat)
    requires i < |xs| && Distinct(xs)
    ensures IndexOf(xs, xs[i]) == i
  {
    if i > 0 {
      assert xs[1..][i - 1] == xs[i];
      IndexOfDistinct(xs[1..], i - 1);
    }
  }

  /** The position of the last occurrence of `x`. */
  function LastIndex<T(==)>(xs: seq<T>, x: T): (i: nat)
    requires x in xs
    ensures i < |xs| && xs[i] == x && forall k :: i < k < |xs| ==> xs[k] != x
  {
    if xs[|xs| - 1] == x then |xs| - 1
    else
      assert xs == xs[..|xs| - 1] + [xs[|xs| - 1]];
      LastIndex(xs[..|xs| - 1], x)
  }

  lemma {:induction false} DistinctSize(list: seq<int>)
    requires Distinct(list)
    ensures |Elements(list)| == |list|
  {
    if list != [] {
      var n := |list| - 1;
      DistinctSize(list[..n]);
      assert list == list[..n] + [list[n]];
      assert list[n] !in list[..n];
      assert forall x :: x in Elements(list) <==> x in Elements(list[..n]) + {list[n]};
      assert Elements(list) == Elements(list[..n]) + {list[n]};
    } else {
      assert Elements(list) == {};
    }
  }
}
