/** The stable sort by a key, and what an ordered arrangement of some values is. */
module StableSort {

  function InsertedBy<T>(sorted: seq<T>, x: T, key: T -> int): seq<T> {
    if sorted == [] || key(sorted[|sorted| - 1]) <= key(x) then sorted + [x]
    else InsertedBy(sorted[..|sorted| - 1], x, key) + [sorted[|sorted| - 1]]
  }

  /** `sorted(xs, key=key)`. */
  function SortedBy<T>(xs: seq<T>, key: T -> int): seq<T> {
    if xs == [] then [] else InsertedBy(SortedBy(xs[..|xs| - 1], key), xs[|xs| - 1], key)
  }

  ghost predicate OrderedBy<T>(xs: seq<T>, key: T -> int) {
    forall i, j :: 0 <= i < j < |xs| ==> key(xs[i]) <= key(xs[j])
  }

  /** The same values, each as often. */
  ghost predicate Arrangement<T>(xs: seq<T>, ys: seq<T>) {
    multiset(xs) == multiset(ys)
  }

  ghost predicate KeysUpTo<T>(xs: seq<T>, key: T -> int, latest: int) {
    forall i :: 0 <= i < |xs| ==> key(xs[i]) <= latest
  }

  lemma {:induction false} InsertedIsOrdered<T>(sorted: seq<T>, x: T, key: T -> int, latest: int)
    requires OrderedBy(sorted, key) && KeysUpTo(sorted, key, latest) && key(x) <= latest
    ensures OrderedBy(InsertedBy(sorted, x, key), key) && KeysUpTo(InsertedBy(sorted, x, key), key, latest)
  {
    if sorted != [] && key(sorted[|sorted| - 1]) > key(x) {
      InsertedIsOrdered(sorted[..|sorted| - 1], x, key, key(sorted[|sorted| - 1]));
    }
  }

  lemma {:induction false} InsertedHolds<T>(sorted: seq<T>, x: T, key: T -> int)
    ensures multiset(InsertedBy(sorted, x, key)) == multiset(sorted) + multiset{x}
  {
    if sorted != [] && key(sorted[|sorted| - 1]) > key(x) {
      var n := |sorted| - 1;
      InsertedHolds(sorted[..n], x, key);
      assert sorted == sorted[..n] + [sorted[n]];
    }
  }

  lemma SortedIsOrdered<T>(xs: seq<T>, key: T -> int)
    ensures OrderedBy(SortedBy(xs, key), key)
  {
    if xs != [] {
      var sorted, x := SortedBy(xs[..|xs| - 1], key), xs[|xs| - 1];
      SortedIsOrdered(xs[..|xs| - 1], key);
      var latest := if sorted == [] || key(sorted[|sorted| - 1]) <= key(x) then key(x) else key(sorted[|sorted| - 1]);
      InsertedIsOrdered(sorted, x, key, latest);
    }
  }

  lemma {:induction false} SortedHolds<T>(xs: seq<T>, key: T -> int)
    ensures Arrangement(SortedBy(xs, key), xs)
  {
    if xs != [] {
      var n := |xs| - 1;
      SortedHolds(xs[..n], key);
      InsertedHolds(SortedBy(xs[..n], key), xs[n], key);
      assert xs == xs[..n] + [xs[n]];
    }
  }

  /** Sorting leaves an ordered sequence as it is. */
  lemma {:induction false} OrderedIsSorted<T>(xs: seq<T>, key: T -> int)
    requires OrderedBy(xs, key)
    ensures SortedBy(xs, key) == xs
  {
    if xs != [] {
      var n := |xs| - 1;
      OrderedIsSorted(xs[..n], key);
      assert xs == xs[..n] + [xs[n]];
    }
  }

  lemma MemberAt<T>(xs: seq<T>, ys: seq<T>, k: nat) returns (j: nat)
    requires Arrangement(xs, ys) && k < |xs|
    ensures j < |ys| && ys[j] == xs[k]
  {
    assert xs[k] in multiset(ys);
    j :| 0 <= j < |ys| && ys[j] == xs[k];
  }

  lemma ArrangementWithoutLast<T>(a: seq<T>, b: seq<T>)
    requires Arrangement(a, b) && a != [] && b != [] && a[|a| - 1] == b[|b| - 1]
    ensures Arrangement(a[..|a| - 1], b[..|b| - 1])
  {
    assert a == a[..|a| - 1] + [a[|a| - 1]] && b == b[..|b| - 1] + [b[|b| - 1]];
    assert multiset(a[..|a| - 1]) == multiset(a) - multiset{a[|a| - 1]};
    assert multiset(b[..|b| - 1]) == multiset(b) - multiset{b[|b| - 1]};
  }

  lemma SameLength<T>(a: seq<T>, b: seq<T>)
    requires Arrangement(a, b)
    ensures |a| == |b|
  {
    assert |multiset(a)| == |multiset(b)|;
  }
}
