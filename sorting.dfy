/**
 * `Vec::sort_by` (a stable sort) and `Vec::dedup_by` (keep the first of each run of
 * equal neighbours), both in place. Elements are compared through a key:
 * `lt(key(x), key(y))` means that `x` sorts strictly before `y`.
 * `Sort` and `Dedup` are the specifications; `SortInPlace` and `DedupInPlace`
 * work on an array and are proved equal to them.
 */
module Sorting {

  /** An order that a sort by comparator can use: asymmetric, and "not before" is transitive. */
  ghost predicate StrictWeakOrder<K(!new)>(lt: (K, K) -> bool) {
    && (forall a, b :: lt(a, b) ==> !lt(b, a))
    && (forall a, b, c :: !lt(a, b) && !lt(b, c) ==> !lt(a, c))
  }

  /** A strict weak order in which only equal keys are unordered. */
  ghost predicate StrictTotalOrder<K(!new)>(lt: (K, K) -> bool) {
    && StrictWeakOrder(lt)
    && (forall a, b :: lt(a, b) || lt(b, a) || a == b)
  }

  /** No element sorts strictly before an earlier one. */
  ghost predicate SortedBy<T, K>(s: seq<T>, key: T -> K, lt: (K, K) -> bool) {
    forall i, j :: 0 <= i < j < |s| ==> !lt(key(s[j]), key(s[i]))
  }

  /** Each element sorts strictly before every later one. */
  ghost predicate StrictlySortedBy<T, K>(s: seq<T>, key: T -> K, lt: (K, K) -> bool) {
    forall i, j :: 0 <= i < j < |s| ==> lt(key(s[i]), key(s[j]))
  }

  /** Insert `x` behind every element it does not sort strictly before. */
  function Insert<T, K>(s: seq<T>, x: T, key: T -> K, lt: (K, K) -> bool): seq<T> {
    if s == [] || !lt(key(x), key(s[|s| - 1])) then s + [x]
    else Insert(s[..|s| - 1], x, key, lt) + [s[|s| - 1]]
  }

  /** Stable insertion sort. */
  function Sort<T, K>(s: seq<T>, key: T -> K, lt: (K, K) -> bool): seq<T> {
    if s == [] then [] else Insert(Sort(s[..|s| - 1], key, lt), s[|s| - 1], key, lt)
  }

  /** The elements of `s` whose key is `k`, in order. */
  function Filter<T, K(==)>(s: seq<T>, key: T -> K, k: K): seq<T> {
    if s == [] then []
    else Filter(s[..|s| - 1], key, k) + (if key(s[|s| - 1]) == k then [s[|s| - 1]] else [])
  }

  /** Drop every element whose key equals that of the element before it. */
  function Dedup<T, K(==)>(s: seq<T>, key: T -> K): seq<T> {
    if |s| <= 1 then s
    else if key(s[|s| - 1]) == key(s[|s| - 2]) then Dedup(s[..|s| - 1], key)
    else Dedup(s[..|s| - 1], key) + [s[|s| - 1]]
  }

  /** The set of keys that occur in `s`. */
  function Keys<T(==), K(==)>(s: seq<T>, key: T -> K): set<K> {
    set x | x in s :: key(x)
  }

  // ----- Sort -----

  lemma {:induction false} InsertPermutes<T, K>(s: seq<T>, x: T, key: T -> K, lt: (K, K) -> bool)
    ensures multiset(Insert(s, x, key, lt)) == multiset(s) + multiset{x}
  {
    if s != [] && lt(key(x), key(s[|s| - 1])) {
      InsertPermutes(s[..|s| - 1], x, key, lt);
      assert s == s[..|s| - 1] + [s[|s| - 1]];
    }
  }

  /** Sorting rearranges the elements and keeps every one of them. */
  lemma {:induction false} SortPermutes<T, K>(s: seq<T>, key: T -> K, lt: (K, K) -> bool)
    ensures multiset(Sort(s, key, lt)) == multiset(s)
    ensures |Sort(s, key, lt)| == |s|
  {
    if s != [] {
      SortPermutes(s[..|s| - 1], key, lt);
      InsertPermutes(Sort(s[..|s| - 1], key, lt), s[|s| - 1], key, lt);
      assert s == s[..|s| - 1] + [s[|s| - 1]];
    }
    assert |multiset(Sort(s, key, lt))| == |multiset(s)|;
  }

  lemma {:induction false} InsertSorted<T, K(!new)>(s: seq<T>, x: T, key: T -> K, lt: (K, K) -> bool)
    requires StrictWeakOrder(lt)
    requires SortedBy(s, key, lt)
    ensures SortedBy(Insert(s, x, key, lt), key, lt)
  {
    if s != [] && lt(key(x), key(s[|s| - 1])) {
      var init, last := s[..|s| - 1], s[|s| - 1];
      InsertSorted(init, x, key, lt);
      var u := Insert(init, x, key, lt);
      InsertPermutes(init, x, key, lt);
      forall i | 0 <= i < |u|
        ensures !lt(key(last), key(u[i]))
      {
        assert u[i] in multiset(u);
        if u[i] != x {
          assert u[i] in multiset(init);
          var j :| 0 <= j < |init| && init[j] == u[i];
          assert s[j] == u[i];
        }
      }
    } else if s != [] {
      var last := s[|s| - 1];
      forall i | 0 <= i < |s|
        ensures !lt(key(x), key(s[i]))
      {
        if i < |s| - 1 {
          assert !lt(key(last), key(s[i]));
        }
      }
    }
  }

  /** The result of `Sort` is sorted. */
  lemma {:induction false} SortSorts<T, K(!new)>(s: seq<T>, key: T -> K, lt: (K, K) -> bool)
    requires StrictWeakOrder(lt)
    ensures SortedBy(Sort(s, key, lt), key, lt)
  {
    if s != [] {
      SortSorts(s[..|s| - 1], key, lt);
      InsertSorted(Sort(s[..|s| - 1], key, lt), s[|s| - 1], key, lt);
    }
  }

  lemma {:induction false} InsertFilter<T, K(!new)>(s: seq<T>, x: T, key: T -> K, lt: (K, K) -> bool, k: K)
    requires StrictWeakOrder(lt)
    ensures Filter(Insert(s, x, key, lt), key, k) == Filter(s, key, k) + (if key(x) == k then [x] else [])
  {
    if s != [] && lt(key(x), key(s[|s| - 1])) {
      var init, last := s[..|s| - 1], s[|s| - 1];
      var u := Insert(init, x, key, lt);
      InsertFilter(init, x, key, lt, k);
      assert (u + [last])[..|u|] == u;
    } else {
      assert (s + [x])[..|s|] == s;
    }
  }

  /** Sorting is stable: the elements that share a key keep their relative order. */
  lemma {:induction false} SortIsStable<T, K(!new)>(s: seq<T>, key: T -> K, lt: (K, K) -> bool, k: K)
    requires StrictWeakOrder(lt)
    ensures Filter(Sort(s, key, lt), key, k) == Filter(s, key, k)
  {
    if s != [] {
      SortIsStable(s[..|s| - 1], key, lt, k);
      InsertFilter(Sort(s[..|s| - 1], key, lt), s[|s| - 1], key, lt, k);
    }
  }

  lemma {:induction false} InsertKeepsDistinct<T, K, L>(s: seq<T>, x: T, key: T -> K, lt: (K, K) -> bool, f: T -> L)
    requires forall i, j :: 0 <= i < j < |s| ==> f(s[i]) != f(s[j])
    requires forall i :: 0 <= i < |s| ==> f(s[i]) != f(x)
    ensures forall i, j :: 0 <= i < j < |Insert(s, x, key, lt)| ==>
      f(Insert(s, x, key, lt)[i]) != f(Insert(s, x, key, lt)[j])
  {
    if s != [] && lt(key(x), key(s[|s| - 1])) {
      var init, last := s[..|s| - 1], s[|s| - 1];
      InsertKeepsDistinct(init, x, key, lt, f);
      var u := Insert(init, x, key, lt);
      InsertPermutes(init, x, key, lt);
      forall i | 0 <= i < |u|
        ensures f(u[i]) != f(last)
      {
        assert u[i] in multiset(u);
        if u[i] != x {
          assert u[i] in multiset(init);
          var j :| 0 <= j < |init| && init[j] == u[i];
          assert s[j] == u[i];
        }
      }
    }
  }

  /** Sorting keeps a property that tells all elements apart (for instance a unique name). */
  lemma {:induction false} SortKeepsDistinct<T, K, L>(s: seq<T>, key: T -> K, lt: (K, K) -> bool, f: T -> L)
    requires forall i, j :: 0 <= i < j < |s| ==> f(s[i]) != f(s[j])
    ensures forall i, j :: 0 <= i < j < |Sort(s, key, lt)| ==>
      f(Sort(s, key, lt)[i]) != f(Sort(s, key, lt)[j])
  {
    if s != [] {
      var init := s[..|s| - 1];
      SortKeepsDistinct(init, key, lt, f);
      SortPermutes(init, key, lt);
      forall i | 0 <= i < |Sort(init, key, lt)|
        ensures f(Sort(init, key, lt)[i]) != f(s[|s| - 1])
      {
        assert Sort(init, key, lt)[i] in multiset(init);
        var j :| 0 <= j < |init| && init[j] == Sort(init, key, lt)[i];
        assert s[j] == init[j];
      }
      InsertKeepsDistinct(Sort(init, key, lt), s[|s| - 1], key, lt, f);
    }
  }


  // ----- Dedup -----

  lemma {:induction false} DedupLast<T, K>(s: seq<T>, key: T -> K)
    requires s != []
    ensures Dedup(s, key) != [] && key(Dedup(s, key)[|Dedup(s, key)| - 1]) == key(s[|s| - 1])
  {
    if |s| > 1 && key(s[|s| - 1]) == key(s[|s| - 2]) {
      DedupLast(s[..|s| - 1], key);
    }
  }

  lemma {:induction false} DedupSubset<T, K>(s: seq<T>, key: T -> K)
    ensures forall x :: x in Dedup(s, key) ==> x in s
  {
    if |s| > 1 {
      DedupSubset(s[..|s| - 1], key);
    }
  }

  /** Removing neighbours with a repeated key loses no key. */
  lemma {:induction false} DedupKeepsKeys<T, K>(s: seq<T>, key: T -> K)
    ensures Keys(Dedup(s, key), key) == Keys(s, key)
  {
    if |s| > 1 {
      var init, x := s[..|s| - 1], s[|s| - 1];
      assert s == init + [x];
      DedupKeepsKeys(init, key);
      assert Keys(s, key) == Keys(init, key) + {key(x)};
      if key(x) == key(s[|s| - 2]) {
        assert s[|s| - 2] in init;
      } else {
        assert Keys(Dedup(s, key), key) == Keys(Dedup(init, key), key) + {key(x)};
      }
    }
  }

  /** Filtering a sequence with a first element filters that element, then the rest. */
  lemma {:induction false} FilterCons<T, K>(x: T, s: seq<T>, key: T -> K, k: K)
    ensures Filter([x] + s, key, k) == (if key(x) == k then [x] else []) + Filter(s, key, k)
    decreases |s|
  {
    if s != [] {
      var init := s[..|s| - 1];
      assert ([x] + s)[..|s|] == [x] + init;
      FilterCons(x, init, key, k);
    } else {
      assert ([x] + s)[..0] == [];
    }
  }

  lemma {:induction false} FilterEmpty<T, K>(s: seq<T>, key: T -> K, k: K)
    requires forall i :: 0 <= i < |s| ==> key(s[i]) != k
    ensures Filter(s, key, k) == []
  {
    if s != [] {
      FilterEmpty(s[..|s| - 1], key, k);
    }
  }

  lemma {:induction false} FilterNonEmpty<T, K>(s: seq<T>, key: T -> K, i: nat)
    requires i < |s|
    ensures Filter(s, key, key(s[i])) != []
  {
    if i < |s| - 1 {
      FilterNonEmpty(s[..|s| - 1], key, i);
    }
  }

  /** In a sorted sequence, a last element whose key differs from its neighbour's has a new key. */
  lemma NewKeyAtEnd<T, K(!new)>(s: seq<T>, key: T -> K, lt: (K, K) -> bool)
    requires StrictTotalOrder(lt)
    requires SortedBy(s, key, lt)
    requires |s| > 1 && key(s[|s| - 1]) != key(s[|s| - 2])
    ensures forall j :: 0 <= j < |s| - 1 ==> key(s[j]) != key(s[|s| - 1]) && lt(key(s[j]), key(s[|s| - 1]))
  {
    var x := s[|s| - 1];
    forall j | 0 <= j < |s| - 1
      ensures key(s[j]) != key(x) && lt(key(s[j]), key(x))
    {
      assert !lt(key(x), key(s[j]));
      if j < |s| - 2 {
        assert !lt(key(s[|s| - 2]), key(s[j]));
        assert !lt(key(x), key(s[|s| - 2]));
      }
    }
  }

  /** Removing duplicates from a sorted sequence leaves the keys strictly ascending. */
  lemma {:induction false} DedupStrictlySorted<T, K(!new)>(s: seq<T>, key: T -> K, lt: (K, K) -> bool)
    requires StrictTotalOrder(lt)
    requires SortedBy(s, key, lt)
    ensures StrictlySortedBy(Dedup(s, key), key, lt)
  {
    if |s| > 1 {
      var init, x := s[..|s| - 1], s[|s| - 1];
      DedupStrictlySorted(init, key, lt);
      if key(x) != key(s[|s| - 2]) {
        NewKeyAtEnd(s, key, lt);
        DedupSubset(init, key);
        var d := Dedup(s, key);
        forall i | 0 <= i < |d| - 1
          ensures lt(key(d[i]), key(x))
        {
          assert d[i] in init;
        }
      }
    }
  }

  /** Removing duplicates from a sorted sequence keeps, for each key, the first element that had it. */
  lemma {:induction false} DedupKeepsFirst<T, K(!new)>(s: seq<T>, key: T -> K, lt: (K, K) -> bool)
    requires StrictTotalOrder(lt)
    requires SortedBy(s, key, lt)
    ensures forall i :: 0 <= i < |Dedup(s, key)| ==>
      Filter(s, key, key(Dedup(s, key)[i])) != [] &&
      Dedup(s, key)[i] == Filter(s, key, key(Dedup(s, key)[i]))[0]
  {
    var d := Dedup(s, key);
    if |s| == 1 {
      assert s[..0] == [];
    } else if |s| > 1 {
      var init, x := s[..|s| - 1], s[|s| - 1];
      DedupKeepsFirst(init, key, lt);
      DedupSubset(init, key);
      var di := Dedup(init, key);
      forall i | 0 <= i < |di|
        ensures Filter(s, key, key(di[i])) != [] && di[i] == Filter(s, key, key(di[i]))[0]
      {
        assert di[i] in init;
        var j :| 0 <= j < |init| && init[j] == di[i];
        FilterNonEmpty(init, key, j);
      }
      if key(x) != key(s[|s| - 2]) {
        NewKeyAtEnd(s, key, lt);
        FilterEmpty(init, key, key(x));
      }
    }
  }

  /**
   * Sorting and then removing neighbours with equal keys leaves the keys strictly ascending,
   * keeps every key, and keeps for each key the element that came first in the input.
   */
  lemma SortDedup<T, K(!new)>(s: seq<T>, key: T -> K, lt: (K, K) -> bool)
    requires StrictTotalOrder(lt)
    ensures StrictlySortedBy(Dedup(Sort(s, key, lt), key), key, lt)
    ensures Keys(Dedup(Sort(s, key, lt), key), key) == Keys(s, key)
    ensures forall i :: 0 <= i < |Dedup(Sort(s, key, lt), key)| ==>
      Filter(s, key, key(Dedup(Sort(s, key, lt), key)[i])) != [] &&
      Dedup(Sort(s, key, lt), key)[i] == Filter(s, key, key(Dedup(Sort(s, key, lt), key)[i]))[0]
  {
    var sorted := Sort(s, key, lt);
    var d := Dedup(sorted, key);
    SortSorts(s, key, lt);
    DedupStrictlySorted(sorted, key, lt);
    KeysOfSort(s, key, lt);
    DedupKeepsKeys(sorted, key);
    DedupKeepsFirst(sorted, key, lt);
    forall i | 0 <= i < |d|
      ensures Filter(s, key, key(d[i])) != [] && d[i] == Filter(s, key, key(d[i]))[0]
    {
      SortIsStable(s, key, lt, key(d[i]));
    }
  }

  lemma KeysOfSort<T, K>(s: seq<T>, key: T -> K, lt: (K, K) -> bool)
    ensures Keys(Sort(s, key, lt), key) == Keys(s, key)
  {
    var sorted := Sort(s, key, lt);
    SortPermutes(s, key, lt);
    forall x ensures x in sorted <==> x in s {
      assert x in sorted <==> x in multiset(sorted);
      assert x in s <==> x in multiset(s);
    }
    forall k | k in Keys(s, key) ensures k in Keys(sorted, key) {
      var x :| x in s && key(x) == k;
      assert x in sorted;
    }
    forall k | k in Keys(sorted, key) ensures k in Keys(s, key) {
      var x :| x in sorted && key(x) == k;
      assert x in s;
    }
  }

  // ----- In place -----

  /** One step of the insertion: `x` passes the last element of the prefix it sorts strictly before. */
  lemma InsertStep<T, K>(sorted: seq<T>, x: T, key: T -> K, lt: (K, K) -> bool, j: nat)
    requires 0 < j <= |sorted| && lt(key(x), key(sorted[j - 1]))
    ensures Insert(sorted[..j], x, key, lt) + sorted[j..] == Insert(sorted[..j - 1], x, key, lt) + sorted[j - 1..]
  {
    assert sorted[..j][..j - 1] == sorted[..j - 1];
    assert sorted[j - 1..] == [sorted[j - 1]] + sorted[j..];
  }

  /** `sorted` with `x` standing at position `j`. */
  function Placed<T>(sorted: seq<T>, x: T, j: nat): (r: seq<T>)
    requires j <= |sorted|
    ensures |r| == |sorted| + 1 && r[j] == x
    ensures forall k :: 0 <= k < j ==> r[k] == sorted[k]
  {
    sorted[..j] + [x] + sorted[j..]
  }

  /** Swapping `x` with its left neighbour places it one position earlier. */
  lemma SwapPlaced<T>(sorted: seq<T>, x: T, j: nat, rest: seq<T>)
    requires 0 < j <= |sorted|
    ensures (Placed(sorted, x, j) + rest)[j - 1 := x][j := sorted[j - 1]] == Placed(sorted, x, j - 1) + rest
  {
  }

  /** The state of the insertion loop: `x` stands at `j` in `sorted`, and inserting it into `sorted[..j]` finishes the job. */
  ghost predicate Inserting<T, K>(s: seq<T>, sorted: seq<T>, x: T, j: nat, rest: seq<T>, key: T -> K, lt: (K, K) -> bool) {
    && j <= |sorted|
    && s == Placed(sorted, x, j) + rest
    && Insert(sorted, x, key, lt) == Insert(sorted[..j], x, key, lt) + sorted[j..]
  }

  /** Swapping `x` with a left neighbour it sorts strictly before keeps the loop state, one position earlier. */
  lemma InsertingStep<T, K>(s: seq<T>, sorted: seq<T>, x: T, j: nat, rest: seq<T>, key: T -> K, lt: (K, K) -> bool)
    requires Inserting(s, sorted, x, j, rest, key, lt) && 0 < j && lt(key(x), key(s[j - 1]))
    ensures Inserting(s[j - 1 := s[j]][j := s[j - 1]], sorted, x, j - 1, rest, key, lt)
  {
    assert s[j - 1] == sorted[j - 1] && s[j] == x;
    InsertStep(sorted, x, key, lt, j);
    SwapPlaced(sorted, x, j, rest);
  }

  /** When the loop stops, the first `|sorted| + 1` elements are the insertion and the rest is untouched. */
  lemma InsertingDone<T, K>(s: seq<T>, sorted: seq<T>, x: T, j: nat, rest: seq<T>, key: T -> K, lt: (K, K) -> bool)
    requires Inserting(s, sorted, x, j, rest, key, lt)
    requires j == 0 || !lt(key(x), key(s[j - 1]))
    ensures s[..|sorted| + 1] == Insert(sorted, x, key, lt) && s[|sorted| + 1..] == rest
  {
    if j > 0 {
      assert s[j - 1] == sorted[j - 1];
      assert sorted[..j][..j - 1] == sorted[..j - 1];
    }
    assert Insert(sorted[..j], x, key, lt) == sorted[..j] + [x];
    assert s[..|sorted| + 1] == Placed(sorted, x, j);
  }

  /** Moves `a[i]` left past every element it sorts strictly before; `a[..i]` must hold `sorted`. */
  method InsertInPlace<T, K>(a: array<T>, i: nat, key: T -> K, lt: (K, K) -> bool, ghost sorted: seq<T>)
    requires i < a.Length && a[..i] == sorted
    modifies a
    ensures a[..i + 1] == Insert(sorted, old(a[i]), key, lt)
    ensures a[i + 1..] == old(a[i + 1..])
  {
    var x := a[i];
    var j := i;
    ghost var rest := a[i + 1..];
    assert sorted[..i] == sorted;
    assert a[..] == Placed(sorted, x, i) + rest;
    while j > 0 && lt(key(x), key(a[j - 1]))
      invariant Inserting(a[..], sorted, x, j, rest, key, lt)
    {
      ghost var before := a[..];
      InsertingStep(before, sorted, x, j, rest, key, lt);
      a[j - 1], a[j] := a[j], a[j - 1];
      assert a[..] == before[j - 1 := before[j]][j := before[j - 1]];
      j := j - 1;
    }
    InsertingDone(a[..], sorted, x, j, rest, key, lt);
    assert a[..i + 1] == a[..][..i + 1] && a[i + 1..] == a[..][i + 1..];
  }

  /** Sorting one more element inserts it into the sorted prefix. */
  lemma SortStep<T, K>(s: seq<T>, i: nat, key: T -> K, lt: (K, K) -> bool)
    requires i < |s|
    ensures Sort(s[..i + 1], key, lt) == Insert(Sort(s[..i], key, lt), s[i], key, lt)
  {
    assert s[..i + 1][..i] == s[..i];
  }

  /** `Vec::sort_by` on an array: a stable insertion sort that swaps neighbours. */
  method SortInPlace<T, K>(a: array<T>, key: T -> K, lt: (K, K) -> bool)
    modifies a
    ensures a[..] == Sort(old(a[..]), key, lt)
  {
    ghost var input := a[..];
    var i := 0;
    while i < a.Length
      invariant 0 <= i <= a.Length
      invariant a[..i] == Sort(input[..i], key, lt)
      invariant a[i..] == input[i..]
    {
      ghost var prev := a[..];
      assert prev[i..] == input[i..];
      assert prev[i] == input[i] && prev[i + 1..] == input[i + 1..];
      InsertInPlace(a, i, key, lt, a[..i]);
      SortStep(input, i, key, lt);
      i := i + 1;
    }
    assert a[..] == a[..a.Length] && input == input[..a.Length];
  }

  /** Extending the input by one element adds it to the deduplicated list exactly when its key differs from its predecessor's. */
  lemma DedupStep<T, K>(s: seq<T>, r: nat, key: T -> K)
    requires 1 <= r < |s|
    ensures Dedup(s[..r + 1], key) ==
      if key(s[r]) == key(s[r - 1]) then Dedup(s[..r], key) else Dedup(s[..r], key) + [s[r]]
  {
    assert s[..r + 1][..r] == s[..r];
  }

  /** `Vec::dedup_by` on an array: the kept elements move to the front; returns how many. */
  method DedupInPlace<T, K(==)>(a: array<T>, key: T -> K) returns (len: nat)
    modifies a
    ensures len <= a.Length
    ensures a[..len] == Dedup(old(a[..]), key)
  {
    ghost var input := a[..];
    if a.Length == 0 {
      return 0;
    }
    len := 1;
    var r := 1;
    assert input[..1] == [input[0]];
    while r < a.Length
      invariant 1 <= len <= r <= a.Length
      invariant a[..len] == Dedup(input[..r], key)
      invariant forall k :: r <= k < a.Length ==> a[k] == input[k]
      invariant key(a[len - 1]) == key(input[r - 1])
    {
      DedupStep(input, r, key);
      if key(a[r]) != key(a[len - 1]) {
        ghost var kept := a[..len];
        a[len] := a[r];
        assert a[..len + 1] == kept + [input[r]];
        len := len + 1;
      }
      r := r + 1;
    }
    assert input == input[..a.Length];
  }
}
