/**
 The order that `Array.prototype.sort` leaves behind, as a function of the array and the comparator.
 A comparator is given by `before(x, y)`: the source's comparator is negative on `(x, y)`.
 The sort is stable, as ECMAScript requires.
 */
module Sorting {

  ghost predicate StrictWeakOrder<T(!new)>(before: (T, T) -> bool) {
    && (forall x :: !before(x, x))
    && (forall x, y, z :: before(x, y) && before(y, z) ==> before(x, z))
    && (forall x, y, z :: !before(x, y) && !before(y, z) ==> !before(x, z))
  }

  ghost predicate Sorted<T>(s: seq<T>, before: (T, T) -> bool) {
    forall i, j | 0 <= i < j < |s| :: !before(s[j], s[i])
  }

  function Insert<T>(s: seq<T>, x: T, before: (T, T) -> bool): (r: seq<T>)
    ensures |r| == |s| + 1
  {
    if s != [] && before(x, s[|s| - 1]) then
      Insert(s[..|s| - 1], x, before) + [s[|s| - 1]]
    else
      s + [x]
  }

  function StableSort<T>(s: seq<T>, before: (T, T) -> bool): (r: seq<T>)
    ensures |r| == |s|
  {
    if s == [] then [] else Insert(StableSort(s[..|s| - 1], before), s[|s| - 1], before)
  }

  function Filter<T>(s: seq<T>, keep: T -> bool): seq<T> {
    if s == [] then []
    else Filter(s[..|s| - 1], keep) + if keep(s[|s| - 1]) then [s[|s| - 1]] else []
  }

  lemma {:induction false} InsertMultiset<T>(s: seq<T>, x: T, before: (T, T) -> bool)
    ensures multiset(Insert(s, x, before)) == multiset(s) + multiset{x}
  {
    if s != [] && before(x, s[|s| - 1]) {
      InsertMultiset(s[..|s| - 1], x, before);
      assert Insert(s, x, before) == Insert(s[..|s| - 1], x, before) + [s[|s| - 1]];
      assert s == s[..|s| - 1] + [s[|s| - 1]];
    }
  }

  lemma {:induction false} InsertKeepsSorted<T(!new)>(s: seq<T>, x: T, before: (T, T) -> bool)
    requires StrictWeakOrder(before) && Sorted(s, before)
    ensures Sorted(Insert(s, x, before), before)
  {
    if s != [] && before(x, s[|s| - 1]) {
      var init, last := s[..|s| - 1], s[|s| - 1];
      InsertKeepsSorted(init, x, before);
      var r := Insert(init, x, before);
      forall i | 0 <= i < |r| ensures !before(last, r[i]) {
        InsertMultiset(init, x, before);
        assert r[i] in multiset(r);
        assert r[i] == x || r[i] in init;
      }
    } else if s != [] {
      forall i | 0 <= i < |s| ensures !before(x, s[i]) {
        assert !before(x, s[|s| - 1]) && !before(s[|s| - 1], s[i]);
      }
    }
  }

  lemma SortNext<T>(s: seq<T>, i: nat, before: (T, T) -> bool)
    requires i <= |s|
    ensures i == 0 ==> StableSort(s[..i], before) == []
    ensures i < |s| ==> StableSort(s[..i + 1], before) == Insert(StableSort(s[..i], before), s[i], before)
  {
    if i < |s| {
      assert s[..i + 1][..i] == s[..i];
    }
  }

  lemma {:induction false} StableSortPermutes<T>(s: seq<T>, before: (T, T) -> bool)
    ensures multiset(StableSort(s, before)) == multiset(s)
  {
    if s != [] {
      var init, last := s[..|s| - 1], s[|s| - 1];
      assert s == init + [last];
      hide Insert;
      StableSortPermutes(init, before);
      InsertMultiset(StableSort(init, before), last, before);
    }
  }

  lemma {:induction false} StableSortOrders<T(!new)>(s: seq<T>, before: (T, T) -> bool)
    requires StrictWeakOrder(before)
    ensures Sorted(StableSort(s, before), before)
  {
    if s != [] {
      hide Insert, StrictWeakOrder, Sorted;
      StableSortOrders(s[..|s| - 1], before);
      InsertKeepsSorted(StableSort(s[..|s| - 1], before), s[|s| - 1], before);
    }
  }

  /** Sorting only permutes, and the result is in order. */
  lemma StableSortSorts<T(!new)>(s: seq<T>, before: (T, T) -> bool)
    requires StrictWeakOrder(before)
    ensures Sorted(StableSort(s, before), before)
    ensures multiset(StableSort(s, before)) == multiset(s)
  {
    StableSortPermutes(s, before);
    StableSortOrders(s, before);
  }

  lemma {:induction false} InsertStable<T(!new)>(s: seq<T>, x: T, before: (T, T) -> bool, same: T -> bool)
    requires forall y, z | same(y) && same(z) :: !before(y, z)
    ensures Filter(Insert(s, x, before), same) == Filter(s, same) + if same(x) then [x] else []
  {
    if s != [] && before(x, s[|s| - 1]) {
      var init := Insert(s[..|s| - 1], x, before);
      InsertStable(s[..|s| - 1], x, before, same);
      assert Insert(s, x, before)[..|s|] == init;
    } else {
      assert (s + [x])[..|s|] == s;
    }
  }

  /** Elements the comparator cannot tell apart keep their relative order. */
  lemma {:induction false} StableSortIsStable<T(!new)>(s: seq<T>, before: (T, T) -> bool, same: T -> bool)
    requires forall y, z | same(y) && same(z) :: !before(y, z)
    ensures Filter(StableSort(s, before), same) == Filter(s, same)
  {
    if s != [] {
      StableSortIsStable(s[..|s| - 1], before, same);
      InsertStable(StableSort(s[..|s| - 1], before), s[|s| - 1], before, same);
    }
  }

  lemma {:induction false} FilterMembers<T>(s: seq<T>, keep: T -> bool)
    ensures forall x :: x in Filter(s, keep) <==> x in s && keep(x)
  {
    if s != [] {
      FilterMembers(s[..|s| - 1], keep);
      assert s == s[..|s| - 1] + [s[|s| - 1]];
    }
  }

  /**
   `r` is what is left of `s` when exactly the elements that `keep` rejects are taken out, the others in their order.
   */
  ghost predicate Keeps<T>(r: seq<T>, s: seq<T>, keep: T -> bool) {
    exists at: seq<nat> ::
      && |at| == |r|
      && (forall j, k | 0 <= j < k < |at| :: at[j] < at[k])
      && (forall k | 0 <= k < |at| :: at[k] < |s| && s[at[k]] == r[k])
      && (forall i | 0 <= i < |s| :: i in at <==> keep(s[i]))
  }

  ghost function KeptAt<T>(s: seq<T>, keep: T -> bool): seq<nat> {
    if s == [] then [] else
      KeptAt(s[..|s| - 1], keep) + if keep(s[|s| - 1]) then [|s| - 1] else []
  }

  lemma {:induction false} KeptAtFilter<T>(s: seq<T>, keep: T -> bool)
    ensures var at := KeptAt(s, keep);
      && |at| == |Filter(s, keep)|
      && (forall j, k | 0 <= j < k < |at| :: at[j] < at[k])
      && (forall k | 0 <= k < |at| :: at[k] < |s| && s[at[k]] == Filter(s, keep)[k])
      && (forall i | 0 <= i < |s| :: i in at <==> keep(s[i]))
  {
    if s != [] {
      KeptAtFilter(s[..|s| - 1], keep);
    }
  }

  lemma FilterKeeps<T>(s: seq<T>, keep: T -> bool)
    ensures Keeps(Filter(s, keep), s, keep)
  {
    hide Filter, KeptAt;
    KeptAtFilter(s, keep);
  }

  lemma {:induction false} FilterConcat<T>(s: seq<T>, t: seq<T>, keep: T -> bool)
    ensures Filter(s + t, keep) == Filter(s, keep) + Filter(t, keep)
  {
    if t == [] {
      assert s + t == s;
    } else {
      FilterConcat(s, t[..|t| - 1], keep);
      assert (s + t)[..|s + t| - 1] == s + t[..|t| - 1];
    }
  }

  lemma {:induction false} InsertSuffix<T>(s: seq<T>, x: T, before: (T, T) -> bool, j: nat)
    requires j <= |s|
    requires forall k | j <= k < |s| :: before(x, s[k])
    ensures Insert(s, x, before) == Insert(s[..j], x, before) + s[j..]
  {
    if j < |s| {
      InsertSuffix(s[..|s| - 1], x, before, j);
      assert s[..|s| - 1][..j] == s[..j];
      assert s[j..] == s[..|s| - 1][j..] + [s[|s| - 1]];
    } else {
      assert s[..j] == s;
    }
  }

  lemma InsertedAt<T>(s: seq<T>, x: T, before: (T, T) -> bool, j: nat, r: seq<T>)
    requires j <= |s| && |r| == |s| + 1
    requires forall k | 0 <= k < j :: r[k] == s[k]
    requires r[j] == x
    requires forall k | j <= k < |s| :: r[k + 1] == s[k] && before(x, s[k])
    requires j == 0 || !before(x, s[j - 1])
    ensures r == Insert(s, x, before)
  {
    InsertSuffix(s, x, before, j);
    assert Insert(s[..j], x, before) == s[..j] + [x];
    hide Insert;
    Spliced(s, x, j, r);
  }

  lemma Spliced<T>(s: seq<T>, x: T, j: nat, r: seq<T>)
    requires j <= |s| && |r| == |s| + 1
    requires forall k | 0 <= k < j :: r[k] == s[k]
    requires r[j] == x && forall k | j <= k < |s| :: r[k + 1] == s[k]
    ensures r == (s[..j] + [x]) + s[j..]
  {
    forall k | j < k < |r| ensures r[k] == s[k - 1] {
      assert r[k - 1 + 1] == s[k - 1];
    }
  }

  /** One insertion: moves `a[i]` left past every element it must precede. */
  method InsertInPlace<T>(a: array<T>, i: nat, before: (T, T) -> bool)
    requires i < a.Length
    modifies a
    ensures a[..i + 1] == Insert(old(a[..i]), old(a[i]), before)
    ensures a[i + 1..] == old(a[i + 1..])
  {
    ghost var sorted := a[..i];
    var x := a[i];
    var j := i;
    while j > 0 && before(x, a[j - 1])
      invariant 0 <= j <= i
      invariant forall k | 0 <= k < j :: a[k] == sorted[k]
      invariant forall k | j <= k < i :: a[k + 1] == sorted[k] && before(x, sorted[k])
      invariant forall k | i < k < a.Length :: a[k] == old(a[k])
    {
      a[j] := a[j - 1];
      j := j - 1;
    }
    a[j] := x;
    InsertedAt(sorted, x, before, j, a[..i + 1]);
  }

  /** The in-place sort: an insertion sort, the algorithm engines use for short arrays. */
  method SortInPlace<T>(a: array<T>, before: (T, T) -> bool)
    modifies a
    ensures a[..] == StableSort(old(a[..]), before)
  {
    hide Insert, StableSort;
    ghost var was := a[..];
    var i := 0;
    SortNext(was, 0, before);
    while i < a.Length
      invariant 0 <= i <= a.Length
      invariant a[..i] == StableSort(was[..i], before)
      invariant a[i..] == was[i..]
    {
      SortNext(was, i, before);
      assert a[i] == a[i..][0] == was[i];
      InsertInPlace(a, i, before);
      i := i + 1;
    }
    assert a[..] == a[..a.Length] && was[..a.Length] == was;
  }
}
