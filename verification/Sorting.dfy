/** Sorting by a strict total order, the contract `sort.Slice` is used under. */
module Sorting {
  import opened Basics

  ghost predicate StrictOrder<T(!new)>(less: (T, T) -> bool) {
    && (forall a, b :: less(a, b) ==> !less(b, a))
    && (forall a, b, c :: less(a, b) && less(b, c) ==> less(a, c))
  }

  ghost predicate Ascending<T>(list: seq<T>, less: (T, T) -> bool) {
    forall i, j :: 0 <= i < j < |list| ==> less(list[i], list[j])
  }

  ghost predicate SameElements<T(!new)>(a: seq<T>, b: seq<T>) {
    forall x :: x in a <==> x in b
  }

  /** There is one ascending arrangement of a set of elements. */
  lemma {:induction false} AscendingIsUnique<T(!new)>(a: seq<T>, b: seq<T>, less: (T, T) -> bool)
    requires StrictOrder(less)
    requires Ascending(a, less) && Ascending(b, less) && SameElements(a, b)
    ensures a == b
  {
    assert forall i :: 0 <= i < |a| ==> a[i] in b;
    assert forall i :: 0 <= i < |b| ==> b[i] in a;
    if a != [] {
      assert a[0] in b && b[0] in a;
      assert a[0] == b[0];
      forall x
        ensures x in a[1..] <==> x in b[1..]
      {
        assert x in a <==> x == a[0] || x in a[1..];
        assert x in b <==> x == b[0] || x in b[1..];
        if x in a[1..] { assert less(a[0], x); }
        if x in b[1..] { assert less(b[0], x); }
      }
      AscendingIsUnique(a[1..], b[1..], less);
      assert a == [a[0]] + a[1..] && b == [b[0]] + b[1..];
    }
  }

  function Filter<T>(list: seq<T>, keep: T -> bool): seq<T> {
    if list == [] then []
    else if keep(list[0]) then [list[0]] + Filter(list[1..], keep)
    else Filter(list[1..], keep)
  }

  lemma {:induction false} FilterKeepsOrder<T(!new)>(list: seq<T>, keep: T -> bool, less: (T, T) -> bool)
    requires Ascending(list, less)
    ensures Ascending(Filter(list, keep), less)
    ensures forall x :: x in Filter(list, keep) <==> x in list && keep(x)
  {
    if list != [] {
      FilterKeepsOrder(list[1..], keep, less);
      var rest := Filter(list[1..], keep);
      assert forall i :: 0 <= i < |rest| ==> rest[i] in list[1..] && less(list[0], rest[i]);
      assert forall x :: x in list <==> x == list[0] || x in list[1..];
    }
  }

  lemma InsertedIsAscending<T(!new)>(list: seq<T>, x: T, i: nat, less: (T, T) -> bool)
    requires StrictOrder(less) && Ascending(list, less) && i <= |list|
    requires forall j :: 0 <= j < i ==> less(list[j], x)
    requires forall j :: i <= j < |list| ==> less(x, list[j])
    ensures Ascending(list[..i] + [x] + list[i..], less)
  {
  }

  lemma InsertedElements<T(!new)>(list: seq<T>, x: T, i: nat)
    requires i <= |list|
    ensures forall y :: y in list[..i] + [x] + list[i..] <==> y == x || y in list
  {
    assert list == list[..i] + list[i..];
  }

  /** Insertion into an ascending list. */
  method Insert<T(!new)>(list: seq<T>, x: T, less: (T, T) -> bool) returns (out: seq<T>)
    requires StrictOrder(less) && Ascending(list, less)
    requires forall y :: y in list ==> less(x, y) || less(y, x)
    ensures Ascending(out, less)
    ensures forall y :: y in out <==> y == x || y in list
  {
    var i := 0;
    while i < |list| && less(list[i], x)
      invariant 0 <= i <= |list|
      invariant forall j :: 0 <= j < i ==> less(list[j], x)
    {
      i := i + 1;
    }
    out := list[..i] + [x] + list[i..];
    assert i < |list| ==> list[i] in list && less(x, list[i]);
    InsertedIsAscending(list, x, i, less);
    InsertedElements(list, x, i);
  }

  /** `sort.Slice` on elements the order tells apart. */
  method SortSlice<T(!new)>(list: seq<T>, less: (T, T) -> bool) returns (out: seq<T>)
    requires StrictOrder(less)
    requires forall i, j :: 0 <= i < j < |list| ==> less(list[i], list[j]) || less(list[j], list[i])
    ensures Ascending(out, less) && SameElements(out, list)
  {
    out := [];
    for n := 0 to |list|
      invariant Ascending(out, less) && SameElements(out, list[..n])
    {
      forall y | y in out
        ensures less(list[n], y) || less(y, list[n])
      {
        assert y in list[..n];
      }
      out := Insert(out, list[n], less);
      assert list[..n + 1] == list[..n] + [list[n]];
    }
    assert list[..|list|] == list;
  }
}
