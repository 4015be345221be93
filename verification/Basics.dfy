/** Small value types and sequence facts shared by every component. */
module Basics {
  datatype Option<+T> = None | Some(value: T)

  datatype Result<+T> = Ok(value: T) | Err

  /** Row identifiers. The source uses UUIDs and only compares them for equality and by their
      fixed-width hexadecimal text; naturals carry the same equality and the same order. */
  type Id = nat

  /** Reading a Go map with the two-value form. */
  function Look<K, V>(m: map<K, V>, k: K): Option<V> {
    if k in m then Some(m[k]) else None
  }

  lemma SameLookups<K(!new), V>(a: map<K, V>, b: map<K, V>)
    requires forall k :: Look(a, k) == Look(b, k)
    ensures a == b
  {
    forall k
      ensures k in a <==> k in b
      ensures k in a ==> a[k] == b[k]
    {
      assert Look(a, k) == Look(b, k);
    }
  }

  predicate NoDuplicates<T(==)>(s: seq<T>) {
    forall i, j :: 0 <= i < j < |s| ==> s[i] != s[j]
  }

  /** `order` visits each element of `s` once: one way Go may iterate over a map with these keys. */
  ghost predicate Visits<T(!new)>(order: seq<T>, s: set<T>) {
    NoDuplicates(order) && (forall x :: x in order <==> x in s)
  }

  lemma AnOrderExists<T(!new)>(s: set<T>) returns (order: seq<T>)
    ensures Visits(order, s)
  {
    if s == {} {
      order := [];
    } else {
      var x :| x in s;
      var rest := AnOrderExists(s - {x});
      order := rest + [x];
    }
  }

  /** Any element can be the one visited last. */
  lemma AnOrderEndingIn<T(!new)>(s: set<T>, x: T) returns (order: seq<T>)
    requires x in s
    ensures Visits(order, s) && order != [] && order[|order| - 1] == x
  {
    var rest := AnOrderExists(s - {x});
    order := rest + [x];
  }
}
