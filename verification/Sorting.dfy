/** Ascending integers: binary search, and the sorted keys of a map. */
module Sorting {
  predicate Ascending(a: seq<int>) {
    forall i, j :: 0 <= i < j < |a| ==> a[i] < a[j]
  }

  /** sort.SearchInts: where x would be inserted into an ascending sequence. */
  method SearchInts(a: seq<int>, x: int) returns (i: nat)
    requires Ascending(a)
    ensures i <= |a| && (forall k :: 0 <= k < i ==> a[k] < x) && (forall k :: i <= k < |a| ==> a[k] >= x)
  {
    var j := |a|;
    i := 0;
    while i < j
      invariant i <= j <= |a|
      invariant forall k :: 0 <= k < i ==> a[k] < x
      invariant forall k :: j <= k < |a| ==> a[k] >= x
    {
      var h := (i + j) / 2;
      if a[h] < x {
        i := h + 1;
      } else {
        j := h;
      }
    }
  }

  /** The keys in ascending order: a fact about the set alone. */
  lemma {:induction false} AscendingUnique(a: seq<int>, b: seq<int>)
    requires Ascending(a) && Ascending(b) && forall k :: k in a <==> k in b
    ensures a == b
    decreases |a|
  {
    if a != [] { assert a[0] in a && a[0] in b; }
    if b != [] { assert b[0] in b && b[0] in a; }
    if a == [] {
    } else {
      forall k ensures k in a[1..] <==> k in b[1..] {
        assert k in a[1..] <==> k in a && k != a[0];
        assert k in b[1..] <==> k in b && k != b[0];
      }
      AscendingUnique(a[1..], b[1..]);
      assert a == [a[0]] + a[1..] && b == [b[0]] + b[1..];
    }
  }

  method SortedKeys(keys: set<int>) returns (idxs: seq<int>)
    ensures Ascending(idxs) && forall k :: k in idxs <==> k in keys
  {
    idxs := [];
    var rest := keys;
    while rest != {}
      invariant rest <= keys && Ascending(idxs) && forall k :: k in idxs <==> k in keys && k !in rest
      decreases |rest|
    {
      assert exists k :: k in rest by {
        if forall k :: k !in rest { assert false; }
      }
      var k: int :| k in rest;
      var at := SearchInts(idxs, k);
      assert at < |idxs| ==> idxs[at] in idxs;
      idxs := idxs[..at] + [k] + idxs[at..];
      rest := rest - {k};
    }
  }
}
