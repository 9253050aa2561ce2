/** Sequences of sequences. */
module Sequences {

  function Flatten<T>(parts: seq<seq<T>>): seq<T> {
    if parts == [] then [] else Flatten(parts[..|parts| - 1]) + parts[|parts| - 1]
  }

  lemma FlattenSnoc<T>(parts: seq<seq<T>>, p: seq<T>)
    ensures Flatten(parts + [p]) == Flatten(parts) + p
  {
    assert (parts + [p])[..|parts|] == parts;
  }

  /** idx lists, in order, the indices below n for which keep holds. */
  ghost predicate Picks(idx: seq<nat>, n: nat, keep: nat -> bool) {
    && (forall i, j :: 0 <= i < j < |idx| ==> idx[i] < idx[j])
    && forall k: nat :: k in idx <==> k < n && keep(k)
  }

  /** The same from an index on. */
  ghost predicate PicksFrom(idx: seq<nat>, from: nat, n: nat, keep: nat -> bool) {
    && (forall i, j :: 0 <= i < j < |idx| ==> idx[i] < idx[j])
    && forall k: nat :: k in idx <==> from <= k < n && keep(k)
  }

  lemma PicksBefore(idx: seq<nat>, from: nat, n: nat, keep: nat -> bool)
    requires PicksFrom(idx, from + 1, n, keep) && from < n
    ensures PicksFrom(if keep(from) then [from] + idx else idx, from, n, keep)
  {
    assert forall i :: 0 <= i < |idx| ==> idx[i] in idx;
  }

  lemma PicksFromStart(idx: seq<nat>, n: nat, keep: nat -> bool)
    ensures PicksFrom(idx, 0, n, keep) <==> Picks(idx, n, keep)
  {
  }

  lemma NothingPicked(n: nat, keep: nat -> bool)
    requires forall k: nat :: k < n ==> !keep(k)
    ensures Picks([], n, keep)
  {
  }

  lemma SamePicks(idx: seq<nat>, n: nat, keep: nat -> bool, also: nat -> bool)
    requires Picks(idx, n, keep) && forall k: nat :: k < n ==> (keep(k) <==> also(k))
    ensures Picks(idx, n, also)
  {
  }

  lemma PicksNext(idx: seq<nat>, n: nat, keep: nat -> bool)
    requires Picks(idx, n, keep)
    ensures Picks(if keep(n) then idx + [n] else idx, n + 1, keep)
  {
    assert forall i :: 0 <= i < |idx| ==> idx[i] in idx;
  }
}
