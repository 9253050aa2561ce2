/** Deduplicating, renumbering and linking the rows of a document before they are written. */
module Dedupe {
  import opened Chunks
  import opened ParentChild
  import opened Sequences

  // ---- DropDuplicateChunks --------------------------------------------------

  function Hashes<T>(cs: seq<T>, hash: T -> string): set<string> {
    set i | 0 <= i < |cs| :: hash(cs[i])
  }

  /** The first occurrence of every hash, in order. */
  function Firsts<T>(cs: seq<T>, hash: T -> string): seq<T> {
    if cs == [] then []
    else
      var n := |cs| - 1;
      Firsts(cs[..n], hash) + if hash(cs[n]) in Hashes(cs[..n], hash) then [] else [cs[n]]
  }

  predicate DistinctHashes<T>(cs: seq<T>, hash: T -> string) {
    forall i, j :: 0 <= i < j < |cs| ==> hash(cs[i]) != hash(cs[j])
  }

  lemma HashesSnoc<T>(cs: seq<T>, c: T, hash: T -> string)
    ensures Hashes(cs + [c], hash) == Hashes(cs, hash) + {hash(c)}
  {
    var all := cs + [c];
    assert all[|cs|] == c;
    forall h ensures h in Hashes(all, hash) <==> h in Hashes(cs, hash) || h == hash(c) {
      if h in Hashes(cs, hash) {
        var i :| 0 <= i < |cs| && hash(cs[i]) == h;
        assert all[i] == cs[i];
      }
    }
  }

  /** Every hash survives, and only once. */
  lemma {:induction false} FirstsKeepEveryHash<T>(cs: seq<T>, hash: T -> string)
    ensures Hashes(Firsts(cs, hash), hash) == Hashes(cs, hash) && DistinctHashes(Firsts(cs, hash), hash)
    decreases |cs|
  {
    if cs == [] {
    } else {
      var n := |cs| - 1;
      FirstsKeepEveryHash(cs[..n], hash);
      HashesSnoc(cs[..n], cs[n], hash);
      HashesSnoc(Firsts(cs[..n], hash), cs[n], hash);
      assert cs[..n] + [cs[n]] == cs;
      assert Firsts(cs[..n], hash) + [] == Firsts(cs[..n], hash);
      forall i | 0 <= i < |Firsts(cs[..n], hash)| ensures hash(Firsts(cs[..n], hash)[i]) in Hashes(cs[..n], hash) {
        assert hash(Firsts(cs[..n], hash)[i]) in Hashes(Firsts(cs[..n], hash), hash);
      }
    }
  }

  /** A survivor is an occurrence with no earlier one of its hash. */
  predicate IsFirst<T>(cs: seq<T>, hash: T -> string, i: int) {
    0 <= i < |cs| && forall j :: 0 <= j < i ==> hash(cs[j]) != hash(cs[i])
  }

  ghost predicate Occurs<T(!new)>(cs: seq<T>, hash: T -> string, c: T) {
    exists i :: IsFirst(cs, hash, i) && cs[i] == c
  }

  lemma {:induction false} FirstsAreFirst<T(!new)>(cs: seq<T>, hash: T -> string, c: T)
    ensures c in Firsts(cs, hash) <==> Occurs(cs, hash, c)
    decreases |cs|
  {
    hide Occurs, Hashes;
    if cs == [] {
      assert !Occurs(cs, hash, c) by { NothingOccurs(cs, hash, c); }
    } else {
      var n := |cs| - 1;
      FirstsAreFirst(cs[..n], hash, c);
      FirstMeansUnseen(cs, hash, n);
      OccursSnoc(cs, hash, c);
    }
  }

  lemma NothingOccurs<T(!new)>(cs: seq<T>, hash: T -> string, c: T)
    requires cs == []
    ensures !Occurs(cs, hash, c)
  {
  }

  lemma OccursSnoc<T(!new)>(cs: seq<T>, hash: T -> string, c: T)
    requires cs != []
    ensures var n := |cs| - 1;
            Occurs(cs, hash, c) <==> Occurs(cs[..n], hash, c) || (IsFirst(cs, hash, n) && cs[n] == c)
  {
    var n := |cs| - 1;
    forall i | 0 <= i < n ensures IsFirst(cs[..n], hash, i) <==> IsFirst(cs, hash, i) {
      assert forall j :: 0 <= j <= i ==> cs[..n][j] == cs[j];
    }
    if Occurs(cs[..n], hash, c) {
      var i :| IsFirst(cs[..n], hash, i) && cs[..n][i] == c;
      assert IsFirst(cs, hash, i) && cs[i] == c;
    }
    if Occurs(cs, hash, c) {
      var i :| IsFirst(cs, hash, i) && cs[i] == c;
      assert i < n ==> IsFirst(cs[..n], hash, i) && cs[..n][i] == c;
    }
  }

  lemma FirstMeansUnseen<T(!new)>(cs: seq<T>, hash: T -> string, i: nat)
    requires i < |cs|
    ensures IsFirst(cs, hash, i) <==> hash(cs[i]) !in Hashes(cs[..i], hash)
  {
    if hash(cs[i]) in Hashes(cs[..i], hash) {
      var j :| 0 <= j < i && hash(cs[..i][j]) == hash(cs[i]);
      assert cs[..i][j] == cs[j];
    } else {
      forall j | 0 <= j < i ensures hash(cs[j]) != hash(cs[i]) {
        assert hash(cs[..i][j]) in Hashes(cs[..i], hash);
      }
    }
  }

  /** The survivors are those occurrences, in their order. */
  lemma {:induction false} FirstsPicked<T(!new)>(cs: seq<T>, hash: T -> string) returns (idx: seq<nat>)
    ensures Picks(idx, |cs|, (i: nat) => IsFirst(cs, hash, i))
    ensures |Firsts(cs, hash)| == |idx| && forall k :: 0 <= k < |idx| ==> idx[k] < |cs| && Firsts(cs, hash)[k] == cs[idx[k]]
    decreases |cs|
  {
    hide Hashes, IsFirst, Picks;
    if cs == [] {
      idx := [];
      NothingPicked(0, (i: nat) => IsFirst(cs, hash, i));
    } else {
      var n := |cs| - 1;
      idx := FirstsPicked(cs[..n], hash);
      FirstMeansUnseen(cs, hash, n);
      forall i: nat | i < n ensures IsFirst(cs[..n], hash, i) <==> IsFirst(cs, hash, i) {
        FirstInFront(cs, hash, n, i);
      }
      var first := (i: nat) => IsFirst(cs, hash, i);
      SamePicks(idx, n, (i: nat) => IsFirst(cs[..n], hash, i), first);
      PicksNext(idx, n, first);
      if first(n) {
        idx := idx + [n];
      }
    }
  }

  lemma FirstInFront<T(!new)>(cs: seq<T>, hash: T -> string, n: nat, i: nat)
    requires i < n <= |cs|
    ensures IsFirst(cs[..n], hash, i) <==> IsFirst(cs, hash, i)
  {
    assert forall j :: 0 <= j <= i ==> cs[..n][j] == cs[j];
  }

  function Numbered<T>(cs: seq<T>, setSeq: (T, nat) -> T, from: nat): (r: seq<T>)
    ensures |r| == |cs|
  {
    seq(|cs|, i requires 0 <= i < |cs| => setSeq(cs[i], from + i))
  }

  /** The array's elements are renumbered where they are kept. */
  ghost predicate Renumbered<T(!new)>(before: seq<T>, after: seq<T>, hash: T -> string, setSeq: (T, nat) -> T, n: nat) {
    && n <= |before| == |after|
    && forall i :: 0 <= i < |before| ==>
         after[i] == if i < n && IsFirst(before, hash, i) then setSeq(before[i], |Firsts(before[..i], hash)|) else before[i]
  }

  method DropDuplicateChunks<T(!new)>(chunks: array<T>, hash: T -> string, setSeq: (T, nat) -> T) returns (out: seq<T>)
    modifies chunks
    ensures out == Numbered(Firsts(old(chunks[..]), hash), setSeq, 0)
    ensures Renumbered(old(chunks[..]), chunks[..], hash, setSeq, chunks.Length)
  {
    hide Firsts, Hashes, Renumbered, IsFirst;
    ghost var was := chunks[..];
    out := [];
    var seen: set<string> := {};
    DropBegins(was, hash, setSeq);
    for i := 0 to chunks.Length
      invariant Renumbered(was, chunks[..], hash, setSeq, i)
      invariant seen == Hashes(was[..i], hash) && out == Numbered(Firsts(was[..i], hash), setSeq, 0)
    {
      ghost var now := chunks[..];
      DropStep(was, now, hash, setSeq, i);
      var h := hash(chunks[i]);
      if h !in seen {
        seen := seen + {h};
        chunks[i] := setSeq(chunks[i], |out|);
        out := out + [chunks[i]];
        assert chunks[..] == now[i := chunks[i]];
      }
    }
    assert was[..chunks.Length] == was;
  }

  lemma DropBegins<T(!new)>(was: seq<T>, hash: T -> string, setSeq: (T, nat) -> T)
    ensures Renumbered(was, was, hash, setSeq, 0) && Hashes(was[..0], hash) == {} && Firsts(was[..0], hash) == []
  {
  }

  lemma DropStep<T(!new)>(was: seq<T>, now: seq<T>, hash: T -> string, setSeq: (T, nat) -> T, i: nat)
    requires i < |was| && Renumbered(was, now, hash, setSeq, i)
    ensures |now| == |was| && now[i] == was[i]
    ensures var before, after := was[..i], was[..i + 1];
            && Hashes(after, hash) == Hashes(before, hash) + {hash(was[i])}
            && (if hash(was[i]) in Hashes(before, hash) then
                  Firsts(after, hash) == Firsts(before, hash) && Renumbered(was, now, hash, setSeq, i + 1)
                else
                  && Firsts(after, hash) == Firsts(before, hash) + [was[i]]
                  && Renumbered(was, now[i := setSeq(was[i], |Firsts(before, hash)|)], hash, setSeq, i + 1))
  {
    hide Hashes, IsFirst;
    HashesSnoc(was[..i], was[i], hash);
    assert was[..i + 1] == was[..i] + [was[i]] && was[..i + 1][..i] == was[..i];
    FirstMeansUnseen(was, hash, i);
  }

  // ---- the two sets ---------------------------------------------------------

  /** Children whose hash no parent has. */
  function Unclaimed(children: seq<ChildChunk>, hash: ChildChunk -> string, claimed: set<string>): seq<ChildChunk> {
    if children == [] then []
    else
      var n := |children| - 1;
      Unclaimed(children[..n], hash, claimed) + if hash(children[n]) in claimed then [] else [children[n]]
  }

  lemma {:induction false} UnclaimedMembers(children: seq<ChildChunk>, hash: ChildChunk -> string, claimed: set<string>, c: ChildChunk)
    ensures c in Unclaimed(children, hash, claimed) <==> c in children && hash(c) !in claimed
    decreases |children|
  {
    if children == [] {
    } else {
      var n := |children| - 1;
      UnclaimedMembers(children[..n], hash, claimed, c);
      assert children == children[..n] + [children[n]];
    }
  }

  /** No parent has the hash of child i. */
  predicate IsUnclaimed(children: seq<ChildChunk>, hash: ChildChunk -> string, claimed: set<string>, i: int) {
    0 <= i < |children| && hash(children[i]) !in claimed
  }

  /** They are kept in their order. */
  lemma {:induction false} UnclaimedPicked(children: seq<ChildChunk>, hash: ChildChunk -> string, claimed: set<string>) returns (idx: seq<nat>)
    ensures Picks(idx, |children|, (i: nat) => IsUnclaimed(children, hash, claimed, i))
    ensures |Unclaimed(children, hash, claimed)| == |idx|
    ensures forall k :: 0 <= k < |idx| ==> idx[k] < |children| && Unclaimed(children, hash, claimed)[k] == children[idx[k]]
    decreases |children|
  {
    hide IsUnclaimed, Picks;
    if children == [] {
      idx := [];
      NothingPicked(0, (i: nat) => IsUnclaimed(children, hash, claimed, i));
    } else {
      var n := |children| - 1;
      idx := UnclaimedPicked(children[..n], hash, claimed);
      var free := (i: nat) => IsUnclaimed(children, hash, claimed, i);
      FreeInFront(children, hash, claimed, n);
      SamePicks(idx, n, (i: nat) => IsUnclaimed(children[..n], hash, claimed, i), free);
      PicksNext(idx, n, free);
      if free(n) {
        idx := idx + [n];
      }
    }
  }

  lemma FreeInFront(children: seq<ChildChunk>, hash: ChildChunk -> string, claimed: set<string>, n: nat)
    requires n <= |children|
    ensures forall i: nat :: i < n ==> (IsUnclaimed(children[..n], hash, claimed, i) <==> IsUnclaimed(children, hash, claimed, i))
    ensures n < |children| ==> (IsUnclaimed(children, hash, claimed, n) <==> hash(children[n]) !in claimed)
  {
  }

  lemma {:induction false} UnclaimedDistinct(children: seq<ChildChunk>, hash: ChildChunk -> string, claimed: set<string>)
    requires DistinctHashes(children, hash)
    ensures DistinctHashes(Unclaimed(children, hash, claimed), hash)
    decreases |children|
  {
    if children == [] {
    } else {
      var n := |children| - 1;
      UnclaimedDistinct(children[..n], hash, claimed);
      var r := Unclaimed(children[..n], hash, claimed);
      forall i | 0 <= i < |r| ensures hash(r[i]) != hash(children[n]) {
        UnclaimedMembers(children[..n], hash, claimed, r[i]);
        var j :| 0 <= j < n && children[..n][j] == r[i];
        assert children[j] == r[i];
      }
    }
  }

  function SetSeq(c: Chunk, n: nat): Chunk { c.(seqNo := n) }

  function SetChildSeq(c: ChildChunk, n: nat): ChildChunk { c.(chunk := SetSeq(c.chunk, n)) }

  function ParentHashOf(text: string -> string): Chunk -> string {
    (c: Chunk) => text(c.content)
  }

  function ChildHashOf(text: string -> string): ChildChunk -> string {
    (c: ChildChunk) => text(c.chunk.content)
  }

  /** RenumberGlobal: one sequence, parents first. */
  method RenumberGlobal(parents: array<Chunk>, children: array<ChildChunk>) returns (count: nat)
    modifies parents, children
    ensures parents[..] == Numbered(old(parents[..]), SetSeq, 0)
    ensures children[..] == Numbered(old(children[..]), SetChildSeq, parents.Length)
    ensures count == parents.Length + children.Length
  {
    count := 0;
    for i := 0 to parents.Length
      invariant count == i && children[..] == old(children[..])
      invariant forall k :: 0 <= k < parents.Length ==> parents[k] == if k < i then SetSeq(old(parents[k]), k) else old(parents[k])
    {
      parents[i] := SetSeq(parents[i], count);
      count := count + 1;
    }
    ghost var ps := parents[..];
    for i := 0 to children.Length
      invariant count == parents.Length + i && parents[..] == ps
      invariant forall k :: 0 <= k < children.Length ==>
                  children[k] == if k < i then SetChildSeq(old(children[k]), parents.Length + k) else old(children[k])
    {
      children[i] := SetChildSeq(children[i], count);
      count := count + 1;
    }
  }

  method ToArray<T>(s: seq<T>) returns (a: array<T>)
    ensures a[..] == s && fresh(a)
  {
    a := new T[|s|](i requires 0 <= i < |s| => s[i]);
  }

  /** The surviving rows. */
  function KeptParents(parents: seq<Chunk>, text: string -> string): seq<Chunk> {
    Numbered(Firsts(parents, ParentHashOf(text)), SetSeq, 0)
  }

  function KeptChildren(parents: seq<Chunk>, children: seq<ChildChunk>, text: string -> string): seq<ChildChunk> {
    var claimed := Hashes(Firsts(parents, ParentHashOf(text)), ParentHashOf(text));
    Numbered(Unclaimed(Firsts(children, ChildHashOf(text)), ChildHashOf(text), claimed), SetChildSeq, |Firsts(parents, ParentHashOf(text))|)
  }

  /** The dedupe and renumbering of HandleEmbed. */
  method DedupeDocument(parents: seq<Chunk>, children: seq<ChildChunk>, text: string -> string) returns (ps: seq<Chunk>, cs: seq<ChildChunk>)
    ensures ps == KeptParents(parents, text) && cs == KeptChildren(parents, children, text)
  {
    hide Firsts, Unclaimed, Hashes, SameRow, DistinctHashes, Renumbered;
    var parentHash, childHash := ParentHashOf(text), ChildHashOf(text);
    var parentRows := ToArray(parents);
    var keptParents := DropDuplicateChunks(parentRows, parentHash, SetSeq);
    var childRows := ToArray(children);
    var keptChildren := DropDuplicateChunks(childRows, childHash, SetChildSeq);
    NumberedHashes(Firsts(parents, parentHash), SetSeq, 0, parentHash);
    var pHashes := Hashes(keptParents, parentHash);
    var kept := FilterClaimed(keptChildren, childHash, pHashes);
    NumberedSame(Firsts(children, childHash));
    NumberedUnclaimed(Firsts(children, childHash), keptChildren, childHash, pHashes);
    var p := ToArray(keptParents);
    var c := ToArray(kept);
    var count := RenumberGlobal(p, c);
    ps, cs := p[..], c[..];
    RenumberTwice(Firsts(parents, parentHash), 0, 0);
    NumberedSame(Unclaimed(keptChildren, childHash, pHashes));
    SameRowsTrans(Unclaimed(Firsts(children, childHash), childHash, pHashes), Unclaimed(keptChildren, childHash, pHashes), kept);
    RenumberChildrenTwice(Unclaimed(Firsts(children, childHash), childHash, pHashes), kept, p.Length);
  }

  /** The in-place filter: keeps the order and numbers what it keeps. */
  method FilterClaimed(children: seq<ChildChunk>, hash: ChildChunk -> string, claimed: set<string>) returns (kept: seq<ChildChunk>)
    requires forall c: ChildChunk, n: nat :: hash(SetChildSeq(c, n)) == hash(c)
    ensures kept == Numbered(Unclaimed(children, hash, claimed), SetChildSeq, 0)
  {
    kept := [];
    var nKept := 0;
    for i := 0 to |children|
      invariant nKept == |kept| && kept == Numbered(Unclaimed(children[..i], hash, claimed), SetChildSeq, 0)
    {
      assert children[..i + 1][..i] == children[..i];
      if hash(children[i]) in claimed {
        continue;
      }
      kept := kept + [SetChildSeq(children[i], nKept)];
      nKept := nKept + 1;
    }
    assert children[..|children|] == children;
  }

  lemma NumberedHashes<T>(cs: seq<T>, setSeq: (T, nat) -> T, from: nat, hash: T -> string)
    requires forall i, n: nat :: 0 <= i < |cs| ==> hash(setSeq(cs[i], n)) == hash(cs[i])
    ensures Hashes(Numbered(cs, setSeq, from), hash) == Hashes(cs, hash)
    ensures DistinctHashes(Numbered(cs, setSeq, from), hash) <==> DistinctHashes(cs, hash)
  {
    var ns := Numbered(cs, setSeq, from);
    assert forall i :: 0 <= i < |cs| ==> ns[i] == setSeq(cs[i], from + i) && hash(ns[i]) == hash(cs[i]);
    forall h ensures h in Hashes(ns, hash) <==> h in Hashes(cs, hash) {
      if h in Hashes(cs, hash) {
        var i :| 0 <= i < |cs| && hash(cs[i]) == h;
        assert hash(ns[i]) == h;
      }
    }
  }

  /** The same row but for its number. */
  predicate SameRow(a: ChildChunk, b: ChildChunk) {
    SetChildSeq(a, 0) == SetChildSeq(b, 0)
  }

  predicate SameRows(a: seq<ChildChunk>, b: seq<ChildChunk>) {
    |a| == |b| && forall i :: 0 <= i < |a| ==> SameRow(a[i], b[i])
  }

  lemma {:induction false} NumberedUnclaimed(cs: seq<ChildChunk>, ds: seq<ChildChunk>, hash: ChildChunk -> string, claimed: set<string>)
    requires forall c: ChildChunk, n: nat :: hash(SetChildSeq(c, n)) == hash(c)
    requires SameRows(cs, ds)
    ensures SameRows(Unclaimed(cs, hash, claimed), Unclaimed(ds, hash, claimed))
    decreases |cs|
  {
    hide SameRow;
    if cs == [] {
    } else {
      var n := |cs| - 1;
      NumberedUnclaimed(cs[..n], ds[..n], hash, claimed);
      SameHash(cs[n], ds[n], hash);
    }
  }

  lemma SameHash(a: ChildChunk, b: ChildChunk, hash: ChildChunk -> string)
    requires forall c: ChildChunk, n: nat :: hash(SetChildSeq(c, n)) == hash(c)
    requires SameRow(a, b)
    ensures hash(a) == hash(b)
  {
    assert hash(SetChildSeq(a, 0)) == hash(SetChildSeq(b, 0));
  }

  lemma NumberedSame(cs: seq<ChildChunk>)
    ensures SameRows(cs, Numbered(cs, SetChildSeq, 0))
  {
  }

  lemma SameRowsTrans(a: seq<ChildChunk>, b: seq<ChildChunk>, c: seq<ChildChunk>)
    requires SameRows(a, b) && SameRows(b, c)
    ensures SameRows(a, c)
  {
    forall i | 0 <= i < |a| ensures SameRow(a[i], c[i]) {
      assert SameRow(a[i], b[i]) && SameRow(b[i], c[i]);
    }
  }

  lemma RenumberTwice(cs: seq<Chunk>, a: nat, b: nat)
    ensures Numbered(Numbered(cs, SetSeq, a), SetSeq, b) == Numbered(cs, SetSeq, b)
  {
  }

  lemma RenumberChildrenTwice(cs: seq<ChildChunk>, ds: seq<ChildChunk>, b: nat)
    requires SameRows(cs, ds)
    ensures Numbered(ds, SetChildSeq, b) == Numbered(cs, SetChildSeq, b)
  {
    forall i | 0 <= i < |cs| ensures SetChildSeq(ds[i], b + i) == SetChildSeq(cs[i], b + i) {
      assert SameRow(cs[i], ds[i]);
    }
  }

  // ---- what is written ------------------------------------------------------

  /** Hashes are unique across both sets, none is lost, and seq is exactly 0..N-1, parents first. */
  lemma RowsUnique(parents: seq<Chunk>, children: seq<ChildChunk>, text: string -> string)
    ensures var ps, cs := KeptParents(parents, text), KeptChildren(parents, children, text);
            var hp, hc := Hashes(ps, ParentHashOf(text)), Hashes(cs, ChildHashOf(text));
            && DistinctHashes(ps, ParentHashOf(text)) && DistinctHashes(cs, ChildHashOf(text)) && hp !! hc
            && hp + hc == Hashes(parents, ParentHashOf(text)) + Hashes(children, ChildHashOf(text))
            && hp == Hashes(parents, ParentHashOf(text))
            && (forall i :: 0 <= i < |ps| ==> ps[i].seqNo == i)
            && (forall i :: 0 <= i < |cs| ==> cs[i].chunk.seqNo == |ps| + i)
  {
    hide Firsts, Unclaimed;
    var ph, ch := ParentHashOf(text), ChildHashOf(text);
    var p, c := Firsts(parents, ph), Firsts(children, ch);
    var claimed := Hashes(p, ph);
    var u := Unclaimed(c, ch, claimed);
    FirstsKeepEveryHash(parents, ph);
    FirstsKeepEveryHash(children, ch);
    NumberedHashes(p, SetSeq, 0, ph);
    UnclaimedDistinct(c, ch, claimed);
    NumberedHashes(u, SetChildSeq, |p|, ch);
    forall h ensures h in Hashes(u, ch) <==> h in Hashes(c, ch) && h !in claimed {
      UnclaimedHash(c, ch, claimed, h);
    }
  }

  /**
   * Which rows survive, and in which order: a parent when no earlier one has its hash, a child when
   * no parent and no earlier child has; each as it was but for its number.
   */
  lemma KeptRows(parents: seq<Chunk>, children: seq<ChildChunk>, text: string -> string) returns (pi: seq<nat>, ci: seq<nat>)
    ensures Picks(pi, |parents|, (i: nat) => IsFirst(parents, ParentHashOf(text), i))
    ensures Picks(ci, |children|, (i: nat) => Survives(parents, children, text, i))
    ensures var ps, cs := KeptParents(parents, text), KeptChildren(parents, children, text);
            && |ps| == |pi| && (forall k :: 0 <= k < |pi| ==> pi[k] < |parents| && ps[k] == SetSeq(parents[pi[k]], k))
            && |cs| == |ci| && (forall k :: 0 <= k < |ci| ==> ci[k] < |children| && cs[k] == SetChildSeq(children[ci[k]], |ps| + k))
  {
    hide Firsts, Unclaimed, Hashes, IsFirst, SetSeq, SetChildSeq;
    var ph, ch := ParentHashOf(text), ChildHashOf(text);
    pi := FirstsPicked(parents, ph);
    FirstsKeepEveryHash(parents, ph);
    var claimed := Hashes(Firsts(parents, ph), ph);
    var fi := FirstsPicked(children, ch);
    var first := Firsts(children, ch);
    var ui := UnclaimedPicked(first, ch, claimed);
    assert forall k :: 0 <= k < |ui| ==> ui[k] < |fi|;
    ci := seq(|ui|, k requires 0 <= k < |ui| => fi[ui[k]]);
    PicksOfPicks(fi, |children|, ui, ci, (i: nat) => IsFirst(children, ch, i), (i: nat) => IsUnclaimed(children, ch, claimed, i),
                 (i: nat) => Survives(parents, children, text, i));
  }

  /** Child i is written: no parent and no earlier child has its hash. */
  predicate Survives(parents: seq<Chunk>, children: seq<ChildChunk>, text: string -> string, i: int) {
    IsFirst(children, ChildHashOf(text), i) && text(children[i].chunk.content) !in Hashes(parents, ParentHashOf(text))
  }

  /** Picking among what was picked. */
  lemma PicksOfPicks(a: seq<nat>, n: nat, b: seq<nat>, c: seq<nat>, p: nat -> bool, q: nat -> bool, both: nat -> bool)
    requires Picks(a, n, p) && Picks(b, |a|, (k: nat) => k < |a| && q(a[k]))
    requires |c| == |b| && forall k :: 0 <= k < |b| ==> b[k] < |a| && c[k] == a[b[k]]
    requires forall i: nat :: i < n ==> (both(i) <==> p(i) && q(i))
    ensures Picks(c, n, both)
  {
    forall i: nat ensures i in c <==> i < n && both(i) {
      if i in c {
        var k :| 0 <= k < |c| && c[k] == i;
        assert b[k] in b && a[b[k]] in a;
      }
      if i < n && both(i) {
        assert i in a;
        var k: nat :| k < |a| && a[k] == i;
        assert k in b;
        var j :| 0 <= j < |b| && b[j] == k;
        assert c[j] == i;
      }
    }
  }

  lemma UnclaimedHash(children: seq<ChildChunk>, hash: ChildChunk -> string, claimed: set<string>, h: string)
    ensures h in Hashes(Unclaimed(children, hash, claimed), hash) <==> h in Hashes(children, hash) && h !in claimed
  {
    var u := Unclaimed(children, hash, claimed);
    if h in Hashes(u, hash) {
      var i :| 0 <= i < |u| && hash(u[i]) == h;
      UnclaimedMembers(children, hash, claimed, u[i]);
      var j :| 0 <= j < |children| && children[j] == u[i];
    }
    if h in Hashes(children, hash) && h !in claimed {
      var j :| 0 <= j < |children| && hash(children[j]) == h;
      UnclaimedMembers(children, hash, claimed, children[j]);
      var i :| 0 <= i < |u| && u[i] == children[j];
    }
  }

  /** parent_id: the id of the surviving parent with the child's parent hash, if there is one. */
  function ParentId(id: string -> string, surviving: set<string>, c: ChildChunk): Option<string> {
    if c.parentHash == "" || c.parentHash !in surviving then None else Some(id(c.parentHash))
  }

  /**
   * Links of a document chunked by SplitParentChild: every kept child of a materialised parent
   * points to a surviving parent row with its parent's hash, never to itself; every other kept
   * child has no parent. No parent is ever lost by deduplication.
   */
  lemma ParentLinks(src: Source, text: string -> string, id: string -> string, sources: seq<Chunk>, subs: seq<seq<Chunk>>, i: nat)
    requires AllVerbatimIn(src.markdown, sources, subs) && forall t: string :: text(t) != ""
    requires forall a: string, b: string :: id(a) == id(b) ==> a == b
    requires var r := Assembled(src, text, sources, subs); i < |KeptChildren(r.parents, r.children, text)|
    ensures var r := Assembled(src, text, sources, subs);
            var ps, c := KeptParents(r.parents, text), KeptChildren(r.parents, r.children, text)[i];
            var link := ParentId(id, Hashes(ps, ParentHashOf(text)), c);
            && (link.Some? <==> c.parentIndex >= 0)
            && (link.Some? ==>
                  && link.value == id(c.parentHash) != id(text(c.chunk.content))
                  && exists k :: 0 <= k < |ps| && id(text(ps[k].content)) == link.value && k == ps[k].seqNo)
  {
    hide Firsts, Unclaimed, Assembled, AllVerbatim, Verbatim, Origins, RowsOf;
    var r := Assembled(src, text, sources, subs);
    var ps, c := KeptParents(r.parents, text), KeptChildren(r.parents, r.children, text)[i];
    EveryChildOk(src, text, sources, subs);
    RowsUnique(r.parents, r.children, text);
    var j := KeptFrom(r.parents, r.children, text, i);
    var rows, o := RowsOf(sources, subs), Origins(subs)[j];
    assert ChildFrom(src, text, sources, subs, r, rows, r.children[j], o);
    assert ChildOk(src, text, r, rows, sources[o.0], subs[o.0], o.0, o.1, r.children[j]);
    assert text(c.chunk.content) in Hashes(KeptChildren(r.parents, r.children, text), ChildHashOf(text)) by {
      assert ChildHashOf(text)(KeptChildren(r.parents, r.children, text)[i]) == text(c.chunk.content);
    }
    if c.parentIndex >= 0 {
      var p := r.parents[c.parentIndex];
      assert ParentOk(src, sources[rows[c.parentIndex]], p);
      assert ParentHashOf(text)(p) == c.parentHash;
      assert c.parentHash in Hashes(r.parents, ParentHashOf(text));
      var k :| 0 <= k < |ps| && ParentHashOf(text)(ps[k]) == c.parentHash;
      assert ps[k].seqNo == k;
    }
  }

  /** A kept child is one of the children, renumbered. */
  lemma KeptFrom(parents: seq<Chunk>, children: seq<ChildChunk>, text: string -> string, i: nat) returns (j: nat)
    requires i < |KeptChildren(parents, children, text)|
    ensures j < |children|
    ensures KeptChildren(parents, children, text)[i] == SetChildSeq(children[j], KeptChildren(parents, children, text)[i].chunk.seqNo)
  {
    hide Firsts, Unclaimed, Hashes;
    var claimed := Hashes(Firsts(parents, ParentHashOf(text)), ParentHashOf(text));
    var c := Firsts(children, ChildHashOf(text));
    var u := Unclaimed(c, ChildHashOf(text), claimed);
    assert u[i] in u;
    UnclaimedMembers(c, ChildHashOf(text), claimed, u[i]);
    FirstsAreFirst(children, ChildHashOf(text), u[i]);
    j :| IsFirst(children, ChildHashOf(text), j) && children[j] == u[i];
  }
}
