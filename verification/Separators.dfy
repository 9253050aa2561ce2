/** Separator splitting: where it cuts, and why. */
module Separators {
  import opened Text
  import opened Chunks

  // ---- splitBySeparators --------------------------------------------------

  /** Offset of the first occurrence of sep. */
  function IndexOf(text: string, sep: string): Option<nat> {
    if |sep| > |text| then None
    else if text[..|sep|] == sep then Some(0)
    else if text == "" then None
    else match IndexOf(text[1..], sep) case None => None case Some(i) => Some(i + 1)
  }

  predicate OccursAt(text: string, sep: string, i: int) {
    0 <= i && i + |sep| <= |text| && text[i..i + |sep|] == sep
  }

  ghost predicate Occurs(text: string, sep: string) {
    exists i :: OccursAt(text, sep, i)
  }

  lemma OccursShift(text: string, sep: string, j: int)
    requires text != "" && j >= 1
    ensures OccursAt(text, sep, j) <==> OccursAt(text[1..], sep, j - 1)
  {
    if j + |sep| <= |text| {
      assert text[1..|text|] == text[1..];
      SliceOfSlice(text, 1, |text|, j - 1, j - 1 + |sep|);
    }
  }

  /** i is the leftmost occurrence of sep. */
  ghost predicate Leftmost(text: string, sep: string, i: int) {
    OccursAt(text, sep, i) && forall j :: OccursAt(text, sep, j) ==> i <= j
  }

  /** IndexOf finds the leftmost occurrence, and finds none only when there is none. */
  lemma {:induction false} IndexOfSpec(text: string, sep: string)
    ensures IndexOf(text, sep).Some? <==> Occurs(text, sep)
    ensures IndexOf(text, sep).Some? ==> Leftmost(text, sep, IndexOf(text, sep).value)
  {
    if |sep| > |text| {
    } else {
      if text[..|sep|] == sep {
        assert text[0..0 + |sep|] == sep;
        assert OccursAt(text, sep, 0);
      } else {
        assert text[0..0 + |sep|] == text[..|sep|];
        assert !OccursAt(text, sep, 0);
        IndexOfSpec(text[1..], sep);
        if IndexOf(text[1..], sep).Some? {
          OccursShift(text, sep, IndexOf(text[1..], sep).value + 1);
        }
        forall j | OccursAt(text, sep, j) ensures OccursAt(text[1..], sep, j - 1) {
          OccursShift(text, sep, j);
        }
      }
    }
  }

  /** The text cut at every occurrence of sep, separators kept, empty pieces dropped. */
  function Pieces(text: string, sep: string): seq<string>
    requires sep != ""
    decreases |text|
  {
    match IndexOf(text, sep)
    case None => if text == "" then [] else [text]
    case Some(i) =>
      IndexOfSpec(text, sep);
      (if i > 0 then [text[..i]] else []) + [sep] + Pieces(text[i + |sep|..], sep)
  }

  /** A piece no separator can cut any further. */
  ghost predicate NoCut(p: string, separators: seq<string>) {
    forall s :: s in separators && s != "" ==> !Occurs(p, s) || p == s
  }

  lemma OccursTrans(a: string, b: string, c: string)
    requires Occurs(b, a) && Occurs(c, b)
    ensures Occurs(c, a)
  {
    var i :| OccursAt(c, b, i);
    var j :| OccursAt(b, a, j);
    SliceOfSlice(c, i, i + |b|, j, j + |a|);
    assert OccursAt(c, a, i + j);
  }

  lemma ConcatOne(p: string)
    ensures Concat([p]) == p
  {
    assert Concat([p]) == p + Concat([p][1..]);
  }

  lemma OccursSelf(p: string)
    ensures Occurs(p, p)
  {
    assert OccursAt(p, p, 0);
  }

  /** A non-empty part of text that sep no longer cuts. */
  ghost predicate GoodPiece(text: string, sep: string, p: string) {
    p != "" && Occurs(text, p) && (!Occurs(p, sep) || p == sep)
  }

  lemma {:induction false} PiecesSpec(text: string, sep: string)
    requires sep != ""
    ensures Concat(Pieces(text, sep)) == text
    ensures forall p :: p in Pieces(text, sep) ==> GoodPiece(text, sep, p)
    decreases |text|
  {
    IndexOfSpec(text, sep);
    match IndexOf(text, sep)
    case None =>
      OccursSelf(text);
      ConcatOne(text);
    case Some(i) =>
      var head, tail := text[..i], text[i + |sep|..];
      PiecesSpec(tail, sep);
      PiecesConcat(text, sep, i);
      HeadPiece(text, sep, i);
      OccursSelf(sep);
      assert OccursAt(text, tail, i + |sep|);
      forall p | p in Pieces(tail, sep) ensures GoodPiece(text, sep, p) {
        OccursTrans(p, tail, text);
      }
  }

  lemma PiecesConcat(text: string, sep: string, i: nat)
    requires sep != "" && IndexOf(text, sep) == Some(i) && OccursAt(text, sep, i)
    requires Concat(Pieces(text[i + |sep|..], sep)) == text[i + |sep|..]
    ensures Concat(Pieces(text, sep)) == text
  {
    var front := if i > 0 then [text[..i]] else [];
    ConcatAppend(front + [sep], Pieces(text[i + |sep|..], sep));
    ConcatAppend(front, [sep]);
    ConcatOne(sep);
    ConcatOne(text[..i]);
  }

  /** The text before the first occurrence is free of the separator. */
  lemma HeadPiece(text: string, sep: string, i: nat)
    requires sep != "" && Leftmost(text, sep, i)
    ensures i > 0 ==> GoodPiece(text, sep, text[..i])
  {
    var head := text[..i];
    assert text[0..i] == head;
    assert OccursAt(text, head, 0);
    if Occurs(head, sep) {
      var j :| OccursAt(head, sep, j);
      SliceOfSlice(text, 0, i, j, j + |sep|);
      assert OccursAt(text, sep, j);
    }
  }

  /** splitBySeparators: split by the first separator that cuts, then refine oversized pieces. */
  function SplitBy(text: string, separators: seq<string>, chunkSize: int): seq<string>
    decreases |separators|, 2, 0
  {
    if text == "" || separators == [] || (chunkSize > 0 && |text| <= chunkSize) then [text]
    else FirstCut(text, separators, chunkSize)
  }

  function FirstCut(text: string, separators: seq<string>, chunkSize: int): seq<string>
    decreases |separators|, 1, 0
  {
    if separators == [] then [text]
    else if separators[0] == "" || |Pieces(text, separators[0])| <= 1 then
      FirstCut(text, separators[1..], chunkSize)
    else
      Refine(Pieces(text, separators[0]), separators[1..], chunkSize)
  }

  function Refine(pieces: seq<string>, rest: seq<string>, chunkSize: int): seq<string>
    decreases |rest|, 3, |pieces|
  {
    if pieces == [] then []
    else
      var p := pieces[0];
      (if chunkSize > 0 && |p| > chunkSize && rest != [] then SplitBy(p, rest, chunkSize) else [p])
      + Refine(pieces[1..], rest, chunkSize)
  }

  /** What every stage promises of the parts it cuts `text` into. */
  ghost predicate CutsOf(text: string, parts: seq<string>, separators: seq<string>, chunkSize: int) {
    && Concat(parts) == text
    && (forall p :: p in parts ==> p != "" && Occurs(text, p))
    && (chunkSize > 0 ==> forall p :: p in parts && |p| > chunkSize ==> NoCut(p, separators))
  }

  lemma SelfCut(text: string, separators: seq<string>, chunkSize: int)
    requires text != "" && ((chunkSize > 0 && |text| <= chunkSize) || NoCut(text, separators))
    ensures CutsOf(text, [text], separators, chunkSize)
  {
    ConcatOne(text);
    OccursSelf(text);
  }

  /** A separator that leaves at most one piece occurs nowhere, or is the whole text. */
  lemma OnePiece(text: string, sep: string)
    requires text != "" && sep != "" && |Pieces(text, sep)| <= 1
    ensures !Occurs(text, sep) || text == sep
  {
    PiecesSpec(text, sep);
    if |Pieces(text, sep)| == 1 {
      var ps := Pieces(text, sep);
      assert Concat(ps) == ps[0] + Concat(ps[1..]);
      assert ps[0] in ps;
    }
  }

  /**
   * Separator splitting loses nothing, emits no empty part, and leaves a part above the
   * budget only when no separator can cut it.
   */
  lemma {:induction false} SplitByCuts(text: string, separators: seq<string>, chunkSize: int)
    requires text != ""
    ensures CutsOf(text, SplitBy(text, separators, chunkSize), separators, chunkSize)
    decreases |separators|, 2, 0
  {
    if separators == [] || (chunkSize > 0 && |text| <= chunkSize) {
      SelfCut(text, separators, chunkSize);
    } else {
      FirstCutCuts(text, separators, chunkSize);
    }
  }

  lemma {:induction false} FirstCutCuts(text: string, separators: seq<string>, chunkSize: int)
    requires text != ""
    ensures CutsOf(text, FirstCut(text, separators, chunkSize), separators, chunkSize)
    decreases |separators|, 1, 0
  {
    if separators == [] {
      SelfCut(text, separators, chunkSize);
    } else {
      var sep, rest := separators[0], separators[1..];
      var parts := FirstCut(text, separators, chunkSize);
      if sep == "" || |Pieces(text, sep)| <= 1 {
        FirstCutCuts(text, rest, chunkSize);
        if sep != "" { OnePiece(text, sep); }
      } else {
        PiecesSpec(text, sep);
        RefineCuts(text, sep, Pieces(text, sep), rest, chunkSize);
      }
      if chunkSize > 0 && sep != "" {
        forall p | p in parts && |p| > chunkSize ensures !Occurs(p, sep) || p == sep {
          if Occurs(p, sep) && |Pieces(text, sep)| <= 1 {
            OccursTrans(sep, p, text);
          }
        }
      }
    }
  }

  lemma {:induction false} RefineCuts(text: string, sep: string, pieces: seq<string>, rest: seq<string>, chunkSize: int)
    requires sep != "" && forall p :: p in pieces ==> GoodPiece(text, sep, p)
    ensures var parts := Refine(pieces, rest, chunkSize);
            && Concat(parts) == Concat(pieces)
            && (forall p :: p in parts ==> GoodPiece(text, sep, p))
            && (chunkSize > 0 ==> forall p :: p in parts && |p| > chunkSize ==> NoCut(p, rest))
    decreases |rest|, 3, |pieces|
  {
    if pieces == [] {
    } else {
      var p := pieces[0];
      RefineCuts(text, sep, pieces[1..], rest, chunkSize);
      var head := if chunkSize > 0 && |p| > chunkSize && rest != [] then SplitBy(p, rest, chunkSize) else [p];
      if chunkSize > 0 && |p| > chunkSize && rest != [] {
        SplitByCuts(p, rest, chunkSize);
      } else {
        ConcatOne(p);
        OccursSelf(p);
      }
      assert p in pieces && GoodPiece(text, sep, p);
      forall q | q in head ensures GoodPiece(text, sep, q) {
        OccursTrans(q, p, text);
        if Occurs(q, sep) {
          OccursTrans(sep, q, p);
          var i :| OccursAt(q, sep, i);
          assert |q| <= |p| && q[0..|q|] == q;
        }
      }
      ConcatAppend(head, Refine(pieces[1..], rest, chunkSize));
    }
  }

  // ---- round by round -------------------------------------------------------

  /** A part above the budget is cut at every occurrence of the separator. */
  function CutOne(p: string, sep: string, chunkSize: int): seq<string> {
    if sep != "" && |p| > chunkSize then Pieces(p, sep) else [p]
  }

  function CutAll(parts: seq<string>, sep: string, chunkSize: int): seq<string> {
    if parts == [] then [] else CutOne(parts[0], sep, chunkSize) + CutAll(parts[1..], sep, chunkSize)
  }

  /** One separator after the other, each on whatever is still above the budget. */
  function CutRounds(parts: seq<string>, separators: seq<string>, chunkSize: int): seq<string>
    decreases |separators|
  {
    if separators == [] then parts else CutRounds(CutAll(parts, separators[0], chunkSize), separators[1..], chunkSize)
  }

  lemma {:induction false} CutAllAppend(a: seq<string>, b: seq<string>, sep: string, chunkSize: int)
    ensures CutAll(a + b, sep, chunkSize) == CutAll(a, sep, chunkSize) + CutAll(b, sep, chunkSize)
  {
    if a == [] {
      assert a + b == b;
    } else {
      assert (a + b)[1..] == a[1..] + b;
      CutAllAppend(a[1..], b, sep, chunkSize);
    }
  }

  lemma {:induction false} CutRoundsAppend(a: seq<string>, b: seq<string>, separators: seq<string>, chunkSize: int)
    ensures CutRounds(a + b, separators, chunkSize) == CutRounds(a, separators, chunkSize) + CutRounds(b, separators, chunkSize)
    decreases |separators|
  {
    if separators == [] {
    } else {
      CutAllAppend(a, b, separators[0], chunkSize);
      CutRoundsAppend(CutAll(a, separators[0], chunkSize), CutAll(b, separators[0], chunkSize), separators[1..], chunkSize);
    }
  }

  lemma CutAllOne(p: string, sep: string, chunkSize: int)
    ensures CutAll([p], sep, chunkSize) == CutOne(p, sep, chunkSize)
  {
    assert [p][1..] == [];
  }

  lemma {:induction false} CutRoundsShort(p: string, separators: seq<string>, chunkSize: int)
    requires |p| <= chunkSize
    ensures CutRounds([p], separators, chunkSize) == [p]
    decreases |separators|
  {
    if separators == [] {
    } else {
      CutAllOne(p, separators[0], chunkSize);
      CutRoundsShort(p, separators[1..], chunkSize);
    }
  }

  /** The recursion, piece by piece, cuts exactly as the rounds do. */
  lemma {:induction false} SplitByRounds(text: string, separators: seq<string>, chunkSize: int)
    requires text != "" && chunkSize >= 1
    ensures SplitBy(text, separators, chunkSize) == CutRounds([text], separators, chunkSize)
    decreases |separators|, 2, 0
  {
    if |text| <= chunkSize {
      CutRoundsShort(text, separators, chunkSize);
    } else if separators != [] {
      FirstCutRounds(text, separators, chunkSize);
    }
  }

  lemma {:induction false} FirstCutRounds(text: string, separators: seq<string>, chunkSize: int)
    requires text != "" && 1 <= chunkSize < |text|
    ensures FirstCut(text, separators, chunkSize) == CutRounds([text], separators, chunkSize)
    decreases |separators|, 1, 0
  {
    if separators == [] {
    } else {
      var sep, rest := separators[0], separators[1..];
      CutAllOne(text, sep, chunkSize);
      if sep == "" || |Pieces(text, sep)| <= 1 {
        if sep != "" {
          OnlyPiece(text, sep);
        }
        FirstCutRounds(text, rest, chunkSize);
      } else {
        PiecesSpec(text, sep);
        RefineRounds(Pieces(text, sep), rest, chunkSize);
      }
    }
  }

  lemma OnlyPiece(text: string, sep: string)
    requires text != "" && sep != "" && |Pieces(text, sep)| <= 1
    ensures Pieces(text, sep) == [text]
  {
    PiecesSpec(text, sep);
    var ps := Pieces(text, sep);
    if |ps| == 1 {
      assert ps == [ps[0]];
      ConcatOne(ps[0]);
    }
  }

  lemma {:induction false} RefineRounds(pieces: seq<string>, rest: seq<string>, chunkSize: int)
    requires chunkSize >= 1 && forall p :: p in pieces ==> p != ""
    ensures Refine(pieces, rest, chunkSize) == CutRounds(pieces, rest, chunkSize)
    decreases |rest|, 3, |pieces|
  {
    if pieces == [] {
      CutNothing(rest, chunkSize);
    } else {
      var p := pieces[0];
      assert forall x :: x in pieces[1..] ==> x in pieces;
      RefineRounds(pieces[1..], rest, chunkSize);
      assert pieces == [p] + pieces[1..];
      CutRoundsAppend([p], pieces[1..], rest, chunkSize);
      assert p in pieces;
      if |p| > chunkSize && rest != [] {
        SplitByRounds(p, rest, chunkSize);
      } else if |p| <= chunkSize {
        CutRoundsShort(p, rest, chunkSize);
      }
    }
  }

  lemma {:induction false} CutNothing(separators: seq<string>, chunkSize: int)
    ensures CutRounds([], separators, chunkSize) == []
    decreases |separators|
  {
    if separators == [] {
    } else {
      CutNothing(separators[1..], chunkSize);
    }
  }

  // ---- why a cut is where it is ---------------------------------------------

  /** Offset e is the start or the end of an occurrence. */
  predicate AtOccurrence(text: string, sep: string, e: int) {
    OccursAt(text, sep, e) || OccursAt(text, sep, e - |sep|)
  }

  /** e is at an occurrence of the k-th separator in a stretch above the budget that no earlier separator cuts. */
  ghost predicate CutAt(text: string, separators: seq<string>, chunkSize: int, e: int, k: int, p: int, q: int) {
    && 0 <= k < |separators| && separators[k] != ""
    && 0 <= p < e < q <= |text| && q - p > chunkSize
    && AtOccurrence(text[p..q], separators[k], e - p) && NoCut(text[p..q], separators[..k])
  }

  ghost predicate CutReason(text: string, separators: seq<string>, chunkSize: int, e: int) {
    exists k, p, q :: CutAt(text, separators, chunkSize, e, k, p, q)
  }

  /** Every cut between the parts, the first of which starts at a, has its reason. */
  ghost predicate Reasons(text: string, separators: seq<string>, chunkSize: int, a: int, parts: seq<string>)
    decreases |parts|
  {
    |parts| >= 2 ==>
      CutReason(text, separators, chunkSize, a + |parts[0]|) && Reasons(text, separators, chunkSize, a + |parts[0]|, parts[1..])
  }

  lemma {:induction false} ReasonsAppend(text: string, separators: seq<string>, chunkSize: int, a: int, xs: seq<string>, ys: seq<string>)
    requires Reasons(text, separators, chunkSize, a, xs) && Reasons(text, separators, chunkSize, a + |Concat(xs)|, ys)
    requires xs != [] && ys != [] ==> CutReason(text, separators, chunkSize, a + |Concat(xs)|)
    ensures Reasons(text, separators, chunkSize, a, xs + ys)
    decreases |xs|
  {
    hide CutReason;
    if xs == [] {
      assert xs + ys == ys;
    } else {
      assert (xs + ys)[1..] == xs[1..] + ys;
      assert |Concat(xs)| == |xs[0]| + |Concat(xs[1..])|;
      ReasonsAppend(text, separators, chunkSize, a + |xs[0]|, xs[1..], ys);
      if xs[1..] == [] {
        assert Concat(xs[1..]) == "";
      }
    }
  }

  /** The pieces of a stretch from p to q meet at occurrences; a is where the rest of it starts. */
  lemma {:induction false} PieceReasons(text: string, separators: seq<string>, chunkSize: int, k: nat, p: nat, q: nat, a: nat)
    requires k < |separators| && separators[k] != "" && p <= a <= q <= |text| && q - p > chunkSize
    requires NoCut(text[p..q], separators[..k])
    ensures Reasons(text, separators, chunkSize, a, Pieces(text[a..q], separators[k]))
    decreases q - a
  {
    hide NoCut, Reasons;
    var sep, rest := separators[k], text[a..q];
    IndexOfSpec(rest, sep);
    match IndexOf(rest, sep)
    case None =>
      OneOrNone(text, separators, chunkSize, a, Pieces(rest, sep));
    case Some(i) =>
      var b := a + i + |sep|;
      assert rest[i + |sep|..] == text[b..q];
      PieceReasons(text, separators, chunkSize, k, p, q, b);
      OccursWithin(text, sep, p, q, a, i);
      if i > 0 {
        assert CutAt(text, separators, chunkSize, a + i, k, p, q);
      }
      if b < q {
        assert CutAt(text, separators, chunkSize, b, k, p, q);
      } else {
        NothingToCut(sep);
        assert text[b..q] == "";
      }
      hide Pieces, CutReason, IndexOf;
      GluedReasons(text, separators, chunkSize, a, rest[..i], sep, Pieces(text[b..q], sep));
  }

  lemma OneOrNone(text: string, separators: seq<string>, chunkSize: int, a: int, parts: seq<string>)
    requires |parts| <= 1
    ensures Reasons(text, separators, chunkSize, a, parts)
  {
  }

  lemma NothingToCut(sep: string)
    requires sep != ""
    ensures Pieces("", sep) == []
  {
  }

  lemma GluedReasons(text: string, separators: seq<string>, chunkSize: int, a: int, head: string, sep: string, tail: seq<string>)
    requires Reasons(text, separators, chunkSize, a + |head| + |sep|, tail)
    requires head != "" ==> CutReason(text, separators, chunkSize, a + |head|)
    requires tail != [] ==> CutReason(text, separators, chunkSize, a + |head| + |sep|)
    ensures Reasons(text, separators, chunkSize, a, (if head != "" then [head] else []) + [sep] + tail)
  {
    hide CutReason;
    assert ([sep] + tail)[1..] == tail;
    assert Reasons(text, separators, chunkSize, a + |head|, [sep] + tail);
    if head != "" {
      assert [head] + [sep] + tail == [head] + ([sep] + tail);
      assert ([head] + ([sep] + tail))[1..] == [sep] + tail;
    } else {
      assert [] + [sep] + tail == [sep] + tail;
    }
  }

  lemma OccursWithin(text: string, sep: string, p: nat, q: nat, a: nat, i: nat)
    requires p <= a <= q <= |text| && OccursAt(text[a..q], sep, i)
    ensures OccursAt(text[p..q], sep, a - p + i) && a + i + |sep| <= q
  {
    SliceOfSlice(text, p, q, a - p, q - p);
    SliceOfSlice(text[p..q], a - p, q - p, i, i + |sep|);
    assert text[p..q][a - p..q - p] == text[a..q];
  }

  /** No part is empty, and none above the budget is cut by the separators. */
  ghost predicate NotCutBy(parts: seq<string>, separators: seq<string>, chunkSize: int) {
    forall p :: p in parts ==> p != "" && (|p| > chunkSize ==> NoCut(p, separators))
  }

  lemma NotCutAppend(a: seq<string>, b: seq<string>, separators: seq<string>, chunkSize: int)
    ensures NotCutBy(a + b, separators, chunkSize) <==> NotCutBy(a, separators, chunkSize) && NotCutBy(b, separators, chunkSize)
  {
    hide NoCut;
    assert forall p :: p in a + b <==> p in a || p in b;
  }

  /** One round: the cuts it adds have their reason, as the old ones had. */
  lemma {:induction false} RoundReasons(text: string, separators: seq<string>, chunkSize: int, k: nat, a: nat, parts: seq<string>)
    requires k < |separators| && a + |Concat(parts)| <= |text| && text[a..a + |Concat(parts)|] == Concat(parts)
    requires NotCutBy(parts, separators[..k], chunkSize)
    requires Reasons(text, separators, chunkSize, a, parts)
    ensures Reasons(text, separators, chunkSize, a, CutAll(parts, separators[k], chunkSize))
    ensures Concat(CutAll(parts, separators[k], chunkSize)) == Concat(parts)
    ensures NotCutBy(CutAll(parts, separators[k], chunkSize), separators[..k + 1], chunkSize)
    decreases |parts|
  {
    hide NotCutBy, CutReason, CutOne, Reasons;
    if parts == [] {
      NoParts(text, separators, chunkSize, k, a);
    } else {
      var x, sep := parts[0], separators[k];
      var rest := parts[1..];
      PartSlices(text, a, parts);
      assert parts == [x] + rest;
      NotCutAppend([x], rest, separators[..k], chunkSize);
      OnePartRound(text, separators, chunkSize, k, a, x);
      LaterReasons(text, separators, chunkSize, a, parts);
      RoundReasons(text, separators, chunkSize, k, a + |x|, rest);
      var head, cut := CutOne(x, sep, chunkSize), CutAll(rest, sep, chunkSize);
      assert rest == [] ==> cut == [];
      ConcatAppend(head, cut);
      NotCutAppend(head, cut, separators[..k + 1], chunkSize);
      ReasonsAppend(text, separators, chunkSize, a, head, cut);
    }
  }

  lemma NoParts(text: string, separators: seq<string>, chunkSize: int, k: nat, a: int)
    requires k < |separators|
    ensures Reasons(text, separators, chunkSize, a, []) && NotCutBy([], separators[..k + 1], chunkSize)
  {
  }

  lemma LaterReasons(text: string, separators: seq<string>, chunkSize: int, a: int, parts: seq<string>)
    requires parts != [] && Reasons(text, separators, chunkSize, a, parts)
    ensures Reasons(text, separators, chunkSize, a + |parts[0]|, parts[1..])
    ensures parts[1..] != [] ==> CutReason(text, separators, chunkSize, a + |parts[0]|)
  {
    hide CutReason;
  }

  lemma PartSlices(text: string, a: nat, parts: seq<string>)
    requires parts != [] && a + |Concat(parts)| <= |text| && text[a..a + |Concat(parts)|] == Concat(parts)
    ensures a + |parts[0]| + |Concat(parts[1..])| <= |text|
    ensures text[a..a + |parts[0]|] == parts[0]
    ensures text[a + |parts[0]|..a + |parts[0]| + |Concat(parts[1..])|] == Concat(parts[1..])
  {
    var b := a + |Concat(parts)|;
    SliceOfSlice(text, a, b, 0, |parts[0]|);
    SliceOfSlice(text, a, b, |parts[0]|, b - a);
  }

  lemma OnePartRound(text: string, separators: seq<string>, chunkSize: int, k: nat, a: nat, x: string)
    requires k < |separators| && a + |x| <= |text| && text[a..a + |x|] == x && NotCutBy([x], separators[..k], chunkSize)
    ensures var head := CutOne(x, separators[k], chunkSize);
            && Reasons(text, separators, chunkSize, a, head) && Concat(head) == x
            && NotCutBy(head, separators[..k + 1], chunkSize)
  {
    var sep := separators[k];
    assert x in [x] && separators[..k + 1] == separators[..k] + [sep];
    if sep != "" && |x| > chunkSize {
      PieceReasons(text, separators, chunkSize, k, a, a + |x|, a);
      PiecesSpec(x, sep);
      forall p | p in Pieces(x, sep) && |p| > chunkSize ensures NoCut(p, separators[..k + 1]) {
        PartNoCut(x, p, separators[..k]);
        assert GoodPiece(x, sep, p);
      }
    } else {
      ConcatOne(x);
    }
  }

  /** A part above the budget of a text that separators do not cut is not cut by them either. */
  lemma PartNoCut(x: string, p: string, separators: seq<string>)
    requires NoCut(x, separators) && Occurs(x, p)
    ensures NoCut(p, separators)
  {
    forall s | s in separators && s != "" ensures !Occurs(p, s) || p == s {
      if Occurs(p, s) {
        OccursTrans(s, p, x);
        var i :| OccursAt(x, p, i);
        assert x == s && |p| <= |s|;
        var j :| OccursAt(p, s, j);
        assert j == 0 && p[0..|p|] == p;
      }
    }
  }

  lemma {:induction false} RoundsReasons(text: string, separators: seq<string>, chunkSize: int, k: nat, parts: seq<string>)
    requires k <= |separators| && Concat(parts) == text
    requires NotCutBy(parts, separators[..k], chunkSize)
    requires Reasons(text, separators, chunkSize, 0, parts)
    ensures Reasons(text, separators, chunkSize, 0, CutRounds(parts, separators[k..], chunkSize))
    decreases |separators| - k
  {
    hide NoCut, CutReason, Reasons, CutAll;
    if k < |separators| {
      assert text[0..0 + |Concat(parts)|] == Concat(parts);
      RoundReasons(text, separators, chunkSize, k, 0, parts);
      assert separators[k..][0] == separators[k] && separators[k..][1..] == separators[k + 1..];
      RoundsReasons(text, separators, chunkSize, k + 1, CutAll(parts, separators[k], chunkSize));
    }
  }

  /**
   * Every cut that separator splitting makes is at an occurrence of a separator, in a stretch
   * above the budget that no separator of higher priority cuts; a text within the budget is not cut.
   */
  lemma CutsHaveReasons(text: string, separators: seq<string>, chunkSize: int)
    requires text != "" && chunkSize >= 1
    ensures Reasons(text, separators, chunkSize, 0, SplitBy(text, separators, chunkSize))
    ensures |text| <= chunkSize ==> SplitBy(text, separators, chunkSize) == [text]
  {
    hide SplitBy;
    SplitByRounds(text, separators, chunkSize);
    ConcatOne(text);
    assert separators[0..] == separators;
    RoundsReasons(text, separators, chunkSize, 0, [text]);
    if |text| <= chunkSize {
      CutRoundsShort(text, separators, chunkSize);
    }
  }
}
